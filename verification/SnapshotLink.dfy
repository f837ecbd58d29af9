/**
 The Elytra halves above ESB: the right half repeats a snapshot until a transport ACK
 names it (boards/elytra/src/main.rs), the left half attaches that ACK to the radio ACK of
 a frame its event queue accepted (boards/elytra/src/bin/left_central.rs and the PRX
 callback in src/mpsl_timeslot.rs).

 Other devices may send on other pipes; pipe 1 is the right half's. An ACK reaches the
 right half only in the slot of the packet it answers.
 */
module SnapshotLink {
  import opened Wrappers
  import opened CodecModel

  const NUM_PIPES := 8
  const RIGHT_PIPE := 1
  const RIGHT_DEVICE: Byte := 0
  const SNAPSHOT_MSG: Byte := 0x53
  const SNAPSHOT_LEN := 6
  const RING_CAP := 32
  const EVENT_MAX := 32

  // ---- The event queue ----

  datatype Event = Event(pipe: nat, payload: seq<Byte>)

  /** `push_event`: a bounded FIFO that refuses what does not fit, whole. */
  function Push(ring: seq<Event>, pipe: nat, payload: seq<Byte>): (r: (seq<Event>, bool))
    ensures |ring| <= RING_CAP ==> |r.0| <= RING_CAP
  {
    if |payload| > EVENT_MAX || |ring| >= RING_CAP then (ring, false) else (ring + [Event(pipe, payload)], true)
  }

  /** Refused exactly if it is longer than 32 bytes or 32 events wait; then nothing changes. */
  lemma PushExactly(ring: seq<Event>, pipe: nat, payload: seq<Byte>)
    ensures var (r, ok) := Push(ring, pipe, payload);
            && (ok <==> |payload| <= 32 && |ring| < 32)
            && (ok ==> |r| == |ring| + 1 && r[..|ring|] == ring && r[|ring|] == Event(pipe, payload))
            && (!ok ==> r == ring)
  {
  }

  function Pop(ring: seq<Event>): (seq<Event>, Option<Event>) {
    if ring == [] then (ring, None) else (ring[1..], Some(ring[0]))
  }

  // ---- The left half ----

  /** `right_transport_ack_extension`. */
  function RightAck(pipe: nat, payload: seq<Byte>, queued: bool): seq<Byte> {
    if !queued || pipe != RIGHT_PIPE then []
    else
      match DecodeFrame(payload)
      case Err => []
      case Ok(m) => if m.header.deviceId != RIGHT_DEVICE then []
      else AckBytes(TransportAck(m.header.deviceId, m.header.sequence))
  }

  datatype Seen = Seen(pid: nat, crc: nat)

  /** A CRC is some function of pipe, PID and payload. */
  type Crc = (nat, nat, seq<Byte>) -> nat

  /** `queued` and `popped` are the history of the ring. */
  datatype Left = Left(ring: seq<Event>, seen: seq<Option<Seen>>, ext: seq<seq<Byte>>, queued: seq<Event>,
                       popped: seq<Event>)

  predicate LeftWf(l: Left) {
    |l.seen| == NUM_PIPES && |l.ext| == NUM_PIPES
  }

  predicate IsNew(l: Left, crc: Crc, pipe: nat, pid: nat, payload: seq<Byte>)
    requires LeftWf(l) && pipe < NUM_PIPES
  {
    l.seen[pipe] != Some(Seen(pid, crc(pipe, pid, payload)))
  }

  /** The PRX callback on a good packet; its first four bytes are the counter. */
  function Hears(l: Left, crc: Crc, pipe: nat, pid: nat, payload: seq<Byte>): (r: Left)
    requires LeftWf(l) && pipe < NUM_PIPES
    ensures LeftWf(r)
  {
    if !IsNew(l, crc, pipe, pid, payload) then l
    else
      var a := l.(seen := l.seen[pipe := Some(Seen(pid, crc(pipe, pid, payload)))]);
      if |payload| <= COUNTER_LEN then a
      else
        var app := payload[COUNTER_LEN..];
        var (ring, ok) := Push(l.ring, pipe, app);
        a.(ring := ring, ext := l.ext[pipe := RightAck(pipe, app, ok)],
        queued := if ok then l.queued + [Event(pipe, app)] else l.queued)
  }

  // ---- The right half ----

  /** The snapshot loop and its send session. `current` is the sequence number of the snapshot being sent. */
  datatype Right = Right(
    sequence: Byte, looping: bool, current: Byte, report: seq<Byte>, attempts: nat,
    pid: nat, txCount: nat, staged: bool, sent: bool, frame: seq<Byte>, flags: Byte,
    acked: bool, ext: Option<seq<Byte>>)

  /** The payload of the `count`-th send: the counter, then the frame. */
  function Counted(count: nat, frame: seq<Byte>): seq<Byte> {
    Le32(count % 0x1_0000_0000) + frame
  }

  /** The payload staged for the radio. */
  function Staged(r: Right): seq<Byte> {
    Counted(r.txCount, r.frame)
  }

  /** A transmission of the right half, as it was on the air. */
  datatype OnAir = OnAir(pid: nat, count: nat, frame: seq<Byte>)

  function Air(r: Right): OnAir {
    OnAir(r.pid, r.txCount, r.frame)
  }

  /** A transmission of the right half that the left half took as new. */
  datatype Handled = Handled(snapshot: nat, flags: Byte, frame: seq<Byte>, queued: bool, air: OnAir)

  /** The loop left snapshot `snapshot` because of an ACK for `air`, after `at` handled transmissions. */
  datatype Exit = Exit(snapshot: nat, at: nat, air: OnAir)

  datatype World = World(left: Left, right: Right, reports: seq<seq<Byte>>, handled: seq<Handled>, exits: seq<Exit>)

  /** MPSL refuses a request, if at all, before its slot: `RequestFails` comes before any `Transmit`. */
  datatype Action =
    | NewSnapshot(report: seq<Byte>)
    | Stage
    | RequestFails
    | Transmit(heard: bool, ackHeard: bool, prefix: seq<Byte>)
    | SlotEnds(reported: bool)
    | Superseded
    | LeftPops
    | OthersSend(pipe: nat, pid: nat, payload: seq<Byte>)

  function Start(): (w: World)
    ensures LeftWf(w.left)
  {
    World(Left([], [None, None, None, None, None, None, None, None], [[], [], [], [], [], [], [], []], [], []),
          Right(0, false, 0, [], 0, 0, 0, false, false, [], 0, false, None), [], [], [])
  }

  predicate IsSnapshot(report: seq<Byte>) {
    |report| == SNAPSHOT_LEN && report[0] == SNAPSHOT_MSG
  }

  /** `FLAG_RETRANSMIT` from the second attempt on. */
  function StageFrame(r: Right): Right
    requires |r.report| < 256
  {
    var flags: Byte := if r.attempts == 0 then 0 else 2;
    r.(staged := true, sent := false, flags := flags, frame := FrameBytes(RIGHT_DEVICE, r.current, flags, r.report),
    attempts := r.attempts + 1, acked := false, ext := None)
  }

  /** The record of the staged packet, if it is taken as new. */
  function NewlyHandled(w: World, queued: bool): Handled
    requires w.reports != []
  {
    Handled(|w.reports| - 1, w.right.flags, w.right.frame, queued, Air(w.right))
  }

  /** The staged packet goes out once; the left half may hear it, the right half may hear the ACK. */
  function OnTransmit(w: World, crc: Crc, heard: bool, ackHeard: bool, prefix: seq<Byte>): (r: World)
    requires LeftWf(w.left) && w.reports != []
    ensures LeftWf(r.left)
  {
    if !heard then w.(right := w.right.(sent := true))
    else
      var payload := Staged(w.right);
      var left := Hears(w.left, crc, RIGHT_PIPE, w.right.pid, payload);
      var isNew := IsNew(w.left, crc, RIGHT_PIPE, w.right.pid, payload);
      var ok := Push(w.left.ring, RIGHT_PIPE, w.right.frame).1;
      var ack := prefix + left.ext[RIGHT_PIPE];
      var ext := if |ack| > COUNTER_HINT_LEN then Some(Extension(ack)) else w.right.ext;
      w.(left := left,
      handled := if isNew then w.handled + [NewlyHandled(w, ok)] else w.handled,
      right := if ackHeard then w.right.(sent := true, acked := true, ext := ext) else w.right.(sent := true))
  }

  predicate Matches(r: Right) {
    r.ext.Some? && DecodeAck(r.ext.value) == Ok(TransportAck(RIGHT_DEVICE, r.current))
  }

  /** `send` returns; the loop ends if the radio ACK carried the transport ACK of this very sequence number. */
  function OnSlotEnds(w: World, reported: bool): World
    requires w.reports != []
  {
    var r := w.right;
    var ackOk := r.acked && reported;
    var next := r.(staged := false, acked := false, txCount := r.txCount + 1,
                pid := if ackOk then (r.pid + 1) % 4 else r.pid);
    if ackOk && Matches(r)
    then w.(right := next.(looping := false), exits := w.exits + [Exit(|w.reports| - 1, |w.handled|, Air(r))])
    else w.(right := next)
  }

  function Step(w: World, crc: Crc, a: Action): (r: World)
    requires LeftWf(w.left) && |w.right.report| < 256
    ensures LeftWf(r.left) && |r.right.report| < 256
  {
    var x := w.right;
    match a
    case NewSnapshot(report) =>
      if x.looping || !IsSnapshot(report) then w
      else w.(right := x.(looping := true, current := x.sequence, sequence := (x.sequence + 1) % 256, report := report,
           attempts := 0, staged := false, acked := false, ext := None),
           reports := w.reports + [report])
    case Stage => if x.looping && !x.staged then w.(right := StageFrame(x)) else w
    case RequestFails => if x.staged && !x.sent
    then w.(right := x.(staged := false, acked := false, ext := None)) else w
    case Transmit(heard, ackHeard, prefix) =>
      if x.staged && !x.acked && |prefix| == COUNTER_HINT_LEN && w.reports != []
      then OnTransmit(w, crc, heard, ackHeard, prefix) else w
    case SlotEnds(reported) => if x.staged && w.reports != [] then OnSlotEnds(w, reported) else w
    case Superseded => if x.looping && !x.staged then w.(right := x.(looping := false)) else w
    case LeftPops =>
      var (ring, event) := Pop(w.left.ring);
      if event.None? then w else w.(left := w.left.(ring := ring, popped := w.left.popped + [event.value]))
    case OthersSend(pipe, pid, payload) =>
      if pipe < NUM_PIPES && pipe != RIGHT_PIPE then w.(left := Hears(w.left, crc, pipe, pid, payload)) else w
  }

  function Run(w: World, crc: Crc, actions: seq<Action>): (r: World)
    requires LeftWf(w.left) && |w.right.report| < 256
    ensures LeftWf(r.left) && |r.right.report| < 256
    decreases |actions|
  {
    if actions == [] then w else Run(Step(w, crc, actions[0]), crc, actions[1..])
  }

  /** A whole run from power-up. */
  function Reached(crc: Crc, actions: seq<Action>): (r: World)
    ensures LeftWf(r.left)
  {
    Run(Start(), crc, actions)
  }

  // ---- What every reachable state satisfies ----

  ghost predicate RightInv(w: World) {
    var x := w.right;
    && x.sequence == |w.reports| % 256
    && (x.looping ==> w.reports != [] && x.current == (|w.reports| - 1) % 256 && x.report == w.reports[|w.reports| - 1])
    && (forall k | 0 <= k < |w.reports| :: IsSnapshot(w.reports[k]))
    && (x.staged ==> x.looping && x.attempts > 0 && x.flags == (if x.attempts == 1 then 0 else 2))
    && (x.staged ==> x.flags < 4 && x.frame == FrameBytes(RIGHT_DEVICE, x.current, x.flags, x.report))
    && (x.acked ==> x.staged)
    && (x.staged && !x.acked ==> x.ext.None?)
  }

  /** Every handled transmission is a frame of its snapshot, in snapshot order, and queued if it says so. */
  ghost predicate HandledInv(handled: seq<Handled>, reports: seq<seq<Byte>>, queued: seq<Event>) {
    && (forall k | 0 <= k < |handled| ::
          var h := handled[k];
          && h.snapshot < |reports| && |reports[h.snapshot]| < 256 && h.flags < 4
          && h.frame == FrameBytes(RIGHT_DEVICE, h.snapshot % 256, h.flags, reports[h.snapshot])
          && (h.queued ==> Event(RIGHT_PIPE, h.frame) in queued))
    && (forall i, k | 0 <= i < k < |handled| :: handled[i].snapshot <= handled[k].snapshot)
  }

  /** The left half answers on pipe 1 for the last frame it took as new, and the right half heard no other answer. */
  ghost predicate AnswerInv(w: World) {
    && LeftWf(w.left)
    && w.left.ext[RIGHT_PIPE] == (
                                   if w.handled == [] then []
                                   else var h := w.handled[|w.handled| - 1]; RightAck(RIGHT_PIPE, h.frame, h.queued))
    && (w.right.acked && w.right.ext.Some? ==> w.right.ext.value == w.left.ext[RIGHT_PIPE])
  }

  ghost predicate RingInv(l: Left) {
    l.popped + l.ring == l.queued && |l.ring| <= RING_CAP
  }

  ghost predicate ExitOk(e: Exit, handled: seq<Handled>) {
    && 0 < e.at <= |handled|
    && var h := handled[e.at - 1];
    h.queued && h.snapshot <= e.snapshot && h.snapshot % 256 == e.snapshot % 256
  }

  ghost predicate Inv(w: World) {
    && RightInv(w) && HandledInv(w.handled, w.reports, w.left.queued) && AnswerInv(w) && RingInv(w.left)
    && forall k | 0 <= k < |w.exits| :: ExitOk(w.exits[k], w.handled)
  }

  /** The transport ACK of a frame of snapshot `m` names `m` modulo 256, and there is one only if it was queued. */
  lemma AckNamesFrame(flags: Byte, report: seq<Byte>, sequence: Byte, queued: bool)
    requires |report| < 256 && flags < 4
    ensures RightAck(RIGHT_PIPE, FrameBytes(RIGHT_DEVICE, sequence, flags, report), queued) ==
            if queued then AckBytes(TransportAck(RIGHT_DEVICE, sequence)) else []
  {
    var f := FrameBytes(RIGHT_DEVICE, sequence, flags, report);
    FrameRoundTrip(RIGHT_DEVICE, sequence, flags, report, []);
    assert f + [] == f;
  }

  lemma ExtensionOf(prefix: seq<Byte>, ext: seq<Byte>)
    requires |prefix| == COUNTER_HINT_LEN
    ensures Extension(prefix + ext) == ext
  {
    assert (prefix + ext)[COUNTER_HINT_LEN..] == ext;
  }

  /** When the loop exits, the last frame taken as new was queued and carries this sequence number. */
  lemma ExitMeans(w: World)
    requires Inv(w) && w.right.staged && w.right.acked && Matches(w.right)
    ensures w.handled != [] && ExitOk(Exit(|w.reports| - 1, |w.handled|, Air(w.right)), w.handled)
  {
    var ext := w.left.ext[RIGHT_PIPE];
    assert ext != [];
    var h := w.handled[|w.handled| - 1];
    AckNamesFrame(h.flags, w.reports[h.snapshot], h.snapshot % 256, h.queued);
    AckRoundTrip(TransportAck(RIGHT_DEVICE, h.snapshot % 256), []);
    assert AckBytes(TransportAck(RIGHT_DEVICE, h.snapshot % 256)) + [] ==
           AckBytes(TransportAck(RIGHT_DEVICE, h.snapshot % 256));
  }

  lemma QueuedMore(handled: seq<Handled>, reports: seq<seq<Byte>>, queued: seq<Event>, more: seq<seq<Byte>>,
                   after: seq<Event>)
    requires HandledInv(handled, reports, queued) && reports <= more && queued <= after
    ensures HandledInv(handled, more, after)
  {
    forall e: Event | e in queued
      ensures e in after
    {
      var k :| 0 <= k < |queued| && queued[k] == e;
      assert after[k] == e;
    }
  }

  lemma OthersKeepInv(w: World, crc: Crc, pipe: nat, pid: nat, payload: seq<Byte>)
    requires Inv(w) && pipe < NUM_PIPES && pipe != RIGHT_PIPE
    ensures Inv(w.(left := Hears(w.left, crc, pipe, pid, payload)))
  {
    assert LeftWf(w.left);
    hide HandledInv, RightInv, AnswerInv, Hears, RingInv, ExitOk;
    HearsElsewhere(w.left, crc, pipe, pid, payload);
    AnswerElsewhere(w, Hears(w.left, crc, pipe, pid, payload));
    RightElsewhere(w, Hears(w.left, crc, pipe, pid, payload));
    HearsRing(w.left, crc, pipe, pid, payload);
    QueuedMore(w.handled, w.reports, w.left.queued, w.reports, Hears(w.left, crc, pipe, pid, payload).queued);
  }

  lemma AnswerElsewhere(w: World, l: Left)
    requires AnswerInv(w) && LeftWf(l) && l.ext[RIGHT_PIPE] == w.left.ext[RIGHT_PIPE]
    ensures AnswerInv(w.(left := l))
  {
    hide RightAck;
  }

  lemma RightElsewhere(w: World, l: Left)
    requires RightInv(w)
    ensures RightInv(w.(left := l))
  {
    hide IsSnapshot, FrameBytes;
  }

  lemma HearsElsewhere(l: Left, crc: Crc, pipe: nat, pid: nat, payload: seq<Byte>)
    requires LeftWf(l) && pipe < NUM_PIPES && pipe != RIGHT_PIPE
    ensures var r := Hears(l, crc, pipe, pid, payload);
            r.ext[RIGHT_PIPE] == l.ext[RIGHT_PIPE] && l.queued <= r.queued
  {
    hide RightAck;
  }

  lemma HearsRing(l: Left, crc: Crc, pipe: nat, pid: nat, payload: seq<Byte>)
    requires LeftWf(l) && RingInv(l) && pipe < NUM_PIPES
    ensures RingInv(Hears(l, crc, pipe, pid, payload))
  {
    hide RightAck, DecodeFrame;
    assert forall e: Event :: l.popped + (l.ring + [e]) == (l.popped + l.ring) + [e];
  }

  lemma TransmitAnswers(w: World, crc: Crc, ackHeard: bool, prefix: seq<Byte>)
    requires AnswerInv(w) && RightInv(w) && w.right.staged && !w.right.acked && |prefix| == COUNTER_HINT_LEN
    requires w.reports != []
    requires Staged(w.right)[COUNTER_LEN..] == w.right.frame && |w.right.frame| > 0
    ensures AnswerInv(OnTransmit(w, crc, true, ackHeard, prefix))
  {
    ExtensionOf(prefix, OnTransmit(w, crc, true, ackHeard, prefix).left.ext[RIGHT_PIPE]);
    hide RightAck, FrameBytes, DecodeFrame, Le32, Extension;
  }

  lemma HandledAppend(handled: seq<Handled>, reports: seq<seq<Byte>>, queued: seq<Event>, h: Handled)
    requires HandledInv(handled, reports, queued)
    requires h.snapshot == |reports| - 1 && |reports[h.snapshot]| < 256 && h.flags < 4
    requires h.frame == FrameBytes(RIGHT_DEVICE, h.snapshot % 256, h.flags, reports[h.snapshot])
    requires h.queued ==> Event(RIGHT_PIPE, h.frame) in queued
    ensures HandledInv(handled + [h], reports, queued)
  {
    hide FrameBytes;
  }

  /** The record of a transmission taken as new describes the staged frame. */
  lemma StagedHandled(w: World, ok: bool, queued: seq<Event>)
    requires RightInv(w) && w.right.staged && w.reports != [] && HandledInv(w.handled, w.reports, queued)
    requires ok ==> Event(RIGHT_PIPE, w.right.frame) in queued
    ensures HandledInv(w.handled + [NewlyHandled(w, ok)], w.reports, queued)
  {
    hide HandledInv, FrameBytes;
    assert IsSnapshot(w.reports[|w.reports| - 1]);
    HandledAppend(w.handled, w.reports, queued, NewlyHandled(w, ok));
  }

  /** A frame taken as new is queued exactly when the ring has room for it. */
  lemma HearsQueues(l: Left, crc: Crc, pipe: nat, pid: nat, payload: seq<Byte>)
    requires LeftWf(l) && pipe < NUM_PIPES && |payload| > COUNTER_LEN
    ensures var r := Hears(l, crc, pipe, pid, payload);
            && l.queued <= r.queued
            && (IsNew(l, crc, pipe, pid, payload) && Push(l.ring, pipe, payload[COUNTER_LEN..]).1 ==>
                  Event(pipe, payload[COUNTER_LEN..]) in r.queued)
  {
    hide RightAck;
    assert [Event(pipe, payload[COUNTER_LEN..])][0] in l.queued + [Event(pipe, payload[COUNTER_LEN..])];
  }

  lemma ExitsStay(exits: seq<Exit>, handled: seq<Handled>, more: seq<Handled>)
    requires handled <= more && forall k | 0 <= k < |exits| :: ExitOk(exits[k], handled)
    ensures forall k | 0 <= k < |exits| :: ExitOk(exits[k], more)
  {
  }

  lemma StagedFrame(w: World)
    requires RightInv(w) && w.right.staged
    ensures Staged(w.right)[COUNTER_LEN..] == w.right.frame && |w.right.frame| > 0
  {
  }

  lemma TransmitRight(w: World, crc: Crc, ackHeard: bool, prefix: seq<Byte>)
    requires RightInv(w) && LeftWf(w.left) && w.right.staged && w.reports != []
    ensures RightInv(OnTransmit(w, crc, true, ackHeard, prefix))
  {
    hide Hears, IsNew, Push, Extension, FrameBytes, IsSnapshot;
  }

  /** A transmission heard as new is the newest handled frame, and decides what pipe 1 answers. */
  lemma TransmitKeepsInv(w: World, crc: Crc, ackHeard: bool, prefix: seq<Byte>)
    requires Inv(w) && w.right.staged && !w.right.acked && |prefix| == COUNTER_HINT_LEN && w.reports != []
    ensures Inv(OnTransmit(w, crc, true, ackHeard, prefix))
  {
    assert LeftWf(w.left);
    hide RightInv, HandledInv, AnswerInv, RingInv, ExitOk, RightAck, FrameBytes, Hears, IsNew, Staged, Push, Extension;
    var r := OnTransmit(w, crc, true, ackHeard, prefix);
    var payload := Staged(w.right);
    StagedFrame(w);
    TransmitRight(w, crc, ackHeard, prefix);
    TransmitAnswers(w, crc, ackHeard, prefix);
    HearsRing(w.left, crc, RIGHT_PIPE, w.right.pid, payload);
    HearsQueues(w.left, crc, RIGHT_PIPE, w.right.pid, payload);
    QueuedMore(w.handled, w.reports, w.left.queued, w.reports, r.left.queued);
    if IsNew(w.left, crc, RIGHT_PIPE, w.right.pid, payload) {
      StagedHandled(w, Push(w.left.ring, RIGHT_PIPE, w.right.frame).1, r.left.queued);
    }
    ExitsStay(w.exits, w.handled, r.handled);
  }

  /** The steps of the right half between transmissions. */
  lemma LoopStepKeepsInv(w: World, crc: Crc, a: Action)
    requires Inv(w) && |w.right.report| < 256
    requires a.Stage? || a.RequestFails? || a.Superseded? || a.LeftPops?
    ensures Inv(Step(w, crc, a))
  {
    hide RightAck, FrameBytes, HandledInv, ExitOk;
  }

  lemma NextSequence(n: nat)
    ensures (n % 256 + 1) % 256 == (n + 1) % 256
  {
  }

  lemma NewSnapshotRight(w: World, crc: Crc, report: seq<Byte>)
    requires RightInv(w) && LeftWf(w.left) && |w.right.report| < 256
    ensures RightInv(Step(w, crc, NewSnapshot(report)))
  {
    hide FrameBytes, OnTransmit, OnSlotEnds, Hears;
    NextSequence(|w.reports|);
  }

  lemma NewSnapshotKeepsInv(w: World, crc: Crc, report: seq<Byte>)
    requires Inv(w) && |w.right.report| < 256
    ensures Inv(Step(w, crc, NewSnapshot(report)))
  {
    assert LeftWf(w.left);
    hide RightInv, HandledInv, RingInv, ExitOk, RightAck, FrameBytes, OnTransmit, OnSlotEnds, Hears;
    NewSnapshotRight(w, crc, report);
    QueuedMore(w.handled, w.reports, w.left.queued, w.reports + [report], w.left.queued);
  }

  lemma SlotEndsKeepsInv(w: World, crc: Crc, reported: bool)
    requires Inv(w) && |w.right.report| < 256
    ensures Inv(Step(w, crc, SlotEnds(reported)))
  {
    hide RightAck, FrameBytes, HandledInv, ExitOk, RingInv, DecodeAck;
    hide Matches, Hears, OnTransmit, StageFrame, IsSnapshot;
    if w.right.staged && w.right.acked && Matches(w.right) {
      ExitMeans(w);
    }
  }

  lemma StepKeepsInv(w: World, crc: Crc, a: Action)
    requires Inv(w) && |w.right.report| < 256
    ensures Inv(Step(w, crc, a))
  {
    assert LeftWf(w.left);
    hide Inv, OnTransmit, Hears, OnSlotEnds;
    match a
    case NewSnapshot(report) => NewSnapshotKeepsInv(w, crc, report);
    case Transmit(heard, ackHeard, prefix) =>
      if heard && w.right.staged && !w.right.acked && |prefix| == COUNTER_HINT_LEN && w.reports != [] {
        TransmitKeepsInv(w, crc, ackHeard, prefix);
      } else {
        NothingHeard(w, crc, a);
      }
    case SlotEnds(reported) => SlotEndsKeepsInv(w, crc, reported);
    case OthersSend(pipe, pid, payload) =>
      if pipe < NUM_PIPES && pipe != RIGHT_PIPE {
        OthersKeepInv(w, crc, pipe, pid, payload);
      }
    case _ => LoopStepKeepsInv(w, crc, a);
  }

  /** The only trace of a packet nobody heard is that it was sent. */
  lemma NothingHeard(w: World, crc: Crc, a: Action)
    requires LeftWf(w.left) && |w.right.report| < 256 && a.Transmit?
    requires !(a.heard && w.right.staged && !w.right.acked && |a.prefix| == COUNTER_HINT_LEN && w.reports != [])
    ensures Step(w, crc, a) == w || Step(w, crc, a) == w.(right := w.right.(sent := true))
    ensures Inv(w) ==> Inv(w.(right := w.right.(sent := true)))
  {
    hide HandledInv, ExitOk, RightAck, FrameBytes, RingInv, Hears;
  }

  lemma {:induction false} RunKeepsInv(w: World, crc: Crc, actions: seq<Action>)
    requires Inv(w) && |w.right.report| < 256
    ensures Inv(Run(w, crc, actions))
    decreases |actions|
  {
    if actions != [] {
      StepKeepsInv(w, crc, actions[0]);
      hide Inv, Step;
      RunKeepsInv(Step(w, crc, actions[0]), crc, actions[1..]);
    }
  }

  lemma StartInv()
    ensures Inv(Start()) && |Start().right.report| < 256
  {
  }

  lemma ReachedInv(crc: Crc, actions: seq<Action>)
    ensures Inv(Reached(crc, actions))
  {
    StartInv();
    hide Inv, Start;
    RunKeepsInv(Start(), crc, actions);
  }

  // ---- The promises ----

  /**
   Transport ACK implies queued: whenever the loop left a snapshot because of an ACK, the
   left half's queue had accepted a frame of the right half with that sequence number;
   it was the last frame taken as new, and it is a frame of that snapshot or of one a
   multiple of 256 snapshots earlier.
   */
  lemma TransportAckImpliesQueued(crc: Crc, actions: seq<Action>, k: nat)
    requires k < |Reached(crc, actions).exits|
    ensures var w := Reached(crc, actions);
            var e := w.exits[k];
            && 0 < e.at <= |w.handled|
            && var h := w.handled[e.at - 1];
            && h.queued && Event(RIGHT_PIPE, h.frame) in w.left.queued
            && h.snapshot <= e.snapshot && h.snapshot % 256 == e.snapshot % 256 && h.snapshot < |w.reports|
            && DecodeFrame(h.frame) ==
               Ok(Message(Header(RIGHT_DEVICE, e.snapshot % 256, h.flags, SNAPSHOT_LEN), w.reports[h.snapshot]))
  {
    ReachedInv(crc, actions);
    var w := Reached(crc, actions);
    hide Reached;
    var e := w.exits[k];
    assert ExitOk(e, w.handled);
    var h := w.handled[e.at - 1];
    FrameRoundTrip(RIGHT_DEVICE, h.snapshot % 256, h.flags, w.reports[h.snapshot], []);
    assert h.frame + [] == h.frame;
    assert IsSnapshot(w.reports[h.snapshot]);
  }

  /** It is this very snapshot exactly when the left half had taken any frame of it as new. */
  lemma AckedSnapshotIsThisOne(crc: Crc, actions: seq<Action>, k: nat)
    requires k < |Reached(crc, actions).exits|
    ensures var w := Reached(crc, actions);
            var e := w.exits[k];
            && 0 < e.at <= |w.handled|
            && (w.handled[e.at - 1].snapshot == e.snapshot <==>
                exists i :: 0 <= i < e.at && w.handled[i].snapshot == e.snapshot)
  {
    ReachedInv(crc, actions);
    var w := Reached(crc, actions);
    hide Reached;
    var e := w.exits[k];
    assert ExitOk(e, w.handled);
    if w.handled[e.at - 1].snapshot == e.snapshot {
      assert 0 <= e.at - 1 < e.at;
    }
    hide RightInv, AnswerInv, RingInv;
  }

  /** What is staged is a frame of the newest snapshot; from its second attempt on it is marked as a repetition. */
  lemma StagedDecodes(crc: Crc, actions: seq<Action>)
    requires Reached(crc, actions).right.staged
    ensures var w := Reached(crc, actions);
            var r := w.right;
            && w.reports != [] && r.attempts > 0
            && DecodeFrame(r.frame) ==
               Ok(Message(Header(RIGHT_DEVICE, (|w.reports| - 1) % 256, if r.attempts == 1 then 0 else 2, SNAPSHOT_LEN),
                          w.reports[|w.reports| - 1]))
  {
    ReachedInv(crc, actions);
    var w := Reached(crc, actions);
    hide Reached, HandledInv, AnswerInv, RingInv;
    assert IsSnapshot(w.reports[|w.reports| - 1]);
    FrameRoundTrip(RIGHT_DEVICE, w.right.current, w.right.flags, w.right.report, []);
    assert w.right.frame + [] == w.right.frame;
  }

  /** What the application popped is what was queued, in order. */
  lemma PoppedInOrder(crc: Crc, actions: seq<Action>)
    ensures var l := Reached(crc, actions).left;
            l.popped + l.ring == l.queued && |l.ring| <= RING_CAP
  {
    ReachedInv(crc, actions);
    hide Reached, RightInv, HandledInv, AnswerInv;
  }
}
