/**
 When the right half leaves a snapshot that the left half never took: exactly what the
 duplicate filter of pipe 1 (src/mpsl_timeslot.rs) must have confused for that, and a run
 in which it does.
 */
module SnapshotCollision {
  import opened Wrappers
  import opened CodecModel
  import opened SnapshotLink

  const COUNTS := 0x1_0000_0000

  /** What the filter remembers of a transmission. */
  function Remembered(crc: Crc, a: OnAir): Seen {
    Seen.Seen(a.pid, crc(RIGHT_PIPE, a.pid, Counted(a.count, a.frame)))
  }

  function Last(handled: seq<Handled>): OnAir
    requires handled != []
  {
    handled[|handled| - 1].air
  }

  /** Counts tell transmissions apart: whatever was taken earlier has a smaller one, except the packet on the air. */
  ghost predicate CountInv(handled: seq<Handled>, reports: seq<seq<Byte>>, r: Right) {
    forall k | 0 <= k < |handled| ::
      && handled[k].air.frame == handled[k].frame && handled[k].air.count <= r.txCount
      && (handled[k].air.count == r.txCount ==> r.staged && r.sent && handled[k].snapshot == |reports| - 1)
  }

  /** The filter's entry for pipe 1 is the last transmission taken as new; an ACK heard means it matched. */
  ghost predicate FilterInv(w: World, crc: Crc) {
    && LeftWf(w.left)
    && w.left.seen[RIGHT_PIPE] == (if w.handled == [] then None else Some(Remembered(crc, Last(w.handled))))
    && (w.right.acked ==> w.handled != [] && Remembered(crc, Air(w.right)) == Remembered(crc, Last(w.handled)))
  }

  /** `frame` is a frame of snapshot `n`. */
  ghost predicate FrameOf(frame: seq<Byte>, n: nat, reports: seq<seq<Byte>>) {
    && n < |reports| && |reports[n]| < 256
    && exists flags: Byte :: flags < 4 && frame == FrameBytes(RIGHT_DEVICE, n % 256, flags, reports[n])
  }

  ghost predicate ExitSeen(e: Exit, handled: seq<Handled>, reports: seq<seq<Byte>>, crc: Crc) {
    && 0 < e.at <= |handled| && FrameOf(e.air.frame, e.snapshot, reports)
    && var h := handled[e.at - 1];
    && Remembered(crc, h.air) == Remembered(crc, e.air)
    && (h.snapshot != e.snapshot ==> h.air.count < e.air.count)
  }

  ghost predicate SeenInv(w: World, crc: Crc) {
    && CountInv(w.handled, w.reports, w.right) && FilterInv(w, crc)
    && forall k | 0 <= k < |w.exits| :: ExitSeen(w.exits[k], w.handled, w.reports, crc)
  }

  lemma ExitsStaySeen(exits: seq<Exit>, handled: seq<Handled>, reports: seq<seq<Byte>>, crc: Crc,
                      more: seq<Handled>, later: seq<seq<Byte>>)
    requires handled <= more && reports <= later
    requires forall k | 0 <= k < |exits| :: ExitSeen(exits[k], handled, reports, crc)
    ensures forall k | 0 <= k < |exits| :: ExitSeen(exits[k], more, later, crc)
  {
    hide FrameBytes, Remembered;
  }

  /** Hearing on pipe 1 updates its entry, on another pipe leaves it. */
  lemma HearsSeen(l: Left, crc: Crc, pipe: nat, pid: nat, payload: seq<Byte>)
    requires LeftWf(l) && pipe < NUM_PIPES
    ensures Hears(l, crc, pipe, pid, payload).seen[RIGHT_PIPE] ==
            if pipe == RIGHT_PIPE then Some(Seen.Seen(pid, crc(pipe, pid, payload))) else l.seen[RIGHT_PIPE]
  {
    hide Push, RightAck;
  }

  lemma TransmitFilter(w: World, crc: Crc, ackHeard: bool, prefix: seq<Byte>)
    requires FilterInv(w, crc) && w.right.staged && !w.right.acked && w.reports != []
    ensures FilterInv(OnTransmit(w, crc, true, ackHeard, prefix), crc)
  {
    HearsSeen(w.left, crc, RIGHT_PIPE, w.right.pid, Staged(w.right));
    hide Hears, Push, Extension, Le32;
  }

  lemma TransmitSeen(w: World, crc: Crc, ackHeard: bool, prefix: seq<Byte>)
    requires SeenInv(w, crc) && RightInv(w) && w.right.staged && !w.right.acked && w.reports != []
    ensures SeenInv(OnTransmit(w, crc, true, ackHeard, prefix), crc)
  {
    TransmitFilter(w, crc, ackHeard, prefix);
    hide FilterInv, Hears, Push, Extension, Counted, ExitSeen, IsNew;
    ExitsStaySeen(w.exits, w.handled, w.reports, crc, OnTransmit(w, crc, true, ackHeard, prefix).handled, w.reports);
  }

  lemma SlotEndsSeen(w: World, crc: Crc, reported: bool)
    requires SeenInv(w, crc) && RightInv(w) && |w.right.report| < 256
    ensures SeenInv(Step(w, crc, SlotEnds(reported)), crc)
  {
    hide Hears, Push, Counted, FrameBytes, Matches;
  }

  lemma OtherStepSeen(w: World, crc: Crc, a: Action)
    requires SeenInv(w, crc) && RightInv(w) && LeftWf(w.left) && |w.right.report| < 256
    requires !a.SlotEnds? && !(a.Transmit? && a.heard)
    ensures SeenInv(Step(w, crc, a), crc)
  {
    hide Push, Counted, FrameBytes, Matches, Hears;
    if a.OthersSend? && a.pipe < NUM_PIPES {
      HearsSeen(w.left, crc, a.pipe, a.pid, a.payload);
    } else if a.NewSnapshot? {
      ExitsStaySeen(w.exits, w.handled, w.reports, crc, w.handled, w.reports + [a.report]);
    }
    hide ExitSeen, Remembered;
  }

  lemma StepSeen(w: World, crc: Crc, a: Action)
    requires SeenInv(w, crc) && RightInv(w) && |w.right.report| < 256
    ensures SeenInv(Step(w, crc, a), crc)
  {
    assert LeftWf(w.left);
    hide SeenInv, RightInv, OnTransmit, Hears, OnSlotEnds;
    if a.Transmit? && a.heard {
      if w.right.staged && !w.right.acked && |a.prefix| == COUNTER_HINT_LEN && w.reports != [] {
        TransmitSeen(w, crc, a.ackHeard, a.prefix);
      }
    } else if a.SlotEnds? {
      SlotEndsSeen(w, crc, a.reported);
    } else {
      OtherStepSeen(w, crc, a);
    }
  }

  lemma {:induction false} RunSeen(w: World, crc: Crc, actions: seq<Action>)
    requires Inv(w) && SeenInv(w, crc) && |w.right.report| < 256
    ensures SeenInv(Run(w, crc, actions), crc)
    decreases |actions|
  {
    if actions != [] {
      StepKeepsInv(w, crc, actions[0]);
      StepSeen(w, crc, actions[0]);
      hide SeenInv, Step, RightInv, HandledInv, AnswerInv, RingInv, ExitOk;
      RunSeen(Step(w, crc, actions[0]), crc, actions[1..]);
    }
  }

  lemma ReachedSeen(crc: Crc, actions: seq<Action>)
    ensures Inv(Reached(crc, actions)) && SeenInv(Reached(crc, actions), crc)
  {
    hide Inv, SeenInv, Start, Run;
    ReachedInv(crc, actions);
    StartInv();
    StartSeen(crc);
    RunSeen(Start(), crc, actions);
  }

  lemma StartSeen(crc: Crc)
    ensures SeenInv(Start(), crc)
  {
  }

  /** Equal payloads have counts that differ by a multiple of 2^32. */
  lemma PayloadCounts(a: OnAir, b: OnAir)
    requires a.count < b.count && Counted(a.count, a.frame) == Counted(b.count, b.frame)
    ensures a.count % COUNTS == b.count % COUNTS && b.count >= a.count + COUNTS
  {
    var m := a.count % COUNTS;
    var n := b.count % COUNTS;
    Le32RoundTrip(m);
    Le32RoundTrip(n);
    assert Counted(a.count, a.frame)[..4] == Le32(m) && Counted(b.count, b.frame)[..4] == Le32(n);
    hide Le32, FromLe32, Counted;
    Congruent(a.count, b.count);
  }

  lemma Congruent(a: nat, b: nat)
    requires a < b && a % COUNTS == b % COUNTS
    ensures b >= a + COUNTS
  {
  }

  /**
   An exit from a snapshot the left half never took needs a collision: two transmissions
   on pipe 1 with the same PID and the same CRC, one of this snapshot and an earlier one
   of the snapshot that was taken last, whose payloads differ unless 2^32 sends lie
   between them.
   */
  lemma UntakenExitMeansCollision(crc: Crc, actions: seq<Action>, k: nat)
    requires k < |Reached(crc, actions).exits|
    ensures var w := Reached(crc, actions);
            var e := w.exits[k];
            && 0 < e.at <= |w.handled| && FrameOf(e.air.frame, e.snapshot, w.reports)
            && var h := w.handled[e.at - 1];
            && h.air.frame == h.frame && h.air.pid == e.air.pid
            && crc(RIGHT_PIPE, h.air.pid, Counted(h.air.count, h.frame)) ==
               crc(RIGHT_PIPE, e.air.pid, Counted(e.air.count, e.air.frame))
            && (h.snapshot != e.snapshot ==>
                  && h.air.count < e.air.count
                  && (Counted(h.air.count, h.frame) != Counted(e.air.count, e.air.frame)
                      || e.air.count >= h.air.count + COUNTS))
  {
    ReachedSeen(crc, actions);
    var w := Reached(crc, actions);
    hide Reached, Inv, FilterInv, FrameOf, Counted;
    var e := w.exits[k];
    assert ExitSeen(e, w.handled, w.reports, crc);
    var h := w.handled[e.at - 1];
    if h.snapshot != e.snapshot && Counted(h.air.count, h.frame) == Counted(e.air.count, e.air.frame) {
      PayloadCounts(h.air, e.air);
    }
  }

  // ---- A run with a collision ----

  /** A snapshot whose one attempt may be heard, but whose ACK never is; then a newer one replaces it. */
  function Unanswered(report: seq<Byte>, heard: bool, prefix: seq<Byte>): seq<Action> {
    [NewSnapshot(report), Stage, Transmit(heard, false, prefix), SlotEnds(true), Superseded]
  }

  function Unheard(report: seq<Byte>, n: nat, prefix: seq<Byte>): seq<Action> {
    if n == 0 then [] else Unheard(report, n - 1, prefix) + Unanswered(report, false, prefix)
  }

  function Answered(report: seq<Byte>, prefix: seq<Byte>): seq<Action> {
    [NewSnapshot(report), Stage, Transmit(true, true, prefix), SlotEnds(true)]
  }

  /** The first snapshot is taken, its ACK lost; the next 255 are not heard; the last one is heard and answered. */
  function CollidingRun(first: seq<Byte>, between: seq<Byte>, last: seq<Byte>, prefix: seq<Byte>): seq<Action> {
    Unanswered(first, true, prefix) + Unheard(between, 255, prefix) + Answered(last, prefix)
  }

  /** Between snapshots, after `n` sends of which none was acknowledged. */
  ghost predicate Resting(w: World, n: nat) {
    && LeftWf(w.left) && |w.right.report| < 256 && |w.reports| == n && w.right.sequence == n % 256
    && !w.right.looping && !w.right.staged && w.right.pid == 0 && w.right.txCount == n
  }

  lemma RunFive(w: World, crc: Crc, s: seq<Action>)
    requires LeftWf(w.left) && |w.right.report| < 256 && |s| == 5
    ensures Run(w, crc, s) == Step(Run(w, crc, s[..4]), crc, s[4])
    ensures Run(w, crc, s[..4]) == Step(Step(Step(Step(w, crc, s[0]), crc, s[1]), crc, s[2]), crc, s[3])
  {
    hide Step;
    RunAppend(w, crc, s[..4], [s[4]]);
    assert s[..4] + [s[4]] == s;
    RunFour(w, crc, s[..4]);
    RunOne(Run(w, crc, s[..4]), crc, s[4]);
  }

  lemma RunOne(w: World, crc: Crc, a: Action)
    requires LeftWf(w.left) && |w.right.report| < 256
    ensures Run(w, crc, [a]) == Step(w, crc, a)
  {
    hide Step;
    assert [a][1..] == [];
  }

  lemma RunFour(w: World, crc: Crc, s: seq<Action>)
    requires LeftWf(w.left) && |w.right.report| < 256 && |s| == 4
    ensures Run(w, crc, s) == Step(Step(Step(Step(w, crc, s[0]), crc, s[1]), crc, s[2]), crc, s[3])
  {
    hide Step;
    var w1 := Step(w, crc, s[0]);
    var w2 := Step(w1, crc, s[1]);
    var w3 := Step(w2, crc, s[2]);
    assert s[1..][1..] == s[2..] && s[2..][1..] == [s[3]];
    assert Run(w, crc, s) == Run(w1, crc, s[1..]) == Run(w2, crc, s[2..]) == Run(w3, crc, [s[3]]);
    RunOne(w3, crc, s[3]);
  }

  lemma {:induction false} RunAppend(w: World, crc: Crc, a: seq<Action>, b: seq<Action>)
    requires LeftWf(w.left) && |w.right.report| < 256
    ensures Run(w, crc, a + b) == Run(Run(w, crc, a), crc, b)
    decreases |a|
  {
    hide Step;
    if a == [] {
      assert a + b == b;
    } else {
      assert (a + b)[1..] == a[1..] + b;
      RunAppend(Step(w, crc, a[0]), crc, a[1..], b);
    }
  }

  /** The right half after one attempt at a snapshot. */
  lemma AttemptUnanswered(w: World, crc: Crc, n: nat, report: seq<Byte>, heard: bool, prefix: seq<Byte>)
    requires Resting(w, n) && IsSnapshot(report) && |prefix| == COUNTER_HINT_LEN
    ensures var r := Run(w, crc, Unanswered(report, heard, prefix));
            var frame := FrameBytes(RIGHT_DEVICE, n % 256, 0, report);
            && Resting(r, n + 1) && r.exits == w.exits
            && r.left == (if heard then Hears(w.left, crc, RIGHT_PIPE, 0, Counted(n, frame)) else w.left)
            && (!heard ==> r.handled == w.handled)
            && (heard && IsNew(w.left, crc, RIGHT_PIPE, 0, Counted(n, frame)) ==>
                  |r.handled| == |w.handled| + 1 && r.handled[|w.handled|].snapshot == n)
  {
    RunFive(w, crc, Unanswered(report, heard, prefix));
    NextSequence(n);
    hide Hears, Push, Extension, FrameBytes, Counted, IsNew, Run;
  }

  lemma {:induction false} StaysResting(w: World, crc: Crc, n: nat, report: seq<Byte>, k: nat, prefix: seq<Byte>)
    requires Resting(w, n) && IsSnapshot(report) && |prefix| == COUNTER_HINT_LEN
    ensures var r := Run(w, crc, Unheard(report, k, prefix));
            Resting(r, n + k) && r.exits == w.exits && r.left == w.left && r.handled == w.handled
  {
    if k > 0 {
      assert LeftWf(w.left) && |w.right.report| < 256;
      StaysResting(w, crc, n, report, k - 1, prefix);
      hide Run, Resting, FrameBytes, Unanswered, Hears, IsNew, IsSnapshot, Counted;
      var more := Unheard(report, k - 1, prefix);
      RunAppend(w, crc, more, Unanswered(report, false, prefix));
      AttemptUnanswered(Run(w, crc, more), crc, n + k - 1, report, false, prefix);
    }
  }

  /** A last attempt that is heard and answered ends the snapshot if the answer names its number. */
  lemma LastAnswered(w: World, crc: Crc, n: nat, report: seq<Byte>, prefix: seq<Byte>)
    requires Resting(w, n) && IsSnapshot(report) && |prefix| == COUNTER_HINT_LEN
    ensures var r := Run(w, crc, Answered(report, prefix));
            var payload := Counted(n, FrameBytes(RIGHT_DEVICE, n % 256, 0, report));
            && r.left == Hears(w.left, crc, RIGHT_PIPE, 0, payload)
            && (!IsNew(w.left, crc, RIGHT_PIPE, 0, payload) ==> r.handled == w.handled)
            && (IsNew(w.left, crc, RIGHT_PIPE, 0, payload) ==>
                  |r.handled| == |w.handled| + 1 && r.handled[|w.handled|].snapshot == n)
            && (r.left.ext[RIGHT_PIPE] == AckBytes(TransportAck(RIGHT_DEVICE, n % 256)) ==>
                  |r.exits| == |w.exits| + 1 && r.exits[|w.exits|].snapshot == n
                  && r.exits[|w.exits|].at == |r.handled|)
  {
    var s := Answered(report, prefix);
    RunFour(w, crc, s);
    var w3 := Step(Step(Step(w, crc, s[0]), crc, s[1]), crc, s[2]);
    ExtensionOf(prefix, w3.left.ext[RIGHT_PIPE]);
    AckRoundTrip(TransportAck(RIGHT_DEVICE, n % 256), []);
    var ack := AckBytes(TransportAck(RIGHT_DEVICE, n % 256));
    assert ack + [] == ack;
    hide Hears, Push, Extension, FrameBytes, Counted, IsNew, Run, DecodeAck;
  }

  /** A frame taken as new while there is room is queued, remembered, and answered by its number. */
  lemma NewHeard(l: Left, crc: Crc, n: nat, report: seq<Byte>)
    requires LeftWf(l) && |l.ring| < RING_CAP && IsSnapshot(report)
    requires IsNew(l, crc, RIGHT_PIPE, 0, Counted(n, FrameBytes(RIGHT_DEVICE, n % 256, 0, report)))
    ensures var frame := FrameBytes(RIGHT_DEVICE, n % 256, 0, report);
            var r := Hears(l, crc, RIGHT_PIPE, 0, Counted(n, frame));
            && r.seen[RIGHT_PIPE] == Some(Seen.Seen(0, crc(RIGHT_PIPE, 0, Counted(n, frame))))
            && r.ext[RIGHT_PIPE] == AckBytes(TransportAck(RIGHT_DEVICE, n % 256))
            && |r.ring| == |l.ring| + 1 && r.queued == l.queued + [Event(RIGHT_PIPE, frame)]
  {
    var frame := FrameBytes(RIGHT_DEVICE, n % 256, 0, report);
    AckNamesFrame(0, report, n % 256, true);
    assert Counted(n, frame)[COUNTER_LEN..] == frame;
    hide RightAck, Le32;
  }

  /**
   Such a run, from power-up, with any snapshots: the right half leaves snapshot 256 on an
   ACK, and the left half has not taken it, exactly when its frame collides with that of
   snapshot 0; the left half's application has then been given snapshot 0 alone.
   */
  lemma UntakenExit(crc: Crc, first: seq<Byte>, between: seq<Byte>, last: seq<Byte>, prefix: seq<Byte>)
    requires IsSnapshot(first) && IsSnapshot(between) && IsSnapshot(last) && |prefix| == COUNTER_HINT_LEN
    ensures var w := Reached(crc, CollidingRun(first, between, last, prefix));
            var a := FrameBytes(RIGHT_DEVICE, 0, 0, first);
            var b := FrameBytes(RIGHT_DEVICE, 0, 0, last);
            var collide := crc(RIGHT_PIPE, 0, Counted(0, a)) == crc(RIGHT_PIPE, 0, Counted(256, b));
            && |w.exits| == 1 && w.exits[0].snapshot == 256 && 0 < w.exits[0].at <= |w.handled|
            && (w.handled[w.exits[0].at - 1].snapshot != 256 <==> collide)
            && w.left.queued == [Event(RIGHT_PIPE, a)] + (if collide then [] else [Event(RIGHT_PIPE, b)])
  {
    hide Run, FrameBytes, Counted, Hears, AckBytes, Unanswered, Unheard, Answered;
    var s := Start();
    var one := Unanswered(first, true, prefix);
    var more := Unheard(between, 255, prefix);
    AttemptUnanswered(s, crc, 0, first, true, prefix);
    NewHeard(s.left, crc, 0, first);
    var w1 := Run(s, crc, one);
    RunAppend(s, crc, one, more);
    StaysResting(w1, crc, 1, between, 255, prefix);
    var w2 := Run(w1, crc, more);
    RunAppend(s, crc, one + more, Answered(last, prefix));
    LastAnswered(w2, crc, 256, last, prefix);
    var payload := Counted(256, FrameBytes(RIGHT_DEVICE, 0, 0, last));
    if IsNew(w2.left, crc, RIGHT_PIPE, 0, payload) {
      NewHeard(w2.left, crc, 256, last);
    } else {
      Repeat(w2.left, crc, payload);
    }
  }

  lemma Repeat(l: Left, crc: Crc, payload: seq<Byte>)
    requires LeftWf(l) && !IsNew(l, crc, RIGHT_PIPE, 0, payload)
    ensures Hears(l, crc, RIGHT_PIPE, 0, payload) == l
  {
  }
}
