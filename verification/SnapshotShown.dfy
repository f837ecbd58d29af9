/**
 What the left half's application makes of its event queue (`prx_task` in
 boards/elytra/src/bin/left_central.rs): frames of the bound device, without repeats,
 replace the key rows it shows for the right half.
 */
module SnapshotShown {
  import opened Wrappers
  import opened CodecModel
  import opened DedupModel
  import opened SnapshotLink

  /** The tracker of the one device, and `RIGHT_ROWS_STATE`. */
  datatype App = App(tracker: Tracker, rows: seq<Byte>)

  const BINDINGS: Bindings := [None, Some(RIGHT_DEVICE), None, None, None, None, None, None]

  function Consume(a: App, e: Event): App {
    var (tracker, r) := AcceptBoundFrame(BINDINGS, a.tracker, Arrival(e.pipe, e.payload));
    match r
    case Ok(Some(m)) => App(tracker, if IsSnapshot(m.payload) then m.payload[1..] else a.rows)
    case _ => App(tracker, a.rows)
  }

  /** The application after it has popped `events`. */
  function ConsumeAll(events: seq<Event>): App {
    if events == [] then App([None], [0, 0, 0, 0, 0])
    else Consume(ConsumeAll(events[..|events| - 1]), events[|events| - 1])
  }

  lemma ConsumeAppend(events: seq<Event>, e: Event)
    ensures ConsumeAll(events + [e]) == Consume(ConsumeAll(events), e)
  {
    assert (events + [e])[..|events|] == events;
  }

  /** The snapshot of the last handled frame that was queued. */
  function LastQueued(handled: seq<Handled>): Option<nat> {
    if handled == [] then None
    else
      var h := handled[|handled| - 1];
      if h.queued then Some(h.snapshot) else LastQueued(handled[..|handled| - 1])
  }

  lemma LastQueuedAppend(handled: seq<Handled>, h: Handled)
    ensures LastQueued(handled + [h]) == if h.queued then Some(h.snapshot) else LastQueued(handled)
  {
    assert (handled + [h])[..|handled|] == handled;
  }

  /** The rows are those of snapshot `n`, or of one a multiple of 256 snapshots earlier. */
  ghost predicate Shows(rows: seq<Byte>, reports: seq<seq<Byte>>, n: nat) {
    exists m: nat :: m <= n && m < |reports| && m % 256 == n % 256 && |reports[m]| > 0 && rows == reports[m][1..]
  }

  ghost predicate ShownInv(a: App, handled: seq<Handled>, reports: seq<seq<Byte>>) {
    && |a.tracker| == 1
    && match LastQueued(handled)
       case None => a.tracker[0].None?
       case Some(s) => s < |reports| && a.tracker[0] == Some(s % 256) && Shows(a.rows, reports, s)
  }

  /** Frames on other pipes have no binding. */
  lemma OthersIgnored(a: App, e: Event)
    requires e.pipe != RIGHT_PIPE && e.pipe < NUM_PIPES
    ensures Consume(a, e) == a
  {
    assert BINDINGS[e.pipe].None?;
    hide DecodeFrame;
  }

  /** A queued frame of snapshot `n` shows it, unless its number repeats the last one accepted. */
  lemma FrameConsumed(a: App, n: nat, flags: Byte, report: seq<Byte>)
    requires |a.tracker| == 1 && flags < 4 && IsSnapshot(report)
    ensures var e := Event(RIGHT_PIPE, FrameBytes(RIGHT_DEVICE, n % 256, flags, report));
            Consume(a, e) == if a.tracker[0] == Some(n % 256) then a else App([Some(n % 256)], report[1..])
  {
    FrameRoundTrip(RIGHT_DEVICE, n % 256, flags, report, []);
    var f := FrameBytes(RIGHT_DEVICE, n % 256, flags, report);
    assert f + [] == f;
    assert BINDINGS[RIGHT_PIPE] == Some(RIGHT_DEVICE);
    hide DecodeFrame, FrameBytes;
    assert a.tracker[0 := Some(n % 256)] == [Some(n % 256)];
  }

  lemma ShowsLater(rows: seq<Byte>, reports: seq<seq<Byte>>, s: nat, n: nat)
    requires Shows(rows, reports, s) && s <= n && s % 256 == n % 256
    ensures Shows(rows, reports, n)
  {
  }

  lemma MoreReports(a: App, handled: seq<Handled>, reports: seq<seq<Byte>>, more: seq<seq<Byte>>)
    requires ShownInv(a, handled, reports) && reports <= more
    ensures ShownInv(a, handled, more)
  {
  }

  /** One more handled frame, queued or not. */
  lemma HandledShown(a: App, handled: seq<Handled>, reports: seq<seq<Byte>>, h: Handled)
    requires ShownInv(a, handled, reports) && h.snapshot < |reports| && IsSnapshot(reports[h.snapshot]) && h.flags < 4
    requires h.frame == FrameBytes(RIGHT_DEVICE, h.snapshot % 256, h.flags, reports[h.snapshot])
    requires LastQueued(handled).Some? ==> LastQueued(handled).value <= h.snapshot
    ensures ShownInv(if h.queued then Consume(a, Event(RIGHT_PIPE, h.frame)) else a, handled + [h], reports)
  {
    LastQueuedAppend(handled, h);
    FrameConsumed(a, h.snapshot, h.flags, reports[h.snapshot]);
    hide FrameBytes, Consume, LastQueued, Shows;
    if h.queued {
      if a.tracker[0] == Some(h.snapshot % 256) {
        ShowsLater(a.rows, reports, LastQueued(handled).value, h.snapshot);
      } else {
        ShowsItself(reports, h.snapshot);
      }
    }
  }

  lemma ShowsItself(reports: seq<seq<Byte>>, n: nat)
    requires n < |reports| && |reports[n]| > 0
    ensures Shows(reports[n][1..], reports, n)
  {
  }

  lemma {:induction false} LastQueuedBounded(handled: seq<Handled>, n: nat)
    requires forall k | 0 <= k < |handled| :: handled[k].snapshot <= n
    ensures LastQueued(handled).Some? ==> LastQueued(handled).value <= n
  {
    if handled != [] {
      LastQueuedBounded(handled[..|handled| - 1], n);
    }
  }

  /** What hearing a packet adds to the queue, and so to the application. */
  lemma HearsShown(l: Left, crc: Crc, pipe: nat, pid: nat, payload: seq<Byte>)
    requires LeftWf(l) && pipe < NUM_PIPES && |payload| > COUNTER_LEN
    ensures var app := payload[COUNTER_LEN..];
            ConsumeAll(Hears(l, crc, pipe, pid, payload).queued) ==
            if IsNew(l, crc, pipe, pid, payload) && Push(l.ring, pipe, app).1
            then Consume(ConsumeAll(l.queued), Event(pipe, app)) else ConsumeAll(l.queued)
  {
    ConsumeAppend(l.queued, Event(pipe, payload[COUNTER_LEN..]));
    hide RightAck, Consume, ConsumeAll;
  }

  ghost predicate Shown(w: World) {
    ShownInv(ConsumeAll(w.left.queued), w.handled, w.reports)
  }

  lemma TransmitShown(w: World, crc: Crc, ackHeard: bool, prefix: seq<Byte>)
    requires Inv(w) && Shown(w) && w.right.staged && w.reports != []
    ensures Shown(OnTransmit(w, crc, true, ackHeard, prefix))
  {
    hide Inv, ConsumeAll, Consume, Hears, IsNew, Push, FrameBytes, ShownInv, Staged, OnTransmit, IsSnapshot, LastQueued;
    StagedIsFrame(w);
    TransmitEffect(w, crc, ackHeard, prefix);
    HearsShown(w.left, crc, RIGHT_PIPE, w.right.pid, Staged(w.right));
    if IsNew(w.left, crc, RIGHT_PIPE, w.right.pid, Staged(w.right)) {
      HandledBelow(w, |w.reports| - 1);
      HandledShown(ConsumeAll(w.left.queued), w.handled, w.reports,
                   NewlyHandled(w, Push(w.left.ring, RIGHT_PIPE, w.right.frame).1));
    }
  }

  /** The staged packet is a frame of the newest snapshot. */
  lemma StagedIsFrame(w: World)
    requires Inv(w) && w.right.staged && w.reports != []
    ensures var n := |w.reports| - 1;
            && LeftWf(w.left) && |Staged(w.right)| > COUNTER_LEN
            && Staged(w.right)[COUNTER_LEN..] == w.right.frame
            && w.right.flags < 4 && |w.reports[n]| < 256
            && w.right.frame == FrameBytes(RIGHT_DEVICE, n % 256, w.right.flags, w.reports[n])
  {
    hide HandledInv, RingInv, ExitOk, RightAck, FrameBytes;
    assert IsSnapshot(w.reports[|w.reports| - 1]);
    StagedFrame(w);
  }

  lemma TransmitEffect(w: World, crc: Crc, ackHeard: bool, prefix: seq<Byte>)
    requires LeftWf(w.left) && w.reports != []
    ensures var r := OnTransmit(w, crc, true, ackHeard, prefix);
            && r.left == Hears(w.left, crc, RIGHT_PIPE, w.right.pid, Staged(w.right)) && r.reports == w.reports
            && r.handled == if IsNew(w.left, crc, RIGHT_PIPE, w.right.pid, Staged(w.right))
                            then w.handled + [NewlyHandled(w, Push(w.left.ring, RIGHT_PIPE, w.right.frame).1)]
                            else w.handled
  {
    hide Hears, Staged, Extension, Push;
  }

  lemma HandledBelow(w: World, n: nat)
    requires Inv(w) && n == |w.reports| - 1
    ensures LastQueued(w.handled).Some? ==> LastQueued(w.handled).value <= n
    ensures IsSnapshot(w.reports[n])
  {
    hide AnswerInv, RingInv, FrameBytes;
    LastQueuedBounded(w.handled, n);
  }

  lemma OthersShown(w: World, crc: Crc, pipe: nat, pid: nat, payload: seq<Byte>)
    requires LeftWf(w.left) && Shown(w) && pipe < NUM_PIPES && pipe != RIGHT_PIPE
    ensures Shown(w.(left := Hears(w.left, crc, pipe, pid, payload)))
  {
    hide ConsumeAll, Consume, ShownInv, RightAck;
    if |payload| > COUNTER_LEN {
      HearsShown(w.left, crc, pipe, pid, payload);
      OthersIgnored(ConsumeAll(w.left.queued), Event(pipe, payload[COUNTER_LEN..]));
    }
  }

  lemma StepShown(w: World, crc: Crc, a: Action)
    requires Inv(w) && Shown(w) && |w.right.report| < 256
    ensures Shown(Step(w, crc, a))
  {
    assert LeftWf(w.left);
    hide Inv, ShownInv, ConsumeAll, Hears, OnTransmit, StageFrame, Push, OnSlotEnds, IsSnapshot;
    match a
    case NewSnapshot(report) => MoreReports(ConsumeAll(w.left.queued), w.handled, w.reports, w.reports + [report]);
    case Transmit(heard, ackHeard, prefix) =>
      if heard && w.right.staged && w.reports != [] {
        TransmitShown(w, crc, ackHeard, prefix);
      }
      SilentTransmit(w, crc, ackHeard, prefix);
    case OthersSend(pipe, pid, payload) =>
      if pipe < NUM_PIPES && pipe != RIGHT_PIPE {
        OthersShown(w, crc, pipe, pid, payload);
      }
    case _ =>
  }

  lemma SilentTransmit(w: World, crc: Crc, ackHeard: bool, prefix: seq<Byte>)
    requires LeftWf(w.left)
    ensures w.reports != [] ==> OnTransmit(w, crc, false, ackHeard, prefix) == w.(right := w.right.(sent := true))
  {
  }

  lemma {:induction false} RunShown(w: World, crc: Crc, actions: seq<Action>)
    requires Inv(w) && Shown(w) && |w.right.report| < 256
    ensures Shown(Run(w, crc, actions))
    decreases |actions|
  {
    if actions != [] {
      StepKeepsInv(w, crc, actions[0]);
      StepShown(w, crc, actions[0]);
      hide Inv, Shown, Step;
      RunShown(Step(w, crc, actions[0]), crc, actions[1..]);
    }
  }

  lemma StartShown()
    ensures Shown(Start())
  {
  }

  lemma ReachedShown(crc: Crc, actions: seq<Action>)
    ensures Shown(Reached(crc, actions))
  {
    hide Inv, Shown, Start, Run;
    StartInv();
    StartShown();
    RunShown(Start(), crc, actions);
  }

  /**
   End to end: after the loop left snapshot `n` on an ACK, and until another frame is
   taken as new, an application that has popped everything shows the rows of `n`, or of
   a snapshot a multiple of 256 earlier; with at most 256 snapshots so far it is `n` itself.
   */
  lemma AckedSnapshotIsShown(crc: Crc, actions: seq<Action>, k: nat)
    requires var w := Reached(crc, actions);
             k < |w.exits| && w.exits[k].at == |w.handled| && w.left.ring == []
    ensures var w := Reached(crc, actions);
            var n := w.exits[k].snapshot;
            && Shows(ConsumeAll(w.left.popped).rows, w.reports, n)
            && (n < |w.reports| <= 256 ==> |w.reports[n]| > 0 && ConsumeAll(w.left.popped).rows == w.reports[n][1..])
  {
    var w := Reached(crc, actions);
    ReachedInv(crc, actions);
    ReachedShown(crc, actions);
    hide Reached, RightInv, HandledInv, AnswerInv, ConsumeAll;
    assert ExitOk(w.exits[k], w.handled);
    assert w.left.popped + [] == w.left.popped;
    ShowsLater(ConsumeAll(w.left.queued).rows, w.reports, w.handled[|w.handled| - 1].snapshot, w.exits[k].snapshot);
  }
}
