/**
 The PTX empties its queue: a measure that every radio or timer event of a busy machine
 lowers, as long as the end of a transmission finds a free buffer for the ACK.
 */
module Drain {
  import opened Wrappers
  import opened PoolModel
  import opened AppModel
  import opened PtxModel
  import opened TimerModel

  /** How many buffers wait in the transmit queue. */
  function Queued(st: seq<BufferState>): nat {
    if st == [] then 0 else Queued(st[1..]) + (if st[0] == TxQueued then 1 else 0)
  }

  predicate Done(s: Sys) {
    s.ptx.state == Idle && s.ptx.txIdx.None? && TxQueued !in s.pool.st
  }

  /** An event the machine acts on: anything in Idle, the end of a transmission, any radio or timer event in a wait. */
  predicate Effective(s: Sys, e: Events) {
    match s.ptx.state
    case Idle => !Done(s)
    case Tx => e.disabled
    case TxNoAck => e.disabled
    case WaitAck => !UserEvent(e)
    case WaitRetransmit => !UserEvent(e)
  }

  /** What is left to do for the packet in flight; three events per remaining attempt. */
  function Phase(p: Ptx): nat
    requires p.attempts <= Limit(p)
  {
    var left := Limit(p) - p.attempts;
    match p.state
    case Idle => if p.txIdx.Some? then 3 * left + 3 else 0
    case Tx => 3 * left + 2
    case TxNoAck => 1
    case WaitAck => 3 * left + 1
    case WaitRetransmit => 3 * left + 3
  }

  function Rank(s: Sys): nat
    requires s.ptx.attempts <= Limit(s.ptx)
  {
    Queued(s.pool.st) * (3 * Limit(s.ptx) + 4) + Phase(s.ptx)
  }

  lemma {:induction false} QueuedUpdate(st: seq<BufferState>, i: nat, s: BufferState)
    requires i < |st|
    ensures Queued(st[i := s]) == Queued(st) - (if st[i] == TxQueued then 1 else 0) + (if s == TxQueued then 1 else 0)
  {
    if i > 0 {
      QueuedUpdate(st[1..], i - 1, s);
      assert st[i := s][1..] == st[1..][i - 1 := s];
    }
  }

  lemma {:induction false} QueuedNone(st: seq<BufferState>)
    ensures Queued(st) == 0 <==> TxQueued !in st
  {
    if st != [] {
      QueuedNone(st[1..]);
      assert st == [st[0]] + st[1..];
    }
  }

  lemma RankZero(s: Sys)
    requires s.ptx.attempts < Limit(s.ptx)
    ensures Rank(s) == 0 <==> Done(s)
  {
    QueuedNone(s.pool.st);
    assert Queued(s.pool.st) > 0 ==> Queued(s.pool.st) * (3 * Limit(s.ptx) + 4) > 0;
  }

  /** Moving on after a finished packet, or starting from Idle: at most the packets still queued remain. */
  lemma SendNextRank(s: Sys)
    requires InRange(s) && s.ptx.txIdx.None? && s.ptx.attempts == 0
    ensures var r := SendNext(s);
            && r.ptx.attempts == 0 && Limit(r.ptx) == Limit(s.ptx)
            && Rank(r) <= Queued(s.pool.st) * (3 * Limit(s.ptx) + 4)
            && (Queued(s.pool.st) > 0 ==> Rank(r) < Queued(s.pool.st) * (3 * Limit(s.ptx) + 4))
  {
    QueuedNone(s.pool.st);
    var next := DequeueTx(s.pool).1;
    var m := 3 * Limit(s.ptx) + 4;
    if next.Some? {
      QueuedUpdate(s.pool.st, next.value, InDma);
      var r := SendNext(s);
      assert Queued(r.pool.st) == Queued(s.pool.st) - 1;
      assert (Queued(s.pool.st) - 1) * m == Queued(s.pool.st) * m - m;
    }
  }

  lemma ReleaseKeepsQueue(v: Pool, i: nat)
    requires i < |v.st| && v.st[i] == InDma
    ensures Queued(Release(v, i).st) == Queued(v.st)
  {
    QueuedUpdate(v.st, i, Free);
  }

  lemma FinishRank(s: Sys, fate: Fate)
    requires InRange(s) && s.ptx.attempts == 0
    requires s.ptx.txIdx.Some? && s.pool.st[s.ptx.txIdx.value] == InDma
    ensures var r := Proceed(AdvancePid(ReleaseTx(s), fate), false);
            && r.ptx.attempts == 0 && Limit(r.ptx) == Limit(s.ptx)
            && Rank(r) <= Queued(s.pool.st) * (3 * Limit(s.ptx) + 4)
  {
    ReleaseKeepsQueue(s.pool, s.ptx.txIdx.value);
    hide Queued, Rank;
    SendNextRank(AdvancePid(ReleaseTx(s), fate));
  }

  lemma TxEndRank(s: Sys)
    requires InRange(s) && s.ptx.state == Tx && Free in s.pool.st && s.ptx.attempts < Limit(s.ptx)
    ensures var r := OnTxEnd(s);
            r.ptx.attempts == s.ptx.attempts && Limit(r.ptx) == Limit(s.ptx) && Rank(r) < Rank(s)
  {
    var (pool, ack) := AllocDma(s.pool);
    QueuedUpdate(s.pool.st, ack.value, InDma);
  }

  lemma AckOkRank(s: Sys)
    requires InRange(s) && s.ptx.state == WaitAck && s.ptx.attempts < Limit(s.ptx)
    requires s.ptx.txIdx.Some? && s.ptx.ackRxIdx.Some? && s.ptx.txIdx != s.ptx.ackRxIdx
    requires s.pool.st[s.ptx.txIdx.value] == InDma && s.pool.st[s.ptx.ackRxIdx.value] == InDma
    ensures var r := OnAckOk(s, false);
            r.ptx.attempts < Limit(r.ptx) == Limit(s.ptx) && Rank(r) < Rank(s)
  {
    var i := s.ptx.ackRxIdx.value;
    QueuedUpdate(s.pool.st, i, RxQueued);
    QueuedUpdate(s.pool.st, i, Free);
    var a := DeliverAck(StopRadio(WithTimer(s, DisarmRetransmit(DisarmAckTimeout(s.ptx.timer)))));
    assert Queued(a.pool.st) == Queued(s.pool.st);
    var b := a.(ptx := a.ptx.(attempts := 0));
    FinishRank(b, Acked(s.ptx.failed));
    hide Queued, Proceed;
    assert OnAckOk(s, false) == Proceed(AdvancePid(ReleaseTx(b), Acked(s.ptx.failed)), false);
  }

  lemma AckFailedRank(s: Sys)
    requires InRange(s) && s.ptx.state == WaitAck && s.ptx.attempts < Limit(s.ptx)
    requires s.ptx.txIdx.Some? && s.ptx.ackRxIdx.Some? && s.ptx.txIdx != s.ptx.ackRxIdx
    requires s.pool.st[s.ptx.txIdx.value] == InDma && s.pool.st[s.ptx.ackRxIdx.value] == InDma
    ensures var r := OnAckFailed(s, false).0;
            r.ptx.attempts < Limit(r.ptx) == Limit(s.ptx) && Rank(r) < Rank(s)
  {
    hide Queued, Proceed, SendNext;
    ReleaseKeepsQueue(s.pool, s.ptx.ackRxIdx.value);
    var a := ReleaseAckRx(StopRadio(WithTimer(s, DisarmAckTimeout(s.ptx.timer))));
    var n := s.ptx.failed + 1;
    if s.ptx.attempts + 1 >= s.ptx.maxAttempts {
      FailedForGood(a.(ptx := a.ptx.(attempts := 0, failed := n)), s, n);
      assert OnAckFailed(s, false).0 ==
             Proceed(AdvancePid(ReleaseTx(a.(ptx := a.ptx.(attempts := 0, failed := n))), Dropped(n)), false);
    } else {
      SamePackets(s, OnAckFailed(s, false).0);
    }
  }

  lemma FailedForGood(b: Sys, s: Sys, n: nat)
    requires InRange(b) && b.ptx.attempts == 0 && b.ptx.txIdx.Some? && b.pool.st[b.ptx.txIdx.value] == InDma
    requires Queued(b.pool.st) == Queued(s.pool.st) && Limit(b.ptx) == Limit(s.ptx)
    requires s.ptx.state == WaitAck && s.ptx.attempts < Limit(s.ptx)
    ensures var r := Proceed(AdvancePid(ReleaseTx(b), Dropped(n)), false);
            r.ptx.attempts < Limit(r.ptx) == Limit(s.ptx) && Rank(r) < Rank(s)
  {
    FinishRank(b, Dropped(n));
    hide Queued, Proceed;
  }

  lemma SamePackets(s: Sys, r: Sys)
    requires s.ptx.attempts <= Limit(s.ptx) && r.ptx.attempts <= Limit(r.ptx) == Limit(s.ptx)
    requires Queued(r.pool.st) == Queued(s.pool.st) && Phase(r.ptx) < Phase(s.ptx)
    ensures Rank(r) < Rank(s)
  {
    hide Queued, Phase;
  }

  /** Every effective event lowers the rank. */
  lemma EventLowersRank(s: Sys, e: Events, held: set<nat>, alloc: set<nat>)
    requires Inv(s, held, alloc) && Effective(s, e)
    requires s.ptx.state == Tx ==> Free in s.pool.st
    ensures var r := HandleRadioEvent(s, e, false).0;
            r.ptx.attempts < Limit(r.ptx) == Limit(s.ptx) && Rank(r) < Rank(s)
  {
    assert forall i | i in DmaSet(s.ptx) :: s.pool.st[i] == InDma;
    assert s.ptx.txIdx.Some? ==> s.ptx.txIdx.value in DmaSet(s.ptx);
    assert s.ptx.state == WaitAck ==> s.ptx.ackRxIdx.value in DmaSet(s.ptx);
    hide Owned, AirInv, FateInv, DmaSet, BufferInv, NoAckInv;
    match s.ptx.state
    case Idle =>
      if s.ptx.txIdx.None? {
        QueuedNone(s.pool.st);
        SendNextRank(s);
      }
    case Tx => TxEndRank(s);
    case TxNoAck => FinishRank(StopRadio(s), Unacked);
    case WaitAck =>
      AckOkRank(s);
      AckFailedRank(s);
    case WaitRetransmit =>
  }

  // ---- Whole runs ----

  /** What can happen while nothing is sent: interrupts, ACKs received, and the application taking packets out. */
  datatype Move = Interrupt(e: Events) | HearsAck(ack: Packet) | Takes | Drops(i: nat)

  /** A machine, its application, and the effective events so far. */
  datatype Busy = Busy(sys: Sys, app: App, events: nat)

  function MoveStep(b: Busy, m: Move): (r: Busy)
    requires InRange(b.sys)
    ensures InRange(r.sys)
  {
    match m
    case Interrupt(e) =>
      Busy(HandleRadioEvent(b.sys, e, false).0, b.app, b.events + if Effective(b.sys, e) then 1 else 0)
    case HearsAck(ack) => b.(sys := AckArrives(b.sys, ack))
    case Takes => var (pool, app) := AppStep(b.sys.pool, b.app, Receive, 0); Busy(b.sys.(pool := pool), app, b.events)
    case Drops(i) =>
      var (pool, app) := AppStep(b.sys.pool, b.app, DropHandle(i), 0);
      Busy(b.sys.(pool := pool), app, b.events)
  }

  function MoveRun(b: Busy, moves: seq<Move>): (r: Busy)
    requires InRange(b.sys)
    ensures InRange(r.sys)
    decreases |moves|
  {
    if moves == [] then b else MoveRun(MoveStep(b, moves[0]), moves[1..])
  }

  /** The end of a transmission finds a free buffer, and no timer interrupt comes without it. */
  predicate Admissible(s: Sys, m: Move) {
    m.Interrupt? ==>
      && (s.ptx.state == Tx && m.e.disabled ==> Free in s.pool.st)
      && (s.ptx.state == Tx || s.ptx.state == TxNoAck ==> m.e.disabled || UserEvent(m.e))
  }

  predicate AllAdmissible(b: Busy, moves: seq<Move>)
    requires InRange(b.sys)
    decreases |moves|
  {
    moves == [] || (Admissible(b.sys, moves[0]) && AllAdmissible(MoveStep(b, moves[0]), moves[1..]))
  }

  ghost predicate BusyInv(b: Busy) {
    Inv(b.sys, b.app.held, b.app.alloc)
  }

  lemma TakingKeepsQueue(b: Busy, m: Move)
    requires BusyInv(b) && !m.Interrupt?
    ensures var r := MoveStep(b, m);
            && BusyInv(r) && r.sys.ptx == b.sys.ptx && r.events == b.events
            && Queued(r.sys.pool.st) == Queued(b.sys.pool.st)
  {
    match m
    case HearsAck(ack) => AckArrivesInv(b.sys, ack, b.app.held, b.app.alloc);
    case Takes => CallKeepsQueue(b, Receive);
    case Drops(i) => CallKeepsQueue(b, DropHandle(i));
  }

  lemma CallKeepsQueue(b: Busy, a: AppAction)
    requires BusyInv(b) && (a.Receive? || a.DropHandle?)
    ensures var (pool, app) := AppStep(b.sys.pool, b.app, a, 0);
            Inv(b.sys.(pool := pool), app.held, app.alloc) && Queued(pool.st) == Queued(b.sys.pool.st)
  {
    AppStepOwned(b.sys.pool, b.app, a, 0, DmaSet(b.sys.ptx));
    assert forall i | i in DmaSet(b.sys.ptx) :: b.sys.pool.st[i] == InDma;
    if a.DropHandle? && a.i in b.app.held {
      assert b.sys.pool.st[a.i] == RxQueued;
      QueuedUpdate(b.sys.pool.st, a.i, Free);
    }
    hide Owned, AirInv, FateInv;
  }

  lemma InterruptLowersRank(b: Busy, m: Move)
    requires BusyInv(b) && m.Interrupt? && Admissible(b.sys, m)
    ensures var r := MoveStep(b, m);
            BusyInv(r) && r.events - b.events + Rank(r.sys) <= Rank(b.sys)
  {
    HandleRadioEventInv(b.sys, m.e, false, b.app.held, b.app.alloc);
    if Effective(b.sys, m.e) {
      EventLowersRank(b.sys, m.e, b.app.held, b.app.alloc);
    } else if Done(b.sys) {
      assert DequeueTx(b.sys.pool).1.None?;
    }
    hide Inv, Rank;
  }

  lemma MoveLowersRank(b: Busy, m: Move)
    requires BusyInv(b) && Admissible(b.sys, m)
    ensures var r := MoveStep(b, m);
            BusyInv(r) && r.events - b.events + Rank(r.sys) <= Rank(b.sys)
  {
    if m.Interrupt? {
      InterruptLowersRank(b, m);
    } else {
      TakingKeepsQueue(b, m);
    }
    hide Owned, AirInv, FateInv, HandleRadioEvent, AckArrives, AppStep;
  }

  lemma {:induction false} RunLowersRank(b: Busy, moves: seq<Move>)
    requires BusyInv(b) && AllAdmissible(b, moves)
    ensures var r := MoveRun(b, moves);
            BusyInv(r) && r.events - b.events + Rank(r.sys) <= Rank(b.sys)
    decreases |moves|
  {
    if moves != [] {
      MoveLowersRank(b, moves[0]);
      hide Inv, MoveStep, Admissible;
      RunLowersRank(MoveStep(b, moves[0]), moves[1..]);
    }
  }

  /**
   After as many effective events as the rank says, the machine is idle, owns nothing and
   its queue is empty. The rank is at most `3 * limit + 4` for each packet to be sent.
   */
  lemma Drains(b: Busy, moves: seq<Move>)
    requires BusyInv(b) && AllAdmissible(b, moves)
    requires MoveRun(b, moves).events - b.events >= Rank(b.sys)
    ensures Done(MoveRun(b, moves).sys)
    ensures Rank(b.sys) <= (Queued(b.sys.pool.st) + InFlight(b.sys.ptx)) * (3 * Limit(b.sys.ptx) + 4)
  {
    hide Inv, MoveRun, Rank, AllAdmissible, Done;
    Counts(b);
    RunLowersRank(b, moves);
    RankBound(b.sys);
    Counts(MoveRun(b, moves));
    RankZero(MoveRun(b, moves).sys);
  }

  lemma Counts(b: Busy)
    requires BusyInv(b)
    ensures InRange(b.sys) && b.sys.ptx.attempts < Limit(b.sys.ptx) && RadioInv(b.sys.ptx)
  {
    hide Owned, AirInv, FateInv, BufferInv, NoAckInv;
  }

  lemma RankBound(s: Sys)
    requires s.ptx.attempts <= Limit(s.ptx) && RadioInv(s.ptx)
    ensures Rank(s) <= (Queued(s.pool.st) + InFlight(s.ptx)) * (3 * Limit(s.ptx) + 4)
  {
    var m := 3 * Limit(s.ptx) + 4;
    assert (Queued(s.pool.st) + 1) * m == Queued(s.pool.st) * m + m;
  }

  /** MaxAttempts is reported by exactly the failed ACK wait that uses up the budget, and drops the packet. */
  lemma GiveUpExactlyAtLimit(s: Sys, e: Events, suppress: bool, held: set<nat>, alloc: set<nat>)
    requires Inv(s, held, alloc)
    ensures var (r, event) := HandleRadioEvent(s, e, suppress);
            event == MaxAttempts <==>
            s.ptx.state == WaitAck && !UserEvent(e) && !(e.disabled && e.crcOk) && s.ptx.failed + 1 == Limit(s.ptx)
    ensures var (r, event) := HandleRadioEvent(s, e, suppress);
            event == MaxAttempts ==> r.ptx.fates == s.ptx.fates + [Dropped(Limit(s.ptx))]
  {
    hide Owned, AirInv, FateInv, BufferInv, NoAckInv;
    if s.ptx.state == WaitAck && !GoodAck(s, e) && !UserEvent(e) {
      FailedFate(s, suppress);
    }
    hide OnAckFailed, OnTxEnd, OnAckOk, OnNoAckSent, SendNext;
  }

  lemma FailedFate(s: Sys, suppress: bool)
    requires InRange(s) && s.ptx.attempts == s.ptx.failed < Limit(s.ptx)
    ensures var (r, event) := OnAckFailed(s, suppress);
            && (event == MaxAttempts <==> s.ptx.failed + 1 == Limit(s.ptx))
            && r.ptx.fates == s.ptx.fates + (if event == MaxAttempts then [Dropped(Limit(s.ptx))] else [])
  {
  }
}
