/**
 What suspensions of the PTX do to buffers and numbering over whole runs. A suspension is
 free of races, but `do_suspend` forgets a packet that is parked for a resend: its buffer
 stays in DMA without an owner, and the PID it used is used again.
 */
module ParkedSuspend {
  import opened Wrappers
  import opened PoolModel
  import opened AppModel
  import opened TimerModel
  import opened PtxModel
  import opened SuspendModel

  /** Every dequeued packet has a fate, is in flight, or is one of `n` forgotten ones. */
  ghost predicate Numbered(p: Ptx, n: nat) {
    p.pid == |p.fates| % 4 && |p.sent| == |p.fates| + InFlight(p) + n
  }

  /** `Inv` without the contents, beside buffers in DMA that nobody owns. */
  ghost predicate Beside(s: Sys, lost: set<nat>, n: nat, held: set<nat>, alloc: set<nat>) {
    && Owned(s.pool, DmaSet(s.ptx) + lost, held, alloc) && DmaSet(s.ptx) !! lost
    && InRange(s) && RadioInv(s.ptx) && Numbered(s.ptx, n)
  }

  /** `Between` without the contents. */
  ghost predicate BetweenBeside(s: Sys, lost: set<nat>, n: nat, held: set<nat>, alloc: set<nat>) {
    && Owned(s.pool, TxSet(s.ptx) + lost, held, alloc) && TxSet(s.ptx) !! lost
    && InRange(s) && s.ptx.radio == Off && Numbered(s.ptx, n)
  }

  lemma SendNextBeside(s: Sys, lost: set<nat>, n: nat, held: set<nat>, alloc: set<nat>)
    requires BetweenBeside(s, lost, n, held, alloc)
    ensures Beside(SendNext(s), lost, n, held, alloc)
  {
    hide Owned;
    var r := SendNext(s);
    if s.ptx.txIdx.None? {
      assert TxSet(s.ptx) + lost == lost;
      DequeueOwned(s.pool, lost, held, alloc);
      var (pool, next) := DequeueTx(s.pool);
      if next.Some? {
        var i := next.value;
        WriteOwned(pool, i, pool.pkt[i].(pid := s.ptx.pid), lost + {i}, held, alloc);
        assert DmaSet(r.ptx) == {i};
        assert lost + {i} == {i} + lost;
      } else {
        assert DmaSet(r.ptx) == {};
      }
    } else {
      assert DmaSet(r.ptx) == TxSet(s.ptx);
    }
  }

  lemma ProceedBeside(s: Sys, suppress: bool, lost: set<nat>, n: nat, held: set<nat>, alloc: set<nat>)
    requires BetweenBeside(s, lost, n, held, alloc)
    ensures Beside(Proceed(s, suppress), lost, n, held, alloc)
  {
    hide Owned;
    if suppress {
      assert DmaSet(GoIdle(s).ptx) == TxSet(s.ptx);
    } else {
      SendNextBeside(s, lost, n, held, alloc);
    }
  }

  lemma FinishBeside(s: Sys, fate: Fate, lost: set<nat>, n: nat, held: set<nat>, alloc: set<nat>)
    requires BetweenBeside(s, lost, n, held, alloc) && s.ptx.txIdx.Some?
    ensures BetweenBeside(AdvancePid(ReleaseTx(s), fate), lost, n, held, alloc)
  {
    hide Owned;
    var i := s.ptx.txIdx.value;
    ReleaseOwned(s.pool, i, TxSet(s.ptx) + lost, held, alloc);
    var r := AdvancePid(ReleaseTx(s), fate);
    assert TxSet(s.ptx) + lost - {i} == TxSet(r.ptx) + lost;
  }

  lemma NoAckSentBeside(s: Sys, suppress: bool, lost: set<nat>, n: nat, held: set<nat>, alloc: set<nat>)
    requires Beside(s, lost, n, held, alloc) && s.ptx.state == TxNoAck
    ensures Beside(OnNoAckSent(s, suppress), lost, n, held, alloc)
  {
    hide Owned, Proceed;
    assert DmaSet(s.ptx) == TxSet(s.ptx);
    FinishBeside(StopRadio(s), Unacked, lost, n, held, alloc);
    ProceedBeside(AdvancePid(ReleaseTx(StopRadio(s)), Unacked), suppress, lost, n, held, alloc);
  }

  lemma TxEndBeside(s: Sys, lost: set<nat>, n: nat, held: set<nat>, alloc: set<nat>)
    requires Beside(s, lost, n, held, alloc) && s.ptx.state == Tx
    ensures Beside(OnTxEnd(s), lost, n, held, alloc)
  {
    hide Owned;
    assert DmaSet(s.ptx) == TxSet(s.ptx);
    var dma := TxSet(s.ptx) + lost;
    AllocDmaOwned(s.pool, dma, held, alloc);
    var (_, ack) := AllocDma(s.pool);
    var r := OnTxEnd(s);
    if ack.Some? {
      assert DmaSet(r.ptx) == TxSet(s.ptx) + {ack.value};
      assert dma + {ack.value} == DmaSet(r.ptx) + lost;
    } else {
      assert DmaSet(r.ptx) == TxSet(s.ptx);
    }
  }

  lemma AckOkBeside(s: Sys, suppress: bool, lost: set<nat>, n: nat, held: set<nat>, alloc: set<nat>)
    requires Beside(s, lost, n, held, alloc) && s.ptx.state == WaitAck
    ensures Beside(OnAckOk(s, suppress), lost, n, held, alloc)
  {
    hide Owned, Proceed;
    var i := s.ptx.ackRxIdx.value;
    var dma := DmaSet(s.ptx) + lost;
    RxCompleteOwned(s.pool, i, dma, held, alloc);
    ReleaseOwned(s.pool, i, dma, held, alloc);
    assert dma - {i} == TxSet(s.ptx) + lost;
    var a := DeliverAck(StopRadio(WithTimer(s, DisarmRetransmit(DisarmAckTimeout(s.ptx.timer)))));
    var b := a.(ptx := a.ptx.(attempts := 0));
    FinishBeside(b, Acked(s.ptx.failed), lost, n, held, alloc);
    ProceedBeside(AdvancePid(ReleaseTx(b), Acked(s.ptx.failed)), suppress, lost, n, held, alloc);
  }

  lemma AckFailedBeside(s: Sys, suppress: bool, lost: set<nat>, n: nat, held: set<nat>, alloc: set<nat>)
    requires Beside(s, lost, n, held, alloc) && s.ptx.state == WaitAck
    ensures Beside(OnAckFailed(s, suppress).0, lost, n, held, alloc)
  {
    hide Owned, Proceed;
    var i := s.ptx.ackRxIdx.value;
    var dma := DmaSet(s.ptx) + lost;
    ReleaseOwned(s.pool, i, dma, held, alloc);
    assert dma - {i} == TxSet(s.ptx) + lost;
    var a := ReleaseAckRx(StopRadio(WithTimer(s, DisarmAckTimeout(s.ptx.timer))));
    var k := s.ptx.attempts + 1;
    if k >= s.ptx.maxAttempts {
      var b := a.(ptx := a.ptx.(attempts := 0, failed := s.ptx.failed + 1));
      FinishBeside(b, Dropped(b.ptx.failed), lost, n, held, alloc);
      ProceedBeside(AdvancePid(ReleaseTx(b), Dropped(b.ptx.failed)), suppress, lost, n, held, alloc);
    } else {
      assert DmaSet(OnAckFailed(s, suppress).0.ptx) == TxSet(s.ptx);
    }
  }

  lemma HandlerBeside(s: Sys, e: Events, suppress: bool, lost: set<nat>, n: nat, held: set<nat>, alloc: set<nat>)
    requires Beside(s, lost, n, held, alloc)
    ensures Beside(HandleRadioEvent(s, e, suppress).0, lost, n, held, alloc)
  {
    hide Owned, OnAckOk, OnAckFailed, OnNoAckSent, OnTxEnd;
    if !(UserEvent(e) && s.ptx.state != Idle) {
      match s.ptx.state
      case Idle =>
        assert DmaSet(s.ptx) == TxSet(s.ptx);
        SendNextBeside(s, lost, n, held, alloc);
      case TxNoAck => NoAckSentBeside(s, suppress, lost, n, held, alloc);
      case Tx => TxEndBeside(s, lost, n, held, alloc);
      case WaitAck =>
        AckOkBeside(s, suppress, lost, n, held, alloc);
        AckFailedBeside(s, suppress, lost, n, held, alloc);
      case WaitRetransmit =>
        assert DmaSet(s.ptx) == TxSet(s.ptx);
        SendNextBeside(s, lost, n, held, alloc);
    }
  }

  // ---- Runs ----

  /** Whatever was forgotten stays in DMA; as long as nothing was, the machine keeps its whole invariant. */
  ghost predicate BothInv(s: Sys, forgotten: seq<nat>, app: App) {
    && Beside(s, Elements(forgotten), |forgotten|, app.held, app.alloc)
    && (forgotten == [] ==> Inv(s, app.held, app.alloc))
  }

  ghost predicate RunInv(w: World) {
    && WorldInv(w) && Distinct(w.forgotten) && BothInv(w.d.sys, w.forgotten, w.app)
    && (w.task == Suspended ==> w.d.sys.ptx.txIdx.None?)
  }

  lemma RadioBoth(s: Sys, e: Events, suppress: bool, forgotten: seq<nat>, app: App)
    requires BothInv(s, forgotten, app)
    ensures BothInv(HandleRadioEvent(s, e, suppress).0, forgotten, app)
  {
    HandlerBeside(s, e, suppress, Elements(forgotten), |forgotten|, app.held, app.alloc);
    hide Beside, Inv, HandleRadioEvent;
    if forgotten == [] {
      HandleRadioEventInv(s, e, suppress, app.held, app.alloc);
    }
  }

  lemma AckBoth(s: Sys, pkt: Packet, forgotten: seq<nat>, app: App)
    requires BothInv(s, forgotten, app)
    ensures BothInv(AckArrives(s, pkt), forgotten, app)
  {
    hide Owned, AirInv, FateInv, CountInv, BufferInv;
    if s.ptx.radio.Listening? {
      var i := s.ptx.radio.idx;
      WriteOwned(s.pool, i, Dma(s.pool.pkt[i], pkt), DmaSet(s.ptx) + Elements(forgotten), app.held, app.alloc);
    }
    if forgotten == [] {
      AckArrivesInv(s, pkt, app.held, app.alloc);
    }
  }

  lemma CallsBoth(s: Sys, call: AppAction, maxLen: nat, forgotten: seq<nat>, app: App)
    requires BothInv(s, forgotten, app)
    ensures var (pool, app') := AppStep(s.pool, app, call, maxLen); BothInv(s.(pool := pool), forgotten, app')
  {
    hide Owned, AppStep, AirInv, FateInv;
    AppStepOwned(s.pool, app, call, maxLen, DmaSet(s.ptx) + Elements(forgotten));
    if forgotten == [] {
      AppStepOwned(s.pool, app, call, maxLen, DmaSet(s.ptx));
      if s.ptx.txIdx.Some? {
        TxInDma(s, app.held, app.alloc);
      }
    }
  }

  lemma TxInDma(s: Sys, held: set<nat>, alloc: set<nat>)
    requires Inv(s, held, alloc) && s.ptx.txIdx.Some?
    ensures s.pool.st[s.ptx.txIdx.value] == InDma
  {
    assert s.ptx.txIdx.value in DmaSet(s.ptx);
  }

  /** The timer is no part of either invariant. */
  lemma TimerBoth(s: Sys, t: Timer, forgotten: seq<nat>, app: App)
    requires BothInv(s, forgotten, app)
    ensures BothInv(WithTimer(s, t), forgotten, app)
  {
    hide Owned, AirInv, FateInv;
    assert DmaSet(WithTimer(s, t).ptx) == DmaSet(s.ptx);
  }

  lemma SuspendBoth(s: Sys, forgotten: seq<nat>, app: App)
    requires BothInv(s, forgotten, app) && Distinct(forgotten) && s.ptx.state == Idle
    ensures var f := if s.ptx.txIdx.Some? then forgotten + [s.ptx.txIdx.value] else forgotten;
            BothInv(DoSuspend(s), f, app) && Distinct(f)
  {
    hide Owned, Inv;
    if s.ptx.txIdx.Some? {
      var i := s.ptx.txIdx.value;
      assert i in DmaSet(s.ptx) && i !in forgotten;
      AppendMembers(forgotten, i);
      assert DmaSet(s.ptx) + Elements(forgotten) == DmaSet(DoSuspend(s).ptx) + Elements(forgotten + [i]);
    } else {
      assert DmaSet(s.ptx) == DmaSet(DoSuspend(s).ptx) == {};
      if forgotten == [] {
        SuspendConserves(s, app.held, app.alloc);
      }
    }
  }

  /** The active pipe matters only while a packet is in flight. */
  lemma RestoreBoth(s: Sys, pipe: nat, forgotten: seq<nat>, app: App)
    requires BothInv(s, forgotten, app) && s.ptx.state == Idle && s.ptx.txIdx.None?
    ensures BothInv(s.(ptx := s.ptx.(state := Idle, radio := Off, activeTxPipe := pipe)), forgotten, app)
  {
    hide Owned, AirInv, FateInv;
    assert DmaSet(s.ptx.(state := Idle, radio := Off, activeTxPipe := pipe)) == DmaSet(s.ptx);
  }

  lemma SuspendedHoldsNothing(w: World, m: Move)
    requires InRange(w.d.sys) && WorldInv(w) && (w.task == Suspended ==> w.d.sys.ptx.txIdx.None?)
    ensures var r := MoveWorld(w, m); r.task == Suspended ==> r.d.sys.ptx.txIdx.None?
  {
    hide HandleRadioEvent, AppStep;
  }

  lemma IsrMove(w: World, disabled: bool, crcOk: bool)
    requires RunInv(w) && InRange(w.d.sys)
    ensures var r := MoveWorld(w, RadioIsr(disabled, crcOk)); BothInv(r.d.sys, r.forgotten, r.app)
  {
    hide BothInv, WorldInv, HandleRadioEvent;
    RadioBoth(w.d.sys, Events(disabled, w.d.timerFlag, crcOk), w.d.suspendRequested, w.forgotten, w.app);
  }

  /** The pieces of the future change the machine by suspending and restoring it only. */
  lemma TaskMove(w: World, m: Move)
    requires RunInv(w) && InRange(w.d.sys) && (m.Suspend? || m.Advance? || m.Cancel? || m.Resume?)
    ensures var r := MoveWorld(w, m); BothInv(r.d.sys, r.forgotten, r.app) && Distinct(r.forgotten)
  {
    hide BothInv, Distinct, DoSuspend;
    var s := w.d.sys;
    if s.ptx.state == Idle {
      SuspendBoth(s, w.forgotten, w.app);
      if m.Resume? && w.task == Suspended {
        RestoreBoth(s, m.pipe, w.forgotten, w.app);
      }
    }
  }

  lemma AskBoth(w: World)
    requires RunInv(w) && InRange(w.d.sys)
    ensures RunInv(MoveWorld(w, AskDrops))
  {
    MoveKeepsInv(w, AskDrops);
    hide BothInv, WorldInv, Distinct, Drops;
  }

  lemma MoveBoth(w: World, m: Move)
    requires RunInv(w) && InRange(w.d.sys)
    ensures RunInv(MoveWorld(w, m))
  {
    MoveKeepsInv(w, m);
    SuspendedHoldsNothing(w, m);
    hide BothInv, WorldInv, Distinct, OnRadioInterrupt, AppStep, AckArrives, AdvanceTask;
    match m
    case RadioIsr(disabled, crcOk) => IsrMove(w, disabled, crcOk);
    case TimerIsr => TimerBoth(w.d.sys, HandleTimerEvent(w.d.sys.ptx.timer), w.forgotten, w.app);
    case Calls(call, maxLen) => CallsBoth(w.d.sys, call, maxLen, w.forgotten, w.app);
    case AskDrops => AskBoth(w);
    case AckFrame(pkt) => AckBoth(w.d.sys, pkt, w.forgotten, w.app);
    case _ => TaskMove(w, m);
  }

  lemma {:induction false} RunKeepsInv(w: World, moves: seq<Move>)
    requires RunInv(w) && InRange(w.d.sys)
    ensures RunInv(MoveRun(w, moves))
    decreases |moves|
  {
    hide RunInv, MoveWorld;
    if moves != [] {
      MoveBoth(w, moves[0]);
      RunKeepsInv(MoveWorld(w, moves[0]), moves[1..]);
    }
  }

  /**
   In every run from power-up: a suspension that found a parked packet took its buffer out
   of use for good, each a different one, and nothing else did; the PID is behind the
   number of the next packet by one for each. The machine is as good as one that was never
   suspended exactly when no suspension found a parked packet.
   */
  lemma ForgottenBuffers(maxAttempts: nat, retransmitDelayUs: nat, ackTimeoutUs: nat, n: nat, moves: seq<Move>)
    ensures var r := MoveRun(Start(maxAttempts, retransmitDelayUs, ackTimeoutUs, n), moves);
            var s := r.d.sys;
            && Owned(s.pool, DmaSet(s.ptx) + Elements(r.forgotten), r.app.held, r.app.alloc)
            && DmaSet(s.ptx) !! Elements(r.forgotten) && Distinct(r.forgotten)
            && |s.ptx.sent| >= InFlight(s.ptx) + |r.forgotten|
            && s.ptx.pid == (|s.ptx.sent| - InFlight(s.ptx) - |r.forgotten|) % 4
            && (Owned(s.pool, DmaSet(s.ptx), r.app.held, r.app.alloc) <==> r.forgotten == [])
            && (Inv(s, r.app.held, r.app.alloc) <==> r.forgotten == [])
  {
    hide MoveRun, Start, RunInv, Owned, Inv, Distinct;
    StartRunInv(maxAttempts, retransmitDelayUs, ackTimeoutUs, n);
    RunKeepsInv(Start(maxAttempts, retransmitDelayUs, ackTimeoutUs, n), moves);
    RunInvMeans(MoveRun(Start(maxAttempts, retransmitDelayUs, ackTimeoutUs, n), moves));
  }

  lemma StartRunInv(maxAttempts: nat, retransmitDelayUs: nat, ackTimeoutUs: nat, n: nat)
    ensures RunInv(Start(maxAttempts, retransmitDelayUs, ackTimeoutUs, n))
  {
    hide Owned, AirInv, FateInv;
    InitialInv(n, maxAttempts, retransmitDelayUs, ackTimeoutUs, 0);
    var s := Start(maxAttempts, retransmitDelayUs, ackTimeoutUs, n).d.sys;
    assert DmaSet(s.ptx) + Elements([]) == DmaSet(s.ptx);
    assert Beside(s, Elements([]), 0, {}, {});
  }

  /** A forgotten buffer is in DMA without being the machine's. */
  lemma NotOwned(v: Pool, dma: set<nat>, lost: set<nat>, i: nat, held: set<nat>, alloc: set<nat>)
    requires Owned(v, dma + lost, held, alloc) && dma !! lost && i in lost
    ensures !Owned(v, dma, held, alloc)
  {
    assert i in dma + lost;
    assert v.st[i] == InDma && i !in dma;
  }

  lemma RunInvMeans(w: World)
    requires RunInv(w)
    ensures var s := w.d.sys;
            && Owned(s.pool, DmaSet(s.ptx) + Elements(w.forgotten), w.app.held, w.app.alloc)
            && DmaSet(s.ptx) !! Elements(w.forgotten) && Distinct(w.forgotten)
            && |s.ptx.sent| == |s.ptx.fates| + InFlight(s.ptx) + |w.forgotten| && s.ptx.pid == |s.ptx.fates| % 4
            && (Owned(s.pool, DmaSet(s.ptx), w.app.held, w.app.alloc) <==> w.forgotten == [])
            && (Inv(s, w.app.held, w.app.alloc) <==> w.forgotten == [])
  {
    hide Owned, InRange, RadioInv, CountInv, BufferInv, AirInv, FateInv, NoAckInv, Distinct, WorldInv;
    var dma := DmaSet(w.d.sys.ptx);
    if w.forgotten != [] {
      assert w.forgotten[0] in Elements(w.forgotten);
      NotOwned(w.d.sys.pool, dma, Elements(w.forgotten), w.forgotten[0], w.app.held, w.app.alloc);
    } else {
      assert dma + Elements(w.forgotten) == dma;
    }
  }

  // ---- A run that reuses a PID ----

  /** Two sends on a pool of two buffers: the second is under way when the first is on the air. */
  function ParkingRun(pipe: nat, a: seq<nat>, pipe2: nat, b: seq<nat>): seq<Move> {
    var maxLen := Max(|a|, |b|);
    [ Calls(BeginSend(pipe, false, a), maxLen), Calls(FinishSend(0), maxLen), RadioIsr(false, false),
      Calls(BeginSend(pipe2, false, b), maxLen), RadioIsr(true, false), Suspend,
      Resume(0), Calls(FinishSend(1), maxLen), RadioIsr(false, false)]
  }

  lemma FirstOnAir(w: World, pipe: Pipe, a: seq<nat>, maxLen: nat)
    requires w.d.sys.pool == EmptyPool(2) && w.app == IDLE_APP && 0 < |a| <= maxLen
    requires w.d.sys.ptx.state == Idle && w.d.sys.ptx.txIdx.None? && w.d.sys.ptx.ackRxIdx.None?
    requires !w.d.masked && !w.d.suspendRequested
    ensures var p := w.d.sys.ptx;
            var x := EMPTY_PACKET.(pipe := pipe, payload := a);
            var r := MoveWorld(MoveWorld(MoveWorld(w, Calls(BeginSend(pipe, false, a), maxLen)),
                                         Calls(FinishSend(0), maxLen)), RadioIsr(false, false));
            && r == w.(d := w.d.(sys := r.d.sys, timerFlag := false))
            && r.d.sys.ptx == p.(activeTxPipe := pipe, txIdx := Some(0), state := Tx,
                              radio := Transmitting(pipe, 0, true), sent := p.sent + [x.(pid := p.pid)],
                              air := p.air + [AirFrame(|p.fates|, x.(pid := p.pid))])
            && r.d.sys.pool == Pool([InDma, Free], [x.(pid := p.pid), EMPTY_PACKET], [], [])
  {
    var w1 := MoveWorld(w, Calls(BeginSend(pipe, false, a), maxLen));
    assert w1.d.sys.pool.st == [TxAllocated, Free];
    var w2 := MoveWorld(w1, Calls(FinishSend(0), maxLen));
    assert w2.d.sys.pool.st == [TxQueued, Free];
  }

  lemma FirstParked(w: World, pipe2: Pipe, b: seq<nat>, maxLen: nat)
    requires InRange(w.d.sys) && w.app == IDLE_APP && 0 < |b| <= maxLen
    requires |w.d.sys.pool.pkt| == 2 && w.d.sys.pool.st == [InDma, Free]
    requires w.d.sys.ptx.state == Tx && w.d.sys.ptx.txIdx == Some(0)
    requires w.task == Outside && !w.d.masked && !w.d.suspendRequested
    ensures var p := w.d.sys.ptx;
            var r := MoveWorld(MoveWorld(MoveWorld(w, Calls(BeginSend(pipe2, false, b), maxLen)),
                                         RadioIsr(true, false)), Suspend);
            && r.task == Suspended && r.froms == w.froms + [Idle] && r.forgotten == w.forgotten + [0]
            && r.app == App({}, {1}) && !r.d.suspendRequested
            && r.d.sys.ptx == p.(state := Idle, radio := Off, timer := r.d.sys.ptx.timer, attempts := 0,
                              txIdx := None, ackRxIdx := None)
            && r.d.sys.pool.st == [InDma, TxAllocated] && |r.d.sys.pool.pkt| == 2
            && r.d.sys.pool.pkt[1] == w.d.sys.pool.pkt[1].(pipe := pipe2, noAck := false, payload := b)
  {
    var w1 := MoveWorld(w, Calls(BeginSend(pipe2, false, b), maxLen));
    assert w1.d.sys.pool.st == [InDma, TxAllocated];
  }

  lemma SecondOnAir(w: World, maxLen: nat)
    requires InRange(w.d.sys) && w.app == App({}, {1}) && w.task == Suspended && !w.d.suspendRequested
    requires w.d.sys.ptx.txIdx.None? && w.d.sys.pool.st == [InDma, TxAllocated] && !w.d.sys.pool.pkt[1].noAck
    ensures var p := w.d.sys.ptx;
            var x := w.d.sys.pool.pkt[1].(pid := p.pid);
            var w2 := MoveWorld(MoveWorld(w, Resume(0)), Calls(FinishSend(1), maxLen));
            var r := MoveWorld(w2, RadioIsr(false, false));
            && r.forgotten == w.forgotten && r.froms == w.froms && r.app == IDLE_APP
            && r.d.sys.ptx.state == Tx && r.d.sys.ptx.fates == p.fates && r.d.sys.ptx.sent == p.sent + [x]
            && r.d.sys.pool.st == [InDma, InDma] && DmaSet(r.d.sys.ptx) == {1}
  {
    var w2 := MoveWorld(MoveWorld(w, Resume(0)), Calls(FinishSend(1), maxLen));
    assert w2.d.sys.pool.st == [InDma, TxQueued];
    assert FirstFrom(w2.d.sys.pool.st, TxQueued, 0) == Some(1);
    assert App({}, {1} - {1}) == IDLE_APP;
  }

  lemma RunThree(w: World, s: seq<Move>)
    requires InRange(w.d.sys) && |s| >= 3
    ensures MoveRun(w, s) == MoveRun(MoveWorld(MoveWorld(MoveWorld(w, s[0]), s[1]), s[2]), s[3..])
  {
    hide MoveWorld;
    assert s[1..][1..] == s[2..] && s[2..][1..] == s[3..];
    var w1 := MoveWorld(w, s[0]);
    var w2 := MoveWorld(w1, s[1]);
    assert MoveRun(w1, s[1..]) == MoveRun(w2, s[2..]);
    assert MoveRun(w2, s[2..]) == MoveRun(MoveWorld(w2, s[2]), s[3..]);
  }

  /**
   Reached from power-up, with any two payloads on any pipes: the only other buffer is
   allocated when the first packet's transmission ends, so the packet is parked and the
   machine idle; the suspension forgets it. Both dequeued packets went on the air with PID
   0, the first one has no fate, and its buffer is in DMA for good.
   */
  lemma ParkedPacketRepeatsPid(maxAttempts: nat, retransmitDelayUs: nat, ackTimeoutUs: nat,
                               pipe: Pipe, a: seq<nat>, pipe2: Pipe, b: seq<nat>)
    requires a != [] && b != []
    ensures var r := MoveRun(Start(maxAttempts, retransmitDelayUs, ackTimeoutUs, 2), ParkingRun(pipe, a, pipe2, b));
            var p := r.d.sys.ptx;
            && r.froms == [Idle] && r.forgotten == [0]
            && |p.sent| == 2 && p.sent[0].pid == p.sent[1].pid == 0
            && p.sent[0].payload == a && p.sent[1].payload == b && p.fates == []
            && r.d.sys.pool.st == [InDma, InDma] && DmaSet(p) == {1}
  {
    var s := ParkingRun(pipe, a, pipe2, b);
    hide MoveWorld, InRange, ParkingRun, Start;
    var w := Start(maxAttempts, retransmitDelayUs, ackTimeoutUs, 2);
    FirstForgotten(maxAttempts, retransmitDelayUs, ackTimeoutUs, pipe, a, pipe2, b);
    RunThree(w, s);
    var w3 := MoveWorld(MoveWorld(MoveWorld(w, s[0]), s[1]), s[2]);
    RunThree(w3, s[3..]);
    var w6 := MoveWorld(MoveWorld(MoveWorld(w3, s[3]), s[4]), s[5]);
    RunThree(w6, s[6..]);
    SecondOnAir(w6, Max(|a|, |b|));
  }

  /** Its first six moves. */
  lemma FirstForgotten(maxAttempts: nat, retransmitDelayUs: nat, ackTimeoutUs: nat,
                       pipe: Pipe, a: seq<nat>, pipe2: Pipe, b: seq<nat>)
    requires a != [] && b != []
    ensures var s := ParkingRun(pipe, a, pipe2, b);
            var w := Start(maxAttempts, retransmitDelayUs, ackTimeoutUs, 2);
            var w3 := MoveWorld(MoveWorld(MoveWorld(w, s[0]), s[1]), s[2]);
            var r := MoveWorld(MoveWorld(MoveWorld(w3, s[3]), s[4]), s[5]);
            var p := r.d.sys.ptx;
            && |s| == 9 && s[6..] == [Resume(0), Calls(FinishSend(1), Max(|a|, |b|)), RadioIsr(false, false)]
            && InRange(r.d.sys) && r.app == App({}, {1}) && r.task == Suspended && !r.d.suspendRequested
            && r.froms == [Idle] && r.forgotten == [0] && p.txIdx.None? && p.fates == [] && p.pid == 0
            && |p.sent| == 1 && p.sent[0].pid == 0 && p.sent[0].payload == a
            && r.d.sys.pool.st == [InDma, TxAllocated] && |r.d.sys.pool.pkt| == 2
            && r.d.sys.pool.pkt[1].payload == b && !r.d.sys.pool.pkt[1].noAck
  {
    hide MoveWorld, FirstFrom;
    var w := Start(maxAttempts, retransmitDelayUs, ackTimeoutUs, 2);
    var maxLen := Max(|a|, |b|);
    var s := ParkingRun(pipe, a, pipe2, b);
    FirstOnAir(w, pipe, a, maxLen);
    FirstParked(MoveWorld(MoveWorld(MoveWorld(w, s[0]), s[1]), s[2]), pipe2, b, maxLen);
  }
}
