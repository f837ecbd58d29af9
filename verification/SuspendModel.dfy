/**
 Suspending the PTX from a task while its RADIO interrupt keeps running (src/isr.rs).

 On one core an interrupt is atomic with respect to the task, and the task is atomic
 wherever it masks the RADIO interrupt. `Task` names the points in between: every step of
 the `suspend` future is one transition, and interrupts may run before and after each.
 */
module SuspendModel {
  import opened Wrappers
  import opened PoolModel
  import opened AppModel
  import opened TimerModel
  import opened PtxModel
  import T = Retransmit

  /** The PTX driver: its machine, its flags, and the waker cell of `suspend_signal`. */
  datatype Driver = Driver(
    sys: Sys, timerFlag: bool, maxAttemptsFlag: bool, suspendRequested: bool,
    registered: bool, woken: bool, masked: bool)

  /** Where the `suspend` future stands. */
  datatype Task = Outside | Requested | Unregistered | Registered | Waiting | Ready | Suspended

  /**
   A driver, its application and the task. History: the states in which `do_suspend` was
   called so far, the buffers of parked packets it forgot, and how many packets had been
   dropped when the application last asked.
   */
  datatype World = World(
    d: Driver, app: App, task: Task, froms: seq<StatePtx>, forgotten: seq<nat>, dropsRead: nat)

  /** `on_radio_interrupt`. */
  function OnRadioInterrupt(d: Driver, disabled: bool, crcOk: bool): (r: Driver)
    requires InRange(d.sys)
    ensures InRange(r.sys)
  {
    var out := HandleRadioEvent(d.sys, Events(disabled, d.timerFlag, crcOk), d.suspendRequested);
    var a := d.(sys := out.0, timerFlag := false, maxAttemptsFlag := d.maxAttemptsFlag || out.1 == MaxAttempts);
    if d.suspendRequested && out.0.ptx.state == Idle then Wake(a) else a
  }

  /** `AtomicWaker::wake` takes the registered waker, if there is one. */
  function Wake(d: Driver): Driver {
    if d.registered then d.(registered := false, woken := true) else d
  }

  /** `on_timer_interrupt`: the flag first, then the timer events. */
  function OnTimerInterrupt(d: Driver): (r: Driver)
    requires InRange(d.sys)
    ensures InRange(r.sys)
  {
    var p := d.sys.ptx;
    d.(timerFlag := true, sys := d.sys.(ptx := p.(timer := HandleTimerEvent(p.timer))))
  }

  /** `do_suspend`, after which the RADIO interrupt stays masked. */
  function Finish(d: Driver): (r: Driver)
    requires InRange(d.sys)
    ensures InRange(r.sys)
  {
    d.(sys := DoSuspend(d.sys), masked := true)
  }

  /** `try_suspend`, also the re-check that follows the request: suspend at once if idle. */
  function TrySuspend(d: Driver): (r: (Driver, bool))
    requires InRange(d.sys)
    ensures InRange(r.0.sys)
  {
    if d.sys.ptx.state == Idle then (Finish(d), true) else (d, false)
  }

  /** `restore`: the machine starts over in Idle on the saved pipe; the RADIO interrupt is unmasked. */
  function Restore(d: Driver, pipe: Pipe): (r: Driver)
    requires InRange(d.sys)
    ensures InRange(r.sys)
  {
    var ptx := d.sys.ptx.(state := Idle, radio := Off, activeTxPipe := pipe);
    d.(sys := d.sys.(ptx := ptx), suspendRequested := false, masked := false)
  }

  /** `max_attempts_reached`: reading the flag clears it. */
  function ReadMaxAttempts(d: Driver): (Driver, bool) {
    (d.(maxAttemptsFlag := false), d.maxAttemptsFlag)
  }

  datatype Move =
    | RadioIsr(disabled: bool, crcOk: bool)
    | TimerIsr
    | Suspend
    | Advance
    | Cancel
    | Resume(pipe: Pipe)
    | Calls(call: AppAction, maxLen: nat)
    | AckFrame(pkt: Packet)
    | AskDrops

  function Suspends(w: World, d: Driver): World {
    var p := w.d.sys.ptx;
    w.(d := d, task := Suspended, froms := w.froms + [p.state],
    forgotten := if p.state == Idle && p.txIdx.Some? then w.forgotten + [p.txIdx.value] else w.forgotten)
  }

  /** The next piece of the `suspend` future; its request guard clears the flag whenever the future ends. */
  function AdvanceTask(w: World): (r: World)
    requires InRange(w.d.sys)
    ensures InRange(r.d.sys)
  {
    match w.task
    case Requested =>
      var (d, done) := TrySuspend(w.d);
      if done then Suspends(w, d.(suspendRequested := false)) else w.(task := Unregistered)
    case Unregistered => w.(d := w.d.(registered := true), task := Registered)
    case Registered => w.(task := if w.d.sys.ptx.state == Idle then Ready else Waiting)
    case Waiting => w.(d := w.d.(woken := false), task := Unregistered)
    case Ready => Suspends(w, Finish(w.d).(suspendRequested := false))
    case _ => w
  }

  function MoveWorld(w: World, m: Move): (r: World)
    requires InRange(w.d.sys)
    ensures InRange(r.d.sys)
  {
    match m
    case RadioIsr(disabled, crcOk) => if w.d.masked then w else w.(d := OnRadioInterrupt(w.d, disabled, crcOk))
    case TimerIsr => if Pending(w.d.sys.ptx.timer) then w.(d := OnTimerInterrupt(w.d)) else w
    case Suspend =>
      if w.task != Outside then w
      else
        var (d, done) := TrySuspend(w.d);
        if done then Suspends(w, d) else w.(d := w.d.(suspendRequested := true), task := Requested)
    case Advance => AdvanceTask(w)
    case Cancel => if w.task == Waiting then w.(d := w.d.(suspendRequested := false), task := Outside) else w
    case Resume(pipe) => if w.task == Suspended then w.(d := Restore(w.d, pipe), task := Outside) else w
    case Calls(call, maxLen) =>
      AppStepUndisturbed(w.d.sys.pool, w.app, call, maxLen);
      var (pool, app) := AppStep(w.d.sys.pool, w.app, call, maxLen);
      w.(d := w.d.(sys := w.d.sys.(pool := pool)), app := app)
    case AskDrops => w.(d := ReadMaxAttempts(w.d).0, dropsRead := Drops(w.d.sys.ptx.fates))
    case AckFrame(pkt) => w.(d := w.d.(sys := AckArrives(w.d.sys, pkt)))
  }

  function MoveRun(w: World, moves: seq<Move>): (r: World)
    requires InRange(w.d.sys)
    ensures InRange(r.d.sys)
    decreases |moves|
  {
    if moves == [] then w else MoveRun(MoveWorld(w, moves[0]), moves[1..])
  }

  /** The packets given up so far. */
  function Drops(fates: seq<Fate>): nat {
    if fates == [] then 0
    else Drops(fates[..|fates| - 1]) + (if fates[|fates| - 1].Dropped? then 1 else 0)
  }

  predicate Requesting(t: Task) {
    t != Outside && t != Suspended
  }

  /** The flag says where the task is, and a task that waits on an idle machine has been woken. */
  ghost predicate WorldInv(w: World) {
    var idle := w.d.sys.ptx.state == Idle;
    && (w.d.suspendRequested <==> Requesting(w.task))
    && (w.d.masked <==> w.task == Suspended)
    && (w.task == Registered || w.task == Waiting ==> w.d.registered || w.d.woken)
    && (w.task == Waiting && idle ==> w.d.woken)
    && (w.task == Ready || w.task == Suspended ==> idle)
    && (forall k | 0 <= k < |w.froms| :: w.froms[k] == Idle)
  }

  /** With the request set, an interrupt in Idle does nothing to the machine. */
  lemma IdleIsStable(s: Sys, e: Events)
    requires InRange(s) && s.ptx.state == Idle
    ensures HandleRadioEvent(s, e, true).0 == s
  {
  }

  lemma RadioKeepsInv(w: World, disabled: bool, crcOk: bool)
    requires InRange(w.d.sys) && WorldInv(w)
    ensures var r := w.(d := OnRadioInterrupt(w.d, disabled, crcOk));
            !w.d.masked ==>
              WorldInv(r) && (w.d.suspendRequested && w.d.sys.ptx.state == Idle ==> r.d.sys.ptx.state == Idle)
  {
    if w.d.sys.ptx.state == Idle {
      IdleIsStable(w.d.sys, Events(disabled, w.d.timerFlag, crcOk));
    }
    hide HandleRadioEvent;
  }

  /** The pieces of the future suspend in Idle only. */
  lemma TaskKeepsInv(w: World, m: Move)
    requires InRange(w.d.sys) && WorldInv(w) && (m.Suspend? || m.Advance? || m.Cancel? || m.Resume?)
    ensures WorldInv(MoveWorld(w, m))
    ensures w.d.sys.ptx.state == Idle ==> MoveWorld(w, m).d.sys.ptx.state == Idle
  {
    hide HandleRadioEvent, OnRadioInterrupt, AppStep, AckArrives, DoSuspend, InRange;
    SuspendedIsIdle(w.d.sys);
  }

  lemma SuspendedIsIdle(s: Sys)
    requires InRange(s)
    ensures DoSuspend(s).ptx.state == Idle
  {
  }

  /** Nothing but the radio interrupt and the future touches state, flags or waker. */
  lemma OtherKeepsInv(w: World, m: Move)
    requires InRange(w.d.sys) && WorldInv(w) && (m.TimerIsr? || m.Calls? || m.AckFrame? || m.AskDrops?)
    ensures WorldInv(MoveWorld(w, m)) && MoveWorld(w, m).d.sys.ptx.state == w.d.sys.ptx.state
  {
    hide HandleRadioEvent, OnRadioInterrupt, AppStep, DoSuspend;
  }

  lemma MoveKeepsInv(w: World, m: Move)
    requires InRange(w.d.sys) && WorldInv(w)
    ensures WorldInv(MoveWorld(w, m))
    ensures var r := MoveWorld(w, m);
            w.d.suspendRequested && w.d.sys.ptx.state == Idle ==> r.d.sys.ptx.state == Idle
  {
    hide HandleRadioEvent, OnRadioInterrupt, WorldInv, AppStep, AckArrives, AdvanceTask, TrySuspend;
    match m
    case RadioIsr(disabled, crcOk) => RadioKeepsInv(w, disabled, crcOk);
    case TimerIsr => OtherKeepsInv(w, m);
    case Calls(_, _) => OtherKeepsInv(w, m);
    case AckFrame(_) => OtherKeepsInv(w, m);
    case AskDrops => OtherKeepsInv(w, m);
    case _ => TaskKeepsInv(w, m);
  }

  /**
   Race freedom, over every interleaving: `do_suspend` was only ever called in Idle, an
   idle machine never leaves a waiting task unwoken, and a task that was told it is
   ready finds the machine idle.
   */
  lemma {:induction false} SuspendIsRaceFree(w: World, moves: seq<Move>)
    requires InRange(w.d.sys) && WorldInv(w)
    ensures var r := MoveRun(w, moves);
            && WorldInv(r)
            && (forall k | 0 <= k < |r.froms| :: r.froms[k] == Idle)
            && (r.task == Waiting && r.d.sys.ptx.state == Idle ==> r.d.woken)
            && (r.task == Ready ==> r.d.sys.ptx.state == Idle)
    decreases |moves|
  {
    if moves != [] {
      MoveKeepsInv(w, moves[0]);
      hide MoveWorld;
      SuspendIsRaceFree(MoveWorld(w, moves[0]), moves[1..]);
    }
  }

  /** The driver at power-up, over a pool of `n` buffers. */
  function Start(maxAttempts: nat, retransmitDelayUs: nat, ackTimeoutUs: nat, n: nat): (w: World)
    ensures InRange(w.d.sys)
  {
    var sys := Sys(InitialPtx(maxAttempts, retransmitDelayUs, ackTimeoutUs, 0), EmptyPool(n));
    World(Driver(sys, false, false, false, false, false, false), IDLE_APP, Outside, [], [], 0)
  }

  /** In particular in every run from power-up. */
  lemma RaceFreeSinceStart(maxAttempts: nat, retransmitDelayUs: nat, ackTimeoutUs: nat, n: nat, moves: seq<Move>)
    ensures var r := MoveRun(Start(maxAttempts, retransmitDelayUs, ackTimeoutUs, n), moves);
            && (forall k | 0 <= k < |r.froms| :: r.froms[k] == Idle)
            && (r.task == Waiting && r.d.sys.ptx.state == Idle ==> r.d.woken)
  {
    SuspendIsRaceFree(Start(maxAttempts, retransmitDelayUs, ackTimeoutUs, n), moves);
  }

  // ---- The suspension completes ----

  /** Pieces of the future still to run once the machine is idle. */
  function TaskRank(t: Task): nat {
    match t
    case Waiting => 4
    case Unregistered => 3
    case Registered => 2
    case Requested => 1
    case Ready => 1
    case _ => 0
  }

  /** Once idle, every piece brings the task closer, and no interrupt sets it back. */
  lemma IdleTaskAdvances(w: World, m: Move)
    requires InRange(w.d.sys) && WorldInv(w) && Requesting(w.task) && w.d.sys.ptx.state == Idle && m != Cancel
    ensures var r := MoveWorld(w, m);
            && r.d.sys.ptx.state == Idle
            && (m == Advance ==> TaskRank(r.task) < TaskRank(w.task))
            && (m != Advance ==> r.task == w.task)
            && (r.task == Suspended ==> r.froms == w.froms + [Idle])
  {
    MoveKeepsInv(w, m);
    hide HandleRadioEvent, WorldInv;
  }

  /** Events until the transaction under way is over. */
  function Remaining(p: Ptx): nat
    requires p.attempts <= Limit(p)
  {
    var left := Limit(p) - p.attempts;
    match p.state
    case Idle => 0
    case Tx => 3 * left + 2
    case TxNoAck => 1
    case WaitAck => 3 * left + 1
    case WaitRetransmit => 3 * left + 3
  }

  /**
   With the request set, every event of a busy machine brings it closer to Idle, even
   without a buffer for the ACK.
   */
  lemma RequestedEventAdvances(s: Sys, e: Events, held: set<nat>, alloc: set<nat>)
    requires Inv(s, held, alloc) && s.ptx.state != Idle && !UserEvent(e)
    ensures var r := HandleRadioEvent(s, e, true).0;
            r.ptx.attempts < Limit(r.ptx) && Remaining(r.ptx) < Remaining(s.ptx)
  {
    hide Owned, AirInv, FateInv, BufferInv, NoAckInv, SendNext;
  }

  // ---- What a suspension does to the buffers ----

  /** Suspending from Idle conserves buffers, and the numbering, exactly when no packet is parked for a resend. */
  lemma SuspendConserves(s: Sys, held: set<nat>, alloc: set<nat>)
    requires Inv(s, held, alloc) && s.ptx.state == Idle
    ensures Owned(DoSuspend(s).pool, DmaSet(DoSuspend(s).ptx), held, alloc) <==> s.ptx.txIdx.None?
    ensures CountInv(DoSuspend(s).ptx) <==> s.ptx.txIdx.None?
    ensures s.ptx.txIdx.None? ==> Inv(DoSuspend(s), held, alloc)
  {
    assert DmaSet(DoSuspend(s).ptx) == {};
    if s.ptx.txIdx.Some? {
      assert s.ptx.txIdx.value in DmaSet(s.ptx);
      assert s.pool.st[s.ptx.txIdx.value] == InDma;
    } else {
      assert DmaSet(s.ptx) == {};
      hide Owned, AirInv, FateInv;
    }
  }

  /** What a suspension leaves: radio and timer off and silent, nothing in flight; only buffers in flight are freed. */
  lemma SuspendExactly(s: Sys)
    requires InRange(s)
    ensures var r := DoSuspend(s);
            && r.ptx.state == Idle && r.ptx.radio == Off && r.ptx.attempts == 0
            && r.ptx.txIdx.None? && r.ptx.ackRxIdx.None?
            && !r.ptx.timer.running && !r.ptx.timer.int0 && !r.ptx.timer.int1 && !Pending(r.ptx.timer)
            && r.ptx.sent == s.ptx.sent && r.ptx.fates == s.ptx.fates && r.ptx.pid == s.ptx.pid
            && |r.pool.st| == |s.pool.st| && r.pool.pkt == s.pool.pkt && r.pool.completed == s.pool.completed
            && forall i: nat | i < |s.pool.st| ::
                 r.pool.st[i] ==
                 if s.ptx.state != Idle && (s.ptx.txIdx == Some(i) || s.ptx.ackRxIdx == Some(i))
                 then Free else s.pool.st[i]
  {
  }

  /** A restored driver is idle on the saved pipe, unmasked and without a request; the rest is as it was suspended. */
  lemma RestoreExactly(d: Driver, pipe: Pipe)
    requires InRange(d.sys)
    ensures var r := Restore(d, pipe);
            && r.sys.ptx.state == Idle && r.sys.ptx.radio == Off && r.sys.ptx.activeTxPipe == pipe
            && !r.suspendRequested && !r.masked
            && r.sys.pool == d.sys.pool && r.sys.ptx.pid == d.sys.ptx.pid && r.sys.ptx.txIdx == d.sys.ptx.txIdx
            && r.timerFlag == d.timerFlag && r.maxAttemptsFlag == d.maxAttemptsFlag && r.woken == d.woken
  {
  }

  // ---- The flags ----

  lemma MoreFates(fates: seq<Fate>, fate: Fate)
    ensures Drops(fates + [fate]) == Drops(fates) + (if fate.Dropped? then 1 else 0)
  {
    assert (fates + [fate])[..|fates|] == fates;
  }

  lemma ProceedKeepsFates(s: Sys, suppress: bool)
    requires InRange(s)
    ensures Proceed(s, suppress).ptx.fates == s.ptx.fates
  {
  }

  lemma NoAckDrops(s: Sys, suppress: bool)
    requires InRange(s)
    ensures Drops(OnNoAckSent(s, suppress).ptx.fates) == Drops(s.ptx.fates)
  {
    hide Drops, Proceed;
    ProceedKeepsFates(AdvancePid(ReleaseTx(StopRadio(s)), Unacked), suppress);
    MoreFates(s.ptx.fates, Unacked);
  }

  lemma AckOkDrops(s: Sys, suppress: bool)
    requires InRange(s)
    ensures Drops(OnAckOk(s, suppress).ptx.fates) == Drops(s.ptx.fates)
  {
    hide Drops, Proceed;
    var a := ReleaseTx(DeliverAck(StopRadio(WithTimer(s, DisarmRetransmit(DisarmAckTimeout(s.ptx.timer))))));
    ProceedKeepsFates(AdvancePid(a.(ptx := a.ptx.(attempts := 0)), Acked(s.ptx.failed)), suppress);
    MoreFates(s.ptx.fates, Acked(s.ptx.failed));
  }

  lemma AckFailedDrops(s: Sys, suppress: bool)
    requires InRange(s)
    ensures var (r, event) := OnAckFailed(s, suppress);
            Drops(r.ptx.fates) == Drops(s.ptx.fates) + (if event == MaxAttempts then 1 else 0)
  {
    hide Drops, Proceed;
    var b := ReleaseAckRx(StopRadio(WithTimer(s, DisarmAckTimeout(s.ptx.timer))));
    var c := ReleaseTx(b.(ptx := b.ptx.(attempts := b.ptx.attempts + 1, failed := b.ptx.failed + 1)));
    ProceedKeepsFates(AdvancePid(c.(ptx := c.ptx.(attempts := 0)), Dropped(s.ptx.failed + 1)), suppress);
    MoreFates(s.ptx.fates, Dropped(s.ptx.failed + 1));
  }

  /** An interrupt reports MaxAttempts exactly if it gives a packet up. */
  lemma HandlerDrops(s: Sys, e: Events, suppress: bool)
    requires InRange(s)
    ensures var (r, event) := HandleRadioEvent(s, e, suppress);
            Drops(r.ptx.fates) == Drops(s.ptx.fates) + (if event == MaxAttempts then 1 else 0)
  {
    hide Drops, Proceed, SendNext, OnAckOk, OnAckFailed, OnNoAckSent, InRange;
    NoAckDrops(s, suppress);
    AckOkDrops(s, suppress);
    AckFailedDrops(s, suppress);
    ProceedKeepsFates(s, false);
    ProceedIsSendNext(s);
  }

  /** The flag is set exactly if a packet was given up since the application last asked. */
  ghost predicate DropInv(w: World) {
    w.dropsRead <= Drops(w.d.sys.ptx.fates) && (w.d.maxAttemptsFlag <==> w.dropsRead < Drops(w.d.sys.ptx.fates))
  }

  lemma SuspendKeepsFates(s: Sys)
    requires InRange(s)
    ensures DoSuspend(s).ptx.fates == s.ptx.fates
  {
  }

  ghost predicate SameDrops(w: World, r: World) {
    && r.d.sys.ptx.fates == w.d.sys.ptx.fates
    && r.d.maxAttemptsFlag == w.d.maxAttemptsFlag && r.dropsRead == w.dropsRead
  }

  lemma SuspendKeepsDrops(w: World, d: Driver)
    requires InRange(w.d.sys) && d == Finish(w.d).(suspendRequested := d.suspendRequested)
    ensures SameDrops(w, Suspends(w, d))
  {
    hide DoSuspend, InRange;
    SuspendKeepsFates(w.d.sys);
  }

  lemma AdvanceKeepsDrops(w: World)
    requires InRange(w.d.sys)
    ensures SameDrops(w, AdvanceTask(w))
  {
    hide Suspends, Finish, InRange;
    var d := Finish(w.d).(suspendRequested := false);
    SuspendKeepsDrops(w, d);
    assert AdvanceTask(w) == Suspends(w, d) || AdvanceTask(w).d == w.d.(registered := AdvanceTask(w).d.registered,
                                                                   woken := AdvanceTask(w).d.woken);
    assert AdvanceTask(w) != Suspends(w, d) ==> AdvanceTask(w).dropsRead == w.dropsRead;
    hide AdvanceTask;
  }

  /** Only the RADIO interrupt finishes packets. */
  lemma TaskKeepsDrops(w: World, m: Move)
    requires InRange(w.d.sys) && (m.Suspend? || m.Advance? || m.Cancel? || m.Resume?)
    ensures SameDrops(w, MoveWorld(w, m))
  {
    hide Finish, Suspends, InRange, AdvanceTask;
    if m.Advance? {
      AdvanceKeepsDrops(w);
    } else if m.Suspend? {
      SuspendKeepsDrops(w, Finish(w.d));
    }
  }

  lemma OtherMovesKeepDrops(w: World, m: Move)
    requires InRange(w.d.sys) && (m.TimerIsr? || m.Calls? || m.AckFrame?)
    ensures SameDrops(w, MoveWorld(w, m))
  {
    hide OnRadioInterrupt, AppStep, AdvanceTask, DoSuspend;
    if m.AckFrame? {
      AckKeepsMachine(w.d.sys, m.pkt);
    }
  }

  lemma AckKeepsMachine(s: Sys, pkt: Packet)
    requires InRange(s)
    ensures AckArrives(s, pkt).ptx == s.ptx
  {
  }

  lemma MoveDrops(w: World, m: Move)
    requires InRange(w.d.sys) && DropInv(w)
    ensures DropInv(MoveWorld(w, m))
  {
    hide HandleRadioEvent, Drops, AppStep, AdvanceTask, DoSuspend, AckArrives, InRange;
    if m.RadioIsr? {
      HandlerDrops(w.d.sys, Events(m.disabled, w.d.timerFlag, m.crcOk), w.d.suspendRequested);
    } else if m.TimerIsr? || m.Calls? || m.AckFrame? {
      OtherMovesKeepDrops(w, m);
    } else if !m.AskDrops? {
      TaskKeepsDrops(w, m);
    }
  }

  /** In every run from power-up `max_attempts_reached` answers exactly whether one was. */
  lemma {:induction false} RunDrops(w: World, moves: seq<Move>)
    requires InRange(w.d.sys) && DropInv(w)
    ensures DropInv(MoveRun(w, moves))
    decreases |moves|
  {
    if moves != [] {
      MoveDrops(w, moves[0]);
      hide MoveWorld, DropInv;
      RunDrops(MoveWorld(w, moves[0]), moves[1..]);
    }
  }

  lemma DropsAreReported(maxAttempts: nat, retransmitDelayUs: nat, ackTimeoutUs: nat, n: nat, moves: seq<Move>)
    ensures var r := MoveRun(Start(maxAttempts, retransmitDelayUs, ackTimeoutUs, n), moves);
            ReadMaxAttempts(r.d).1 <==> Drops(r.d.sys.ptx.fates) > r.dropsRead
  {
    RunDrops(Start(maxAttempts, retransmitDelayUs, ackTimeoutUs, n), moves);
  }

  /** The driver's two interrupts are the steps of the timed machine, so what holds of its waits holds here. */
  lemma DriverIsTimed(d: Driver, app: App, maxLen: nat, disabled: bool, crcOk: bool)
    requires InRange(d.sys)
    ensures var t := T.Timed(d.sys, app, d.timerFlag);
            var r := OnRadioInterrupt(d, disabled, crcOk);
            T.OneStep(t, T.RadioIsr(disabled, crcOk, d.suspendRequested), maxLen) == T.Timed(r.sys, app, r.timerFlag)
    ensures var t := T.Timed(d.sys, app, d.timerFlag);
            var r := OnTimerInterrupt(d);
            Pending(d.sys.ptx.timer) ==> T.OneStep(t, T.TimerIsr, maxLen) == T.Timed(r.sys, app, r.timerFlag)
  {
    hide HandleRadioEvent;
  }
}
