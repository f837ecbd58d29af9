/**
 Suspending the PRX from a task (src/isr.rs). Unlike the PTX, whose interrupt stays idle
 once a suspension is requested, a PRX goes on receiving: the future may find the machine
 listening, and an interrupt may accept a packet before the future acts on it.
 */
module PrxSuspend {
  import opened Wrappers
  import opened PoolModel
  import opened PrxModel
  import opened AppModel

  /** Where the `suspend` future stands. */
  datatype Task = Outside | Requested | Unregistered | Registered | Waiting | Ready | Suspended

  /** A packet the filter let through; `lost` once `stop_receiving` has freed it uncompleted. */
  datatype Acceptance = Acceptance(pkt: Packet, lost: bool)

  /**
   The driver, its application, its waker cell and the task. History: the states in which
   `do_suspend` and `stop` were called, and every packet accepted.
   */
  datatype World = World(
    sys: Sys, app: App, suspendRequested: bool, registered: bool, woken: bool, masked: bool,
    task: Task, froms: seq<StatePrx>, stops: seq<StatePrx>, accepted: seq<Acceptance>)

  datatype Move =
    | Calls(call: AppAction, maxLen: nat)
    | RadioIsr(disabled: bool, rx: Rx)
    | Frame(pkt: Packet)
    | StartListening
    | Stop
    | Suspend
    | Advance
    | Cancel
    | Resume

  /** Suspension is safe while no ACK is on the air. */
  predicate Quiet(st: StatePrx) {
    st == Idle || st == Receiver
  }

  /** What an accepted packet is stored as. */
  function Stored(s: Sys, rx: Rx): Packet
    requires InRange(s) && s.prx.state == Receiver
  {
    s.pool.pkt[s.prx.rxIdx.value].(rssi := rx.rssi, pipe := rx.pipe)
  }

  function Accepting(w: World, event: PrxEvent, rx: Rx): seq<Acceptance>
    requires InRange(w.sys)
  {
    if w.sys.prx.state == Receiver && (event == Received || event == ReceivedNoAck)
    then w.accepted + [Acceptance(Stored(w.sys, rx), false)]
    else w.accepted
  }

  /** `on_radio_interrupt`: a pending request is woken whenever the machine is quiet. */
  function OnRadioInterrupt(w: World, disabled: bool, rx: Rx): (r: World)
    requires InRange(w.sys)
    ensures InRange(r.sys)
  {
    var (sys, event, _) := HandleRadioEvent(w.sys, disabled, false, rx);
    var a := w.(sys := sys, accepted := Accepting(w, event, rx));
    if w.suspendRequested && Quiet(sys.prx.state) && w.registered then a.(registered := false, woken := true) else a
  }

  /** The newest acceptance is the one whose ACK is going out. */
  function LoseNewest(a: seq<Acceptance>): seq<Acceptance> {
    if a == [] then a else a[..|a| - 1] + [a[|a| - 1].(lost := true)]
  }

  /** `do_suspend`, after which the RADIO interrupt stays masked and the request guard is gone. */
  function DoSuspend(w: World): (r: World)
    requires InRange(w.sys)
    ensures InRange(r.sys)
  {
    w.(sys := StopReceiving(w.sys), suspendRequested := false, masked := true, task := Suspended,
    froms := w.froms + [w.sys.prx.state],
    accepted := if w.sys.prx.pendingRxIdx.Some? then LoseNewest(w.accepted) else w.accepted)
  }

  /** `stop`, by any task; it does not wake the one that waits to suspend. */
  function OnStop(w: World): (r: World)
    requires InRange(w.sys)
    ensures InRange(r.sys)
  {
    w.(sys := StopReceiving(w.sys), stops := w.stops + [w.sys.prx.state],
    accepted := if w.sys.prx.pendingRxIdx.Some? then LoseNewest(w.accepted) else w.accepted)
  }

  function AdvanceTask(w: World): (r: World)
    requires InRange(w.sys)
    ensures InRange(r.sys)
  {
    match w.task
    case Requested => if Quiet(w.sys.prx.state) then DoSuspend(w) else w.(task := Unregistered)
    case Unregistered => w.(registered := true, task := Registered)
    case Registered => w.(task := if Quiet(w.sys.prx.state) then Ready else Waiting)
    case Waiting => w.(woken := false, task := Unregistered)
    case Ready => DoSuspend(w)
    case _ => w
  }

  function MoveWorld(w: World, m: Move): (r: World)
    requires InRange(w.sys)
    ensures InRange(r.sys)
  {
    match m
    case Calls(call, maxLen) =>
      AppStepUndisturbed(w.sys.pool, w.app, call, maxLen);
      var (pool, app) := AppStep(w.sys.pool, w.app, call, maxLen);
      w.(sys := w.sys.(pool := pool), app := app)
    case RadioIsr(disabled, rx) => if w.masked then w else OnRadioInterrupt(w, disabled, rx)
    case Frame(pkt) => w.(sys := FrameArrives(w.sys, pkt))
    case StartListening => if w.masked then w else w.(sys := StartReceiving(w.sys).0)
    case Stop => if w.masked then w else OnStop(w)
    case Suspend =>
      if w.task != Outside then w
      else if Quiet(w.sys.prx.state) then DoSuspend(w)
      else w.(suspendRequested := true, task := Requested)
    case Advance => AdvanceTask(w)
    case Cancel => if w.task == Waiting then w.(suspendRequested := false, task := Outside) else w
    case Resume =>
      if w.task == Suspended then
        var sys := w.sys.(prx := w.sys.prx.(state := Idle));
        w.(sys := sys, suspendRequested := false, masked := false, task := Outside)
      else w
  }

  function MoveRun(w: World, moves: seq<Move>): (r: World)
    requires InRange(w.sys)
    ensures InRange(r.sys)
    decreases |moves|
  {
    if moves == [] then w else MoveRun(MoveWorld(w, moves[0]), moves[1..])
  }

  predicate Requesting(t: Task) {
    t != Outside && t != Suspended
  }

  /** The flags say where the task is. */
  ghost predicate FlagInv(w: World) {
    (w.suspendRequested <==> Requesting(w.task)) && (w.masked <==> w.task == Suspended)
  }

  /** A task that waits on a quiet machine has been woken. */
  ghost predicate WorldInv(w: World) {
    && FlagInv(w)
    && (w.task == Registered || w.task == Waiting ==> w.registered || w.woken)
    && (w.task == Waiting && Quiet(w.sys.prx.state) ==> w.woken)
  }

  /** Another task stops the machine while an ACK is on the air and this one waits for its end. */
  predicate Strands(w: World, m: Move) {
    m.Stop? && w.task == Waiting && !Quiet(w.sys.prx.state) && !w.woken
  }

  lemma IsrKeepsInv(w: World, disabled: bool, rx: Rx)
    requires InRange(w.sys) && WorldInv(w) && !w.masked
    ensures WorldInv(OnRadioInterrupt(w, disabled, rx))
  {
    hide HandleRadioEvent;
  }

  lemma StoppedIsIdle(s: Sys)
    requires InRange(s)
    ensures StopReceiving(s).prx.state == Idle
  {
  }

  /** Every move keeps task, flags and waker in step, except exactly the stop that strands the task. */
  lemma MoveKeepsInv(w: World, m: Move)
    requires InRange(w.sys) && WorldInv(w)
    ensures FlagInv(MoveWorld(w, m)) && (WorldInv(MoveWorld(w, m)) <==> !Strands(w, m))
  {
    hide HandleRadioEvent, OnRadioInterrupt, AppStep, StopReceiving, InRange;
    StoppedIsIdle(w.sys);
    if m.RadioIsr? && !w.masked {
      IsrKeepsInv(w, m.disabled, m.rx);
    }
  }

  /** No move of the run strands the task. */
  predicate NeverStranded(w: World, moves: seq<Move>)
    requires InRange(w.sys)
    decreases |moves|
  {
    moves == [] || (!Strands(w, moves[0]) && NeverStranded(MoveWorld(w, moves[0]), moves[1..]))
  }

  /** No wake-up is lost: over every other interleaving, a task that waits on a quiet machine has been woken. */
  lemma {:induction false} NoLostWakeUp(w: World, moves: seq<Move>)
    requires InRange(w.sys) && WorldInv(w) && NeverStranded(w, moves)
    ensures var r := MoveRun(w, moves);
            WorldInv(r) && (r.task == Waiting && Quiet(r.sys.prx.state) ==> r.woken)
    decreases |moves|
  {
    hide MoveWorld;
    if moves != [] {
      MoveKeepsInv(w, moves[0]);
      NoLostWakeUp(MoveWorld(w, moves[0]), moves[1..]);
    }
  }

  // ---- From which states the PRX is suspended ----

  /**
   No interrupt takes effect between the poll that found the machine quiet and the
   suspension, and nobody stops the machine while an ACK is on the air.
   */
  predicate Calm(w: World, moves: seq<Move>)
    requires InRange(w.sys)
    decreases |moves|
  {
    moves == [] ||
    ((w.task == Ready && moves[0].RadioIsr? ==> !moves[0].disabled)
     && (moves[0].Stop? ==> Quiet(w.sys.prx.state))
     && Calm(MoveWorld(w, moves[0]), moves[1..]))
  }

  ghost predicate AllQuiet(w: World) {
    && (w.task == Ready ==> Quiet(w.sys.prx.state))
    && (forall k | 0 <= k < |w.froms| :: Quiet(w.froms[k]))
    && (forall k | 0 <= k < |w.stops| :: Quiet(w.stops[k]))
  }

  lemma CalmMoveStaysQuiet(w: World, m: Move)
    requires InRange(w.sys) && AllQuiet(w) && (w.task == Ready && m.RadioIsr? ==> !m.disabled)
    requires m.Stop? ==> Quiet(w.sys.prx.state)
    ensures AllQuiet(MoveWorld(w, m))
  {
    hide HandleRadioEvent, AppStep, StopReceiving, InRange, OnReceive;
    StoppedIsIdle(w.sys);
    if m.RadioIsr? {
      UndisturbedStaysQuiet(w.sys, m.rx);
    }
  }

  lemma UndisturbedStaysQuiet(s: Sys, rx: Rx)
    requires InRange(s)
    ensures Quiet(s.prx.state) ==> Quiet(HandleRadioEvent(s, false, false, rx).0.prx.state)
  {
    hide OnReceive, OnAckSent, Rearm;
  }

  /** In a calm run the machine is only ever suspended or stopped while no ACK is on the air. */
  lemma {:induction false} CalmSuspendsQuietly(w: World, moves: seq<Move>)
    requires InRange(w.sys) && AllQuiet(w) && Calm(w, moves)
    ensures AllQuiet(MoveRun(w, moves))
    decreases |moves|
  {
    if moves != [] {
      CalmMoveStaysQuiet(w, moves[0]);
      hide MoveWorld, AllQuiet;
      CalmSuspendsQuietly(MoveWorld(w, moves[0]), moves[1..]);
    }
  }

  // ---- Which interrupt loses a packet ----

  /** Stopping frees a pending packet, completes nothing and keeps the filter. */
  lemma StopFreesPending(s: Sys, held: set<nat>, alloc: set<nat>)
    requires Inv(s, held, alloc)
    ensures var r := StopReceiving(s);
            && r.pool.completed == s.pool.completed && r.prx.filter == s.prx.filter
            && (s.prx.pendingRxIdx.Some? ==> r.pool.st[s.prx.pendingRxIdx.value] == Free)
  {
    hide Owned;
  }

  lemma InterruptedWhenReady(w: World, rx: Rx)
    requires InRange(w.sys) && w.task == Ready && !w.masked
    ensures var sys := HandleRadioEvent(w.sys, true, false, rx).0;
            var r := MoveWorld(MoveWorld(w, RadioIsr(true, rx)), Advance);
            && r.sys == StopReceiving(sys) && r.task == Suspended
            && r.froms == w.froms + [sys.prx.state] && r.stops == w.stops
  {
    hide HandleRadioEvent, StopReceiving;
  }

  /** The frames that are accepted and pending their ACK when the interrupt returns. */
  predicate Loses(s: Sys, rx: Rx)
    requires InRange(s) && s.prx.state == Receiver
  {
    var header := s.pool.pkt[s.prx.rxIdx.value];
    rx.crcOk && !header.noAck && !CheckDuplicate(s.prx.filter, rx.pipe, header.pid, rx.crc)
  }

  /**
   One interrupt between the poll that found the machine listening and the suspension. The
   machine is suspended from an ACK state exactly when a good frame wants an ACK. A packet
   is remembered by the filter but not completed exactly when that frame is no repeat; its
   buffer is then free, and the filter takes its retransmission for a repeat.
   */
  lemma RaceExactly(w: World, rx: Rx, held: set<nat>, alloc: set<nat>)
    requires Inv(w.sys, held, alloc) && !w.masked && w.task == Ready && w.sys.prx.state == Receiver
    ensures var i := w.sys.prx.rxIdx.value;
            var header := w.sys.pool.pkt[i];
            var r := MoveWorld(MoveWorld(w, RadioIsr(true, rx)), Advance);
            && r.task == Suspended && |r.froms| == |w.froms| + 1 && w.froms <= r.froms && r.stops == w.stops
            && (Quiet(r.froms[|w.froms|]) <==> !rx.crcOk || header.noAck)
            && (r.froms[|w.froms|] == TxAck <==> Loses(w.sys, rx))
            && (r.sys.prx.filter != w.sys.prx.filter && r.sys.pool.completed == w.sys.pool.completed
                <==> Loses(w.sys, rx))
            && (Loses(w.sys, rx) ==>
                  && r.sys.pool.completed == w.sys.pool.completed && r.sys.pool.st[i] == Free
                  && CheckDuplicate(r.sys.prx.filter, rx.pipe, header.pid, rx.crc))
  {
    assert |w.sys.prx.filter| == NUM_PIPES && InRange(w.sys);
    assert !rx.crcOk ==> HandleRadioEvent(w.sys, true, false, rx).0 == w.sys;
    hide HandleRadioEvent, QueueOnlyShrinks, StopReceiving, MoveWorld, Inv;
    InterruptedWhenReady(w, rx);
    HandleRadioEventInv(w.sys, true, false, rx, held, alloc);
    StopFreesPending(HandleRadioEvent(w.sys, true, false, rx).0, held, alloc);
    if rx.crcOk {
      ReceiveShape(w.sys, rx, held, alloc);
    }
  }

  // ---- What becomes of every accepted packet ----

  /** The accepted packets that nothing has freed before completion, oldest first. */
  function Kept(a: seq<Acceptance>): seq<Packet> {
    if a == [] then []
    else
      var last := a[|a| - 1];
      Kept(a[..|a| - 1]) + (if last.lost then [] else [last.pkt])
  }

  function LostCount(a: seq<Acceptance>): nat {
    if a == [] then 0 else LostCount(a[..|a| - 1]) + (if a[|a| - 1].lost then 1 else 0)
  }

  /** How many of the states are TxAck. */
  function FromTxAck(froms: seq<StatePrx>): nat {
    if froms == [] then 0
    else FromTxAck(froms[..|froms| - 1]) + (if froms[|froms| - 1] == TxAck then 1 else 0)
  }

  /** The packet whose ACK is on the air. */
  function Pending(s: Sys): seq<Packet>
    requires InRange(s)
  {
    if s.prx.pendingRxIdx.Some? then [s.pool.pkt[s.prx.pendingRxIdx.value]] else []
  }

  /** Accepted packets are the completed ones, the pending one, and as many lost ones. */
  predicate Accounts(accepted: seq<Acceptance>, losses: nat, completed: seq<Packet>, pending: seq<Packet>) {
    && Kept(accepted) == completed + pending
    && LostCount(accepted) == losses
    && (pending != [] ==> accepted != [] && !accepted[|accepted| - 1].lost)
  }

  /** How often an ACK was cut short, by a suspension or by `stop`. */
  function Losses(w: World): nat {
    FromTxAck(w.froms) + FromTxAck(w.stops)
  }

  ghost predicate AccountInv(w: World) {
    && Inv(w.sys, w.app.held, w.app.alloc)
    && Accounts(w.accepted, Losses(w), w.sys.pool.completed, Pending(w.sys))
  }

  lemma AccountsAccept(
    a: seq<Acceptance>, losses: nat, was: seq<Packet>, x: Packet, now: seq<Packet>, pending: seq<Packet>)
    requires Accounts(a, losses, was, []) && now + pending == was + [x]
    ensures Accounts(a + [Acceptance(x, false)], losses, now, pending)
  {
    assert (a + [Acceptance(x, false)])[..|a|] == a;
    assert was + [] == was;
  }

  lemma AccountsComplete(a: seq<Acceptance>, losses: nat, was: seq<Packet>, pending: seq<Packet>)
    requires Accounts(a, losses, was, pending)
    ensures Accounts(a, losses, was + pending, [])
  {
    hide Kept;
    assert was + pending + [] == was + pending;
  }

  lemma AccountsLose(a: seq<Acceptance>, losses: nat, was: seq<Packet>, x: Packet)
    requires Accounts(a, losses, was, [x])
    ensures Accounts(LoseNewest(a), losses + 1, was, [])
  {
    var rest := a[..|a| - 1];
    assert LoseNewest(a)[..|a| - 1] == rest;
    Unappend(Kept(rest), a[|a| - 1].pkt, was, x);
    assert was + [] == was && Kept(rest) + [] == Kept(rest);
  }

  lemma CountNewest(froms: seq<StatePrx>, st: StatePrx)
    ensures FromTxAck(froms + [st]) == FromTxAck(froms) + (if st == TxAck then 1 else 0)
  {
    assert (froms + [st])[..|froms|] == froms;
  }

  lemma Unappend(a: seq<Packet>, x: Packet, b: seq<Packet>, y: Packet)
    requires a + [x] == b + [y]
    ensures a == b && x == y
  {
    assert (a + [x])[..|a|] == a && (b + [y])[..|b|] == b;
    assert |a + [x]| == |b + [y]|;
    assert (a + [x])[|a|] == x && (b + [y])[|b|] == y;
  }

  lemma CallsAccount(w: World, call: AppAction, maxLen: nat)
    requires AccountInv(w)
    ensures AccountInv(MoveWorld(w, Calls(call, maxLen)))
  {
    hide Accounts, Owned, AppStep;
    AppStepOwned(w.sys.pool, w.app, call, maxLen, DmaSet(w.sys.prx));
    if w.sys.prx.pendingRxIdx.Some? {
      PendingInDma(w.sys, w.app.held, w.app.alloc);
    }
  }

  lemma PendingInDma(s: Sys, held: set<nat>, alloc: set<nat>)
    requires Inv(s, held, alloc) && s.prx.pendingRxIdx.Some?
    ensures s.pool.st[s.prx.pendingRxIdx.value] == InDma
  {
    assert s.prx.pendingRxIdx.value in DmaSet(s.prx);
  }

  /** What an interrupt accepts. */
  function News(w: World, rx: Rx): seq<Packet>
    requires InRange(w.sys)
  {
    var event := HandleRadioEvent(w.sys, true, false, rx).1;
    if w.sys.prx.state == Receiver && (event == Received || event == ReceivedNoAck) then [Stored(w.sys, rx)] else []
  }

  lemma PendingExactlyInTxAck(s: Sys, held: set<nat>, alloc: set<nat>)
    requires Inv(s, held, alloc)
    ensures InRange(s) && (s.prx.pendingRxIdx.Some? <==> s.prx.state == TxAck)
  {
    hide Owned, InRange;
  }

  /** The branches in which the handler does not look at the frame. */
  lemma WithoutFrame(s: Sys, rx: Rx)
    requires InRange(s)
    ensures var r := HandleRadioEvent(s, true, false, rx);
            && (s.prx.state == Receiver && !rx.crcOk ==> r == (s, BadCrc, None))
            && (s.prx.state == Idle ==> r.0 == StartReceiving(s).0)
            && (s.prx.state != Receiver ==> r == HandleRadioEvent(s, true, false, Rx(true, 0, 0, 0)))
  {
  }

  /** A received frame is completed, or pending, or no news. */
  lemma ReceiveConserves(w: World, rx: Rx, held: set<nat>, alloc: set<nat>)
    requires Inv(w.sys, held, alloc) && w.sys.prx.state == Receiver
    ensures var r := HandleRadioEvent(w.sys, true, false, rx).0;
            && Inv(r, held, alloc)
            && Pending(w.sys) == [] && r.pool.completed + Pending(r) == w.sys.pool.completed + News(w, rx)
            && (r.prx.pendingRxIdx.Some? ==> News(w, rx) != [])
  {
    hide HandleRadioEvent, QueueOnlyShrinks, CheckDuplicate, Inv, InRange;
    PendingExactlyInTxAck(w.sys, held, alloc);
    HandleRadioEventInv(w.sys, true, false, rx, held, alloc);
    var r := HandleRadioEvent(w.sys, true, false, rx).0;
    PendingExactlyInTxAck(r, held, alloc);
    WithoutFrame(w.sys, rx);
    if rx.crcOk {
      ReceiveShape(w.sys, rx, held, alloc);
    }
  }

  /** The end of an ACK completes the pending packet; starting to listen completes nothing. */
  lemma OtherConserves(w: World, rx: Rx, held: set<nat>, alloc: set<nat>)
    requires Inv(w.sys, held, alloc) && w.sys.prx.state != Receiver
    ensures var r := HandleRadioEvent(w.sys, true, false, rx).0;
            && Inv(r, held, alloc)
            && r.pool.completed == w.sys.pool.completed + Pending(w.sys)
            && News(w, rx) == [] && r.prx.pendingRxIdx.None?
  {
    hide HandleRadioEvent, QueueOnlyShrinks, StartReceiving, StopReceiving, Inv, InRange;
    PendingExactlyInTxAck(w.sys, held, alloc);
    HandleRadioEventInv(w.sys, true, false, rx, held, alloc);
    var r := HandleRadioEvent(w.sys, true, false, rx).0;
    PendingExactlyInTxAck(r, held, alloc);
    WithoutFrame(w.sys, rx);
    if w.sys.prx.state == Idle {
      QuietShape(w.sys, 0, held, alloc);
    } else {
      AckSentShape(w.sys, held, alloc);
    }
  }

  /** An interrupt accounts for what it accepts. */
  lemma IsrAccount(w: World, rx: Rx)
    requires AccountInv(w)
    ensures AccountInv(OnRadioInterrupt(w, true, rx))
  {
    hide Accounts, HandleRadioEvent, Inv, InRange;
    PendingExactlyInTxAck(w.sys, w.app.held, w.app.alloc);
    var r := OnRadioInterrupt(w, true, rx);
    var done := w.sys.pool.completed;
    if w.sys.prx.state == Receiver {
      ReceiveConserves(w, rx, w.app.held, w.app.alloc);
      if News(w, rx) != [] {
        AccountsAccept(w.accepted, Losses(w), done, Stored(w.sys, rx), r.sys.pool.completed, Pending(r.sys));
      } else {
        assert done + [] == done && r.sys.pool.completed + [] == r.sys.pool.completed;
      }
    } else {
      OtherConserves(w, rx, w.app.held, w.app.alloc);
      AccountsComplete(w.accepted, Losses(w), done, Pending(w.sys));
    }
  }

  lemma StopConserves(s: Sys, held: set<nat>, alloc: set<nat>)
    requires Inv(s, held, alloc)
    ensures var r := StopReceiving(s);
            && Inv(r, held, alloc) && r.prx.state == Idle && r.prx.pendingRxIdx.None?
            && r.pool.completed == s.pool.completed
  {
    hide Inv, InRange, QueueOnlyShrinks, StopReceiving, StartReceiving, HandleRadioEvent, CheckDuplicate;
    PendingExactlyInTxAck(s, held, alloc);
    StopReceivingInv(s, held, alloc);
    QuietShape(s, 0, held, alloc);
    PendingExactlyInTxAck(StopReceiving(s), held, alloc);
  }

  /** Stopping, and so suspending, frees the pending packet, if there is one, and nothing else. */
  lemma StopAccount(w: World)
    requires AccountInv(w)
    ensures AccountInv(DoSuspend(w)) && AccountInv(OnStop(w))
    ensures DoSuspend(w).sys.prx.state == Idle
  {
    hide Accounts, Inv, InRange, LoseNewest, StopReceiving, FromTxAck;
    StopConserves(w.sys, w.app.held, w.app.alloc);
    PendingExactlyInTxAck(w.sys, w.app.held, w.app.alloc);
    CountNewest(w.froms, w.sys.prx.state);
    CountNewest(w.stops, w.sys.prx.state);
    if w.sys.prx.pendingRxIdx.Some? {
      AccountsLose(w.accepted, Losses(w), w.sys.pool.completed, Pending(w.sys)[0]);
    }
  }

  ghost predicate RunInv(w: World) {
    FlagInv(w) && AccountInv(w) && (w.task == Suspended ==> w.sys.prx.state == Idle)
  }

  lemma FrameAccount(w: World, pkt: Packet)
    requires AccountInv(w)
    ensures AccountInv(MoveWorld(w, Frame(pkt)))
  {
    hide Accounts, Owned;
    FrameArrivesInv(w.sys, pkt, w.app.held, w.app.alloc);
  }

  lemma ListenAccount(w: World)
    requires AccountInv(w) && !w.masked
    ensures AccountInv(MoveWorld(w, StartListening))
  {
    hide Accounts, Inv, InRange, QueueOnlyShrinks, StopReceiving, StartReceiving, HandleRadioEvent;
    QuietShape(w.sys, 0, w.app.held, w.app.alloc);
    StartReceivingInv(w.sys, w.app.held, w.app.alloc);
    PendingExactlyInTxAck(w.sys, w.app.held, w.app.alloc);
    PendingExactlyInTxAck(StartReceiving(w.sys).0, w.app.held, w.app.alloc);
  }

  /** An interrupt without the DISABLED event does nothing, except in Idle, where there is none to wait for. */
  lemma IdleInterrupt(w: World, rx: Rx)
    requires InRange(w.sys)
    ensures var r := OnRadioInterrupt(w, false, rx);
            var a := if w.sys.prx.state == Idle then OnRadioInterrupt(w, true, rx) else w;
            && r.sys == a.sys && r.app == a.app
            && r.accepted == a.accepted && r.froms == a.froms && r.stops == a.stops
  {
    hide StartReceiving, OnReceive, OnAckSent, Rearm;
  }

  lemma InvInRange(w: World)
    requires AccountInv(w)
    ensures InRange(w.sys)
  {
    hide Accounts, Owned, InRange;
  }

  /** The account does not look at the task and its flags. */
  lemma SameAccount(w: World, r: World)
    requires AccountInv(w) && r.sys == w.sys && r.app == w.app
    requires r.accepted == w.accepted && r.froms == w.froms && r.stops == w.stops
    ensures AccountInv(r)
  {
    hide Accounts, Inv, FromTxAck;
  }

  lemma IsrsAccount(w: World, disabled: bool, rx: Rx)
    requires AccountInv(w)
    ensures AccountInv(OnRadioInterrupt(w, disabled, rx))
  {
    hide AccountInv, OnRadioInterrupt, InRange;
    InvInRange(w);
    IsrAccount(w, rx);
    if !disabled {
      IdleInterrupt(w, rx);
      SameAccount(if w.sys.prx.state == Idle then OnRadioInterrupt(w, true, rx) else w, OnRadioInterrupt(w, false, rx));
    }
  }

  lemma MoveKeepsFlags(w: World, m: Move)
    requires InRange(w.sys) && FlagInv(w)
    ensures FlagInv(MoveWorld(w, m))
  {
    hide HandleRadioEvent, AppStep, FrameArrives, StopReceiving, StartReceiving, InRange;
  }

  lemma MoveAccount(w: World, m: Move)
    requires RunInv(w)
    ensures RunInv(MoveWorld(w, m))
  {
    hide FlagInv, AccountInv, StopReceiving, OnRadioInterrupt, DoSuspend, StartReceiving, AppStep, InRange;
    InvInRange(w);
    MoveKeepsFlags(w, m);
    FlagsMask(w);
    if m.Calls? {
      CallsAccount(w, m.call, m.maxLen);
    } else if m.Frame? {
      FrameAccount(w, m.pkt);
    } else if m.StartListening? {
      if !w.masked {
        ListenAccount(w);
      }
    } else if m.RadioIsr? {
      if !w.masked {
        IsrsAccount(w, m.disabled, m.rx);
        IsrKeepsTask(w, m.disabled, m.rx);
      }
    } else {
      StopAccount(w);
      if !m.Stop? {
        TaskAccount(w, m);
      }
    }
  }

  lemma IsrKeepsTask(w: World, disabled: bool, rx: Rx)
    requires InRange(w.sys)
    ensures OnRadioInterrupt(w, disabled, rx).task == w.task
  {
    hide HandleRadioEvent;
  }

  lemma FlagsMask(w: World)
    requires FlagInv(w)
    ensures w.masked <==> w.task == Suspended
  {
  }

  /** The pieces of the future change buffers and history by suspending only. */
  lemma TaskMoves(w: World, m: Move)
    requires InRange(w.sys) && (w.task == Suspended ==> w.sys.prx.state == Idle)
    requires m.Suspend? || m.Advance? || m.Cancel? || m.Resume?
    ensures var r := MoveWorld(w, m);
            || r == DoSuspend(w)
            || (r == w.(task := r.task, suspendRequested := r.suspendRequested, registered := r.registered,
                     woken := r.woken, masked := r.masked)
                && (r.task == Suspended ==> w.task == Suspended))
  {
    hide StopReceiving, StartReceiving, OnRadioInterrupt, FrameArrives, AppStep, InRange;
  }

  lemma TaskAccount(w: World, m: Move)
    requires AccountInv(w) && AccountInv(DoSuspend(w)) && (w.task == Suspended ==> w.sys.prx.state == Idle)
    requires DoSuspend(w).sys.prx.state == Idle && (m.Suspend? || m.Advance? || m.Cancel? || m.Resume?)
    ensures AccountInv(MoveWorld(w, m))
    ensures MoveWorld(w, m).task == Suspended ==> MoveWorld(w, m).sys.prx.state == Idle
  {
    hide MoveWorld, DoSuspend, AccountInv;
    InvInRange(w);
    TaskMoves(w, m);
    if MoveWorld(w, m) != DoSuspend(w) {
      SameAccount(w, MoveWorld(w, m));
    }
  }

  lemma {:induction false} RunAccount(w: World, moves: seq<Move>)
    requires RunInv(w)
    ensures RunInv(MoveRun(w, moves))
    decreases |moves|
  {
    if moves != [] {
      MoveAccount(w, moves[0]);
      hide MoveWorld, RunInv;
      RunAccount(MoveWorld(w, moves[0]), moves[1..]);
    }
  }

  /** At power-up nothing is listening and nothing was accepted. */
  function Start(n: nat): (w: World)
    ensures InRange(w.sys)
  {
    World(Sys(INITIAL_PRX, EmptyPool(n)), IDLE_APP, false, false, false, false, Outside, [], [], [])
  }

  lemma StartRunInv(n: nat)
    ensures RunInv(Start(n)) && WorldInv(Start(n)) && AllQuiet(Start(n))
  {
    InitialInv(n);
  }

  /**
   In every run from power-up, whatever the interleaving: the accepted packets that are
   not lost are, in order, the completed ones and the one whose ACK is on the air; and as
   many are lost as the machine was suspended or stopped in TxAck.
   */
  lemma AcceptedAreAccountedFor(n: nat, moves: seq<Move>)
    ensures var r := MoveRun(Start(n), moves);
            && Kept(r.accepted) == r.sys.pool.completed + Pending(r.sys)
            && LostCount(r.accepted) == FromTxAck(r.froms) + FromTxAck(r.stops)
            && |r.accepted| == |r.sys.pool.completed| + |Pending(r.sys)| + FromTxAck(r.froms) + FromTxAck(r.stops)
            && Owned(r.sys.pool, DmaSet(r.sys.prx), r.app.held, r.app.alloc)
  {
    StartRunInv(n);
    RunAccount(Start(n), moves);
    hide MoveRun, Owned;
    KeptOrLost(MoveRun(Start(n), moves).accepted);
  }

  lemma KeptOrLost(a: seq<Acceptance>)
    ensures |a| == |Kept(a)| + LostCount(a)
  {
  }

  lemma QuietCount(froms: seq<StatePrx>)
    requires forall k | 0 <= k < |froms| :: Quiet(froms[k])
    ensures FromTxAck(froms) == 0
  {
  }

  /** A calm run loses nothing. */
  lemma CalmLosesNothing(n: nat, moves: seq<Move>)
    requires Calm(Start(n), moves)
    ensures LostCount(MoveRun(Start(n), moves).accepted) == 0
  {
    StartRunInv(n);
    hide MoveRun, Owned;
    CalmSuspendsQuietly(Start(n), moves);
    AcceptedAreAccountedFor(n, moves);
    QuietCount(MoveRun(Start(n), moves).froms);
    QuietCount(MoveRun(Start(n), moves).stops);
  }

  // ---- The race is reachable ----

  /** A packet is being answered when the suspension is requested; its ACK ends while the future polls. */
  function UntilReady(first: Packet, rx: Rx): seq<Move> {
    [StartListening, Frame(first), RadioIsr(true, rx), Suspend, Advance, Advance, RadioIsr(true, rx), Advance]
  }

  lemma StartListens(n: nat)
    requires n >= 2
    ensures var w := MoveWorld(Start(n), StartListening);
            && Inv(w.sys, {}, {}) && w == Start(n).(sys := w.sys) && w.sys.prx.state == Receiver
            && w.sys.prx.filter == INITIAL_PRX.filter && w.sys.pool.completed == []
            && |w.sys.pool.st| == n && w.sys.pool.st[1] == Free
  {
    InitialInv(n);
    var w0 := Start(n);
    StartReceivingInv(w0.sys, {}, {});
    assert w0.sys.pool.st[0] == Free && w0.sys.pool.st[1] == Free;
    hide Owned;
  }

  /** The machine answers its first packet. */
  lemma FirstAnswered(n: nat, first: Packet, rx: Rx)
    requires n >= 2 && rx.crcOk && !first.noAck
    ensures var w := MoveWorld(MoveWorld(MoveWorld(Start(n), StartListening), Frame(first)), RadioIsr(true, rx));
            && Inv(w.sys, {}, {}) && w == Start(n).(sys := w.sys, accepted := w.accepted)
            && w.sys.prx.state == TxAck
            && w.sys.prx.filter == INITIAL_PRX.filter[rx.pipe := Some(Seen(first.pid, rx.crc))]
            && w.sys.pool.completed == [] && Free in w.sys.pool.st
  {
    hide MoveWorld, HandleRadioEvent, Inv, InRange, QueueOnlyShrinks;
    StartListens(n);
    var w1 := MoveWorld(Start(n), StartListening);
    FrameLands(w1, first);
    var w2 := MoveWorld(w1, Frame(first));
    PendingExactlyInTxAck(w2.sys, {}, {});
    IsrUnrequested(w2, rx);
    ReceiveShape(w2.sys, rx, {}, {});
    HandleRadioEventInv(w2.sys, true, false, rx, {}, {});
    StillFree(w2.sys, rx);
  }

  lemma IsrUnrequested(w: World, rx: Rx)
    requires InRange(w.sys) && !w.masked && !w.suspendRequested
    ensures var r := MoveWorld(w, RadioIsr(true, rx));
            r.sys == HandleRadioEvent(w.sys, true, false, rx).0 && r == w.(sys := r.sys, accepted := r.accepted)
  {
    hide HandleRadioEvent;
  }

  /** Handling a packet that wants an ACK frees and claims nothing but a queued payload. */
  lemma StillFree(s: Sys, rx: Rx)
    requires InRange(s) && s.prx.state == Receiver && rx.crcOk && !s.pool.pkt[s.prx.rxIdx.value].noAck
    requires |s.pool.st| >= 2 && s.pool.st[1] == Free
    ensures var r := HandleRadioEvent(s, true, false, rx).0; |r.pool.st| == |s.pool.st| && r.pool.st[1] == Free
  {
  }

  lemma AsksWhileAnswering(w: World)
    requires InRange(w.sys) && w.sys.prx.state == TxAck && w.task == Outside
    ensures MoveWorld(MoveWorld(MoveWorld(w, Suspend), Advance), Advance) ==
            w.(suspendRequested := true, registered := true, task := Registered)
  {
    hide HandleRadioEvent, StopReceiving;
  }

  lemma AckEndsListening(s: Sys, rx: Rx)
    requires Inv(s, {}, {}) && s.prx.state == TxAck && Free in s.pool.st
    ensures var r := HandleRadioEvent(s, true, false, rx).0;
            && Inv(r, {}, {}) && r.prx.state == Receiver && r.prx.filter == s.prx.filter
            && |r.pool.completed| == |s.pool.completed| + 1
  {
    OnAckSentInv(s, {}, {});
    assert forall i | i in DmaSet(s.prx) :: i < |s.pool.st| && s.pool.st[i] == InDma;
    ListensAgain(s);
    hide OnAckSent, Owned, DmaSet;
  }

  lemma WokenWhileListening(w: World, rx: Rx)
    requires InRange(w.sys) && w.task == Registered && w.suspendRequested && w.registered && !w.masked
    requires w.sys.prx.state == TxAck
    requires HandleRadioEvent(w.sys, true, false, rx).0.prx.state == Receiver
    ensures MoveWorld(MoveWorld(w, RadioIsr(true, rx)), Advance) ==
            w.(sys := HandleRadioEvent(w.sys, true, false, rx).0, registered := false, woken := true, task := Ready)
  {
    hide HandleRadioEvent, StopReceiving;
  }

  /** From there the requested future is told it is ready while the machine listens again. */
  lemma ReadyWhileListening(w: World, rx: Rx)
    requires Inv(w.sys, {}, {}) && w.sys.prx.state == TxAck && Free in w.sys.pool.st
    requires w.task == Outside && !w.masked
    ensures var a := MoveWorld(MoveWorld(MoveWorld(w, Suspend), Advance), Advance);
            var sys := HandleRadioEvent(w.sys, true, false, rx).0;
            && MoveWorld(MoveWorld(a, RadioIsr(true, rx)), Advance) ==
               w.(sys := sys, suspendRequested := true, registered := false, woken := true, task := Ready)
            && Inv(sys, {}, {}) && sys.prx.state == Receiver && sys.prx.filter == w.sys.prx.filter
            && |sys.pool.completed| == |w.sys.pool.completed| + 1
  {
    assert InRange(w.sys);
    hide HandleRadioEvent, Inv, MoveWorld, InRange;
    AsksWhileAnswering(w);
    AckEndsListening(w.sys, rx);
    WokenWhileListening(w.(suspendRequested := true, registered := true, task := Registered), rx);
  }

  lemma ListensAgain(s: Sys)
    requires InRange(s) && RadioInv(s.prx) && s.prx.state == TxAck && Free in s.pool.st
    requires forall i | i in DmaSet(s.prx) :: i < |s.pool.st| && s.pool.st[i] == InDma
    ensures OnAckSent(s).prx.state == Receiver
  {
    var i :| 0 <= i < |s.pool.st| && s.pool.st[i] == Free;
    var p := s.prx.pendingRxIdx.value;
    assert p in DmaSet(s.prx);
    var v := RxComplete(s.pool, p);
    assert v.st[i] == Free;
    var w := ReleaseIdx(v, s.prx.ackTxIdx);
    assert w.st[i] == Free;
  }

  /**
   A whole run from power-up, with any first packet and any second one that differs in PID:
   the second is accepted, the machine is suspended from TxAck, and only the first packet
   was ever completed.
   */
  lemma SuspendLosesAcceptedPacket(n: nat, first: Packet, second: Packet, rx: Rx, rx2: Rx)
    requires n >= 2 && rx.crcOk && rx2.crcOk && !first.noAck && !second.noAck && first.pid != second.pid
    ensures var r := MoveRun(Start(n), UntilReady(first, rx) + [Frame(second), RadioIsr(true, rx2), Advance]);
            && r.task == Suspended && r.froms == [TxAck] && r.stops == [] && |r.sys.pool.completed| == 1
            && LostCount(r.accepted) == 1
            && CheckDuplicate(r.sys.prx.filter, rx2.pipe, second.pid, rx2.crc)
  {
    hide MoveWorld, Inv, InRange;
    var w3 := MoveWorld(MoveWorld(MoveWorld(Start(n), StartListening), Frame(first)), RadioIsr(true, rx));
    FirstAnswered(n, first, rx);
    var w6 := MoveWorld(MoveWorld(MoveWorld(w3, Suspend), Advance), Advance);
    var w8 := MoveWorld(MoveWorld(w6, RadioIsr(true, rx)), Advance);
    ReadyWhileListening(w3, rx);
    var w9 := MoveWorld(w8, Frame(second));
    FrameLands(w8, second);
    RaceExactly(w9, rx2, {}, {});
    var tail := [Frame(second), RadioIsr(true, rx2), Advance];
    RunSteps(Start(n), UntilReady(first, rx) + tail);
    AcceptedAreAccountedFor(n, UntilReady(first, rx) + tail);
    assert FromTxAck([TxAck]) == 1;
  }

  lemma FrameLands(w: World, second: Packet)
    requires Inv(w.sys, {}, {}) && w.sys.prx.state == Receiver
    ensures var r := MoveWorld(w, Frame(second));
            && Inv(r.sys, {}, {}) && r == w.(sys := r.sys) && r.sys.prx == w.sys.prx
            && r.sys.pool.completed == w.sys.pool.completed && r.sys.pool.st == w.sys.pool.st
            && r.sys.prx.rxIdx.Some? && r.sys.prx.rxIdx.value < |r.sys.pool.pkt|
            && var b := r.sys.pool.pkt[r.sys.prx.rxIdx.value]; b.pid == second.pid && b.noAck == second.noAck
  {
    assert FrameArrives(w.sys, second).pool.st == w.sys.pool.st;
    FrameArrivesShape(w.sys, second, {}, {});
    FrameArrivesInv(w.sys, second, {}, {});
    hide FrameArrives, Owned, QueueOnlyShrinks;
  }

  /** A run of eleven moves, written out. */
  lemma RunSteps(w: World, s: seq<Move>)
    requires InRange(w.sys) && |s| == 11
    ensures var w3 := MoveWorld(MoveWorld(MoveWorld(w, s[0]), s[1]), s[2]);
            var w6 := MoveWorld(MoveWorld(MoveWorld(w3, s[3]), s[4]), s[5]);
            var w9 := MoveWorld(MoveWorld(MoveWorld(w6, s[6]), s[7]), s[8]);
            MoveRun(w, s) == MoveWorld(MoveWorld(w9, s[9]), s[10])
  {
    hide MoveWorld;
    RunThree(w, s);
    var w3 := MoveWorld(MoveWorld(MoveWorld(w, s[0]), s[1]), s[2]);
    RunThree(w3, s[3..]);
    var w6 := MoveWorld(MoveWorld(MoveWorld(w3, s[3]), s[4]), s[5]);
    RunThree(w6, s[3..][3..]);
    var w9 := MoveWorld(MoveWorld(MoveWorld(w6, s[6]), s[7]), s[8]);
    var t := s[3..][3..][3..];
    assert t[1..][1..] == [];
    assert MoveRun(w9, t) == MoveRun(MoveWorld(w9, s[9]), t[1..]);
    assert MoveRun(MoveWorld(w9, s[9]), t[1..]) == MoveRun(MoveWorld(MoveWorld(w9, s[9]), s[10]), t[1..][1..]);
  }

  lemma RunThree(w: World, s: seq<Move>)
    requires InRange(w.sys) && |s| >= 3
    ensures MoveRun(w, s) == MoveRun(MoveWorld(MoveWorld(MoveWorld(w, s[0]), s[1]), s[2]), s[3..])
  {
    hide MoveWorld;
    assert s[1..][1..] == s[2..] && s[2..][1..] == s[3..];
    var w1 := MoveWorld(w, s[0]);
    var w2 := MoveWorld(w1, s[1]);
    assert MoveRun(w1, s[1..]) == MoveRun(w2, s[2..]);
    assert MoveRun(w2, s[2..]) == MoveRun(MoveWorld(w2, s[2]), s[3..]);
  }

  /**
   The stop that strands is reachable too: a packet is being answered when the suspension
   is requested, the future waits, and `stop` makes the machine idle without waking it.
   */
  lemma StopStrandsTask(n: nat, first: Packet, rx: Rx)
    requires n >= 2 && rx.crcOk && !first.noAck
    ensures var r := MoveRun(Start(n), [StartListening, Frame(first), RadioIsr(true, rx),
                                        Suspend, Advance, Advance, Advance, Stop]);
            r.task == Waiting && r.sys.prx.state == Idle && !r.woken && r.stops == [TxAck]
  {
    var s := [StartListening, Frame(first), RadioIsr(true, rx), Suspend, Advance, Advance, Advance, Stop];
    hide MoveWorld, Inv, InRange, StopReceiving;
    FirstAnswered(n, first, rx);
    RunThree(Start(n), s);
    var w3 := MoveWorld(MoveWorld(MoveWorld(Start(n), s[0]), s[1]), s[2]);
    AsksWhileAnswering(w3);
    RunThree(w3, s[3..]);
    var w6 := MoveWorld(MoveWorld(MoveWorld(w3, s[3]), s[4]), s[5]);
    var t := s[3..][3..];
    assert t == [Advance, Stop] && t[1..] == [Stop] && t[1..][1..] == [];
    assert MoveRun(w6, t) == MoveRun(MoveWorld(w6, Advance), [Stop]) == MoveWorld(MoveWorld(w6, Advance), Stop);
    WaitsThenStops(w6);
  }

  lemma WaitsThenStops(w: World)
    requires InRange(w.sys) && w.task == Registered && w.sys.prx.state == TxAck && !w.masked
    ensures var r := MoveWorld(MoveWorld(w, Advance), Stop);
            && r.task == Waiting && r.sys.prx.state == Idle && r.woken == w.woken
            && r.stops == w.stops + [TxAck]
  {
  }
}
