/**
 The PTX state machine (src/state_machine.rs) as a function on values.

 `Ptx` has the fields of `PtxStateMachine`, what the radio was last told to do, the
 timer, and four history fields the source does not store: the packets dequeued so far
 (`sent`), how each finished (`fates`), the failed ACK waits of the current packet
 (`failed`), and every transmission ever started (`air`).
 */
module PtxModel {
  import opened Wrappers
  import opened PoolModel
  import opened TimerModel

  datatype StatePtx = Idle | Tx | TxNoAck | WaitAck | WaitRetransmit

  datatype PtxEvent = NoEvent | MaxAttempts

  /** The radio as the driver has programmed it; a buffer index is a DMA pointer. */
  datatype Radio = Off | Transmitting(pipe: nat, idx: nat, ack: bool) | Listening(idx: nat)

  datatype Fate = Acked(failed: nat) | Dropped(failed: nat) | Unacked

  /** One transmission: the number of the packet in dequeue order, and its contents. */
  datatype AirFrame = AirFrame(num: nat, pkt: Packet)

  datatype Ptx = Ptx(
    state: StatePtx, attempts: nat, maxAttempts: nat,
    retransmitDelayUs: nat, ackTimeoutUs: nat,
    pid: nat, txIdx: Option<nat>, ackRxIdx: Option<nat>, activeTxPipe: nat,
    radio: Radio, timer: Timer,
    sent: seq<Packet>, fates: seq<Fate>, failed: nat, air: seq<AirFrame>)

  datatype Sys = Sys(ptx: Ptx, pool: Pool)

  /** The two event flags an interrupt finds, and the CRC status of the radio. */
  datatype Events = Events(disabled: bool, timer: bool, crcOk: bool)

  predicate UserEvent(e: Events) {
    !e.disabled && !e.timer
  }

  function InitialPtx(maxAttempts: nat, retransmitDelayUs: nat, ackTimeoutUs: nat, pipe: nat): Ptx {
    Ptx(Idle, 0, maxAttempts, retransmitDelayUs, ackTimeoutUs, 0, None, None, pipe,
        Off, STOPPED, [], [], 0, [])
  }

  /** The indices held by the machine are buffers of the pool. */
  ghost predicate InRange(s: Sys) {
    && Wf(s.pool)
    && (s.ptx.txIdx.Some? ==> s.ptx.txIdx.value < |s.pool.st|)
    && (s.ptx.ackRxIdx.Some? ==> s.ptx.ackRxIdx.value < |s.pool.st|)
  }

  /** `radio.transmit` on the active pipe, recorded as a transmission of the current packet. */
  function Transmit(s: Sys, i: nat, ack: bool): Sys
    requires Wf(s.pool) && i < |s.pool.st|
  {
    s.(ptx := s.ptx.(
    radio := Transmitting(s.ptx.activeTxPipe, i, ack),
    state := if ack then Tx else TxNoAck,
    air := s.ptx.air + [AirFrame(|s.ptx.fates|, s.pool.pkt[i])]))
  }

  function GoIdle(s: Sys): Sys {
    s.(ptx := s.ptx.(state := Idle))
  }

  function SendNext(s: Sys): (r: Sys)
    requires InRange(s)
    ensures InRange(r)
  {
    match s.ptx.txIdx
    case Some(i) => Transmit(s, i, true)
    case None =>
      var (pool, next) := DequeueTx(s.pool);
      match next
      case None => GoIdle(s)
      case Some(i) =>
        var pkt := pool.pkt[i].(pid := s.ptx.pid);
        var ptx := s.ptx.(activeTxPipe := pkt.pipe, txIdx := Some(i), sent := s.ptx.sent + [pkt]);
        Transmit(Sys(ptx, Write(pool, i, pkt)), i, !pkt.noAck)
  }

  function Retransmit(s: Sys): (r: Sys)
    requires InRange(s)
    ensures InRange(r)
  {
    match s.ptx.txIdx
    case Some(i) => Transmit(s, i, true)
    case None => GoIdle(s)
  }

  function ReleaseTx(s: Sys): (r: Sys)
    requires InRange(s)
    ensures InRange(r)
  {
    match s.ptx.txIdx
    case Some(i) => Sys(s.ptx.(txIdx := None), Release(s.pool, i))
    case None => s
  }

  function ReleaseAckRx(s: Sys): (r: Sys)
    requires InRange(s)
    ensures InRange(r)
  {
    match s.ptx.ackRxIdx
    case Some(i) => Sys(s.ptx.(ackRxIdx := None), Release(s.pool, i))
    case None => s
  }

  /** `advance_pid`: the current packet is finished, with the given fate. */
  function AdvancePid(s: Sys, fate: Fate): Sys {
    s.(ptx := s.ptx.(pid := (s.ptx.pid + 1) % 4, fates := s.ptx.fates + [fate], failed := 0))
  }

  function Proceed(s: Sys, suppressNextTx: bool): (r: Sys)
    requires InRange(s)
    ensures InRange(r)
  {
    if suppressNextTx then GoIdle(s) else SendNext(s)
  }

  function StopRadio(s: Sys): Sys {
    s.(ptx := s.ptx.(radio := Off))
  }

  function WithTimer(s: Sys, t: Timer): Sys {
    s.(ptx := s.ptx.(timer := t))
  }

  function OnNoAckSent(s: Sys, suppressNextTx: bool): (r: Sys)
    requires InRange(s)
    ensures InRange(r)
  {
    Proceed(AdvancePid(ReleaseTx(StopRadio(s)), Unacked), suppressNextTx)
  }

  /** TX END of an acknowledged packet: listen for the ACK, or park the packet. */
  function OnTxEnd(s: Sys): (r: Sys)
    requires InRange(s)
    ensures InRange(r)
  {
    var (pool, ack) := AllocDma(s.pool);
    match ack
    case None => GoIdle(StopRadio(s))
    case Some(i) =>
      var t := ArmAckTimeout(ArmRetransmit(s.ptx.timer, s.ptx.retransmitDelayUs), s.ptx.ackTimeoutUs);
      Sys(s.ptx.(radio := Listening(i), ackRxIdx := Some(i), state := WaitAck, timer := t), pool)
  }

  /** A non-empty ACK goes to the application, an empty one is released. */
  function DeliverAck(s: Sys): (r: Sys)
    requires InRange(s)
    ensures InRange(r)
  {
    match s.ptx.ackRxIdx
    case None => s
    case Some(i) =>
      if s.pool.pkt[i].payload != [] then s.(pool := RxComplete(s.pool, i)) else ReleaseAckRx(s)
  }

  function OnAckOk(s: Sys, suppressNextTx: bool): (r: Sys)
    requires InRange(s)
    ensures InRange(r)
  {
    var a := DeliverAck(StopRadio(WithTimer(s, DisarmRetransmit(DisarmAckTimeout(s.ptx.timer)))));
    var b := ReleaseTx(a);
    Proceed(AdvancePid(b.(ptx := b.ptx.(attempts := 0)), Acked(s.ptx.failed)), suppressNextTx)
  }

  /** A bad ACK or an ACK timeout: both disarm CC[1] only and count one failed attempt. */
  function OnAckFailed(s: Sys, suppressNextTx: bool): (r: (Sys, PtxEvent))
    requires InRange(s)
    ensures InRange(r.0)
  {
    var a := ReleaseAckRx(StopRadio(WithTimer(s, DisarmAckTimeout(s.ptx.timer))));
    var b := a.(ptx := a.ptx.(attempts := a.ptx.attempts + 1, failed := a.ptx.failed + 1));
    if b.ptx.attempts >= b.ptx.maxAttempts then
      var c := ReleaseTx(b);
      (Proceed(AdvancePid(c.(ptx := c.ptx.(attempts := 0)), Dropped(b.ptx.failed)), suppressNextTx), MaxAttempts)
    else
      (b.(ptx := b.ptx.(state := WaitRetransmit)), NoEvent)
  }

  function HandleRadioEvent(s: Sys, e: Events, suppressNextTx: bool): (r: (Sys, PtxEvent))
    requires InRange(s)
    ensures InRange(r.0)
  {
    if UserEvent(e) && s.ptx.state != Idle then (s, NoEvent)
    else
      match s.ptx.state
      case Idle => (if suppressNextTx then s else SendNext(s), NoEvent)
      case TxNoAck => (OnNoAckSent(s, suppressNextTx), NoEvent)
      case Tx => (OnTxEnd(s), NoEvent)
      case WaitAck =>
        if e.disabled && e.crcOk then (OnAckOk(s, suppressNextTx), NoEvent)
        else OnAckFailed(s, suppressNextTx)
      case WaitRetransmit => (Retransmit(s), NoEvent)
  }

  /** The radio fills the buffer it is listening into. */
  function AckArrives(s: Sys, ack: Packet): (r: Sys)
    requires InRange(s)
    ensures InRange(r)
  {
    if s.ptx.radio.Listening? && s.ptx.radio.idx < |s.pool.pkt|
    then s.(pool := Write(s.pool, s.ptx.radio.idx, Dma(s.pool.pkt[s.ptx.radio.idx], ack)))
    else s
  }

  /** `do_suspend` as the driver calls it: from Idle, nothing is released. */
  function DoSuspend(s: Sys): (r: Sys)
    requires InRange(s)
    ensures InRange(r)
  {
    var a := if s.ptx.state == Idle then s else ReleaseAckRx(ReleaseTx(s));
    var t := DisarmAckTimeout(DisarmRetransmit(Stop(a.ptx.timer)));
    a.(ptx := a.ptx.(radio := Off, timer := t, state := Idle, attempts := 0, txIdx := None, ackRxIdx := None))
  }

  // ---- What every reachable state satisfies ----

  /** Failed ACK waits a packet may suffer: the source tests `attempts >= max_attempts` after adding one. */
  function Limit(p: Ptx): nat {
    Max(1, p.maxAttempts)
  }

  function TxSet(p: Ptx): set<nat> {
    if p.txIdx.Some? then {p.txIdx.value} else {}
  }

  /** The buffers the machine owns; `ackRxIdx` counts in WaitAck only, it is stale elsewhere. */
  function DmaSet(p: Ptx): set<nat> {
    TxSet(p) + (if p.state == WaitAck && p.ackRxIdx.Some? then {p.ackRxIdx.value} else {})
  }

  function InFlight(p: Ptx): nat {
    if p.txIdx.Some? then 1 else 0
  }

  /** The radio does exactly what the state says, on buffers the machine owns. */
  ghost predicate RadioInv(p: Ptx) {
    && (p.state != Idle ==> p.txIdx.Some?)
    && (p.state == WaitAck ==> p.ackRxIdx.Some? && p.ackRxIdx != p.txIdx)
    && match p.state
       case Idle => p.radio == Off
       case WaitRetransmit => p.radio == Off
       case Tx => p.radio == Transmitting(p.activeTxPipe, p.txIdx.value, true)
       case TxNoAck => p.radio == Transmitting(p.activeTxPipe, p.txIdx.value, false)
       case WaitAck => p.radio == Listening(p.ackRxIdx.value)
  }

  /** PID discipline and the retry budget. */
  ghost predicate CountInv(p: Ptx) {
    && p.pid == |p.fates| % 4
    && |p.sent| == |p.fates| + InFlight(p)
    && p.attempts == p.failed < Limit(p)
    && (p.txIdx.None? ==> p.failed == 0)
  }

  /** The buffer in flight holds the packet being sent, unchanged since it was dequeued. */
  ghost predicate BufferInv(s: Sys) {
    s.ptx.txIdx.Some? ==>
      && s.ptx.txIdx.value < |s.pool.pkt|
      && |s.ptx.fates| < |s.ptx.sent|
      && s.pool.pkt[s.ptx.txIdx.value] == s.ptx.sent[|s.ptx.fates|]
      && s.ptx.activeTxPipe == s.ptx.sent[|s.ptx.fates|].pipe
  }

  /** Every transmission is a copy of a dequeued packet, in dequeue order, none skipped. */
  ghost predicate AirInv(sent: seq<Packet>, air: seq<AirFrame>) {
    && (forall k | 0 <= k < |sent| :: sent[k].pid == k % 4)
    && (forall j | 0 <= j < |air| :: air[j].num < |sent| && air[j].pkt == sent[air[j].num])
    && (forall j | 0 < j < |air| :: air[j - 1].num <= air[j].num <= air[j - 1].num + 1)
    && (air != [] ==> air[0].num == 0)
    && (if air == [] then sent == [] else air[|air| - 1].num + 1 == |sent|)
  }

  /** A dropped packet used its whole budget, an acknowledged one did not. */
  ghost predicate FateOk(fate: Fate, pkt: Packet, limit: nat) {
    match fate
    case Acked(f) => f < limit && !pkt.noAck
    case Dropped(f) => f == limit && !pkt.noAck
    case Unacked => pkt.noAck
  }

  ghost predicate FateInv(fates: seq<Fate>, sent: seq<Packet>, limit: nat) {
    |fates| <= |sent| && forall k | 0 <= k < |fates| :: FateOk(fates[k], sent[k], limit)
  }

  ghost predicate NoAckInv(p: Ptx) {
    && (p.txIdx.Some? && |p.fates| < |p.sent| ==> (p.sent[|p.fates|].noAck <==> p.state == TxNoAck))
    && (p.state == TxNoAck ==> p.failed == 0)
  }

  ghost predicate Inv(s: Sys, held: set<nat>, alloc: set<nat>) {
    && Owned(s.pool, DmaSet(s.ptx), held, alloc)
    && InRange(s)
    && RadioInv(s.ptx) && CountInv(s.ptx) && BufferInv(s)
    && AirInv(s.ptx.sent, s.ptx.air) && FateInv(s.ptx.fates, s.ptx.sent, Limit(s.ptx)) && NoAckInv(s.ptx)
  }

  lemma InitialInv(n: nat, maxAttempts: nat, retransmitDelayUs: nat, ackTimeoutUs: nat, pipe: nat)
    ensures Inv(Sys(InitialPtx(maxAttempts, retransmitDelayUs, ackTimeoutUs, pipe), EmptyPool(n)), {}, {})
  {
    EmptyPoolOwned(n);
  }

  /** Between releasing one packet and choosing the next: the radio is off, only a packet to resend is owned. */
  ghost predicate Between(s: Sys, held: set<nat>, alloc: set<nat>) {
    && Owned(s.pool, TxSet(s.ptx), held, alloc)
    && InRange(s)
    && s.ptx.radio == Off
    && CountInv(s.ptx) && BufferInv(s) && AirInv(s.ptx.sent, s.ptx.air)
    && FateInv(s.ptx.fates, s.ptx.sent, Limit(s.ptx))
    && (s.ptx.txIdx.Some? ==> !s.ptx.sent[|s.ptx.fates|].noAck)
  }

  lemma AirAgain(sent: seq<Packet>, air: seq<AirFrame>)
    requires AirInv(sent, air) && sent != []
    ensures AirInv(sent, air + [AirFrame(|sent| - 1, sent[|sent| - 1])])
  {
  }

  lemma AirNew(sent: seq<Packet>, air: seq<AirFrame>, pkt: Packet)
    requires AirInv(sent, air) && pkt.pid == |sent| % 4
    ensures AirInv(sent + [pkt], air + [AirFrame(|sent|, pkt)])
  {
  }

  lemma SendDequeuedInv(s: Sys, held: set<nat>, alloc: set<nat>)
    requires Between(s, held, alloc) && s.ptx.txIdx.None?
    ensures Inv(SendNext(s), held, alloc)
  {
    hide Owned, AirInv, FateInv;
    DequeueOwned(s.pool, {}, held, alloc);
    var (pool, next) := DequeueTx(s.pool);
    if next.Some? {
      var i := next.value;
      var pkt := pool.pkt[i].(pid := s.ptx.pid);
      WriteOwned(pool, i, pkt, {i}, held, alloc);
      assert {} + {i} == {i};
      AirNew(s.ptx.sent, s.ptx.air, pkt);
      MoreSent(s.ptx.fates, s.ptx.sent, pkt, Limit(s.ptx));
      assert Write(pool, i, pkt).pkt[i] == pkt;
    }
    assert DmaSet(SendNext(s).ptx) == TxSet(SendNext(s).ptx);
  }

  lemma MoreSent(fates: seq<Fate>, sent: seq<Packet>, pkt: Packet, limit: nat)
    requires FateInv(fates, sent, limit)
    ensures FateInv(fates, sent + [pkt], limit)
  {
  }

  lemma SendNextInv(s: Sys, held: set<nat>, alloc: set<nat>)
    requires Between(s, held, alloc)
    ensures Inv(SendNext(s), held, alloc)
  {
    hide Owned, AirInv, FateInv;
    if s.ptx.txIdx.None? {
      SendDequeuedInv(s, held, alloc);
    } else {
      AirAgain(s.ptx.sent, s.ptx.air);
      assert DmaSet(SendNext(s).ptx) == TxSet(SendNext(s).ptx);
    }
  }

  lemma GoIdleInv(s: Sys, held: set<nat>, alloc: set<nat>)
    requires Between(s, held, alloc)
    ensures Inv(GoIdle(s), held, alloc)
  {
    assert DmaSet(GoIdle(s).ptx) == TxSet(s.ptx);
  }

  lemma ProceedInv(s: Sys, suppress: bool, held: set<nat>, alloc: set<nat>)
    requires Between(s, held, alloc)
    ensures Inv(Proceed(s, suppress), held, alloc)
  {
    if suppress {
      GoIdleInv(s, held, alloc);
    } else {
      SendNextInv(s, held, alloc);
    }
  }

  lemma FateNew(fates: seq<Fate>, sent: seq<Packet>, limit: nat, fate: Fate)
    requires FateInv(fates, sent, limit) && |fates| < |sent| && FateOk(fate, sent[|fates|], limit)
    ensures FateInv(fates + [fate], sent, limit)
  {
  }

  /** Finishing the packet in flight, whatever its fate. */
  lemma FinishBetween(s: Sys, fate: Fate, held: set<nat>, alloc: set<nat>)
    requires Owned(s.pool, TxSet(s.ptx), held, alloc) && InRange(s)
    requires s.ptx.txIdx.Some? && s.ptx.radio == Off
    requires |s.ptx.sent| == |s.ptx.fates| + 1 && s.ptx.pid == |s.ptx.fates| % 4
    requires s.ptx.attempts == 0 && AirInv(s.ptx.sent, s.ptx.air)
    requires FateInv(s.ptx.fates, s.ptx.sent, Limit(s.ptx))
    requires FateOk(fate, s.ptx.sent[|s.ptx.fates|], Limit(s.ptx))
    ensures Between(AdvancePid(ReleaseTx(s), fate), held, alloc)
  {
    hide Owned, AirInv, FateInv;
    ReleaseOwned(s.pool, s.ptx.txIdx.value, TxSet(s.ptx), held, alloc);
    assert TxSet(s.ptx) - {s.ptx.txIdx.value} == {};
    FateNew(s.ptx.fates, s.ptx.sent, Limit(s.ptx), fate);
    var r := AdvancePid(ReleaseTx(s), fate);
    assert r.ptx.fates == s.ptx.fates + [fate] && r.ptx.sent == s.ptx.sent && r.ptx.air == s.ptx.air;
    assert Limit(r.ptx) == Limit(s.ptx) && TxSet(r.ptx) == {};
  }

  lemma OnNoAckSentInv(s: Sys, suppress: bool, held: set<nat>, alloc: set<nat>)
    requires Inv(s, held, alloc) && s.ptx.state == TxNoAck
    ensures Inv(OnNoAckSent(s, suppress), held, alloc)
  {
    hide Owned, AirInv, FateInv;
    assert DmaSet(s.ptx) == TxSet(s.ptx);
    FinishBetween(StopRadio(s), Unacked, held, alloc);
    ProceedInv(AdvancePid(ReleaseTx(StopRadio(s)), Unacked), suppress, held, alloc);
  }

  lemma OnTxEndInv(s: Sys, held: set<nat>, alloc: set<nat>)
    requires Inv(s, held, alloc) && s.ptx.state == Tx
    ensures Inv(OnTxEnd(s), held, alloc)
  {
    hide Owned, AirInv, FateInv;
    assert DmaSet(s.ptx) == TxSet(s.ptx);
    AllocDmaOwned(s.pool, TxSet(s.ptx), held, alloc);
    assert DmaSet(OnTxEnd(s).ptx) ==
           TxSet(s.ptx) + (if OnTxEnd(s).ptx.state == WaitAck then {OnTxEnd(s).ptx.ackRxIdx.value} else {});
  }

  lemma OnAckOkInv(s: Sys, suppress: bool, held: set<nat>, alloc: set<nat>)
    requires Inv(s, held, alloc) && s.ptx.state == WaitAck
    ensures Inv(OnAckOk(s, suppress), held, alloc)
  {
    hide Owned, AirInv, FateInv;
    var i := s.ptx.ackRxIdx.value;
    RxCompleteOwned(s.pool, i, DmaSet(s.ptx), held, alloc);
    ReleaseOwned(s.pool, i, DmaSet(s.ptx), held, alloc);
    assert DmaSet(s.ptx) - {i} == TxSet(s.ptx);
    var a := DeliverAck(StopRadio(WithTimer(s, DisarmRetransmit(DisarmAckTimeout(s.ptx.timer)))));
    var b := a.(ptx := a.ptx.(attempts := 0));
    FinishBetween(b, Acked(s.ptx.failed), held, alloc);
    ProceedInv(AdvancePid(ReleaseTx(b), Acked(s.ptx.failed)), suppress, held, alloc);
  }

  lemma AckFailedBetween(s: Sys, held: set<nat>, alloc: set<nat>)
    requires Inv(s, held, alloc) && s.ptx.state == WaitAck
    ensures var a := ReleaseAckRx(StopRadio(WithTimer(s, DisarmAckTimeout(s.ptx.timer))));
            && Owned(a.pool, TxSet(s.ptx), held, alloc) && InRange(a) && a.ptx.radio == Off
            && a.ptx == s.ptx.(ackRxIdx := None, radio := Off, timer := DisarmAckTimeout(s.ptx.timer))
            && BufferInv(a)
  {
    hide Owned, AirInv, FateInv;
    ReleaseOwned(s.pool, s.ptx.ackRxIdx.value, DmaSet(s.ptx), held, alloc);
    assert DmaSet(s.ptx) - {s.ptx.ackRxIdx.value} == TxSet(s.ptx);
  }

  lemma OnAckFailedInv(s: Sys, suppress: bool, held: set<nat>, alloc: set<nat>)
    requires Inv(s, held, alloc) && s.ptx.state == WaitAck
    ensures Inv(OnAckFailed(s, suppress).0, held, alloc)
  {
    hide Owned, AirInv, FateInv, Proceed;
    AckFailedBetween(s, held, alloc);
    var a := ReleaseAckRx(StopRadio(WithTimer(s, DisarmAckTimeout(s.ptx.timer))));
    var n := s.ptx.failed + 1;
    if n >= s.ptx.maxAttempts {
      var b := a.(ptx := a.ptx.(attempts := 0, failed := n));
      FinishBetween(b, Dropped(n), held, alloc);
      ProceedInv(AdvancePid(ReleaseTx(b), Dropped(n)), suppress, held, alloc);
    } else {
      assert DmaSet(OnAckFailed(s, suppress).0.ptx) == TxSet(s.ptx);
    }
  }

  /** Every interrupt, whatever its events, keeps ownership, PID, retry and transmission discipline. */
  lemma HandleRadioEventInv(s: Sys, e: Events, suppress: bool, held: set<nat>, alloc: set<nat>)
    requires Inv(s, held, alloc)
    ensures Inv(HandleRadioEvent(s, e, suppress).0, held, alloc)
  {
    hide Owned, AirInv, FateInv;
    if !(UserEvent(e) && s.ptx.state != Idle) {
      match s.ptx.state
      case Idle =>
        assert DmaSet(s.ptx) == TxSet(s.ptx);
        SendNextInv(s, held, alloc);
      case TxNoAck => OnNoAckSentInv(s, suppress, held, alloc);
      case Tx => OnTxEndInv(s, held, alloc);
      case WaitAck =>
        if e.disabled && e.crcOk {
          OnAckOkInv(s, suppress, held, alloc);
        } else {
          OnAckFailedInv(s, suppress, held, alloc);
        }
      case WaitRetransmit =>
        assert DmaSet(s.ptx) == TxSet(s.ptx);
        SendNextInv(s, held, alloc);
    }
  }

  lemma AckArrivesInv(s: Sys, ack: Packet, held: set<nat>, alloc: set<nat>)
    requires Inv(s, held, alloc)
    ensures Inv(AckArrives(s, ack), held, alloc)
  {
    hide Owned, AirInv, FateInv;
    if s.ptx.radio.Listening? {
      var i := s.ptx.radio.idx;
      WriteOwned(s.pool, i, Dma(s.pool.pkt[i], ack), DmaSet(s.ptx), held, alloc);
    }
  }

  // ---- The shape of one interrupt ----

  ghost predicate OnAirState(st: StatePtx) {
    st == Tx || st == TxNoAck
  }

  /** The interrupt that ends a wait with a good ACK. */
  ghost predicate GoodAck(s: Sys, e: Events) {
    s.ptx.state == WaitAck && e.disabled && e.crcOk
  }

  ghost predicate HistoryGrows(a: Ptx, b: Ptx) {
    && a.sent <= b.sent && a.fates <= b.fates && a.air <= b.air
    && |b.air| <= |a.air| + 1 && |b.fates| <= |a.fates| + 1
  }

  lemma ProceedShape(s: Sys, suppress: bool)
    requires InRange(s)
    ensures var r := Proceed(s, suppress);
            && s.ptx.sent <= r.ptx.sent && r.ptx.fates == s.ptx.fates && s.ptx.air <= r.ptx.air
            && |r.ptx.air| == |s.ptx.air| + (if OnAirState(r.ptx.state) then 1 else 0)
            && (r.ptx.state == Idle || OnAirState(r.ptx.state))
            && QueueOnlyShrinks(s.pool, r.pool)
            && r.pool.completed == s.pool.completed
  {
  }

  ghost predicate Shape(s: Sys, e: Events, r: Sys) {
    && HistoryGrows(s.ptx, r.ptx)
    && QueueOnlyShrinks(s.pool, r.pool)
    && (UserEvent(e) && s.ptx.state != Idle ==> r == s)
    && (|r.ptx.air| == |s.ptx.air| + 1 ==> OnAirState(r.ptx.state))
    && (OnAirState(s.ptx.state) && !UserEvent(e) ==> r.ptx != s.ptx)
    && (OnAirState(r.ptx.state) ==> |r.ptx.air| == |s.ptx.air| + 1 || r.ptx == s.ptx)
    && (r.ptx.state == WaitAck ==> r == s || s.ptx.state == Tx)
    && (s.ptx.state == Tx && !UserEvent(e) ==> r.ptx.state == if Free in s.pool.st then WaitAck else Idle)
    && (|r.ptx.fates| == |s.ptx.fates| + 1 && r.ptx.fates[|s.ptx.fates|].Acked? ==> GoodAck(s, e))
    && (GoodAck(s, e) ==> |r.ptx.fates| == |s.ptx.fates| + 1 && r.ptx.state != WaitAck)
    && (GoodAck(s, e) ==> s.ptx.ackRxIdx.Some? && s.ptx.ackRxIdx.value < |s.pool.pkt|)
    && r.pool.completed == s.pool.completed +
                           (if GoodAck(s, e) && s.pool.pkt[s.ptx.ackRxIdx.value].payload != []
                            then [s.pool.pkt[s.ptx.ackRxIdx.value]] else [])
  }

  /** Handing over or freeing the ACK buffer, then freeing the packet. */
  lemma DeliverShape(s: Sys)
    requires InRange(s) && s.ptx.ackRxIdx.Some?
    ensures var i := s.ptx.ackRxIdx.value;
            var r := ReleaseTx(DeliverAck(s));
            && QueueOnlyShrinks(s.pool, r.pool) && r.ptx == s.ptx.(txIdx := None, ackRxIdx := r.ptx.ackRxIdx)
            && r.pool.completed == s.pool.completed + (if s.pool.pkt[i].payload != [] then [s.pool.pkt[i]] else [])
  {
  }

  lemma AckOkShape(s: Sys, e: Events, suppress: bool)
    requires InRange(s) && GoodAck(s, e) && s.ptx.ackRxIdx.Some?
    ensures Shape(s, e, OnAckOk(s, suppress))
  {
    hide Proceed, DeliverAck, ReleaseTx;
    var a := StopRadio(WithTimer(s, DisarmRetransmit(DisarmAckTimeout(s.ptx.timer))));
    DeliverShape(a);
    var b := ReleaseTx(DeliverAck(a));
    var c := AdvancePid(b.(ptx := b.ptx.(attempts := 0)), Acked(s.ptx.failed));
    ProceedShape(c, suppress);
  }

  lemma AckFailedShape(s: Sys, e: Events, suppress: bool)
    requires InRange(s) && s.ptx.state == WaitAck && !GoodAck(s, e) && !UserEvent(e)
    ensures Shape(s, e, OnAckFailed(s, suppress).0)
  {
    hide Proceed;
    var a := ReleaseAckRx(StopRadio(WithTimer(s, DisarmAckTimeout(s.ptx.timer))));
    var b := a.(ptx := a.ptx.(attempts := a.ptx.attempts + 1, failed := a.ptx.failed + 1));
    if b.ptx.attempts >= b.ptx.maxAttempts {
      var c := ReleaseTx(b);
      var d := AdvancePid(c.(ptx := c.ptx.(attempts := 0)), Dropped(b.ptx.failed));
      assert d.ptx.sent == s.ptx.sent && d.ptx.air == s.ptx.air && d.ptx.fates == s.ptx.fates + [Dropped(b.ptx.failed)];
      ProceedShape(d, suppress);
    }
  }

  lemma NoAckShape(s: Sys, e: Events, suppress: bool)
    requires InRange(s) && s.ptx.state == TxNoAck && !UserEvent(e)
    ensures Shape(s, e, OnNoAckSent(s, suppress))
  {
    hide Proceed;
    var a := AdvancePid(ReleaseTx(StopRadio(s)), Unacked);
    assert a.ptx.fates == s.ptx.fates + [Unacked];
    ProceedShape(a, suppress);
  }

  /**
   Histories only grow. A transmission starts exactly when the interrupt leaves the
   machine in Tx or TxNoAck; a packet becomes Acked only on a good ACK, and only a good
   ACK with a payload completes a buffer.
   */
  lemma InterruptShape(s: Sys, e: Events, suppress: bool, held: set<nat>, alloc: set<nat>)
    requires Inv(s, held, alloc)
    ensures Shape(s, e, HandleRadioEvent(s, e, suppress).0)
  {
    hide Owned, AirInv, FateInv, SendNext, OnAckOk, OnAckFailed, OnNoAckSent;
    if !(UserEvent(e) && s.ptx.state != Idle) {
      match s.ptx.state
      case Idle => ProceedShape(s, false);
      case TxNoAck => NoAckShape(s, e, suppress);
      case Tx =>
      case WaitAck =>
        if e.disabled && e.crcOk {
          AckOkShape(s, e, suppress);
        } else {
          AckFailedShape(s, e, suppress);
        }
      case WaitRetransmit =>
    }
  }

  // ---- What is sent is what was queued ----

  /** Index `i` is the lowest one queued. */
  ghost predicate IsFirstQueued(v: Pool, i: nat) {
    && i < |v.st| && v.st[i] == TxQueued
    && forall j | 0 <= j < i :: v.st[j] != TxQueued
  }

  /**
   With no packet in flight the lowest queued one goes out, on its own pipe and asking for
   an ACK unless it was queued without one: nothing of it changes but the PID.
   */
  lemma SendsWhatWasQueued(s: Sys, i: nat)
    requires InRange(s) && s.ptx.txIdx.None? && IsFirstQueued(s.pool, i)
    ensures var r := SendNext(s);
            var q := s.pool.pkt[i];
            var x := r.pool.pkt[i];
            && x.rssi == q.rssi && x.pipe == q.pipe && x.noAck == q.noAck && x.payload == q.payload
            && x.pid == s.ptx.pid
            && r.ptx.sent == s.ptx.sent + [x] && r.ptx.air == s.ptx.air + [AirFrame(|s.ptx.fates|, x)]
            && r.ptx.txIdx == Some(i) && r.pool.st == s.pool.st[i := InDma]
            && r.ptx.state == (if q.noAck then TxNoAck else Tx)
            && r.ptx.radio == Transmitting(q.pipe, i, !q.noAck)
  {
    var k := FirstFrom(s.pool.st, TxQueued, 0);
    assert k == Some(i);
  }

  /** With nothing queued either, the machine goes idle and stays as it is. */
  lemma SendsNothingElse(s: Sys)
    requires InRange(s) && s.ptx.txIdx.None? && TxQueued !in s.pool.st
    ensures SendNext(s) == GoIdle(s)
  {
    assert FirstFrom(s.pool.st, TxQueued, 0) == None;
  }

  /** The same buffers are queued, with the same packets. */
  ghost predicate SameQueue(v: Pool, w: Pool) {
    && Wf(v) && Wf(w) && |v.st| == |w.st|
    && forall i | 0 <= i < |v.st| ::
         (v.st[i] == TxQueued <==> w.st[i] == TxQueued) && (v.st[i] == TxQueued ==> w.pkt[i] == v.pkt[i])
  }

  /** `r` has taken the lowest packet queued in `v` after `sent`. */
  ghost predicate TookNext(v: Pool, sent: seq<Packet>, r: Sys) {
    && Wf(v) && r.ptx.txIdx.Some? && IsFirstQueued(v, r.ptx.txIdx.value)
    && r.ptx.txIdx.value < |r.pool.st| && r.pool.st[r.ptx.txIdx.value] == InDma
    && r.ptx.sent == sent + [v.pkt[r.ptx.txIdx.value].(pid := r.ptx.pid)]
  }

  lemma ProceedTakes(s: Sys, suppress: bool, v: Pool)
    requires InRange(s) && SameQueue(v, s.pool)
    ensures var r := Proceed(s, suppress); r.ptx.sent == s.ptx.sent || TookNext(v, s.ptx.sent, r)
    ensures !suppress && s.ptx.txIdx.None? && TxQueued in v.st ==> TookNext(v, s.ptx.sent, Proceed(s, suppress))
  {
    if !suppress && s.ptx.txIdx.None? {
      if TxQueued in s.pool.st {
        var i := FirstFrom(s.pool.st, TxQueued, 0).value;
        SendsWhatWasQueued(s, i);
      } else {
        SendsNothingElse(s);
      }
    }
  }

  /** Buffers of the engine change hands without touching the queue. */
  lemma QueueUntouched(v: Pool, i: nat)
    requires Wf(v) && i < |v.st| && v.st[i] != TxQueued
    ensures SameQueue(v, Release(v, i)) && SameQueue(v, RxComplete(v, i))
  {
  }

  lemma SameQueueTrans(u: Pool, v: Pool, w: Pool)
    requires SameQueue(u, v) && SameQueue(v, w)
    ensures SameQueue(u, w)
  {
  }

  lemma ReleaseTxQueue(s: Sys, v: Pool)
    requires InRange(s) && SameQueue(v, s.pool) && (s.ptx.txIdx.Some? ==> s.pool.st[s.ptx.txIdx.value] != TxQueued)
    ensures SameQueue(v, ReleaseTx(s).pool) && ReleaseTx(s).ptx == s.ptx.(txIdx := None)
  {
    if s.ptx.txIdx.Some? {
      QueueUntouched(s.pool, s.ptx.txIdx.value);
      SameQueueTrans(v, s.pool, ReleaseTx(s).pool);
    }
  }

  lemma EngineInDma(s: Sys, held: set<nat>, alloc: set<nat>)
    requires Inv(s, held, alloc)
    ensures InRange(s) && (s.ptx.txIdx.Some? ==> s.pool.st[s.ptx.txIdx.value] == InDma)
    ensures s.ptx.state == WaitAck ==>
              s.ptx.txIdx.Some? && s.ptx.ackRxIdx.Some? && s.ptx.ackRxIdx != s.ptx.txIdx
              && s.pool.st[s.ptx.ackRxIdx.value] == InDma
  {
    hide AirInv, FateInv, BufferInv, CountInv, NoAckInv;
    assert s.ptx.txIdx.Some? ==> s.ptx.txIdx.value in DmaSet(s.ptx);
    assert s.ptx.state == WaitAck ==> s.ptx.ackRxIdx.value in DmaSet(s.ptx);
  }

  lemma AckOkTakes(s: Sys, suppress: bool, held: set<nat>, alloc: set<nat>)
    requires Inv(s, held, alloc) && s.ptx.state == WaitAck
    ensures var r := OnAckOk(s, suppress); r.ptx.sent == s.ptx.sent || TookNext(s.pool, s.ptx.sent, r)
  {
    hide Inv, Proceed, ReleaseTx, SameQueue, TookNext;
    EngineInDma(s, held, alloc);
    SameQueueSelf(s.pool);
    QueueUntouched(s.pool, s.ptx.ackRxIdx.value);
    var a := DeliverAck(StopRadio(WithTimer(s, DisarmRetransmit(DisarmAckTimeout(s.ptx.timer)))));
    ReleaseTxQueue(a, s.pool);
    var b := ReleaseTx(a);
    ProceedTakes(AdvancePid(b.(ptx := b.ptx.(attempts := 0)), Acked(s.ptx.failed)), suppress, s.pool);
  }

  lemma SameQueueSelf(v: Pool)
    requires Wf(v)
    ensures SameQueue(v, v)
  {
  }

  lemma AckFailedTakes(s: Sys, suppress: bool, held: set<nat>, alloc: set<nat>)
    requires Inv(s, held, alloc) && s.ptx.state == WaitAck
    ensures var r := OnAckFailed(s, suppress).0; r.ptx.sent == s.ptx.sent || TookNext(s.pool, s.ptx.sent, r)
  {
    hide Inv, Proceed, ReleaseTx, SameQueue, TookNext;
    EngineInDma(s, held, alloc);
    QueueUntouched(s.pool, s.ptx.ackRxIdx.value);
    var a := ReleaseAckRx(StopRadio(WithTimer(s, DisarmAckTimeout(s.ptx.timer))));
    var b := a.(ptx := a.ptx.(attempts := a.ptx.attempts + 1, failed := a.ptx.failed + 1));
    ReleaseTxQueue(b, s.pool);
    var c := ReleaseTx(b);
    ProceedTakes(AdvancePid(c.(ptx := c.ptx.(attempts := 0)), Dropped(b.ptx.failed)), suppress, s.pool);
  }

  lemma NoAckTakes(s: Sys, suppress: bool, held: set<nat>, alloc: set<nat>)
    requires Inv(s, held, alloc) && s.ptx.state == TxNoAck
    ensures var r := OnNoAckSent(s, suppress); r.ptx.sent == s.ptx.sent || TookNext(s.pool, s.ptx.sent, r)
  {
    hide Inv, Proceed, ReleaseTx, SameQueue, TookNext;
    EngineInDma(s, held, alloc);
    SameQueueSelf(s.pool);
    ReleaseTxQueue(StopRadio(s), s.pool);
    ProceedTakes(AdvancePid(ReleaseTx(StopRadio(s)), Unacked), suppress, s.pool);
  }

  /** Whatever the interrupt, a newly dequeued packet is the lowest one queued, with only its PID set. */
  lemma InterruptTakes(s: Sys, e: Events, suppress: bool, held: set<nat>, alloc: set<nat>)
    requires Inv(s, held, alloc)
    ensures var r := HandleRadioEvent(s, e, suppress).0;
            r.ptx.sent == s.ptx.sent || TookNext(s.pool, s.ptx.sent, r)
  {
    hide Inv, Proceed, OnAckOk, OnAckFailed, OnNoAckSent, SameQueue, TookNext, SendNext;
    EngineInDma(s, held, alloc);
    SameQueueSelf(s.pool);
    match s.ptx.state
    case Idle =>
      ProceedTakes(s, false, s.pool);
      ProceedIsSendNext(s);
    case TxNoAck => NoAckTakes(s, suppress, held, alloc);
    case Tx =>
    case WaitAck =>
      AckOkTakes(s, suppress, held, alloc);
      AckFailedTakes(s, suppress, held, alloc);
    case WaitRetransmit =>
  }

  lemma ProceedIsSendNext(s: Sys)
    requires InRange(s)
    ensures Proceed(s, false) == SendNext(s)
  {
    hide SendNext;
  }
}
