/**
 The PRX state machine (src/state_machine.rs) and the duplicate filter it keeps in its
 radio (src/radio.rs), as a function on values. Radio registers are the argument `Rx`.
 */
module PrxModel {
  import opened Wrappers
  import opened PoolModel

  const NUM_PIPES: nat := 8

  datatype StatePrx = Idle | Receiver | TxAck | TxRepeatedAck

  datatype PrxEvent = NoEvent | Received | Duplicate | ReceivedNoAck | BadCrc

  /** The last accepted packet of a pipe, as far as duplicate detection remembers it. */
  datatype Seen = Seen(pid: nat, crc: nat)

  /** The radio as programmed; an ACK without a buffer is the empty fallback ACK. */
  datatype Radio = Off | Receiving(idx: nat) | Answering(pipe: nat, ack: Option<nat>)

  datatype Prx = Prx(
    state: StatePrx, rxIdx: Option<nat>, pendingRxIdx: Option<nat>, ackTxIdx: Option<nat>,
    filter: seq<Option<Seen>>, radio: Radio)

  datatype Sys = Sys(prx: Prx, pool: Pool)

  /** CRC status, RXMATCH, RXCRC and RSSISAMPLE as the interrupt reads them. */
  datatype Rx = Rx(crcOk: bool, pipe: Pipe, crc: nat, rssi: nat)

  const INITIAL_PRX := Prx(Idle, None, None, None, [None, None, None, None, None, None, None, None], Off)

  function CheckDuplicate(filter: seq<Option<Seen>>, pipe: nat, pid: nat, crc: nat): bool {
    pipe < |filter| && filter[pipe] == Some(Seen(pid, crc))
  }

  function UpdateDetection(filter: seq<Option<Seen>>, pipe: nat, pid: nat, crc: nat): seq<Option<Seen>> {
    if pipe < |filter| then filter[pipe := Some(Seen(pid, crc))] else filter
  }

  ghost predicate InRange(s: Sys) {
    && Wf(s.pool)
    && (s.prx.rxIdx.Some? ==> s.prx.rxIdx.value < |s.pool.st|)
    && (s.prx.pendingRxIdx.Some? ==> s.prx.pendingRxIdx.value < |s.pool.st|)
    && (s.prx.ackTxIdx.Some? ==> s.prx.ackTxIdx.value < |s.pool.st|)
    && (s.prx.state == Receiver ==> s.prx.rxIdx.Some?)
  }

  function ReleaseIdx(v: Pool, i: Option<nat>): Pool
    requires i.Some? ==> i.value < |v.st|
  {
    if i.Some? then Release(v, i.value) else v
  }

  function StartReceiving(s: Sys): (r: (Sys, bool))
    requires InRange(s)
    ensures InRange(r.0)
  {
    if s.prx.state != Idle then (s, true)
    else
      var (pool, next) := AllocDma(s.pool);
      match next
      case None => (s, false)
      case Some(i) => (Sys(s.prx.(rxIdx := Some(i), radio := Receiving(i), state := Receiver), pool), true)
  }

  /** Back to listening on a fresh buffer, or to idle when the pool has none. */
  function Rearm(s: Sys): (r: Sys)
    requires InRange(s.(prx := s.prx.(state := Idle)))
    ensures InRange(r)
  {
    var (pool, next) := AllocDma(s.pool);
    match next
    case None => s.(prx := s.prx.(radio := Off, state := Idle))
    case Some(i) => Sys(s.prx.(rxIdx := Some(i), radio := Receiving(i), state := Receiver), pool)
  }

  function OnDuplicateNoAck(s: Sys): (r: Sys)
    requires InRange(s) && s.prx.state == Receiver
    ensures InRange(r)
  {
    var (pool, next) := AllocDma(s.pool);
    match next
    case None => s
    case Some(i) => Sys(s.prx.(rxIdx := Some(i), radio := Receiving(i)), Release(pool, s.prx.rxIdx.value))
  }

  function OnDuplicate(s: Sys, pipe: nat): (r: Sys)
    requires InRange(s) && s.prx.state == Receiver
    ensures InRange(r)
  {
    Sys(s.prx.(rxIdx := None, radio := Answering(pipe, None), state := TxRepeatedAck),
        Release(s.pool, s.prx.rxIdx.value))
  }

  /** The ACK of a new packet: a payload queued for this very pipe, else the fallback. */
  function SetupAckTx(s: Sys, pipe: nat): (r: Sys)
    requires InRange(s)
    ensures InRange(r)
  {
    var (pool, ack) := DequeueTxFor(s.pool, pipe);
    Sys(s.prx.(ackTxIdx := ack, radio := Answering(pipe, ack)), pool)
  }

  function OnNewPacket(s: Sys, rx: Rx): (r: (Sys, PrxEvent, Option<nat>))
    requires InRange(s) && s.prx.state == Receiver
    ensures InRange(r.0)
  {
    var i := s.prx.rxIdx.value;
    var header := s.pool.pkt[i];
    var prx := s.prx.(filter := UpdateDetection(s.prx.filter, rx.pipe, header.pid, rx.crc), rxIdx := None);
    var pool := Write(s.pool, i, header.(rssi := rx.rssi, pipe := rx.pipe));
    if header.noAck then
      (Rearm(Sys(prx, RxComplete(pool, i))), ReceivedNoAck, Some(i))
    else
      var a := SetupAckTx(Sys(prx.(state := TxAck), pool), rx.pipe);
      (a.(prx := a.prx.(pendingRxIdx := Some(i))), Received, Some(i))
  }

  function OnReceive(s: Sys, rx: Rx): (r: (Sys, PrxEvent, Option<nat>))
    requires InRange(s) && s.prx.state == Receiver
    ensures InRange(r.0)
  {
    if !rx.crcOk then (s, BadCrc, None)
    else
      var header := s.pool.pkt[s.prx.rxIdx.value];
      if CheckDuplicate(s.prx.filter, rx.pipe, header.pid, rx.crc) then
        (if header.noAck then OnDuplicateNoAck(s) else OnDuplicate(s, rx.pipe), Duplicate, None)
      else OnNewPacket(s, rx)
  }

  /** The ACK has gone out: the packet it answered is complete, its payload buffer free. */
  function OnAckSent(s: Sys): (r: Sys)
    requires InRange(s)
    ensures InRange(r)
  {
    var pool := if s.prx.pendingRxIdx.Some? then RxComplete(s.pool, s.prx.pendingRxIdx.value) else s.pool;
    Rearm(Sys(s.prx.(pendingRxIdx := None, ackTxIdx := None), ReleaseIdx(pool, s.prx.ackTxIdx)))
  }

  function HandleRadioEvent(s: Sys, disabled: bool, timer: bool, rx: Rx): (r: (Sys, PrxEvent, Option<nat>))
    requires InRange(s)
    ensures InRange(r.0)
  {
    if !disabled && !timer && s.prx.state != Idle then (s, NoEvent, None)
    else
      match s.prx.state
      case Receiver => OnReceive(s, rx)
      case TxAck => (OnAckSent(s), NoEvent, None)
      case TxRepeatedAck =>
        (Rearm(Sys(s.prx.(ackTxIdx := None), ReleaseIdx(s.pool, s.prx.ackTxIdx))), NoEvent, None)
      case Idle => (StartReceiving(s).0, NoEvent, None)
  }

  /** `stop_receiving`; a packet whose ACK is still going out is released undelivered. */
  function StopReceiving(s: Sys): (r: Sys)
    requires InRange(s)
    ensures InRange(r)
  {
    var p := s.prx;
    Sys(p.(rxIdx := None, pendingRxIdx := None, ackTxIdx := None, radio := Off, state := Idle),
        ReleaseIdx(ReleaseIdx(ReleaseIdx(s.pool, p.rxIdx), p.pendingRxIdx), p.ackTxIdx))
  }

  /** The radio fills the buffer it is receiving into. */
  function FrameArrives(s: Sys, frame: Packet): (r: Sys)
    requires InRange(s)
    ensures InRange(r)
  {
    if s.prx.radio.Receiving? && s.prx.radio.idx < |s.pool.pkt|
    then s.(pool := Write(s.pool, s.prx.radio.idx, Dma(s.pool.pkt[s.prx.radio.idx], frame)))
    else s
  }

  // ---- What every reachable state satisfies ----

  function Opt(i: Option<nat>): set<nat> {
    if i.Some? then {i.value} else {}
  }

  function DmaSet(p: Prx): set<nat> {
    Opt(p.rxIdx) + Opt(p.pendingRxIdx) + Opt(p.ackTxIdx)
  }

  /** Each of the three indices is set exactly in its state, and the radio follows them. */
  ghost predicate RadioInv(p: Prx) {
    && (p.state == Receiver <==> p.rxIdx.Some?)
    && (p.state == TxAck <==> p.pendingRxIdx.Some?)
    && (p.ackTxIdx.Some? ==> p.state == TxAck && p.ackTxIdx != p.pendingRxIdx)
    && |p.filter| == NUM_PIPES
    && match p.state
       case Idle => p.radio == Off
       case Receiver => p.radio == Receiving(p.rxIdx.value)
       case TxAck => p.radio.Answering? && p.radio.ack == p.ackTxIdx
       case TxRepeatedAck => p.radio.Answering? && p.radio.ack == None
  }

  ghost predicate Inv(s: Sys, held: set<nat>, alloc: set<nat>) {
    Owned(s.pool, DmaSet(s.prx), held, alloc) && InRange(s) && RadioInv(s.prx)
  }

  lemma InitialInv(n: nat)
    ensures Inv(Sys(INITIAL_PRX, EmptyPool(n)), {}, {})
  {
    EmptyPoolOwned(n);
    assert DmaSet(INITIAL_PRX) == {};
  }

  lemma ReleaseIdxOwned(v: Pool, i: Option<nat>, dma: set<nat>, held: set<nat>, alloc: set<nat>)
    requires Owned(v, dma, held, alloc)
    requires i.Some? ==> i.value in dma
    ensures (i.Some? ==> i.value < |v.st|) && Owned(ReleaseIdx(v, i), dma - Opt(i), held, alloc)
  {
    if i.Some? {
      ReleaseOwned(v, i.value, dma, held, alloc);
    } else {
      assert dma - Opt(i) == dma;
    }
  }

  lemma RearmInv(s: Sys, held: set<nat>, alloc: set<nat>)
    requires Owned(s.pool, {}, held, alloc) && |s.prx.filter| == NUM_PIPES
    requires s.prx.rxIdx.None? && s.prx.pendingRxIdx.None? && s.prx.ackTxIdx.None?
    ensures Inv(Rearm(s), held, alloc)
    ensures Rearm(s).pool.completed == s.pool.completed && Rearm(s).prx.filter == s.prx.filter
  {
    hide Owned;
    AllocDmaOwned(s.pool, {}, held, alloc);
    var (pool, next) := AllocDma(s.pool);
    OwnedIsWf(s.pool, {}, held, alloc);
    if next.Some? {
      assert DmaSet(Rearm(s).prx) == {} + {next.value};
    } else {
      assert DmaSet(Rearm(s).prx) == {};
    }
  }

  lemma StartReceivingInv(s: Sys, held: set<nat>, alloc: set<nat>)
    requires Inv(s, held, alloc)
    ensures Inv(StartReceiving(s).0, held, alloc)
  {
    hide Owned;
    if s.prx.state == Idle {
      assert DmaSet(s.prx) == {};
      RearmInv(s, held, alloc);
    }
  }

  lemma OnDuplicateInv(s: Sys, pipe: nat, held: set<nat>, alloc: set<nat>)
    requires Inv(s, held, alloc) && s.prx.state == Receiver
    ensures Inv(OnDuplicate(s, pipe), held, alloc)
    ensures Inv(OnDuplicateNoAck(s), held, alloc)
  {
    hide Owned;
    var i := s.prx.rxIdx.value;
    assert DmaSet(s.prx) == {i};
    ReleaseOwned(s.pool, i, {i}, held, alloc);
    assert DmaSet(OnDuplicate(s, pipe).prx) == {i} - {i};
    AllocDmaOwned(s.pool, {i}, held, alloc);
    var (pool, next) := AllocDma(s.pool);
    if next.Some? {
      ReleaseOwned(pool, i, {i} + {next.value}, held, alloc);
      assert DmaSet(OnDuplicateNoAck(s).prx) == {i} + {next.value} - {i};
    }
  }

  lemma OnNewPacketInv(s: Sys, rx: Rx, held: set<nat>, alloc: set<nat>)
    requires Inv(s, held, alloc) && s.prx.state == Receiver
    ensures Inv(OnNewPacket(s, rx).0, held, alloc)
  {
    hide Owned;
    var i := s.prx.rxIdx.value;
    var header := s.pool.pkt[i];
    assert DmaSet(s.prx) == {i};
    var pkt := header.(rssi := rx.rssi, pipe := rx.pipe);
    WriteOwned(s.pool, i, pkt, {i}, held, alloc);
    var pool := Write(s.pool, i, pkt);
    var prx := s.prx.(filter := UpdateDetection(s.prx.filter, rx.pipe, header.pid, rx.crc), rxIdx := None);
    if header.noAck {
      RxCompleteOwned(pool, i, {i}, held, alloc);
      assert {i} - {i} == {};
      RearmInv(Sys(prx, RxComplete(pool, i)), held, alloc);
    } else {
      DequeueForOwned(pool, rx.pipe, {i}, held, alloc);
      var r := OnNewPacket(s, rx).0;
      assert DmaSet(r.prx) == {i} + Opt(r.prx.ackTxIdx);
      if r.prx.ackTxIdx.None? {
        assert {i} + Opt(r.prx.ackTxIdx) == {i};
      }
    }
  }

  lemma OnAckSentInv(s: Sys, held: set<nat>, alloc: set<nat>)
    requires Inv(s, held, alloc) && s.prx.state == TxAck
    ensures Inv(OnAckSent(s), held, alloc)
    ensures OnAckSent(s).pool.completed == s.pool.completed + [s.pool.pkt[s.prx.pendingRxIdx.value]]
    ensures OnAckSent(s).prx.filter == s.prx.filter
  {
    hide Owned;
    var i := s.prx.pendingRxIdx.value;
    assert DmaSet(s.prx) == {i} + Opt(s.prx.ackTxIdx);
    RxCompleteOwned(s.pool, i, DmaSet(s.prx), held, alloc);
    assert DmaSet(s.prx) - {i} == Opt(s.prx.ackTxIdx);
    var pool := RxComplete(s.pool, i);
    if s.prx.ackTxIdx.Some? {
      ReleaseOwned(pool, s.prx.ackTxIdx.value, Opt(s.prx.ackTxIdx), held, alloc);
      assert Opt(s.prx.ackTxIdx) - {s.prx.ackTxIdx.value} == {};
    }
    RearmInv(Sys(s.prx.(pendingRxIdx := None, ackTxIdx := None), ReleaseIdx(pool, s.prx.ackTxIdx)), held, alloc);
  }

  lemma HandleRadioEventInv(s: Sys, disabled: bool, timer: bool, rx: Rx, held: set<nat>, alloc: set<nat>)
    requires Inv(s, held, alloc)
    ensures Inv(HandleRadioEvent(s, disabled, timer, rx).0, held, alloc)
  {
    hide Owned;
    if disabled || timer || s.prx.state == Idle {
      match s.prx.state
      case Receiver =>
        if rx.crcOk {
          OnDuplicateInv(s, rx.pipe, held, alloc);
          OnNewPacketInv(s, rx, held, alloc);
        }
      case TxAck => OnAckSentInv(s, held, alloc);
      case TxRepeatedAck =>
        assert DmaSet(s.prx) == {};
        RearmInv(Sys(s.prx.(ackTxIdx := None), ReleaseIdx(s.pool, s.prx.ackTxIdx)), held, alloc);
      case Idle => StartReceivingInv(s, held, alloc);
    }
  }

  lemma StopReceivingInv(s: Sys, held: set<nat>, alloc: set<nat>)
    requires Inv(s, held, alloc)
    ensures Inv(StopReceiving(s), held, alloc)
  {
    hide Owned;
    var p := s.prx;
    var all := DmaSet(p);
    var v := ReleaseIdx(s.pool, p.rxIdx);
    var w := ReleaseIdx(v, p.pendingRxIdx);
    ReleaseIdxOwned(s.pool, p.rxIdx, all, held, alloc);
    ReleaseIdxOwned(v, p.pendingRxIdx, all - Opt(p.rxIdx), held, alloc);
    ReleaseIdxOwned(w, p.ackTxIdx, all - Opt(p.rxIdx) - Opt(p.pendingRxIdx), held, alloc);
    assert all - Opt(p.rxIdx) - Opt(p.pendingRxIdx) - Opt(p.ackTxIdx) == {};
    assert DmaSet(StopReceiving(s).prx) == {};
  }

  lemma FrameArrivesInv(s: Sys, frame: Packet, held: set<nat>, alloc: set<nat>)
    requires Inv(s, held, alloc)
    ensures Inv(FrameArrives(s, frame), held, alloc)
  {
    hide Owned;
    if s.prx.radio.Receiving? {
      var i := s.prx.radio.idx;
      WriteOwned(s.pool, i, Dma(s.pool.pkt[i], frame), DmaSet(s.prx), held, alloc);
    }
  }

  // ---- The shape of one interrupt ----

  lemma RearmShape(s: Sys)
    requires InRange(s.(prx := s.prx.(state := Idle)))
    ensures var r := Rearm(s);
            && r.pool.completed == s.pool.completed && r.prx.filter == s.prx.filter
            && r.prx.state == (if Free in s.pool.st then Receiver else Idle)
            && r.prx.pendingRxIdx == s.prx.pendingRxIdx && r.prx.ackTxIdx == s.prx.ackTxIdx
            && QueueOnlyShrinks(s.pool, r.pool)
  {
  }

  lemma NewPacketShape(s: Sys, rx: Rx)
    requires InRange(s) && s.prx.state == Receiver && s.pool.st[s.prx.rxIdx.value] == InDma
    ensures var header := s.pool.pkt[s.prx.rxIdx.value];
            var pkt := header.(rssi := rx.rssi, pipe := rx.pipe);
            var (r, event, _) := OnNewPacket(s, rx);
            && QueueOnlyShrinks(s.pool, r.pool)
            && r.prx.filter == UpdateDetection(s.prx.filter, rx.pipe, header.pid, rx.crc)
            && r.pool.completed == s.pool.completed + (if header.noAck then [pkt] else [])
            && event == (if header.noAck then ReceivedNoAck else Received)
            && (header.noAck ==> r.prx.state == if Free in s.pool.st then Receiver else Idle)
            && (!header.noAck ==>
                  && r.prx.state == TxAck && r.prx.radio == Answering(rx.pipe, r.prx.ackTxIdx)
                  && IsNextFor(s.pool, rx.pipe, r.prx.ackTxIdx)
                  && r.prx.pendingRxIdx == s.prx.rxIdx && r.pool.pkt[s.prx.rxIdx.value] == pkt
                  && (r.prx.ackTxIdx.Some? ==>
                        var j := r.prx.ackTxIdx.value;
                        j < |s.pool.st| && s.pool.st[j] == TxQueued && r.pool.st[j] == InDma
                        && s.pool.pkt[j].pipe == rx.pipe && r.pool.pkt[j] == s.pool.pkt[j]))
  {
    var i := s.prx.rxIdx.value;
    var header := s.pool.pkt[i];
    if header.noAck {
      hide Rearm;
      var prx := s.prx.(filter := UpdateDetection(s.prx.filter, rx.pipe, header.pid, rx.crc), rxIdx := None);
      var pool := Write(s.pool, i, header.(rssi := rx.rssi, pipe := rx.pipe));
      RearmShape(Sys(prx, RxComplete(pool, i)));
    }
  }

  /** A repeat is stored nowhere. */
  lemma DuplicateShape(s: Sys, pipe: nat)
    requires InRange(s) && s.prx.state == Receiver && s.pool.st[s.prx.rxIdx.value] == InDma
    ensures var r := OnDuplicate(s, pipe);
            && QueueOnlyShrinks(s.pool, r.pool) && r.prx.filter == s.prx.filter
            && r.pool.completed == s.pool.completed && r.prx.state == TxRepeatedAck
            && r.prx.radio == Answering(pipe, None) && r.prx.ackTxIdx == s.prx.ackTxIdx
    ensures var r := OnDuplicateNoAck(s);
            && QueueOnlyShrinks(s.pool, r.pool) && r.prx.filter == s.prx.filter
            && r.pool.completed == s.pool.completed && r.prx.state == Receiver
            && (Free in s.pool.st ==> r.pool.st[s.prx.rxIdx.value] == Free && r.prx.rxIdx != s.prx.rxIdx)
            && (Free !in s.pool.st ==> r == s)
  {
  }

  /**
   A good frame is accepted exactly when it does not repeat the last accepted packet of its
   pipe. One that wants an ACK is answered on its pipe: a new one with the lowest payload
   queued for that pipe, if there is any, and a repeat without a payload.
   */
  lemma ReceiveShape(s: Sys, rx: Rx, held: set<nat>, alloc: set<nat>)
    requires Inv(s, held, alloc) && s.prx.state == Receiver && rx.crcOk
    ensures var header := s.pool.pkt[s.prx.rxIdx.value];
            var pkt := header.(rssi := rx.rssi, pipe := rx.pipe);
            var dup := CheckDuplicate(s.prx.filter, rx.pipe, header.pid, rx.crc);
            var (r, event, _) := HandleRadioEvent(s, true, false, rx);
            && QueueOnlyShrinks(s.pool, r.pool)
            && r.prx.filter == (if dup then s.prx.filter
                                else s.prx.filter[rx.pipe := Some(Seen(header.pid, rx.crc))])
            && r.pool.completed == s.pool.completed + (if !dup && header.noAck then [pkt] else [])
            && event == (if dup then Duplicate else if header.noAck then ReceivedNoAck else Received)
            && (header.noAck ==> r.prx.state == if dup || Free in s.pool.st then Receiver else Idle)
            && (!header.noAck ==>
                  && r.prx.state == (if dup then TxRepeatedAck else TxAck)
                  && r.prx.radio == Answering(rx.pipe, r.prx.ackTxIdx)
                  && if dup then r.prx.ackTxIdx.None? else IsNextFor(s.pool, rx.pipe, r.prx.ackTxIdx))
            && (!dup && !header.noAck ==>
                  && r.prx.pendingRxIdx == s.prx.rxIdx && r.pool.pkt[s.prx.rxIdx.value] == pkt
                  && (r.prx.ackTxIdx.Some? ==>
                        var j := r.prx.ackTxIdx.value;
                        j < |s.pool.st| && s.pool.st[j] == TxQueued && r.pool.st[j] == InDma
                        && s.pool.pkt[j].pipe == rx.pipe && r.pool.pkt[j] == s.pool.pkt[j]))
  {
    var i := s.prx.rxIdx.value;
    assert i in DmaSet(s.prx);
    assert s.pool.st[i] == InDma;
    hide Owned, OnNewPacket, OnDuplicate, OnDuplicateNoAck, QueueOnlyShrinks, CheckDuplicate, IsNextFor;
    NewPacketShape(s, rx);
    DuplicateShape(s, rx.pipe);
  }

  /** Completing the pending packet frees nothing, releasing the ACK payload does. */
  lemma FreeAfterAck(v: Pool, pending: Option<nat>, ack: Option<nat>)
    requires Wf(v) && (pending.Some? ==> pending.value < |v.st| && v.st[pending.value] != Free)
    requires ack.Some? ==> ack.value < |v.st|
    ensures var w := ReleaseIdx(if pending.Some? then RxComplete(v, pending.value) else v, ack);
            Free in w.st <==> Free in v.st || ack.Some?
  {
    var a := if pending.Some? then RxComplete(v, pending.value) else v;
    var w := ReleaseIdx(a, ack);
    if Free in v.st {
      var i :| 0 <= i < |v.st| && v.st[i] == Free;
      assert w.st[i] == Free;
    }
    if ack.Some? {
      assert w.st[ack.value] == Free;
    }
    if Free in w.st {
      var i :| 0 <= i < |w.st| && w.st[i] == Free;
      assert ack.None? ==> v.st[i] == Free;
    }
  }

  lemma AckBuffersShape(v: Pool, pending: Option<nat>, ack: Option<nat>)
    requires Wf(v) && (pending.Some? ==> pending.value < |v.st| && v.st[pending.value] == InDma)
    requires ack.Some? ==> ack.value < |v.st|
    ensures var w := ReleaseIdx(if pending.Some? then RxComplete(v, pending.value) else v, ack);
            && QueueOnlyShrinks(v, w)
            && w.completed == v.completed + (if pending.Some? then [v.pkt[pending.value]] else [])
            && (Free in w.st <==> Free in v.st || ack.Some?)
  {
    FreeAfterAck(v, pending, ack);
  }

  lemma ShrinksTwice(u: Pool, v: Pool, w: Pool)
    requires QueueOnlyShrinks(u, v) && QueueOnlyShrinks(v, w)
    ensures QueueOnlyShrinks(u, w)
  {
  }

  lemma PendingBuffer(s: Sys, held: set<nat>, alloc: set<nat>)
    requires Inv(s, held, alloc) && (s.prx.state == TxAck || s.prx.state == TxRepeatedAck)
    ensures InRange(s) && s.prx.rxIdx.None? && (s.prx.pendingRxIdx.Some? <==> s.prx.state == TxAck)
    ensures s.prx.state == TxRepeatedAck ==> s.prx.ackTxIdx.None?
    ensures s.prx.pendingRxIdx.Some? ==> s.pool.st[s.prx.pendingRxIdx.value] == InDma
  {
    assert s.prx.pendingRxIdx.Some? ==> s.prx.pendingRxIdx.value in DmaSet(s.prx);
  }

  lemma AckSentShape(s: Sys, held: set<nat>, alloc: set<nat>)
    requires Inv(s, held, alloc) && (s.prx.state == TxAck || s.prx.state == TxRepeatedAck)
    ensures var r := HandleRadioEvent(s, true, false, Rx(true, 0, 0, 0)).0;
            && QueueOnlyShrinks(s.pool, r.pool)
            && r.prx.filter == s.prx.filter
            && r.prx.state == (if Free in s.pool.st || s.prx.ackTxIdx.Some? then Receiver else Idle)
            && r.pool.completed == s.pool.completed +
                                   (if s.prx.state == TxAck then [s.pool.pkt[s.prx.pendingRxIdx.value]] else [])
  {
    PendingBuffer(s, held, alloc);
    hide Inv, Rearm, QueueOnlyShrinks;
    AckBuffersShape(s.pool, s.prx.pendingRxIdx, s.prx.ackTxIdx);
    var pool := if s.prx.pendingRxIdx.Some? then RxComplete(s.pool, s.prx.pendingRxIdx.value) else s.pool;
    var a := Sys(s.prx.(pendingRxIdx := None, ackTxIdx := None), ReleaseIdx(pool, s.prx.ackTxIdx));
    RearmShape(a);
    ShrinksTwice(s.pool, a.pool, Rearm(a).pool);
  }

  /** Starting, stopping and noise deliver nothing and leave the filter alone. */
  lemma QuietShape(s: Sys, rssi: nat, held: set<nat>, alloc: set<nat>)
    requires Inv(s, held, alloc)
    ensures var r := StartReceiving(s).0;
            && QueueOnlyShrinks(s.pool, r.pool) && r.prx.filter == s.prx.filter
            && r.pool.completed == s.pool.completed
            && (r == s || (s.prx.state == Idle && r.prx.state == Receiver))
            && (s.prx.state == Idle ==> r.prx.state == if Free in s.pool.st then Receiver else Idle)
            && (StartReceiving(s).1 <==> r.prx.state != Idle)
    ensures var r := StopReceiving(s);
            && QueueOnlyShrinks(s.pool, r.pool) && r.prx.filter == s.prx.filter
            && r.pool.completed == s.pool.completed && r.prx.state == Idle
    ensures s.prx.state == Receiver ==> HandleRadioEvent(s, true, false, Rx(false, 0, 0, rssi)).0 == s
  {
    hide Owned;
  }

  lemma FrameArrivesShape(s: Sys, frame: Packet, held: set<nat>, alloc: set<nat>)
    requires Inv(s, held, alloc) && s.prx.state == Receiver
    ensures var r := FrameArrives(s, frame);
            && r.prx == s.prx && QueueOnlyShrinks(s.pool, r.pool) && r.pool.completed == s.pool.completed
            && var b := r.pool.pkt[s.prx.rxIdx.value]; b == Dma(b, frame)
  {
    var i := s.prx.rxIdx.value;
    assert i in DmaSet(s.prx);
    assert s.pool.st[i] == InDma;
    hide Owned;
  }
}
