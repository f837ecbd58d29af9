/**
 What every reachable state of a link satisfies, and that every action keeps it.

 The invariant has four parts: the two machines' own invariants; where frames and ACKs
 in transit stand relative to the transmissions already heard; which packets were
 accepted and delivered; and the fate of ACK payloads.
 */
module LinkInvariant {
  import opened Wrappers
  import opened PoolModel
  import opened AppModel
  import opened Acceptance
  import opened LinkModel
  import P = PtxModel
  import R = PrxModel

  ghost predicate MachinesInv(l: Link) {
    && P.Inv(l.ptx, l.ptxApp.held, l.ptxApp.alloc)
    && R.Inv(l.prx, l.prxApp.held, l.prxApp.alloc)
  }

  /** All transmissions heard so far precede `serial`. */
  ghost predicate HeardBefore(heard: seq<nat>, serial: nat) {
    forall k | 0 <= k < |heard| :: heard[k] < serial
  }

  predicate Answering(st: R.StatePrx) {
    st == R.TxAck || st == R.TxRepeatedAck
  }

  /** A frame held by the PRX is a transmission it has not handled, and its buffer holds that frame. */
  ghost predicate FrameInv(l: Link) {
    && (l.prxIn != PrxQuiet ==> l.prx.prx.state == R.Receiver)
    && (l.prxIn.PrxFrame? ==>
          && l.prxIn.serial < |l.ptx.ptx.air|
          && HeardBefore(l.heard, l.prxIn.serial)
          && l.prx.prx.rxIdx.Some? && l.prx.prx.rxIdx.value < |l.prx.pool.pkt|
          && var b := l.prx.pool.pkt[l.prx.prx.rxIdx.value];
          b == Dma(b, l.ptx.ptx.air[l.prxIn.serial].pkt))
  }

  /** An answer is to the last transmission heard; a good ACK is to the transmission waited on. */
  ghost predicate AnswerInv(l: Link) {
    && (Answering(l.prx.prx.state) <==> l.answer.Answer?)
    && (l.answer.Answer? ==> l.heard != [] && l.heard[|l.heard| - 1] == l.answer.serial)
    && (l.ptxIn != PtxQuiet ==> l.ptx.ptx.state == P.WaitAck)
    && (l.ptxIn.PtxAck? ==>
          && l.answer == NoAnswer && l.heard != [] && l.ptx.ptx.air != []
          && l.heard[|l.heard| - 1] == |l.ptx.ptx.air| - 1)
  }

  /** The transmission in progress has been neither received nor heard. */
  ghost predicate InProgressInv(l: Link) {
    P.OnAirState(l.ptx.ptx.state) ==>
      && l.ptx.ptx.air != []
      && HeardBefore(l.heard, |l.ptx.ptx.air| - 1)
      && (l.prxIn.PrxFrame? ==> l.prxIn.serial < |l.ptx.ptx.air| - 1)
  }

  ghost predicate Accepting(l: Link, crc: Crc) {
    AcceptInv(crc, l.ptx.ptx.sent, l.ptx.ptx.air, l.heard, l.acc, l.prx.prx.filter)
  }

  /** The packet accepted but not yet completed, while its ACK is being sent. */
  function Pending(l: Link): seq<nat> {
    if l.prx.prx.state == R.TxAck && l.answer.Answer? then [NumOf(l, l.answer.serial)] else []
  }

  function Nums(acc: seq<Accepted>): seq<nat> {
    seq(|acc|, i requires 0 <= i < |acc| => acc[i].num)
  }

  /** Completed packets are the accepted ones, in order and unchanged, except one still pending. */
  ghost predicate DeliveredInv(l: Link) {
    && Nums(l.acc) == l.del + Pending(l)
    && |l.prx.pool.completed| == |l.del|
    && (forall k | 0 <= k < |l.del| ::
          l.del[k] < |l.ptx.ptx.sent| && OnAir(l.prx.pool.completed[k]) == OnAir(l.ptx.ptx.sent[l.del[k]]))
    && (Pending(l) != [] ==>
          && l.prx.prx.pendingRxIdx.Some? && l.prx.prx.pendingRxIdx.value < |l.prx.pool.pkt|
          && Pending(l)[0] < |l.ptx.ptx.sent|
          && OnAir(l.prx.pool.pkt[l.prx.prx.pendingRxIdx.value]) == OnAir(l.ptx.ptx.sent[Pending(l)[0]]))
  }

  /** An acknowledged packet was heard, and is not the one still pending. */
  ghost predicate AckedInv(l: Link) {
    forall n: nat | n < |l.ptx.ptx.fates| && l.ptx.ptx.fates[n].Acked? ::
      HeardNum(l.heard, l.ptx.ptx.air, n) && n !in Pending(l)
  }

  predicate Unsent(st: BufferState) {
    st == TxAllocated || st == TxQueued
  }

  /** Unsent ACK payloads are distinct offers, none of them sent before. */
  ghost predicate OfferInv(pool: Pool, offered: seq<Packet>, tag: map<nat, nat>, acks: seq<AckSent>) {
    && Wf(pool)
    && (forall o | 0 <= o < |offered| :: offered[o].payload != [])
    && (forall i: nat | i < |pool.st| && Unsent(pool.st[i]) ::
          && i in tag && tag[i] < |offered|
          && offered[tag[i]].pipe == pool.pkt[i].pipe && offered[tag[i]].payload == pool.pkt[i].payload)
    && (forall i: nat, j: nat | i < j < |pool.st| && Unsent(pool.st[i]) && Unsent(pool.st[j]) ::
          i in tag && j in tag && tag[i] != tag[j])
    && (forall i: nat, k: nat | i < |pool.st| && Unsent(pool.st[i]) && k < |acks| ::
          i in tag && acks[k].ordinal != tag[i])
  }

  ghost predicate Answers(a: AckSent, acc: seq<Accepted>) {
    exists j :: 0 <= j < |acc| && acc[j].num == a.num && acc[j].pipe == a.pipe
  }

  /** Sent ACK payloads are distinct offers, on their pipe, one per accepted packet, in packet order. */
  ghost predicate AcksInv(acks: seq<AckSent>, offered: seq<Packet>, acc: seq<Accepted>) {
    && (forall k | 0 <= k < |acks| :: acks[k].ordinal < |offered| && offered[acks[k].ordinal].pipe == acks[k].pipe)
    && (forall i, k | 0 <= i < k < |acks| :: acks[i].ordinal != acks[k].ordinal && acks[i].num < acks[k].num)
    && (forall k | 0 <= k < |acks| :: Answers(acks[k], acc))
  }

  ghost predicate Below(s: seq<nat>, n: nat) {
    forall k | 0 <= k < |s| :: s[k] < n
  }

  ghost predicate Increasing(s: seq<nat>) {
    forall i, k | 0 <= i < k < |s| :: s[i] < s[k]
  }

  function PayloadOf(l: Link, k: nat): seq<nat> {
    if k < |l.acks| && l.acks[k].ordinal < |l.offered| then l.offered[l.acks[k].ordinal].payload else []
  }

  /** The payloads the PTX completed are sent ones, in order. */
  ghost predicate GotInv(l: Link) {
    && Increasing(l.got) && Below(l.got, |l.acks|)
    && |l.got| == |l.ptx.pool.completed|
    && (forall i | 0 <= i < |l.got| :: l.ptx.pool.completed[i].payload == PayloadOf(l, l.got[i]))
  }

  /** So is the payload of the ACK on the air, and a later one. */
  ghost predicate AnswerCarried(l: Link) {
    && (l.answer.Answer? ==>
          (l.prx.prx.ackTxIdx.Some? <==> l.answer.ack.Some?))
    && (l.answer.Answer? && l.answer.ack.Some? && l.prx.prx.ackTxIdx.Some? ==>
          && l.answer.ack.value < |l.acks| && Below(l.got, l.answer.ack.value)
          && l.prx.prx.ackTxIdx.value < |l.prx.pool.pkt|
          && l.prx.pool.pkt[l.prx.prx.ackTxIdx.value].payload == PayloadOf(l, l.answer.ack.value))
  }

  /** So is the payload of the ACK that was received. */
  ghost predicate HeardCarried(l: Link) {
    && (l.ptxIn.PtxAck? ==>
          && l.ptx.ptx.ackRxIdx.Some? && l.ptx.ptx.ackRxIdx.value < |l.ptx.pool.pkt|
          && var payload := l.ptx.pool.pkt[l.ptx.ptx.ackRxIdx.value].payload;
          match l.ptxIn.ack
          case None => payload == []
          case Some(k) => k < |l.acks| && Below(l.got, k) && payload == PayloadOf(l, k))
  }

  /** The payload of the ACK in transit, and the ones the PTX completed, are the sent ones, in order. */
  ghost predicate CarriedInv(l: Link) {
    GotInv(l) && AnswerCarried(l) && HeardCarried(l)
  }

  ghost predicate AckPayloadInv(l: Link) {
    && OfferInv(l.prx.pool, l.offered, l.tag, l.acks)
    && AcksInv(l.acks, l.offered, l.acc)
    && CarriedInv(l)
  }

  ghost predicate LinkInv(l: Link, crc: Crc) {
    && MachinesInv(l) && FrameInv(l) && AnswerInv(l) && InProgressInv(l)
    && Accepting(l, crc) && DeliveredInv(l) && AckedInv(l) && AckPayloadInv(l)
  }

  lemma InitialLinkInv(c: Setup)
    ensures LinkInv(InitialLink(c), c.crc)
  {
    hide MachinesInv, Accepting, AckPayloadInv, DeliveredInv;
    InitialMachines(c);
    InitialPackets(c);
    InitialPayloads(c);
  }

  lemma InitialMachines(c: Setup)
    ensures MachinesInv(InitialLink(c))
  {
    P.InitialInv(c.ptxBuffers, c.maxAttempts, c.retransmitDelayUs, c.ackTimeoutUs, 0);
    R.InitialInv(c.prxBuffers);
    hide P.Inv, R.Inv;
  }

  lemma InitialPackets(c: Setup)
    ensures Accepting(InitialLink(c), c.crc) && DeliveredInv(InitialLink(c))
  {
  }

  lemma InitialPayloads(c: Setup)
    ensures AckPayloadInv(InitialLink(c))
  {
  }

  // ---- The PTX side ----

  /** Everything but the progress clause, which an interrupt re-establishes. */
  ghost predicate BaseInv(l: Link, crc: Crc) {
    && MachinesInv(l) && FrameInv(l) && AnswerInv(l)
    && Accepting(l, crc) && DeliveredInv(l) && AckedInv(l) && AckPayloadInv(l)
  }

  /** What any PTX event may change of a link; nothing on the PRX side moves. */
  ghost predicate PtxMoves(l: Link, r: Link) {
    && r.prx == l.prx && r.prxApp == l.prxApp && r.prxIn == l.prxIn && r.answer == l.answer
    && r.heard == l.heard && r.acc == l.acc && r.del == l.del
    && r.offered == l.offered && r.tag == l.tag && r.acks == l.acks
    && P.HistoryGrows(l.ptx.ptx, r.ptx.ptx)
  }

  lemma AcceptingIsHeardWf(l: Link, crc: Crc)
    requires Accepting(l, crc)
    ensures HeardWf(l.heard, l.ptx.ptx.air)
  {
  }

  lemma PtxKeepsAcceptance(l: Link, r: Link, crc: Crc)
    requires Accepting(l, crc) && PtxMoves(l, r) && P.AirInv(r.ptx.ptx.sent, r.ptx.ptx.air)
    ensures Accepting(r, crc)
  {
    AcceptGrows(crc, l.ptx.ptx.sent, l.ptx.ptx.air, l.heard, l.acc, l.prx.prx.filter, r.ptx.ptx.sent, r.ptx.ptx.air);
  }

  /** An answer is to a transmission in the log. */
  lemma AnswerInLog(l: Link)
    requires AnswerInv(l) && HeardWf(l.heard, l.ptx.ptx.air) && l.answer.Answer?
    ensures l.answer.serial < |l.ptx.ptx.air|
  {
  }

  lemma PtxKeepsPending(l: Link, r: Link)
    requires PtxMoves(l, r) && AnswerInv(l) && HeardWf(l.heard, l.ptx.ptx.air)
    ensures Pending(r) == Pending(l)
  {
    if l.answer.Answer? {
      AnswerInLog(l);
    }
  }

  lemma PtxKeepsFrame(l: Link, r: Link)
    requires PtxMoves(l, r) && FrameInv(l)
    ensures FrameInv(r)
  {
  }

  lemma PtxKeepsDelivery(l: Link, r: Link)
    requires PtxMoves(l, r) && Pending(r) == Pending(l) && DeliveredInv(l)
    ensures DeliveredInv(r)
  {
    hide Pending;
  }

  lemma PtxKeepsAcked(l: Link, r: Link)
    requires PtxMoves(l, r) && Pending(r) == Pending(l) && AckedInv(l) && HeardWf(l.heard, l.ptx.ptx.air)
    requires forall n: nat | |l.ptx.ptx.fates| <= n < |r.ptx.ptx.fates| && r.ptx.ptx.fates[n].Acked? ::
               HeardNum(r.heard, r.ptx.ptx.air, n) && n !in Pending(r)
    ensures AckedInv(r)
  {
    hide HeardWf, HeardNum, Pending;
    forall n: nat | n < |r.ptx.ptx.fates| && r.ptx.ptx.fates[n].Acked?
      ensures HeardNum(r.heard, r.ptx.ptx.air, n) && n !in Pending(r)
    {
      if n < |l.ptx.ptx.fates| {
        assert l.ptx.ptx.fates[n] == r.ptx.ptx.fates[n];
        HeardGrows(l.ptx.ptx.sent, l.ptx.ptx.air, r.ptx.ptx.air, l.heard, n);
      }
    }
  }

  /** The events of a PTX interrupt agree with what its radio holds. */
  ghost predicate Legal(l: Link, e: P.Events) {
    l.ptx.ptx.state == P.WaitAck && !P.UserEvent(e) ==>
      (e.disabled <==> l.ptxIn != PtxQuiet) && (e.disabled ==> e.crcOk == l.ptxIn.PtxAck?)
  }

  /** `r` is `l` after a PTX interrupt that consumed what the radio held. */
  ghost predicate Settled(l: Link, e: P.Events, r: Link) {
    && P.Shape(l.ptx, e, r.ptx)
    && r == l.(ptx := r.ptx,
            ptxIn := if l.ptx.ptx.state == P.WaitAck && !P.UserEvent(e) then PtxQuiet else l.ptxIn,
            got := if P.GoodAck(l.ptx, e) && l.ptxIn.PtxAck? && l.ptxIn.ack.Some?
            then l.got + [l.ptxIn.ack.value] else l.got)
  }

  /** The packet whose ACK is being waited for is the one that would be acknowledged. */
  lemma WaitedPacketHeard(l: Link)
    requires AnswerInv(l) && l.ptxIn.PtxAck? && P.CountInv(l.ptx.ptx) && P.RadioInv(l.ptx.ptx)
    requires P.AirInv(l.ptx.ptx.sent, l.ptx.ptx.air)
    ensures HeardNum(l.heard, l.ptx.ptx.air, |l.ptx.ptx.fates|)
  {
    var k := |l.heard| - 1;
    assert l.ptx.ptx.air[l.heard[k]].num + 1 == |l.ptx.ptx.sent|;
  }

  lemma PayloadNonEmpty(l: Link, k: nat)
    requires OfferInv(l.prx.pool, l.offered, l.tag, l.acks) && AcksInv(l.acks, l.offered, l.acc) && k < |l.acks|
    ensures PayloadOf(l, k) != []
  {
  }

  /** A good ACK with a payload completes exactly that payload; nothing else completes any. */
  lemma SettleCarried(l: Link, e: P.Events, r: Link)
    requires CarriedInv(l) && AnswerInv(l) && Legal(l, e) && Settled(l, e, r)
    requires forall k: nat | k < |l.acks| :: PayloadOf(l, k) != []
    ensures CarriedInv(r)
  {
    hide QueueOnlyShrinks;
    assert forall k: nat :: PayloadOf(r, k) == PayloadOf(l, k);
    hide PayloadOf;
  }

  lemma SettleProgress(l: Link, e: P.Events, r: Link)
    requires AnswerInv(l) && FrameInv(l) && HeardWf(l.heard, l.ptx.ptx.air) && Legal(l, e) && Settled(l, e, r)
    requires InProgressInv(l) || (P.OnAirState(l.ptx.ptx.state) && e.disabled)
    ensures AnswerInv(r) && InProgressInv(r)
  {
    hide QueueOnlyShrinks;
  }

  lemma SettleAcked(l: Link, e: P.Events, r: Link)
    requires AnswerInv(l) && AckedInv(l) && HeardWf(l.heard, l.ptx.ptx.air) && Legal(l, e) && Settled(l, e, r)
    requires P.CountInv(l.ptx.ptx) && P.RadioInv(l.ptx.ptx) && P.AirInv(l.ptx.ptx.sent, l.ptx.ptx.air)
    ensures Pending(r) == Pending(l) && AckedInv(r)
  {
    PtxKeepsPending(l, r);
    if P.GoodAck(l.ptx, e) {
      WaitedPacketHeard(l);
      HeardGrows(l.ptx.ptx.sent, l.ptx.ptx.air, r.ptx.ptx.air, l.heard, |l.ptx.ptx.fates|);
      assert Pending(l) == [];
    }
    hide QueueOnlyShrinks, HeardWf, HeardNum, Pending, P.AirInv, P.CountInv, P.RadioInv;
    PtxKeepsAcked(l, r);
  }

  /** Every PTX interrupt whose events agree with its radio keeps the invariant. */
  lemma SettleInv(l: Link, e: P.Events, r: Link, crc: Crc)
    requires BaseInv(l, crc) && Legal(l, e) && Settled(l, e, r)
    requires P.Inv(r.ptx, r.ptxApp.held, r.ptxApp.alloc)
    requires InProgressInv(l) || (P.OnAirState(l.ptx.ptx.state) && e.disabled)
    ensures LinkInv(r, crc)
  {
    AcceptingIsHeardWf(l, crc);
    hide Owned, R.Inv, AcceptInv, HeardWf, P.Shape, P.BufferInv, P.FateInv, P.NoAckInv;
    assert PtxMoves(l, r) by {
      SettledMoves(l, e, r);
    }
    PtxKeepsAcceptance(l, r, crc);
    SettleAcked(l, e, r);
    PtxKeepsFrame(l, r);
    PtxKeepsDelivery(l, r);
    SettleProgress(l, e, r);
    hide P.AirInv, P.CountInv, P.RadioInv, FrameInv, DeliveredInv, AckedInv, AnswerInv, InProgressInv, Pending;
    forall k: nat | k < |l.acks|
      ensures PayloadOf(l, k) != []
    {
      PayloadNonEmpty(l, k);
    }
    hide OfferInv, AcksInv, PayloadOf;
    SettleCarried(l, e, r);
  }

  lemma SettledMoves(l: Link, e: P.Events, r: Link)
    requires Settled(l, e, r)
    ensures PtxMoves(l, r)
  {
  }

  // ---- Application calls ----

  lemma SamePtxAcked(l: Link, r: Link)
    requires AckedInv(l) && r.ptx.ptx == l.ptx.ptx && r.heard == l.heard && Pending(r) == Pending(l)
    ensures AckedInv(r)
  {
    hide HeardNum, Pending;
  }

  /** An application call leaves the buffers of its engine, and the received history, alone. */
  lemma PtxCallsCarried(l: Link, r: Link)
    requires CarriedInv(l) && r == l.(ptx := l.ptx.(pool := r.ptx.pool), ptxApp := r.ptxApp)
    requires Undisturbed(l.ptx.pool, r.ptx.pool)
    requires l.ptxIn.PtxAck? ==> l.ptx.ptx.ackRxIdx.Some? && l.ptx.ptx.ackRxIdx.value < |l.ptx.pool.st|
                                 && l.ptx.pool.st[l.ptx.ptx.ackRxIdx.value] == InDma
    ensures CarriedInv(r)
  {
    assert forall k: nat :: PayloadOf(r, k) == PayloadOf(l, k);
    hide PayloadOf;
  }

  lemma PtxCallsMachines(l: Link, c: Setup, call: AppAction)
    requires MachinesInv(l)
    ensures var r := OnPtxCalls(l, c, call);
            MachinesInv(r) && Undisturbed(l.ptx.pool, r.ptx.pool)
    ensures forall i | i in P.DmaSet(l.ptx.ptx) :: i < |l.ptx.pool.st| && l.ptx.pool.st[i] == InDma
  {
    AppStepOwned(l.ptx.pool, l.ptxApp, call, c.maxLen, P.DmaSet(l.ptx.ptx));
    hide AppStep, R.Inv, P.AirInv, P.FateInv;
    assert forall i | i in P.DmaSet(l.ptx.ptx) :: l.ptx.pool.st[i] == InDma;
    hide Owned;
  }

  lemma PtxCallsInv(l: Link, c: Setup, call: AppAction)
    requires LinkInv(l, c.crc)
    ensures LinkInv(OnPtxCalls(l, c, call), c.crc)
  {
    PtxCallsMachines(l, c, call);
    var r := OnPtxCalls(l, c, call);
    assert l.ptxIn.PtxAck? ==> l.ptx.ptx.ackRxIdx.Some? && l.ptx.ptx.ackRxIdx.value in P.DmaSet(l.ptx.ptx);
    hide Owned, AcceptInv, OfferInv, AcksInv, R.Inv, P.Inv, DeliveredInv, AckedInv, FrameInv, AppStep;
    hide MachinesInv, HeardWf, P.HistoryGrows;
    PtxCallsCarried(l, r);
    hide CarriedInv;
    SamePtxAcked(l, r);
    SamePtxSame(l, r);
  }

  lemma SamePtxSame(l: Link, r: Link)
    requires r == l.(ptx := l.ptx.(pool := r.ptx.pool), ptxApp := r.ptxApp)
    requires FrameInv(l) && DeliveredInv(l)
    ensures FrameInv(r) && DeliveredInv(r)
  {
    assert Pending(r) == Pending(l);
    hide Pending;
  }

  /** Buffers that stay unsent keep their offers. */
  lemma OffersKept(v: Pool, w: Pool, offered: seq<Packet>, tag: map<nat, nat>, acks: seq<AckSent>)
    requires OfferInv(v, offered, tag, acks) && Wf(w) && |w.st| == |v.st|
    requires forall i: nat | i < |w.st| && Unsent(w.st[i]) :: Unsent(v.st[i]) && w.pkt[i] == v.pkt[i]
    ensures OfferInv(w, offered, tag, acks)
  {
    hide Unsent;
  }

  /** A buffer filled by the application carries the next offer. */
  lemma OffersGrow(v: Pool, w: Pool, offered: seq<Packet>, tag: map<nat, nat>, acks: seq<AckSent>,
                   acc: seq<Accepted>, i: nat, x: Packet)
    requires OfferInv(v, offered, tag, acks) && AcksInv(acks, offered, acc) && Wf(w) && |w.st| == |v.st|
    requires i < |w.st| && x.payload != [] && w.pkt[i].pipe == x.pipe && w.pkt[i].payload == x.payload
    requires forall j: nat | j < |w.st| && Unsent(w.st[j]) && j != i :: Unsent(v.st[j]) && w.pkt[j] == v.pkt[j]
    ensures OfferInv(w, offered + [x], tag[i := |offered|], acks)
    ensures AcksInv(acks, offered + [x], acc)
  {
    hide Unsent;
  }

  lemma PrxCallsOffers(l: Link, c: Setup, call: AppAction)
    requires OfferInv(l.prx.pool, l.offered, l.tag, l.acks) && AcksInv(l.acks, l.offered, l.acc) && Ready(l)
    ensures var r := OnPrxCalls(l, c, call);
            && l.offered <= r.offered
            && OfferInv(r.prx.pool, r.offered, r.tag, l.acks) && AcksInv(l.acks, r.offered, l.acc)
  {
    var r := OnPrxCalls(l, c, call);
    var v, w := l.prx.pool, r.prx.pool;
    forall i: nat | i < |v.st|
      ensures |w.st| == |v.st| && Wf(w)
      ensures var fills := call.BeginSend? && ValidSend(call.pipe, call.payload, c.maxLen) && AllocTx(v).1 == Some(i);
              && (Unsent(w.st[i]) && !fills ==> Unsent(v.st[i]) && w.pkt[i] == v.pkt[i])
              && (fills ==> Unsent(w.st[i]) && w.pkt[i].pipe == call.pipe && w.pkt[i].payload == call.payload)
    {
      AppStepUnsent(v, l.prxApp, call, c.maxLen, i);
    }
    hide OfferInv, AcksInv, Unsent, P.InRange;
    assert Wf(w) && |w.st| == |v.st| by {
      AppStepUndisturbed(v, l.prxApp, call, c.maxLen);
    }
    hide AppStep;
    var slot := AllocTx(v).1;
    if call.BeginSend? && ValidSend(call.pipe, call.payload, c.maxLen) && slot.Some? {
      OffersGrow(v, w, l.offered, l.tag, l.acks, l.acc, slot.value,
                 Packet(0, call.pipe, 0, call.noAck, call.payload));
    } else {
      OffersKept(v, w, l.offered, l.tag, l.acks);
    }
  }

  lemma PrxCallsMachines(l: Link, c: Setup, call: AppAction)
    requires MachinesInv(l)
    ensures var r := OnPrxCalls(l, c, call);
            MachinesInv(r) && Undisturbed(l.prx.pool, r.prx.pool)
    ensures forall i | i in R.DmaSet(l.prx.prx) :: i < |l.prx.pool.st| && l.prx.pool.st[i] == InDma
  {
    AppStepOwned(l.prx.pool, l.prxApp, call, c.maxLen, R.DmaSet(l.prx.prx));
    hide AppStep, P.Inv;
    assert forall i | i in R.DmaSet(l.prx.prx) :: l.prx.pool.st[i] == InDma;
    hide Owned;
  }

  /** `r` differs from `l` in what a call of the PRX application may change. */
  ghost predicate PrxCalled(l: Link, r: Link) {
    && r == l.(prx := l.prx.(pool := r.prx.pool), prxApp := r.prxApp, offered := r.offered, tag := r.tag)
    && l.offered <= r.offered && Undisturbed(l.prx.pool, r.prx.pool)
    && forall i | i in R.DmaSet(l.prx.prx) :: i < |l.prx.pool.st| && l.prx.pool.st[i] == InDma
  }

  lemma PrxCalledKeeps(l: Link, r: Link)
    requires PrxCalled(l, r) && FrameInv(l) && DeliveredInv(l)
    ensures FrameInv(r) && DeliveredInv(r)
  {
    assert Pending(r) == Pending(l);
    assert l.prx.prx.rxIdx.Some? ==> l.prx.prx.rxIdx.value in R.DmaSet(l.prx.prx);
    assert l.prx.prx.pendingRxIdx.Some? ==> l.prx.prx.pendingRxIdx.value in R.DmaSet(l.prx.prx);
    hide R.DmaSet;
  }

  lemma PrxCalledCarried(l: Link, r: Link)
    requires PrxCalled(l, r) && CarriedInv(l) && AcksInv(l.acks, l.offered, l.acc)
    ensures CarriedInv(r)
  {
    assert forall k: nat | k < |l.acks| :: PayloadOf(r, k) == PayloadOf(l, k);
    hide AcksInv, PayloadOf;
    assert l.prx.prx.ackTxIdx.Some? ==> l.prx.prx.ackTxIdx.value in R.DmaSet(l.prx.prx);
    hide R.DmaSet;
  }

  lemma PrxCallsIsCalled(l: Link, c: Setup, call: AppAction)
    requires MachinesInv(l) && OfferInv(l.prx.pool, l.offered, l.tag, l.acks) && AcksInv(l.acks, l.offered, l.acc)
    ensures PrxCalled(l, OnPrxCalls(l, c, call)) && MachinesInv(OnPrxCalls(l, c, call))
  {
    PrxCallsMachines(l, c, call);
    PrxCallsOffers(l, c, call);
    hide OfferInv, AcksInv, MachinesInv, AppStep, Undisturbed;
  }

  lemma PrxCalledInv(l: Link, r: Link, crc: Crc)
    requires LinkInv(l, crc) && PrxCalled(l, r) && MachinesInv(r)
    requires OfferInv(r.prx.pool, r.offered, r.tag, r.acks) && AcksInv(r.acks, r.offered, r.acc)
    ensures LinkInv(r, crc)
  {
    hide AcceptInv, OfferInv, AckedInv, DeliveredInv, FrameInv, MachinesInv;
    PrxCalledKeeps(l, r);
    PrxCalledCarried(l, r);
    hide CarriedInv, AcksInv, Undisturbed, R.DmaSet;
    SamePtxAcked(l, r);
  }

  lemma PrxCallsInv(l: Link, c: Setup, call: AppAction)
    requires LinkInv(l, c.crc)
    ensures LinkInv(OnPrxCalls(l, c, call), c.crc)
  {
    hide MachinesInv, AckPayloadInv;
    PrxCallsParts(l, c.crc);
    hide LinkInv, OfferInv, AcksInv, PrxCalled, OnPrxCalls;
    PrxCallsIsCalled(l, c, call);
    PrxCallsOffers(l, c, call);
    PrxCallsAcks(l, c, call);
    PrxCalledInv(l, OnPrxCalls(l, c, call), c.crc);
  }

  lemma PrxCallsAcks(l: Link, c: Setup, call: AppAction)
    requires Ready(l)
    ensures OnPrxCalls(l, c, call).acks == l.acks && OnPrxCalls(l, c, call).acc == l.acc
  {
    hide AppStep;
  }

  lemma PrxCallsParts(l: Link, crc: Crc)
    requires LinkInv(l, crc)
    ensures MachinesInv(l) && OfferInv(l.prx.pool, l.offered, l.tag, l.acks) && AcksInv(l.acks, l.offered, l.acc)
    ensures Ready(l)
  {
    hide OfferInv, AcksInv, AcceptInv, Owned;
  }
}
