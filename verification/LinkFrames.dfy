/**
 The two actions that decide what the PRX delivers: handling a received frame, and the
 end of an ACK.
 */
module LinkFrames {
  import opened Wrappers
  import opened PoolModel
  import opened Acceptance
  import opened LinkModel
  import opened LinkInvariant
  import opened LinkSteps
  import P = PtxModel
  import R = PrxModel

  /** The PRX handled transmission `serial`, and its filter took it for a duplicate or not. */
  ghost predicate Handles(l: Link, r: Link, crc: Crc, serial: nat, dup: bool)
    requires serial < |l.ptx.ptx.air|
  {
    var num := l.ptx.ptx.air[serial].num;
    var pkt := l.ptx.ptx.air[serial].pkt;
    var pays := !dup && !pkt.noAck && r.prx.prx.ackTxIdx.Some?;
    && Wf(l.prx.pool) && QueueOnlyShrinks(l.prx.pool, r.prx.pool)
    && dup == R.CheckDuplicate(l.prx.prx.filter, pkt.pipe, pkt.pid, crc(OnAir(pkt)))
    && (pays ==> r.prx.prx.ackTxIdx.value < |l.prx.pool.st|)
    && (pays ==> Sends(l, r, r.prx.prx.ackTxIdx.value, pkt.pipe))
    && r == l.(prx := r.prx, prxIn := PrxQuiet, heard := l.heard + [serial],
            acc := if dup then l.acc else l.acc + [Accepted(num, pkt.pipe, SeenOf(crc, pkt))],
            del := if !dup && pkt.noAck then l.del + [num] else l.del,
            acks := if pays then l.acks + [AckSent(num, pkt.pipe, OfferOf(l, r.prx.prx.ackTxIdx.value))] else l.acks,
            answer := if pkt.noAck then NoAnswer else Answer(serial, if pays then Some(|l.acks|) else None))
    && (dup ==> r.prx.prx.filter == l.prx.prx.filter)
    && (!dup ==> |l.prx.prx.filter| == R.NUM_PIPES
                 && r.prx.prx.filter == l.prx.prx.filter[pkt.pipe := Some(SeenOf(crc, pkt))])
  }

  function OfferOf(l: Link, j: nat): nat {
    if j in l.tag then l.tag[j] else 0
  }

  /** Buffer `j` leaves the transmit queue of `pipe` for the ACK. */
  ghost predicate Sends(l: Link, r: Link, j: nat, pipe: nat)
    requires Wf(l.prx.pool) && Wf(r.prx.pool) && |l.prx.pool.st| == |r.prx.pool.st| && j < |l.prx.pool.st|
  {
    && l.prx.pool.st[j] == TxQueued && r.prx.pool.st[j] == InDma
    && l.prx.pool.pkt[j].pipe == pipe && r.prx.pool.pkt[j] == l.prx.pool.pkt[j]
  }

  /** What a handled frame leaves in the receive buffers, and where it leaves the machine. */
  ghost predicate Stores(l: Link, r: Link, serial: nat, dup: bool)
    requires serial < |l.ptx.ptx.air|
  {
    var pkt := l.ptx.ptx.air[serial].pkt;
    && (pkt.noAck ==> !Answering(r.prx.prx.state))
    && (!pkt.noAck ==> r.prx.prx.state == if dup then R.TxRepeatedAck else R.TxAck)
    && (dup || !pkt.noAck ==> r.prx.pool.completed == l.prx.pool.completed)
    && (!dup && pkt.noAck ==>
          && |r.prx.pool.completed| == |l.prx.pool.completed| + 1
          && r.prx.pool.completed[..|l.prx.pool.completed|] == l.prx.pool.completed
          && OnAir(r.prx.pool.completed[|l.prx.pool.completed|]) == OnAir(pkt))
    && (!dup && !pkt.noAck ==>
          && r.prx.prx.pendingRxIdx.Some? && r.prx.prx.pendingRxIdx.value < |r.prx.pool.pkt|
          && OnAir(r.prx.pool.pkt[r.prx.prx.pendingRxIdx.value]) == OnAir(pkt))
  }

  /**
   The ACK goes out on the pipe of the packet. To a new packet it carries the lowest payload
   queued for that pipe, if there is any; to a repeat it carries none.
   */
  ghost predicate Replies(l: Link, r: Link, serial: nat, dup: bool)
    requires serial < |l.ptx.ptx.air| && Wf(l.prx.pool)
  {
    var pkt := l.ptx.ptx.air[serial].pkt;
    !pkt.noAck ==>
      && r.prx.prx.radio == R.Answering(pkt.pipe, r.prx.prx.ackTxIdx)
      && if dup then r.prx.prx.ackTxIdx.None? else IsNextFor(l.prx.pool, pkt.pipe, r.prx.prx.ackTxIdx)
  }

  /** The buffer holds the transmission, so the interrupt sees its header and stores its contents. */
  lemma FrameEndsShape(l: Link, c: Setup, rssi: nat)
    requires R.Inv(l.prx, l.prxApp.held, l.prxApp.alloc) && FrameInv(l) && l.prxIn.PrxFrame? && Ready(l)
    ensures var r := OnFrameEnds(l, c, rssi);
            var serial := l.prxIn.serial;
            var pkt := l.ptx.ptx.air[serial].pkt;
            var dup := R.CheckDuplicate(l.prx.prx.filter, pkt.pipe, pkt.pid, c.crc(OnAir(pkt)));
            Handles(l, r, c.crc, serial, dup) && Stores(l, r, serial, dup) && Replies(l, r, serial, dup)
    ensures R.Inv(OnFrameEnds(l, c, rssi).prx, l.prxApp.held, l.prxApp.alloc)
  {
    hide R.HandleRadioEvent, Owned, QueueOnlyShrinks, R.CheckDuplicate, IsNextFor;
    var serial := l.prxIn.serial;
    var pkt := l.ptx.ptx.air[serial].pkt;
    var rx := R.Rx(true, pkt.pipe, c.crc(OnAir(pkt)), rssi);
    R.ReceiveShape(l.prx, rx, l.prxApp.held, l.prxApp.alloc);
    R.HandleRadioEventInv(l.prx, true, false, rx, l.prxApp.held, l.prxApp.alloc);
  }

  lemma FrameNum(l: Link, crc: Crc, serial: nat)
    requires Accepting(l, crc) && serial < |l.ptx.ptx.air|
    ensures var f := l.ptx.ptx.air[serial]; f.num < |l.ptx.ptx.sent| && f.pkt == l.ptx.ptx.sent[f.num]
  {
  }

  lemma HandlesAccepting(l: Link, r: Link, crc: Crc, serial: nat, dup: bool)
    requires Accepting(l, crc) && serial < |l.ptx.ptx.air| && HeardBefore(l.heard, serial)
    requires Handles(l, r, crc, serial, dup)
    ensures Accepting(r, crc)
    ensures !dup ==> !IsAccepted(l.acc, l.ptx.ptx.air[serial].num)
    ensures !dup ==> !HeardNum(l.heard, l.ptx.ptx.air, l.ptx.ptx.air[serial].num)
    ensures forall k | 0 <= k < |l.acc| :: l.acc[k].num <= l.ptx.ptx.air[serial].num
  {
    FrameNum(l, crc, serial);
    var x := l.ptx.ptx;
    HeardBounds(crc, x.sent, x.air, l.heard, l.acc, l.prx.prx.filter, serial);
    DuplicateMeans(crc, x.sent, x.air, l.heard, l.acc, l.prx.prx.filter, serial);
    AcceptHears(crc, x.sent, x.air, l.heard, l.acc, l.prx.prx.filter, serial);
    hide AcceptInv, QueueOnlyShrinks, Sends, HeardNum;
  }

  lemma HandlesProgress(l: Link, r: Link, crc: Crc, serial: nat, dup: bool)
    requires l.prxIn == PrxFrame(serial) && FrameInv(l) && AnswerInv(l) && InProgressInv(l)
    requires Handles(l, r, crc, serial, dup) && Stores(l, r, serial, dup)
    ensures FrameInv(r) && AnswerInv(r) && InProgressInv(r)
  {
    hide QueueOnlyShrinks, Sends;
  }

  lemma HandlesPending(l: Link, r: Link, crc: Crc, serial: nat, dup: bool)
    requires serial < |l.ptx.ptx.air| && Handles(l, r, crc, serial, dup) && Stores(l, r, serial, dup)
    requires !Answering(l.prx.prx.state)
    ensures Pending(l) == []
    ensures Pending(r) == if !dup && !l.ptx.ptx.air[serial].pkt.noAck then [l.ptx.ptx.air[serial].num] else []
  {
    hide QueueOnlyShrinks, Sends;
  }

  lemma HandlesDelivered(l: Link, r: Link, crc: Crc, serial: nat, dup: bool)
    requires serial < |l.ptx.ptx.air| && Handles(l, r, crc, serial, dup) && Stores(l, r, serial, dup)
    requires DeliveredInv(l) && Pending(l) == []
    requires Pending(r) == if !dup && !l.ptx.ptx.air[serial].pkt.noAck then [l.ptx.ptx.air[serial].num] else []
    requires var f := l.ptx.ptx.air[serial]; f.num < |l.ptx.ptx.sent| && f.pkt == l.ptx.ptx.sent[f.num]
    ensures DeliveredInv(r)
  {
    hide QueueOnlyShrinks, Sends, Pending;
    assert l.del + [] == l.del;
    assert dup ==> r.del + Pending(r) == l.del;
    if !dup {
      assert Nums(r.acc) == Nums(l.acc) + [l.ptx.ptx.air[serial].num];
    }
    forall k | 0 <= k < |l.del|
      ensures r.prx.pool.completed[k] == l.prx.pool.completed[k]
    {
      assert l.prx.pool.completed[k] == r.prx.pool.completed[..|l.prx.pool.completed|][k];
    }
  }

  /** A packet pending for the first time was never heard, so it is not an acknowledged one. */
  lemma HandlesAcked(l: Link, r: Link, crc: Crc, serial: nat, dup: bool)
    requires serial < |l.ptx.ptx.air| && Handles(l, r, crc, serial, dup) && AckedInv(l)
    requires !dup ==> !HeardNum(l.heard, l.ptx.ptx.air, l.ptx.ptx.air[serial].num)
    requires Pending(r) == if !dup && !l.ptx.ptx.air[serial].pkt.noAck then [l.ptx.ptx.air[serial].num] else []
    ensures AckedInv(r)
  {
    hide QueueOnlyShrinks, Sends, Pending, HeardNum;
    forall n: nat | n < |r.ptx.ptx.fates| && r.ptx.ptx.fates[n].Acked?
      ensures HeardNum(r.heard, r.ptx.ptx.air, n) && n !in Pending(r)
    {
      HeardAppend(l.heard, l.ptx.ptx.air, serial, n);
    }
  }

  lemma HandlesOffers(l: Link, r: Link, crc: Crc, serial: nat, dup: bool)
    requires serial < |l.ptx.ptx.air| && Handles(l, r, crc, serial, dup)
    requires OfferInv(l.prx.pool, l.offered, l.tag, l.acks)
    ensures OfferInv(r.prx.pool, r.offered, r.tag, r.acks)
  {
    assert Wf(r.prx.pool);
    OffersKept(l.prx.pool, r.prx.pool, l.offered, l.tag, l.acks);
    if r.acks != l.acks {
      var j := r.prx.prx.ackTxIdx.value;
      assert Unsent(l.prx.pool.st[j]) && !Unsent(r.prx.pool.st[j]);
      OfferUsed(l.prx.pool, r.prx.pool, l.offered, l.tag, l.acks, r.acks, j);
    }
  }

  lemma OfferUsed(v: Pool, w: Pool, offered: seq<Packet>, tag: map<nat, nat>, acks: seq<AckSent>, acks': seq<AckSent>,
                  j: nat)
    requires OfferInv(v, offered, tag, acks) && OfferInv(w, offered, tag, acks) && QueueOnlyShrinks(v, w)
    requires j < |v.st| && Unsent(v.st[j]) && !Unsent(w.st[j]) && j in tag
    requires |acks'| == |acks| + 1 && acks <= acks' && acks'[|acks|].ordinal == tag[j]
    ensures OfferInv(w, offered, tag, acks')
  {
    forall i: nat, k: nat | i < |w.st| && Unsent(w.st[i]) && k < |acks'|
      ensures i in tag && acks'[k].ordinal != tag[i]
    {
      assert Unsent(v.st[i]) && i != j;
      if k < |acks| {
        assert acks'[k] == acks[k];
      } else {
        var a, b := if i < j then i else j, if i < j then j else i;
        assert Unsent(v.st[a]) && Unsent(v.st[b]) && a < b;
      }
    }
  }

  lemma AnswersMore(a: AckSent, acc: seq<Accepted>, more: seq<Accepted>)
    requires Answers(a, acc) && acc <= more
    ensures Answers(a, more)
  {
    var j :| 0 <= j < |acc| && acc[j].num == a.num && acc[j].pipe == a.pipe;
    assert more[j] == acc[j];
  }

  lemma HandlesAcks(l: Link, r: Link, crc: Crc, serial: nat, dup: bool)
    requires serial < |l.ptx.ptx.air| && Handles(l, r, crc, serial, dup)
    requires OfferInv(l.prx.pool, l.offered, l.tag, l.acks) && AcksInv(l.acks, l.offered, l.acc)
    requires !dup ==> !IsAccepted(l.acc, l.ptx.ptx.air[serial].num)
    requires forall k | 0 <= k < |l.acc| :: l.acc[k].num <= l.ptx.ptx.air[serial].num
    ensures AcksInv(r.acks, r.offered, r.acc)
  {
    hide QueueOnlyShrinks, Answers;
    forall k | 0 <= k < |l.acks|
      ensures Answers(l.acks[k], r.acc) && (!dup ==> l.acks[k].num < l.ptx.ptx.air[serial].num)
    {
      AnswersMore(l.acks[k], l.acc, r.acc);
      AnsweredBelow(l.acks[k], l.acc, l.ptx.ptx.air[serial].num);
    }
    if r.acks != l.acks {
      NewAck(l, r, crc, serial);
    }
  }

  lemma AnsweredBelow(a: AckSent, acc: seq<Accepted>, n: nat)
    requires Answers(a, acc) && forall k | 0 <= k < |acc| :: acc[k].num <= n
    ensures a.num <= n && (!IsAccepted(acc, n) ==> a.num < n)
  {
  }

  /** The newest ACK payload answers the newest acceptance, on its pipe, and was not sent before. */
  lemma NewAck(l: Link, r: Link, crc: Crc, serial: nat)
    requires serial < |l.ptx.ptx.air| && Handles(l, r, crc, serial, false) && r.acks != l.acks
    requires OfferInv(l.prx.pool, l.offered, l.tag, l.acks)
    ensures var a := r.acks[|l.acks|];
            && a.ordinal < |l.offered| && l.offered[a.ordinal].pipe == a.pipe && Answers(a, r.acc)
            && a.num == l.ptx.ptx.air[serial].num
            && (forall k | 0 <= k < |l.acks| :: l.acks[k].ordinal != a.ordinal)
    ensures var j := r.prx.prx.ackTxIdx.value;
            j < |r.prx.pool.pkt| && PayloadOf(r, |l.acks|) == r.prx.pool.pkt[j].payload
  {
    var j := r.prx.prx.ackTxIdx.value;
    assert Unsent(l.prx.pool.st[j]);
    assert r.acc[|l.acc|].num == r.acks[|l.acks|].num;
  }

  lemma HandlesCarried(l: Link, r: Link, crc: Crc, serial: nat, dup: bool)
    requires serial < |l.ptx.ptx.air| && Handles(l, r, crc, serial, dup) && Stores(l, r, serial, dup)
    requires OfferInv(l.prx.pool, l.offered, l.tag, l.acks) && AcksInv(l.acks, l.offered, l.acc)
    requires R.RadioInv(r.prx.prx) && CarriedInv(l)
    ensures CarriedInv(r)
  {
    hide QueueOnlyShrinks, OfferInv, AcksInv, PayloadOf, Sends, R.CheckDuplicate, GotInv, HeardCarried;
    SamePayloads(l, r);
    CarriedLater(l, r);
    if r.acks != l.acks {
      NewAck(l, r, crc, serial);
      GotBelow(l);
    }
  }

  lemma GotBelow(l: Link)
    requires GotInv(l)
    ensures Below(l.got, |l.acks|)
  {
    hide PayloadOf;
  }

  /** More sent payloads change nothing about what the PTX has. */
  lemma CarriedLater(l: Link, r: Link)
    requires l.acks <= r.acks && r.offered == l.offered && r.ptx == l.ptx && r.ptxIn == l.ptxIn && r.got == l.got
    requires GotInv(l) && HeardCarried(l)
    ensures GotInv(r) && HeardCarried(r)
  {
    SamePayloads(l, r);
    hide PayloadOf;
  }

  /** Payloads that were sent stay what they are. */
  lemma SamePayloads(l: Link, r: Link)
    requires l.acks <= r.acks && r.offered == l.offered
    ensures forall k: nat | k < |l.acks| :: PayloadOf(r, k) == PayloadOf(l, k)
  {
  }

  /** Everything about packets: progress, acceptance and delivery. */
  lemma HandlesPackets(l: Link, r: Link, crc: Crc, serial: nat, dup: bool)
    requires LinkInv(l, crc) && l.prxIn == PrxFrame(serial)
    requires Handles(l, r, crc, serial, dup) && Stores(l, r, serial, dup)
    ensures FrameInv(r) && AnswerInv(r) && InProgressInv(r) && Accepting(r, crc) && DeliveredInv(r) && AckedInv(r)
    ensures !dup ==> !IsAccepted(l.acc, l.ptx.ptx.air[serial].num)
    ensures forall k | 0 <= k < |l.acc| :: l.acc[k].num <= l.ptx.ptx.air[serial].num
  {
    assert !Answering(l.prx.prx.state);
    hide P.Inv, R.Inv, Answering, AcceptInv, AckPayloadInv, DeliveredInv, AckedInv, HeardNum;
    HandlesPending(l, r, crc, serial, dup);
    HandlesProgress(l, r, crc, serial, dup);
    hide AnswerInv, InProgressInv;
    FrameNum(l, crc, serial);
    HandlesAccepting(l, r, crc, serial, dup);
    hide FrameInv, Pending;
    HandlesDelivered(l, r, crc, serial, dup);
    HandlesAcked(l, r, crc, serial, dup);
  }

  lemma HandlesAll(l: Link, r: Link, crc: Crc, serial: nat, dup: bool)
    requires LinkInv(l, crc) && l.prxIn == PrxFrame(serial)
    requires Handles(l, r, crc, serial, dup) && Stores(l, r, serial, dup)
    requires R.Inv(r.prx, r.prxApp.held, r.prxApp.alloc)
    ensures LinkInv(r, crc)
  {
    HandlesPackets(l, r, crc, serial, dup);
    assert R.RadioInv(r.prx.prx) && P.Inv(r.ptx, r.ptxApp.held, r.ptxApp.alloc);
    hide P.Inv, R.Inv, AcceptInv, OfferInv, AcksInv, CarriedInv;
    hide DeliveredInv, AckedInv, AnswerInv, InProgressInv, FrameInv;
    HandlesAcks(l, r, crc, serial, dup);
    HandlesOffers(l, r, crc, serial, dup);
    HandlesCarried(l, r, crc, serial, dup);
    hide Handles, Stores, R.RadioInv;
  }

  lemma FrameEndsIs(l: Link, c: Setup, rssi: nat)
    requires Ready(l)
    ensures Step(l, c, FrameEnds(rssi)) == l || Step(l, c, FrameEnds(rssi)) == OnFrameEnds(l, c, rssi)
    ensures l.prxIn.PrxQuiet? ==> OnFrameEnds(l, c, rssi) == l
  {
    hide R.HandleRadioEvent;
  }

  lemma FrameReceivedInv(l: Link, c: Setup, rssi: nat)
    requires LinkInv(l, c.crc) && Ready(l) && l.prxIn.PrxFrame?
    ensures LinkInv(OnFrameEnds(l, c, rssi), c.crc)
  {
    var serial := l.prxIn.serial;
    assert serial < |l.ptx.ptx.air| && R.Inv(l.prx, l.prxApp.held, l.prxApp.alloc) && FrameInv(l);
    hide LinkInv, R.Inv;
    FrameEndsShape(l, c, rssi);
    var pkt := l.ptx.ptx.air[serial].pkt;
    var dup := R.CheckDuplicate(l.prx.prx.filter, pkt.pipe, pkt.pid, c.crc(OnAir(pkt)));
    hide Stores, OnFrameEnds, FrameInv, R.CheckDuplicate;
    var r := OnFrameEnds(l, c, rssi);
    assert r.prxApp == l.prxApp;
    hide Handles;
    HandlesAll(l, r, c.crc, serial, dup);
  }

  lemma FrameEndsInv(l: Link, c: Setup, rssi: nat)
    requires LinkInv(l, c.crc) && Ready(l)
    ensures LinkInv(Step(l, c, FrameEnds(rssi)), c.crc)
  {
    hide LinkInv, Step, OnFrameEnds;
    FrameEndsIs(l, c, rssi);
    if l.prxIn.PrxNoise? {
      PrxQuietActions(l, c, FrameEnds(rssi));
    } else if l.prxIn.PrxFrame? {
      FrameReceivedInv(l, c, rssi);
    }
  }

  // ---- The end of an ACK ----

  /** The PTX side of the end of an ACK: it hears the ACK, noise, or nothing. */
  ghost predicate AckHeard(l: Link, a: Link) {
    && a == l.(ptx := a.ptx, ptxIn := a.ptxIn)
    && a.ptx.ptx == l.ptx.ptx && a.ptx.pool.completed == l.ptx.pool.completed
    && (a.ptxIn == l.ptxIn || (Hears(l) && a.ptxIn == PtxNoise) ||
        (Hears(l) && l.answer.Answer? && a.ptxIn == PtxAck(l.answer.ack)
         && a.ptx.ptx.ackRxIdx.Some? && a.ptx.ptx.ackRxIdx.value < |a.ptx.pool.pkt|
         && Wf(l.prx.pool) && (l.prx.prx.ackTxIdx.Some? ==> l.prx.prx.ackTxIdx.value < |l.prx.pool.pkt|)
         && a.ptx.pool.pkt[a.ptx.ptx.ackRxIdx.value].payload ==
            if l.prx.prx.ackTxIdx.Some? then l.prx.pool.pkt[l.prx.prx.ackTxIdx.value].payload else []))
  }

  /** The PRX side of the end of an ACK: the pending packet, if any, is complete. */
  ghost predicate AckOver(a: Link, r: Link) {
    && Wf(a.prx.pool) && QueueOnlyShrinks(a.prx.pool, r.prx.pool)
    && !Answering(r.prx.prx.state) && r.prx.prx.filter == a.prx.prx.filter
    && r == a.(prx := r.prx, del := a.del + Pending(a), answer := NoAnswer)
    && (Pending(a) == [] ==> r.prx.pool.completed == a.prx.pool.completed)
    && (Pending(a) != [] ==>
          && a.prx.prx.pendingRxIdx.Some? && a.prx.prx.pendingRxIdx.value < |a.prx.pool.pkt|
          && r.prx.pool.completed == a.prx.pool.completed + [a.prx.pool.pkt[a.prx.prx.pendingRxIdx.value]])
  }

  /** `l` with the ACK it is sending heard by the PTX, before the PRX notices its end. */
  function AfterAckHeard(l: Link, outcome: Outcome): Link
    requires Ready(l)
  {
    if outcome.Lost? || !Hears(l) then l
    else if outcome.Clean? then l.(ptx := P.AckArrives(l.ptx, AckPacket(l)), ptxIn := PtxAck(l.answer.ack))
    else l.(ptx := P.AckArrives(l.ptx, outcome.junk), ptxIn := PtxNoise)
  }

  lemma AckHeardKeeps(l: Link, outcome: Outcome, crc: Crc)
    requires LinkInv(l, crc) && Ready(l)
    ensures var a := AfterAckHeard(l, outcome);
            AckHeard(l, a) && MachinesInv(a) && FrameInv(a) && Accepting(a, crc) && InProgressInv(a)
  {
    var a := AfterAckHeard(l, outcome);
    assert MachinesInv(l) && FrameInv(l) && Accepting(l, crc) && InProgressInv(l);
    hide LinkInv, MachinesInv, FrameInv, Accepting, InProgressInv, P.AckArrives;
    if a != l {
      AckBufferInv(l, a, if outcome.Clean? then AckPacket(l) else outcome.junk, crc);
    }
  }

  lemma AckEndsShape(l: Link, c: Setup, outcome: Outcome)
    requires R.Inv(l.prx, l.prxApp.held, l.prxApp.alloc) && Ready(l) && Answering(l.prx.prx.state)
    requires AckHeard(l, AfterAckHeard(l, outcome)) && l.answer.Answer?
    ensures var a := AfterAckHeard(l, outcome);
            AckOver(a, OnAckEnds(l, outcome))
  {
    R.AckSentShape(l.prx, l.prxApp.held, l.prxApp.alloc);
    assert Wf(l.prx.pool);
    assert R.RadioInv(l.prx.prx) && R.InRange(l.prx);
    hide R.Inv, R.HandleRadioEvent, QueueOnlyShrinks, P.AckArrives;
  }

  lemma AckEndsPrx(l: Link, outcome: Outcome)
    requires R.Inv(l.prx, l.prxApp.held, l.prxApp.alloc) && Ready(l)
    ensures R.Inv(OnAckEnds(l, outcome).prx, l.prxApp.held, l.prxApp.alloc)
  {
    hide R.Inv, R.HandleRadioEvent, P.AckArrives;
    R.HandleRadioEventInv(l.prx, true, false, R.Rx(true, 0, 0, 0), l.prxApp.held, l.prxApp.alloc);
  }

  lemma AckHeardPending(l: Link, a: Link)
    requires AckHeard(l, a)
    ensures Pending(a) == Pending(l)
  {
  }

  lemma AckOverDelivered(l: Link, a: Link, r: Link)
    requires AckHeard(l, a) && AckOver(a, r) && DeliveredInv(l) && Pending(a) == Pending(l)
    ensures DeliveredInv(r) && Pending(r) == []
  {
    assert Pending(r) == [];
    assert r.del + [] == r.del;
    hide Pending, QueueOnlyShrinks;
  }

  lemma AckOverAcked(l: Link, a: Link, r: Link)
    requires AckHeard(l, a) && AckOver(a, r) && AckedInv(l) && Pending(r) == []
    ensures AckedInv(r)
  {
    hide Pending, QueueOnlyShrinks, HeardNum;
  }

  lemma AckOverProgress(l: Link, a: Link, r: Link)
    requires AckHeard(l, a) && AckOver(a, r) && AnswerInv(l) && l.answer.Answer?
    requires l.ptx.ptx.state != P.WaitAck ==> InProgressInv(a)
    requires FrameInv(a) && Answering(l.prx.prx.state)
    ensures FrameInv(r) && AnswerInv(r) && InProgressInv(r)
  {
    hide Pending, QueueOnlyShrinks;
  }

  /** The payload the PTX finds in its buffer is the one the ACK was sent with. */
  lemma AckOverCarried(l: Link, a: Link, r: Link)
    requires AckHeard(l, a) && AckOver(a, r) && AnswerInv(l) && CarriedInv(l) && l.answer.Answer?
    ensures CarriedInv(r)
  {
    hide Pending, QueueOnlyShrinks;
    assert forall k: nat :: PayloadOf(r, k) == PayloadOf(l, k);
    hide PayloadOf;
  }

  lemma AckOverOffers(l: Link, a: Link, r: Link)
    requires AckHeard(l, a) && AckOver(a, r) && OfferInv(l.prx.pool, l.offered, l.tag, l.acks)
    requires AcksInv(l.acks, l.offered, l.acc)
    ensures OfferInv(r.prx.pool, r.offered, r.tag, r.acks) && AcksInv(r.acks, r.offered, r.acc)
  {
    hide AcksInv, Pending;
    OffersKept(l.prx.pool, r.prx.pool, l.offered, l.tag, l.acks);
  }

  lemma AckOverAll(l: Link, a: Link, r: Link, crc: Crc)
    requires LinkInv(l, crc) && Answering(l.prx.prx.state)
    requires AckHeard(l, a) && MachinesInv(a) && FrameInv(a) && Accepting(a, crc) && InProgressInv(a)
    requires AckOver(a, r) && R.Inv(r.prx, r.prxApp.held, r.prxApp.alloc)
    ensures LinkInv(r, crc)
  {
    assert P.Inv(r.ptx, r.ptxApp.held, r.ptxApp.alloc) && Accepting(r, crc) && l.answer.Answer?;
    hide QueueOnlyShrinks, P.Inv, R.Inv, AcceptInv, OfferInv, AcksInv, CarriedInv, DeliveredInv, AckedInv, Accepting;
    AckHeardPending(l, a);
    AckOverProgress(l, a, r);
    AckOverCarried(l, a, r);
    hide AnswerInv, InProgressInv, FrameInv, Pending;
    AckOverDelivered(l, a, r);
    AckOverAcked(l, a, r);
    AckOverOffers(l, a, r);
  }

  lemma AckDoneInv(l: Link, c: Setup, outcome: Outcome)
    requires LinkInv(l, c.crc) && Ready(l) && Answering(l.prx.prx.state)
    ensures LinkInv(OnAckEnds(l, outcome), c.crc)
  {
    hide LinkInv, OnAckEnds, AckHeard, AckOver, AfterAckHeard, R.Inv;
    hide Ready, MachinesInv, FrameInv, Accepting, InProgressInv;
    LinkAnswers(l, c.crc);
    AckHeardKeeps(l, outcome, c.crc);
    AckEndsShape(l, c, outcome);
    AckEndsPrx(l, outcome);
    AckEndsApps(l, outcome);
    AckOverAll(l, AfterAckHeard(l, outcome), OnAckEnds(l, outcome), c.crc);
  }

  lemma AckEndsInv(l: Link, c: Setup, outcome: Outcome)
    requires LinkInv(l, c.crc) && Ready(l)
    ensures LinkInv(Step(l, c, AckEnds(outcome)), c.crc)
  {
    hide LinkInv, OnAckEnds, Ready;
    if Answering(l.prx.prx.state) {
      AckDoneInv(l, c, outcome);
    }
  }

  lemma LinkAnswers(l: Link, crc: Crc)
    requires LinkInv(l, crc)
    ensures R.Inv(l.prx, l.prxApp.held, l.prxApp.alloc)
    ensures Answering(l.prx.prx.state) <==> l.answer.Answer?
  {
    hide R.Inv;
  }

  lemma AckEndsApps(l: Link, outcome: Outcome)
    requires Ready(l)
    ensures OnAckEnds(l, outcome).prxApp == l.prxApp
  {
    hide P.AckArrives, R.HandleRadioEvent;
  }

  // ---- Every run ----

  lemma StepInv(l: Link, c: Setup, a: Action)
    requires LinkInv(l, c.crc) && Ready(l)
    ensures LinkInv(Step(l, c, a), c.crc)
  {
    hide LinkInv, Ready;
    match a
    case PtxCalls(call) => PtxCallsInv(l, c, call);
    case PrxCalls(call) => PrxCallsInv(l, c, call);
    case Kick(suppress) => PtxStepInv(l, c, a, false, suppress);
    case TxEnds(outcome, suppress) => TxEndsInv(l, c, outcome, suppress);
    case AckWaitEnds(timer, suppress) => PtxStepInv(l, c, a, timer, suppress);
    case TimerFires(suppress) => PtxStepInv(l, c, a, false, suppress);
    case PtxHearsNoise(junk) => PtxHearsNoiseInv(l, c, junk);
    case StartListening => PrxQuietActions(l, c, a);
    case FrameEnds(rssi) => FrameEndsInv(l, c, rssi);
    case AckEnds(outcome) => AckEndsInv(l, c, outcome);
    case PrxHearsNoise(junk) => PrxHearsNoiseInv(l, c, junk);
    case StopListening => PrxQuietActions(l, c, a);
  }

  lemma {:induction false} RunInv(l: Link, c: Setup, actions: seq<Action>)
    requires LinkInv(l, c.crc) && Ready(l)
    ensures LinkInv(Run(l, c, actions), c.crc)
    decreases |actions|
  {
    if actions != [] {
      StepInv(l, c, actions[0]);
      hide LinkInv, Step;
      RunInv(Step(l, c, actions[0]), c, actions[1..]);
    }
  }

  /** Every reachable state of a link satisfies the invariant. */
  lemma ReachedInv(c: Setup, actions: seq<Action>)
    ensures LinkInv(Reached(c, actions), c.crc)
  {
    hide LinkInv;
    InitialLinkInv(c);
    RunInv(InitialLink(c), c, actions);
  }
}
