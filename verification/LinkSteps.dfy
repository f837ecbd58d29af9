/**
 Every action keeps the link invariant, so every reachable state satisfies it.
 */
module LinkSteps {
  import opened Wrappers
  import opened PoolModel
  import opened Acceptance
  import opened LinkModel
  import opened LinkInvariant
  import P = PtxModel
  import R = PrxModel

  /** What an interrupt with events `e` makes of a link. */
  ghost function AfterInterrupt(l: Link, e: P.Events, suppress: bool): Link
    requires Ready(l)
  {
    l.(ptx := P.HandleRadioEvent(l.ptx, e, suppress).0,
    ptxIn := if l.ptx.ptx.state == P.WaitAck && !P.UserEvent(e) then PtxQuiet else l.ptxIn,
    got := if P.GoodAck(l.ptx, e) && l.ptxIn.PtxAck? && l.ptxIn.ack.Some? then l.got + [l.ptxIn.ack.value] else l.got)
  }

  /** One PTX interrupt on a link, taking what its radio held. */
  lemma InterruptInv(l: Link, e: P.Events, suppress: bool, r: Link, crc: Crc)
    requires BaseInv(l, crc) && Legal(l, e)
    requires InProgressInv(l) || (P.OnAirState(l.ptx.ptx.state) && e.disabled)
    requires Ready(l) && r == AfterInterrupt(l, e, suppress)
    ensures LinkInv(r, crc)
  {
    P.InterruptShape(l.ptx, e, suppress, l.ptxApp.held, l.ptxApp.alloc);
    P.HandleRadioEventInv(l.ptx, e, suppress, l.ptxApp.held, l.ptxApp.alloc);
    hide P.Inv, P.Shape, P.HandleRadioEvent, AcceptInv, DeliveredInv;
    hide AckedInv, FrameInv, AnswerInv, AckPayloadInv, InProgressInv;
    hide LinkInv, R.Inv;
    SettleInv(l, e, r, crc);
  }

  lemma LinkIsBase(l: Link, crc: Crc)
    requires LinkInv(l, crc)
    ensures BaseInv(l, crc) && InProgressInv(l) && MachinesInv(l) && AnswerInv(l) && Ready(l)
  {
    hide AcceptInv, DeliveredInv, AckedInv, FrameInv, AnswerInv;
    hide AckPayloadInv, InProgressInv, Owned, P.BufferInv, P.AirInv;
  }

  /** The interrupts between two packets on the air, and the ones that end an ACK wait, are legal. */
  lemma PtxActions(l: Link, c: Setup, timer: bool, suppress: bool)
    requires Ready(l)
    ensures var e := P.Events(false, false, false);
            Legal(l, e) && Step(l, c, Kick(suppress)) == AfterInterrupt(l, e, suppress)
    ensures var e := P.Events(false, true, false);
            Step(l, c, TimerFires(suppress)) == l ||
            (Legal(l, e) && Step(l, c, TimerFires(suppress)) == AfterInterrupt(l, e, suppress))
    ensures var e := P.Events(true, timer, l.ptxIn.PtxAck?);
            var r := Step(l, c, AckWaitEnds(timer, suppress));
            r == l || (Legal(l, e) && r == AfterInterrupt(l, e, suppress))
  {
    hide P.HandleRadioEvent;
  }

  lemma PtxStepInv(l: Link, c: Setup, a: Action, timer: bool, suppress: bool)
    requires LinkInv(l, c.crc) && Ready(l)
    requires a == Kick(suppress) || a == TimerFires(suppress) || a == AckWaitEnds(timer, suppress)
    ensures LinkInv(Step(l, c, a), c.crc)
  {
    LinkIsBase(l, c.crc);
    PtxActions(l, c, timer, suppress);
    hide BaseInv, LinkInv, InProgressInv, MachinesInv, AnswerInv, Step, Legal, Ready;
    var r := Step(l, c, a);
    if r != l {
      var e := if a.Kick? then P.Events(false, false, false)
      else if a.TimerFires? then P.Events(false, true, false)
      else P.Events(true, timer, l.ptxIn.PtxAck?);
      InterruptInv(l, e, suppress, r, c.crc);
    }
  }

  /** The radio filling the ACK buffer disturbs nothing that was established. */
  lemma AckBufferInv(l: Link, r: Link, ack: Packet, crc: Crc)
    requires LinkInv(l, crc) && l.ptx.ptx.state == P.WaitAck
    requires r == l.(ptx := P.AckArrives(l.ptx, ack), ptxIn := r.ptxIn, answer := r.answer)
    ensures MachinesInv(r) && FrameInv(r) && Accepting(r, crc) && InProgressInv(r)
    ensures r.ptx.ptx == l.ptx.ptx && r.ptx.pool.completed == l.ptx.pool.completed
    ensures l.ptx.ptx.ackRxIdx.Some? && l.ptx.ptx.ackRxIdx.value < |l.ptx.pool.pkt| == |r.ptx.pool.pkt|
    ensures var i := l.ptx.ptx.ackRxIdx.value; r.ptx.pool.pkt[i].payload == ack.payload
  {
    P.AckArrivesInv(l.ptx, ack, l.ptxApp.held, l.ptxApp.alloc);
    hide Owned, AcceptInv, R.Inv, DeliveredInv, AckedInv, AckPayloadInv, P.AirInv, P.FateInv, P.BufferInv, P.CountInv;
  }

  /** Noise carries nothing: what was completed and what is being answered stay as they were. */
  lemma NoiseCarried(l: Link, r: Link)
    requires CarriedInv(l) && r == l.(ptx := r.ptx, ptxIn := PtxNoise)
    requires r.ptx.pool.completed == l.ptx.pool.completed
    ensures CarriedInv(r)
  {
    assert forall k: nat :: PayloadOf(r, k) == PayloadOf(l, k);
    hide PayloadOf;
  }

  lemma NoiseDelivered(l: Link, r: Link)
    requires DeliveredInv(l) && AckedInv(l) && r == l.(ptx := l.ptx.(pool := r.ptx.pool), ptxIn := PtxNoise)
    ensures DeliveredInv(r) && AckedInv(r)
  {
    assert Pending(r) == Pending(l);
    SamePtxAcked(l, r);
    hide Pending, AckedInv;
  }

  lemma NoiseInv(l: Link, r: Link, junk: Packet, crc: Crc)
    requires LinkInv(l, crc) && l.ptx.ptx.state == P.WaitAck
    requires r == l.(ptx := P.AckArrives(l.ptx, junk), ptxIn := PtxNoise)
    ensures LinkInv(r, crc)
  {
    AckBufferInv(l, r, junk, crc);
    hide MachinesInv, AcceptInv, OfferInv, AcksInv, FrameInv;
    hide InProgressInv, P.AckArrives, DeliveredInv, AckedInv, CarriedInv;
    NoiseCarried(l, r);
    NoiseDelivered(l, r);
  }

  lemma PtxHearsNoiseInv(l: Link, c: Setup, junk: Packet)
    requires LinkInv(l, c.crc) && Ready(l)
    ensures LinkInv(Step(l, c, PtxHearsNoise(junk)), c.crc)
  {
    hide LinkInv, P.AckArrives;
    if l.ptx.ptx.state == P.WaitAck && l.ptxIn.PtxQuiet? {
      NoiseInv(l, Step(l, c, PtxHearsNoise(junk)), junk, c.crc);
    }
  }

  // ---- The PRX side, while no ACK is being sent ----

  /** The PRX hears something, or starts or stops listening; it handles no packet. */
  ghost predicate PrxQuietMove(l: Link, r: Link) {
    && r == l.(prx := r.prx, prxIn := r.prxIn)
    && !Answering(l.prx.prx.state) && !Answering(r.prx.prx.state)
    && QueueOnlyShrinks(l.prx.pool, r.prx.pool)
    && r.prx.prx.filter == l.prx.prx.filter && r.prx.pool.completed == l.prx.pool.completed
  }

  lemma PrxQuietKeeps(l: Link, r: Link, crc: Crc)
    requires PrxQuietMove(l, r) && FrameInv(r) && R.Inv(r.prx, r.prxApp.held, r.prxApp.alloc)
    requires LinkInv(l, crc)
    ensures BaseInv(r, crc)
    ensures (r.prxIn.PrxFrame? ==> r.prxIn == l.prxIn) ==> LinkInv(r, crc)
  {
    hide P.Inv, AcceptInv, R.Inv, AcksInv, FrameInv;
    assert Pending(r) == Pending(l) == [];
    SamePtxAcked(l, r);
    hide AckedInv;
    OffersKept(l.prx.pool, r.prx.pool, l.offered, l.tag, l.acks);
    hide OfferInv, QueueOnlyShrinks;
    assert forall k: nat :: PayloadOf(r, k) == PayloadOf(l, k);
    hide PayloadOf;
    assert CarriedInv(r);
    hide CarriedInv, Pending;
  }

  lemma PrxHearsInv(l: Link, r: Link, frame: Packet, crc: Crc)
    requires LinkInv(l, crc) && l.prx.prx.state == R.Receiver && l.prxIn.PrxQuiet?
    requires r == l.(prx := R.FrameArrives(l.prx, frame), prxIn := r.prxIn)
    requires r.prxIn.PrxFrame? ==>
               && r.prxIn.serial < |l.ptx.ptx.air| && frame == l.ptx.ptx.air[r.prxIn.serial].pkt
               && HeardBefore(l.heard, r.prxIn.serial)
    ensures BaseInv(r, crc) && r.ptx == l.ptx && (!r.prxIn.PrxFrame? ==> LinkInv(r, crc))
  {
    assert R.Inv(l.prx, l.prxApp.held, l.prxApp.alloc);
    R.FrameArrivesShape(l.prx, frame, l.prxApp.held, l.prxApp.alloc);
    R.FrameArrivesInv(l.prx, frame, l.prxApp.held, l.prxApp.alloc);
    assert r.prx.prx.rxIdx.Some?;
    hide LinkInv, R.Inv, R.FrameArrives, QueueOnlyShrinks;
    PrxQuietKeeps(l, r, crc);
  }

  lemma ListeningInv(l: Link, r: Link, crc: Crc)
    requires LinkInv(l, crc) && Ready(l)
    requires r == l.(prx := R.StartReceiving(l.prx).0)
             || (!Answering(l.prx.prx.state) && r == l.(prx := R.StopReceiving(l.prx), prxIn := PrxQuiet))
    ensures LinkInv(r, crc)
  {
    assert R.Inv(l.prx, l.prxApp.held, l.prxApp.alloc) && FrameInv(l);
    R.QuietShape(l.prx, 0, l.prxApp.held, l.prxApp.alloc);
    R.StartReceivingInv(l.prx, l.prxApp.held, l.prxApp.alloc);
    R.StopReceivingInv(l.prx, l.prxApp.held, l.prxApp.alloc);
    hide LinkInv, R.Inv, R.StartReceiving, R.StopReceiving, QueueOnlyShrinks;
    if r != l {
      PrxQuietKeeps(l, r, crc);
    }
  }

  /** A frame with a bad CRC is forgotten. */
  lemma BadFrameInv(l: Link, r: Link, rssi: nat, crc: Crc)
    requires LinkInv(l, crc) && Ready(l) && l.prxIn.PrxNoise?
    requires r == l.(prx := R.HandleRadioEvent(l.prx, true, false, R.Rx(false, 0, 0, rssi)).0, prxIn := PrxQuiet)
    ensures LinkInv(r, crc)
  {
    assert R.Inv(l.prx, l.prxApp.held, l.prxApp.alloc) && FrameInv(l);
    R.QuietShape(l.prx, rssi, l.prxApp.held, l.prxApp.alloc);
    hide LinkInv, R.Inv, R.HandleRadioEvent;
    PrxQuietKeeps(l, r, crc);
  }

  lemma PrxQuietActions(l: Link, c: Setup, a: Action)
    requires LinkInv(l, c.crc) && Ready(l)
    requires a.StartListening? || a.StopListening? || (a.FrameEnds? && l.prxIn.PrxNoise?)
    ensures LinkInv(Step(l, c, a), c.crc)
  {
    hide LinkInv, R.StartReceiving, R.StopReceiving, R.HandleRadioEvent, Ready, R.InRange, P.InRange;
    var r := Step(l, c, a);
    if r != l {
      if a.FrameEnds? {
        BadFrameInv(l, r, a.rssi, c.crc);
      } else {
        ListeningInv(l, r, c.crc);
      }
    }
  }

  lemma PrxHearsNoiseInv(l: Link, c: Setup, junk: Packet)
    requires LinkInv(l, c.crc) && Ready(l)
    ensures LinkInv(Step(l, c, PrxHearsNoise(junk)), c.crc)
  {
    hide LinkInv, R.FrameArrives;
    var r := Step(l, c, PrxHearsNoise(junk));
    if r != l {
      PrxHearsInv(l, r, junk, c.crc);
    }
  }

  lemma TxHeardInv(l: Link, outcome: Outcome, crc: Crc)
    requires LinkInv(l, crc) && Ready(l) && P.OnAirState(l.ptx.ptx.state)
    ensures BaseInv(TxHeard(l, outcome), crc) && TxHeard(l, outcome).ptx == l.ptx
  {
    LinkIsBase(l, crc);
    var a := TxHeard(l, outcome);
    hide LinkInv, BaseInv, R.FrameArrives;
    if a != l {
      PrxHearsInv(l, a, if outcome.Clean? then l.ptx.ptx.air[LastSerial(l)].pkt else outcome.junk, crc);
    }
  }

  /** The end of a transmission: what the PRX receives of it is new to it. */
  lemma TxEndsInv(l: Link, c: Setup, outcome: Outcome, suppress: bool)
    requires LinkInv(l, c.crc) && Ready(l)
    ensures LinkInv(Step(l, c, TxEnds(outcome, suppress)), c.crc)
  {
    hide LinkInv, P.HandleRadioEvent, BaseInv, TxHeard, R.InRange, P.InRange;
    if P.OnAirState(l.ptx.ptx.state) {
      TxHeardInv(l, outcome, c.crc);
      InterruptInv(TxHeard(l, outcome), P.Events(true, false, false), suppress,
                   Step(l, c, TxEnds(outcome, suppress)), c.crc);
    }
  }
}
