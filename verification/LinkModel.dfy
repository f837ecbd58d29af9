/**
 One PTX, one PRX and the air between them.

 Every action is one atomic event: an application call on either side, an interrupt of
 either machine, or noise. The channel may lose or corrupt any packet and any ACK. It has
 no memory: an ACK reaches the PTX only while the PTX still waits on the very transmission
 the ACK answers, because the ACK starts a fixed ramp-up after the packet it answers, long
 before a retransmission can. A DISABLED event accompanies every interrupt taken in Tx and
 TxNoAck, as the source asserts.

 Fields after the two machines are what the receivers hold but have not handled yet
 (`prxIn`, `ptxIn`), the ACK being sent (`answer`), and history: the transmissions the PRX
 handled (`heard`), its acceptances (`acc`), the packet numbers it completed (`del`), the
 ACK payloads offered by its application (`offered`, with `tag` naming the buffers that
 hold them), the ones that were sent (`acks`) and the ones the PTX completed (`got`).
 */
module LinkModel {
  import opened Wrappers
  import opened PoolModel
  import opened AppModel
  import opened Acceptance
  import P = PtxModel
  import R = PrxModel

  datatype PrxIn = PrxQuiet | PrxFrame(serial: nat) | PrxNoise

  /** A good ACK carries the position in `acks` of its payload, if it has one. */
  datatype PtxIn = PtxQuiet | PtxAck(ack: Option<nat>) | PtxNoise

  datatype Answer = NoAnswer | Answer(serial: nat, ack: Option<nat>)

  /** An ACK payload that was put into an ACK: for which packet, on which pipe, which offer. */
  datatype AckSent = AckSent(num: nat, pipe: Pipe, ordinal: nat)

  datatype Link = Link(
    ptx: P.Sys, ptxApp: App, prx: R.Sys, prxApp: App,
    prxIn: PrxIn, ptxIn: PtxIn, answer: Answer,
    heard: seq<nat>, acc: seq<Accepted>, del: seq<nat>,
    offered: seq<Packet>, tag: map<nat, nat>, acks: seq<AckSent>, got: seq<nat>)

  datatype Outcome = Lost | Corrupt(junk: Packet) | Clean

  datatype Action =
    | PtxCalls(call: AppAction)
    | PrxCalls(call: AppAction)
    | Kick(suppress: bool)
    | TxEnds(outcome: Outcome, suppress: bool)
    | AckWaitEnds(timer: bool, suppress: bool)
    | TimerFires(suppress: bool)
    | PtxHearsNoise(junk: Packet)
    | StartListening
    | FrameEnds(rssi: nat)
    | AckEnds(outcome: Outcome)
    | PrxHearsNoise(junk: Packet)
    | StopListening

  /** Sizes and the CRC are fixed for a run. */
  datatype Setup = Setup(crc: Crc, ptxBuffers: nat, prxBuffers: nat, maxLen: nat,
                         maxAttempts: nat, retransmitDelayUs: nat, ackTimeoutUs: nat)

  function InitialLink(c: Setup): Link {
    Link(P.Sys(P.InitialPtx(c.maxAttempts, c.retransmitDelayUs, c.ackTimeoutUs, 0), EmptyPool(c.ptxBuffers)), IDLE_APP,
         R.Sys(R.INITIAL_PRX, EmptyPool(c.prxBuffers)), IDLE_APP,
         PrxQuiet, PtxQuiet, NoAnswer, [], [], [], [], map[], [], [])
  }

  ghost predicate Ready(l: Link) {
    P.InRange(l.ptx) && R.InRange(l.prx)
  }

  /** The transmission in progress or last made. */
  function LastSerial(l: Link): nat
    requires l.ptx.ptx.air != []
  {
    |l.ptx.ptx.air| - 1
  }

  function NumOf(l: Link, serial: nat): nat {
    if serial < |l.ptx.ptx.air| then l.ptx.ptx.air[serial].num else 0
  }

  function OnPtxCalls(l: Link, c: Setup, call: AppAction): (r: Link)
    requires Ready(l)
    ensures Ready(r)
  {
    var (pool, app) := AppStep(l.ptx.pool, l.ptxApp, call, c.maxLen);
    l.(ptx := l.ptx.(pool := pool), ptxApp := app)
  }

  /** An allocated ACK payload is the next offer; the tag follows its buffer. */
  function OnPrxCalls(l: Link, c: Setup, call: AppAction): (r: Link)
    requires Ready(l)
    ensures Ready(r)
  {
    var (pool, app) := AppStep(l.prx.pool, l.prxApp, call, c.maxLen);
    var base := l.(prx := l.prx.(pool := pool), prxApp := app);
    var slot := AllocTx(l.prx.pool).1;
    if call.BeginSend? && ValidSend(call.pipe, call.payload, c.maxLen) && slot.Some? then
      base.(offered := l.offered + [Packet(0, call.pipe, 0, call.noAck, call.payload)],
      tag := l.tag[slot.value := |l.offered|])
    else base
  }

  function PtxInterrupt(l: Link, e: P.Events, suppress: bool): (r: Link)
    requires Ready(l)
    ensures Ready(r)
  {
    l.(ptx := P.HandleRadioEvent(l.ptx, e, suppress).0)
  }

  /** The packet on the air ends: an idle receiver gets it, or noise, or nothing. */
  function TxHeard(l: Link, outcome: Outcome): (r: Link)
    requires Ready(l)
    ensures Ready(r)
  {
    if l.prx.prx.state != R.Receiver || !l.prxIn.PrxQuiet? || l.ptx.ptx.air == [] then l
    else
      match outcome
      case Lost => l
      case Corrupt(junk) => l.(prx := R.FrameArrives(l.prx, junk), prxIn := PrxNoise)
      case Clean =>
        l.(prx := R.FrameArrives(l.prx, l.ptx.ptx.air[LastSerial(l)].pkt), prxIn := PrxFrame(LastSerial(l)))
  }

  function OnTxEnds(l: Link, outcome: Outcome, suppress: bool): (r: Link)
    requires Ready(l)
    ensures Ready(r)
  {
    PtxInterrupt(TxHeard(l, outcome), P.Events(true, false, false), suppress)
  }

  function OnAckWaitEnds(l: Link, timer: bool, suppress: bool): (r: Link)
    requires Ready(l)
    ensures Ready(r)
  {
    var good := l.ptxIn.PtxAck?;
    var a := PtxInterrupt(l, P.Events(true, timer, good), suppress);
    a.(ptxIn := PtxQuiet, got := if good && l.ptxIn.ack.Some? then l.got + [l.ptxIn.ack.value] else l.got)
  }

  /** The PRX interrupt that handles a received frame. */
  function OnFrameEnds(l: Link, c: Setup, rssi: nat): (r: Link)
    requires Ready(l)
    ensures Ready(r)
  {
    match l.prxIn
    case PrxQuiet => l
    case PrxNoise => l.(prx := R.HandleRadioEvent(l.prx, true, false, R.Rx(false, 0, 0, rssi)).0, prxIn := PrxQuiet)
    case PrxFrame(serial) =>
      if serial >= |l.ptx.ptx.air| then l
      else
        var frame := l.ptx.ptx.air[serial];
        var rx := R.Rx(true, frame.pkt.pipe, c.crc(OnAir(frame.pkt)), rssi);
        var out := R.HandleRadioEvent(l.prx, true, false, rx);
        var prx := out.0;
        var event := out.1;
        var isNew := event == R.Received || event == R.ReceivedNoAck;
        var paid := event == R.Received && prx.prx.ackTxIdx.Some?;
        var ordinal := if paid && prx.prx.ackTxIdx.value in l.tag then l.tag[prx.prx.ackTxIdx.value] else 0;
        l.(prx := prx, prxIn := PrxQuiet,
        heard := l.heard + [serial],
        acc := if isNew
        then l.acc + [Accepted(frame.num, frame.pkt.pipe, SeenOf(c.crc, frame.pkt))] else l.acc,
        del := if event == R.ReceivedNoAck then l.del + [frame.num] else l.del,
        acks := if paid then l.acks + [AckSent(frame.num, frame.pkt.pipe, ordinal)] else l.acks,
        answer := if prx.prx.state == R.TxAck || prx.prx.state == R.TxRepeatedAck
        then Answer(serial, if paid then Some(|l.acks|) else None) else NoAnswer)
  }

  /** What the PRX transmits as its ACK. */
  function AckPacket(l: Link): Packet
    requires Ready(l)
  {
    if l.prx.prx.ackTxIdx.Some? then l.prx.pool.pkt[l.prx.prx.ackTxIdx.value] else EMPTY_PACKET
  }

  /** The PTX hears an ACK only while it waits on the transmission being answered. */
  predicate Hears(l: Link) {
    && l.ptx.ptx.state == P.WaitAck && l.ptxIn.PtxQuiet?
    && l.answer.Answer? && l.ptx.ptx.air != [] && l.answer.serial == LastSerial(l)
  }

  function OnAckEnds(l: Link, outcome: Outcome): (r: Link)
    requires Ready(l)
    ensures Ready(r)
  {
    var a :=
      if outcome.Clean? && Hears(l) then
        l.(ptx := P.AckArrives(l.ptx, AckPacket(l)), ptxIn := PtxAck(l.answer.ack))
      else if outcome.Corrupt? && Hears(l) then
        l.(ptx := P.AckArrives(l.ptx, outcome.junk), ptxIn := PtxNoise)
      else l;
    a.(prx := R.HandleRadioEvent(l.prx, true, false, R.Rx(true, 0, 0, 0)).0,
    del := if l.prx.prx.state == R.TxAck && l.answer.Answer? then l.del + [NumOf(l, l.answer.serial)] else l.del,
    answer := NoAnswer)
  }

  /** An action that its state does not allow changes nothing. */
  function Step(l: Link, c: Setup, a: Action): (r: Link)
    requires Ready(l)
    ensures Ready(r)
  {
    var st := l.ptx.ptx.state;
    match a
    case PtxCalls(call) => OnPtxCalls(l, c, call)
    case PrxCalls(call) => OnPrxCalls(l, c, call)
    case Kick(suppress) => PtxInterrupt(l, P.Events(false, false, false), suppress)
    case TxEnds(outcome, suppress) =>
      if st == P.Tx || st == P.TxNoAck then OnTxEnds(l, outcome, suppress) else l
    case AckWaitEnds(timer, suppress) =>
      if st == P.WaitAck && !l.ptxIn.PtxQuiet? then OnAckWaitEnds(l, timer, suppress) else l
    case TimerFires(suppress) =>
      if st == P.WaitRetransmit || st == P.Idle || (st == P.WaitAck && l.ptxIn.PtxQuiet?)
      then PtxInterrupt(l, P.Events(false, true, false), suppress) else l
    case PtxHearsNoise(junk) =>
      if st == P.WaitAck && l.ptxIn.PtxQuiet?
      then l.(ptx := P.AckArrives(l.ptx, junk), ptxIn := PtxNoise) else l
    case StartListening =>
      l.(prx := R.StartReceiving(l.prx).0)
    case FrameEnds(rssi) =>
      if l.prx.prx.state == R.Receiver then OnFrameEnds(l, c, rssi) else l
    case AckEnds(outcome) =>
      if l.prx.prx.state == R.TxAck || l.prx.prx.state == R.TxRepeatedAck then OnAckEnds(l, outcome) else l
    case PrxHearsNoise(junk) =>
      if l.prx.prx.state == R.Receiver && l.prxIn.PrxQuiet?
      then l.(prx := R.FrameArrives(l.prx, junk), prxIn := PrxNoise) else l
    case StopListening =>
      if l.prx.prx.state == R.Receiver || l.prx.prx.state == R.Idle
      then l.(prx := R.StopReceiving(l.prx), prxIn := PrxQuiet) else l
  }

  function Run(l: Link, c: Setup, actions: seq<Action>): (r: Link)
    requires Ready(l)
    ensures Ready(r)
    decreases |actions|
  {
    if actions == [] then l else Run(Step(l, c, actions[0]), c, actions[1..])
  }

  /** A whole run of a link from power-up. */
  function Reached(c: Setup, actions: seq<Action>): (r: Link)
    ensures Ready(r)
  {
    Run(InitialLink(c), c, actions)
  }
}
