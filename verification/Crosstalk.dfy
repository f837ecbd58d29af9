/**
 The duplicate filter remembers one packet per pipe, but the PID it compares is shared by
 all pipes of the PTX. Here is a run over a perfect channel in which the PTX is told a
 packet arrived and the PRX application never gets it.
 */
module Crosstalk {
  import opened Wrappers
  import opened PoolModel
  import opened AppModel
  import opened Acceptance
  import opened TimerModel
  import opened LinkModel
  import P = PtxModel
  import R = PrxModel

  /** Both sides idle, two buffers each, nothing in transit; the PRX listens into buffer `rx`. */
  ghost predicate Rest(l: Link, rx: nat) {
    PtxRest(l.ptx) && PrxRest(l.prx, rx) && l.ptxApp == IDLE_APP && l.prxApp == IDLE_APP
    && l.prxIn == PrxQuiet && l.ptxIn == PtxQuiet && l.answer == NoAnswer
  }

  ghost predicate PtxRest(s: P.Sys) {
    var x := s.ptx;
    && x.state == P.Idle && x.txIdx.None? && x.ackRxIdx.None? && x.attempts == 0 && x.failed == 0
    && x.pid == |x.fates| % 4 && |x.sent| == |x.fates| && (x.air == [] <==> x.sent == [])
    && s.pool.st == [Free, Free] && |s.pool.pkt| == 2 && s.pool.rxq == []
  }

  ghost predicate PrxRest(s: R.Sys, rx: nat) {
    var x := s.prx;
    && rx < 2 && x.state == R.Receiver && x.rxIdx == Some(rx) && x.radio == R.Receiving(rx)
    && x.pendingRxIdx.None? && x.ackTxIdx.None? && |x.filter| == R.NUM_PIPES
    && s.pool.st == (if rx == 0 then [InDma, Free] else [Free, InDma])
    && |s.pool.pkt| == 2 && s.pool.rxq == []
  }

  /** The packet the PTX sends next, as it is on the air. */
  function NextPacket(x: P.Ptx, pipe: Pipe, payload: seq<nat>): Packet {
    Packet(0, pipe, |x.fates| % 4, false, payload)
  }

  // ---- The PTX half of a round ----

  ghost predicate PtxSending(s: P.Sys, from: P.Sys, pkt: Packet) {
    var x := s.ptx;
    && x.state == P.Tx && x.txIdx == Some(0) && x.ackRxIdx.None? && x.attempts == 0 && x.failed == 0
    && x.pid == |x.fates| % 4 && x.fates == from.ptx.fates && x.sent == from.ptx.sent + [pkt]
    && x.air == from.ptx.air + [P.AirFrame(|x.fates|, pkt)]
    && s.pool.st == [InDma, Free] && |s.pool.pkt| == 2 && s.pool.rxq == []
  }

  ghost predicate PtxWaiting(s: P.Sys, from: P.Sys, pkt: Packet) {
    var x := s.ptx;
    && x.state == P.WaitAck && x.txIdx == Some(0) && x.ackRxIdx == Some(1) && x.attempts == 0 && x.failed == 0
    && x.radio == P.Listening(1)
    && x.pid == |x.fates| % 4 && x.fates == from.ptx.fates && x.sent == from.ptx.sent + [pkt]
    && x.air == from.ptx.air + [P.AirFrame(|x.fates|, pkt)]
    && s.pool.st == [InDma, InDma] && |s.pool.pkt| == 2 && s.pool.rxq == []
  }

  lemma Queue(v: Pool, app: App, pipe: Pipe, payload: seq<nat>, maxLen: nat)
    requires v.st == [Free, Free] && |v.pkt| == 2 && app == IDLE_APP && 0 < |payload| <= maxLen
    ensures var (w, app1) := AppStep(v, app, BeginSend(pipe, false, payload), maxLen);
            var (u, app2) := AppStep(w, app1, FinishSend(0), maxLen);
            && u.st == [TxQueued, Free] && |u.pkt| == 2 && u.rxq == v.rxq && app2 == IDLE_APP
            && u.pkt[0] == v.pkt[0].(pipe := pipe, noAck := false, payload := payload)
  {
    assert FirstFrom(v.st, Free, 0) == Some(0);
  }

  lemma Send(s: P.Sys, from: P.Sys)
    requires PtxRest(from) && s.ptx == from.ptx
    requires s.pool.st == [TxQueued, Free] && |s.pool.pkt| == 2 && s.pool.rxq == [] && !s.pool.pkt[0].noAck
    ensures PtxSending(P.HandleRadioEvent(s, P.Events(false, false, false), false).0, from,
                       s.pool.pkt[0].(pid := |from.ptx.fates| % 4))
  {
    assert FirstFrom(s.pool.st, TxQueued, 0) == Some(0);
  }

  lemma EndOfTx(s: P.Sys, from: P.Sys, pkt: Packet)
    requires PtxSending(s, from, pkt) && P.InRange(s)
    ensures PtxWaiting(P.HandleRadioEvent(s, P.Events(true, false, false), false).0, from, pkt)
  {
    assert FirstFrom(s.pool.st, Free, 0) == FirstFrom(s.pool.st, Free, 1) == Some(1);
  }

  lemma GoodAck(s: P.Sys, from: P.Sys, pkt: Packet)
    requires PtxWaiting(s, from, pkt) && PtxRest(from) && P.InRange(s)
    ensures var r := P.HandleRadioEvent(P.AckArrives(s, EMPTY_PACKET), P.Events(true, false, true), false).0;
            && PtxRest(r) && r.ptx.fates == from.ptx.fates + [P.Acked(0)]
            && r.ptx.sent == from.ptx.sent + [pkt]
  {
    var a := P.AckArrives(s, EMPTY_PACKET);
    assert a.pool.pkt[1].payload == [];
    var b := P.DeliverAck(P.StopRadio(P.WithTimer(a, DisarmRetransmit(DisarmAckTimeout(a.ptx.timer)))));
    var d := P.ReleaseTx(b);
    assert d.pool.st == [Free, Free];
    var e := P.AdvancePid(d.(ptx := d.ptx.(attempts := 0)), P.Acked(0));
    assert FirstFrom(e.pool.st, TxQueued, 0) == FirstFrom(e.pool.st, TxQueued, 1) == FirstFrom(e.pool.st, TxQueued, 2);
    assert P.Proceed(e, false) == P.GoIdle(e);
  }

  // ---- The PRX half of a round ----

  function Filter(s: R.Sys, pkt: Packet, crc: nat): seq<Option<R.Seen>> {
    R.UpdateDetection(s.prx.filter, pkt.pipe, pkt.pid, crc)
  }

  ghost predicate PrxAnswering(s: R.Sys, rx: nat, dup: bool, filter: seq<Option<R.Seen>>) {
    var x := s.prx;
    && rx < 2 && x.rxIdx.None? && x.ackTxIdx.None? && x.filter == filter && |filter| == R.NUM_PIPES
    && |s.pool.pkt| == 2 && s.pool.rxq == []
    && (dup ==> x.state == R.TxRepeatedAck && x.pendingRxIdx.None? && s.pool.st == [Free, Free])
    && (!dup ==> x.state == R.TxAck && x.pendingRxIdx == Some(rx)
                 && s.pool.st == (if rx == 0 then [InDma, Free] else [Free, InDma]))
  }

  /** After the ACK: listening again, and a new packet is in the receive channel. */
  ghost predicate PrxDone(s: R.Sys, rx: nat, dup: bool, filter: seq<Option<R.Seen>>) {
    var x := s.prx;
    && rx < 2 && x.state == R.Receiver && x.pendingRxIdx.None? && x.ackTxIdx.None?
    && x.filter == filter && |filter| == R.NUM_PIPES && |s.pool.pkt| == 2
    && (dup ==> x.rxIdx == Some(0) && x.radio == R.Receiving(0) && s.pool.st == [InDma, Free] && s.pool.rxq == [])
    && (!dup ==> x.rxIdx == Some(1 - rx) && x.radio == R.Receiving(1 - rx) && s.pool.rxq == [rx]
                 && s.pool.st == (if rx == 0 then [RxQueued, InDma] else [InDma, RxQueued]))
  }

  lemma Receives(s: R.Sys, rx: nat, pkt: Packet, crc: nat)
    requires PrxRest(s, rx) && !pkt.noAck && R.InRange(s)
    ensures var dup := R.CheckDuplicate(s.prx.filter, pkt.pipe, pkt.pid, crc);
            var (r, event, _) := R.HandleRadioEvent(R.FrameArrives(s, pkt), true, false, R.Rx(true, pkt.pipe, crc, 0));
            && PrxAnswering(r, rx, dup, if dup then s.prx.filter else Filter(s, pkt, crc))
            && event == if dup then R.Duplicate else R.Received
  {
    var a := R.FrameArrives(s, pkt);
    assert a.pool.pkt[rx].pid == pkt.pid && !a.pool.pkt[rx].noAck;
    var w := Write(a.pool, rx, a.pool.pkt[rx].(rssi := 0, pipe := pkt.pipe));
    assert FirstQueuedFor(w, pkt.pipe, 0) == FirstQueuedFor(w, pkt.pipe, 1) == FirstQueuedFor(w, pkt.pipe, 2);
  }

  lemma Answers(s: R.Sys, rx: nat, dup: bool, filter: seq<Option<R.Seen>>)
    requires PrxAnswering(s, rx, dup, filter) && R.InRange(s)
    ensures PrxDone(R.HandleRadioEvent(s, true, false, R.Rx(true, 0, 0, 0)).0, rx, dup, filter)
  {
    if dup {
      assert FirstFrom(s.pool.st, Free, 0) == Some(0);
    } else {
      var w := RxComplete(s.pool, rx);
      assert FirstFrom(w.st, Free, 0) == if rx == 0 then FirstFrom(w.st, Free, 1) else Some(0);
    }
  }

  lemma Consume(s: R.Sys, rx: nat, dup: bool, filter: seq<Option<R.Seen>>, maxLen: nat)
    requires PrxDone(s, rx, dup, filter)
    ensures var (w, app1) := AppStep(s.pool, IDLE_APP, Receive, maxLen);
            var (u, app2) := AppStep(w, app1, DropHandle(rx), maxLen);
            && app2 == IDLE_APP
            && PrxRest(s.(pool := u), if dup then 0 else 1 - rx)
  {
  }

  // ---- A round ----

  /** One packet over a perfect channel: send, transmit, receive, acknowledge, take it out. */
  function Round(pipe: Pipe, payload: seq<nat>, rx: nat): seq<Action> {
    [PtxCalls(BeginSend(pipe, false, payload)), PtxCalls(FinishSend(0)), Kick(false), TxEnds(Clean, false),
     FrameEnds(0), AckEnds(Clean), AckWaitEnds(false, false), PrxCalls(Receive), PrxCalls(DropHandle(rx))]
  }

  predicate Repeats(c: Setup, l: Link, pkt: Packet) {
    R.CheckDuplicate(l.prx.prx.filter, pkt.pipe, pkt.pid, c.crc(OnAir(pkt)))
  }

  /** `r` is `l` after packet `pkt` was sent, acknowledged, and delivered unless the filter knew it. */
  ghost predicate RoundDone(c: Setup, l: Link, r: Link, rx: nat, pkt: Packet) {
    && rx < 2 && Rest(r, if Repeats(c, l, pkt) then 0 else 1 - rx)
    && r.ptx.ptx.sent == l.ptx.ptx.sent + [pkt]
    && r.ptx.ptx.fates == l.ptx.ptx.fates + [P.Acked(0)]
    && (Repeats(c, l, pkt) ==> r.del == l.del && r.prx.prx.filter == l.prx.prx.filter)
    && (!Repeats(c, l, pkt) ==>
          && r.del == l.del + [|l.ptx.ptx.fates|]
          && r.prx.prx.filter == Filter(l.prx, pkt, c.crc(OnAir(pkt))))
  }

  lemma RunThree(l: Link, c: Setup, s: seq<Action>)
    requires Ready(l) && |s| >= 3
    ensures Run(l, c, s) == Run(Step(Step(Step(l, c, s[0]), c, s[1]), c, s[2]), c, s[3..])
  {
    hide Step;
    assert s[1..][1..] == s[2..] && s[2..][1..] == s[3..];
    var l1 := Step(l, c, s[0]);
    var l2 := Step(l1, c, s[1]);
    assert Run(l1, c, s[1..]) == Run(l2, c, s[2..]);
    assert Run(l2, c, s[2..]) == Run(Step(l2, c, s[2]), c, s[3..]);
  }

  lemma SendPhase(l: Link, c: Setup, rx: nat, pipe: Pipe, payload: seq<nat>)
    requires Rest(l, rx) && Ready(l) && 0 < |payload| <= c.maxLen
    ensures var l1 := Step(l, c, PtxCalls(BeginSend(pipe, false, payload)));
            var l2 := Step(l1, c, PtxCalls(FinishSend(0)));
            var l3 := Step(l2, c, Kick(false));
            var pkt := NextPacket(l.ptx.ptx, pipe, payload).(rssi := l.ptx.pool.pkt[0].rssi);
            PtxSending(l3.ptx, l.ptx, pkt) && l3 == l.(ptx := l3.ptx)
  {
    Queue(l.ptx.pool, l.ptxApp, pipe, payload, c.maxLen);
    var l1 := Step(l, c, PtxCalls(BeginSend(pipe, false, payload)));
    var l2 := Step(l1, c, PtxCalls(FinishSend(0)));
    hide AppStep;
    assert l2 == l.(ptx := l2.ptx) && l2.ptx.ptx == l.ptx.ptx;
    Send(l2.ptx, l.ptx);
    hide P.HandleRadioEvent;
  }

  /** The packet is on the air, ends, and the PRX handles it. */
  lemma AirPhase(l: Link, c: Setup, from: Link, rx: nat, pkt: Packet)
    requires Rest(from, rx) && Ready(l) && l == from.(ptx := l.ptx) && PtxSending(l.ptx, from.ptx, pkt) && !pkt.noAck
    ensures var l1 := Step(l, c, TxEnds(Clean, false));
            var l2 := Step(l1, c, FrameEnds(0));
            var dup := Repeats(c, from, pkt);
            var filter := if dup then from.prx.prx.filter else Filter(from.prx, pkt, c.crc(OnAir(pkt)));
            && PtxWaiting(l2.ptx, from.ptx, pkt) && PrxAnswering(l2.prx, rx, dup, filter)
            && l2 == from.(ptx := l2.ptx, prx := l2.prx, heard := l2.heard, acc := l2.acc,
                     answer := Answer(|from.ptx.ptx.air|, None))
  {
    EndOfTx(l.ptx, from.ptx, pkt);
    var l1 := Step(l, c, TxEnds(Clean, false));
    assert l1 == from.(ptx := l1.ptx, prx := R.FrameArrives(from.prx, pkt), prxIn := PrxFrame(|from.ptx.ptx.air|)) by {
      hide P.HandleRadioEvent, R.FrameArrives;
    }
    hide P.HandleRadioEvent;
    assert l1.prx.prx == from.prx.prx;
    Receives(from.prx, rx, pkt, c.crc(OnAir(pkt)));
    hide R.HandleRadioEvent, R.FrameArrives;
  }

  /** The empty ACK is heard, and the PRX listens again. */
  lemma AckPhase(l: Link, c: Setup, from: Link, rx: nat, pkt: Packet, dup: bool, filter: seq<Option<R.Seen>>)
    requires Rest(from, rx) && Ready(l) && PtxWaiting(l.ptx, from.ptx, pkt) && PrxAnswering(l.prx, rx, dup, filter)
    requires l == from.(ptx := l.ptx, prx := l.prx, heard := l.heard, acc := l.acc,
                  answer := Answer(|from.ptx.ptx.air|, None))
    ensures var r := Step(l, c, AckEnds(Clean));
            && r.ptx == P.AckArrives(l.ptx, EMPTY_PACKET) && PrxDone(r.prx, rx, dup, filter)
            && r == l.(ptx := r.ptx, prx := r.prx, ptxIn := PtxAck(None), answer := NoAnswer,
                    del := if dup then from.del else from.del + [|from.ptx.ptx.fates|])
  {
    Answers(l.prx, rx, dup, filter);
    hide P.HandleRadioEvent, R.HandleRadioEvent, P.AckArrives, PrxDone;
    assert AckPacket(l) == EMPTY_PACKET && Hears(l);
    assert NumOf(l, |from.ptx.ptx.air|) == |from.ptx.ptx.fates|;
  }

  lemma DonePhase(l: Link, c: Setup, from: Link, rx: nat, pkt: Packet, sys: P.Sys)
    requires Rest(from, rx) && Ready(l) && P.InRange(sys) && PtxWaiting(sys, from.ptx, pkt)
    requires l.ptx == P.AckArrives(sys, EMPTY_PACKET) && l.ptxIn == PtxAck(None)
    ensures var r := Step(l, c, AckWaitEnds(false, false));
            && PtxRest(r.ptx) && r.ptx.ptx.sent == from.ptx.ptx.sent + [pkt]
            && r.ptx.ptx.fates == from.ptx.ptx.fates + [P.Acked(0)]
            && r == l.(ptx := r.ptx, ptxIn := PtxQuiet)
  {
    GoodAck(sys, from.ptx, pkt);
    assert P.AckArrives(sys, EMPTY_PACKET).ptx == sys.ptx;
    hide P.HandleRadioEvent, P.AckArrives;
  }

  lemma TakePhase(l: Link, c: Setup, rx: nat, dup: bool, filter: seq<Option<R.Seen>>)
    requires Ready(l) && PtxRest(l.ptx) && PrxDone(l.prx, rx, dup, filter)
    requires l.ptxApp == IDLE_APP && l.prxApp == IDLE_APP && l.prxIn == PrxQuiet && l.ptxIn == PtxQuiet
    requires l.answer == NoAnswer
    ensures var r := Step(Step(l, c, PrxCalls(Receive)), c, PrxCalls(DropHandle(rx)));
            && Rest(r, if dup then 0 else 1 - rx)
            && r.ptx == l.ptx && r.del == l.del && r.prx.prx == l.prx.prx
  {
    Consume(l.prx, rx, dup, filter, c.maxLen);
    hide AppStep;
  }

  /** A round over a perfect channel is acknowledged at once, and delivered unless the filter repeats. */
  lemma RoundWorks(l: Link, c: Setup, rx: nat, pipe: Pipe, payload: seq<nat>)
    requires Rest(l, rx) && Ready(l) && 0 < |payload| <= c.maxLen
    ensures RoundDone(c, l, Run(l, c, Round(pipe, payload, rx)), rx,
                      NextPacket(l.ptx.ptx, pipe, payload).(rssi := l.ptx.pool.pkt[0].rssi))
  {
    var pkt := NextPacket(l.ptx.ptx, pipe, payload).(rssi := l.ptx.pool.pkt[0].rssi);
    var dup := Repeats(c, l, pkt);
    var filter := if dup then l.prx.prx.filter else Filter(l.prx, pkt, c.crc(OnAir(pkt)));
    hide Step;
    var l2 := Step(Step(l, c, PtxCalls(BeginSend(pipe, false, payload))), c, PtxCalls(FinishSend(0)));
    var l3 := Step(l2, c, Kick(false));
    SendPhase(l, c, rx, pipe, payload);
    var l5 := Step(Step(l3, c, TxEnds(Clean, false)), c, FrameEnds(0));
    AirPhase(l3, c, l, rx, pkt);
    var l6 := Step(l5, c, AckEnds(Clean));
    AckPhase(l5, c, l, rx, pkt, dup, filter);
    var l7 := Step(l6, c, AckWaitEnds(false, false));
    DonePhase(l6, c, l, rx, pkt, l5.ptx);
    var l9 := Step(Step(l7, c, PrxCalls(Receive)), c, PrxCalls(DropHandle(rx)));
    TakePhase(l7, c, rx, dup, filter);
    RunRound(l, c, rx, pipe, payload);
  }

  lemma RunRound(l: Link, c: Setup, rx: nat, pipe: Pipe, payload: seq<nat>)
    requires Ready(l)
    ensures var l2 := Step(Step(l, c, PtxCalls(BeginSend(pipe, false, payload))), c, PtxCalls(FinishSend(0)));
            var l3 := Step(l2, c, Kick(false));
            var l5 := Step(Step(l3, c, TxEnds(Clean, false)), c, FrameEnds(0));
            var l7 := Step(Step(l5, c, AckEnds(Clean)), c, AckWaitEnds(false, false));
            Run(l, c, Round(pipe, payload, rx)) == Step(Step(l7, c, PrxCalls(Receive)), c, PrxCalls(DropHandle(rx)))
  {
    hide Step, Ready;
    RunThree(l, c, Round(pipe, payload, rx));
    var l2 := Step(Step(l, c, PtxCalls(BeginSend(pipe, false, payload))), c, PtxCalls(FinishSend(0)));
    var l3 := Step(l2, c, Kick(false));
    RunThree(l3, c, Round(pipe, payload, rx)[3..]);
    var l6 := Step(Step(Step(l3, c, TxEnds(Clean, false)), c, FrameEnds(0)), c, AckEnds(Clean));
    RunThree(l6, c, Round(pipe, payload, rx)[3..][3..]);
  }

  /** The initial link, once the PRX listens, rests. */
  lemma StartRests(c: Setup)
    requires c.ptxBuffers == 2 && c.prxBuffers == 2
    ensures var l := Step(InitialLink(c), c, StartListening);
            && Rest(l, 0) && l.del == [] && l.ptx.ptx.fates == []
            && l.prx.prx.filter == R.INITIAL_PRX.filter
  {
    var l := InitialLink(c);
    assert l.prx.pool.st == [Free, Free];
    assert FirstFrom(l.prx.pool.st, Free, 0) == Some(0);
  }

  lemma RunAppend(l: Link, c: Setup, s: seq<Action>, t: seq<Action>)
    requires Ready(l)
    ensures Run(l, c, s + t) == Run(Run(l, c, s), c, t)
    decreases |s|
  {
    hide Step, Ready;
    if s == [] {
      assert s + t == t;
    } else {
      assert (s + t)[1..] == s[1..] + t;
      RunAppend(Step(l, c, s[0]), c, s[1..], t);
    }
  }

  /** A packet is new to the filter when the last one on its pipe had another PID. */
  lemma NewRound(l: Link, c: Setup, rx: nat, pipe: Pipe, payload: seq<nat>)
    requires Rest(l, rx) && Ready(l) && 0 < |payload| <= c.maxLen
    requires l.prx.prx.filter[pipe].Some? ==> l.prx.prx.filter[pipe].value.pid != |l.ptx.ptx.fates| % 4
    ensures var r := Run(l, c, Round(pipe, payload, rx));
            && Rest(r, 1 - rx) && r.ptx.ptx.fates == l.ptx.ptx.fates + [P.Acked(0)]
            && r.del == l.del + [|l.ptx.ptx.fates|]
            && r.prx.prx.filter ==
               l.prx.prx.filter[pipe := Some(R.Seen(|l.ptx.ptx.fates| % 4,
                                                    c.crc(NextPacket(l.ptx.ptx, pipe, payload))))]
  {
    RoundWorks(l, c, rx, pipe, payload);
    var pkt := NextPacket(l.ptx.ptx, pipe, payload).(rssi := l.ptx.pool.pkt[0].rssi);
    assert OnAir(pkt) == NextPacket(l.ptx.ptx, pipe, payload);
    assert !Repeats(c, l, pkt);
    hide PtxRest, PrxRest, Run, Round;
  }

  lemma RepeatedRound(l: Link, c: Setup, rx: nat, pipe: Pipe, payload: seq<nat>)
    requires Rest(l, rx) && Ready(l) && 0 < |payload| <= c.maxLen
    requires l.prx.prx.filter[pipe] ==
             Some(R.Seen(|l.ptx.ptx.fates| % 4, c.crc(NextPacket(l.ptx.ptx, pipe, payload))))
    ensures var r := Run(l, c, Round(pipe, payload, rx));
            r.ptx.ptx.fates == l.ptx.ptx.fates + [P.Acked(0)] && r.del == l.del
  {
    RoundWorks(l, c, rx, pipe, payload);
    var pkt := NextPacket(l.ptx.ptx, pipe, payload).(rssi := l.ptx.pool.pkt[0].rssi);
    assert OnAir(pkt) == NextPacket(l.ptx.ptx, pipe, payload);
    assert Repeats(c, l, pkt);
    hide PtxRest, PrxRest, Run, Round;
  }

  /** The same payload to pipe `p`, three times to pipe `q`, and to `p` again. */
  function CrosstalkRun(p: Pipe, q: Pipe, payload: seq<nat>): seq<Action> {
    [StartListening] + (Round(p, payload, 0) + (Round(q, payload, 1) + (Round(q, payload, 0) +
                                                                        (Round(q, payload, 1) + Round(p, payload, 0)))))
  }

  /**
   Nothing is lost or corrupted, every packet is acknowledged at the first attempt, and the
   fifth one is never delivered: four packets later the shared PID is back where it was
   when pipe `p` was last used.
   */
  lemma AckedButNeverDelivered(c: Setup, p: Pipe, q: Pipe, payload: seq<nat>)
    requires c.ptxBuffers == 2 && c.prxBuffers == 2 && p != q && 0 < |payload| <= c.maxLen
    ensures var l := Reached(c, CrosstalkRun(p, q, payload));
            && l.ptx.ptx.fates == [P.Acked(0), P.Acked(0), P.Acked(0), P.Acked(0), P.Acked(0)]
            && l.del == [0, 1, 2, 3]
  {
    hide Rest, Round;
    StartRests(c);
    var i := InitialLink(c);
    var l0 := Step(i, c, StartListening);
    assert Ready(i) && Ready(l0);
    var rounds := Round(p, payload, 0) + (Round(q, payload, 1) + (Round(q, payload, 0) +
                                                                  (Round(q, payload, 1) + Round(p, payload, 0))));
    assert Reached(c, CrosstalkRun(p, q, payload)) == Run(l0, c, rounds) by {
      hide Step, InitialLink;
      assert ([StartListening] + rounds)[1..] == rounds;
    }
    hide Step, InitialLink, Run, Ready;
    RunFive(l0, c, Round(p, payload, 0), Round(q, payload, 1), Round(q, payload, 0), Round(q, payload, 1),
            Round(p, payload, 0));
    FiveRounds(l0, c, p, q, payload);
  }

  lemma FiveRounds(l0: Link, c: Setup, p: Pipe, q: Pipe, payload: seq<nat>)
    requires Ready(l0) && Rest(l0, 0) && l0.ptx.ptx.fates == [] && l0.del == []
    requires l0.prx.prx.filter == R.INITIAL_PRX.filter
    requires p != q && 0 < |payload| <= c.maxLen
    ensures var l1 := Run(l0, c, Round(p, payload, 0));
            var l2 := Run(l1, c, Round(q, payload, 1));
            var l3 := Run(l2, c, Round(q, payload, 0));
            var l4 := Run(l3, c, Round(q, payload, 1));
            var l5 := Run(l4, c, Round(p, payload, 0));
            && l5.ptx.ptx.fates == [P.Acked(0), P.Acked(0), P.Acked(0), P.Acked(0), P.Acked(0)]
            && l5.del == [0, 1, 2, 3]
  {
    hide Rest, Ready, Round, Run;
    var l1 := Run(l0, c, Round(p, payload, 0));
    NewRound(l0, c, 0, p, payload);
    RestFilter(l0, 0);
    var l2 := Run(l1, c, Round(q, payload, 1));
    NewRound(l1, c, 1, q, payload);
    RestFilter(l1, 1);
    var l3 := Run(l2, c, Round(q, payload, 0));
    NewRound(l2, c, 0, q, payload);
    RestFilter(l2, 0);
    var l4 := Run(l3, c, Round(q, payload, 1));
    NewRound(l3, c, 1, q, payload);
    RestFilter(l3, 1);
    assert NextPacket(l4.ptx.ptx, p, payload) == NextPacket(l0.ptx.ptx, p, payload);
    RepeatedRound(l4, c, 0, p, payload);
  }

  lemma RestFilter(l: Link, rx: nat)
    requires Rest(l, rx)
    ensures |l.prx.prx.filter| == R.NUM_PIPES
  {
  }

  lemma RunFive(l: Link, c: Setup, s1: seq<Action>, s2: seq<Action>, s3: seq<Action>, s4: seq<Action>, s5: seq<Action>)
    requires Ready(l)
    ensures Run(l, c, s1 + (s2 + (s3 + (s4 + s5)))) == Run(Run(Run(Run(Run(l, c, s1), c, s2), c, s3), c, s4), c, s5)
  {
    hide Run, Ready;
    RunAppend(l, c, s1, s2 + (s3 + (s4 + s5)));
    var l1 := Run(l, c, s1);
    RunAppend(l1, c, s2, s3 + (s4 + s5));
    var l2 := Run(l1, c, s2);
    RunAppend(l2, c, s3, s4 + s5);
    RunAppend(Run(l2, c, s3), c, s4, s5);
  }
}
