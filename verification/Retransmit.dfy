/**
 Does a PTX that waits to retransmit ever wake up?

 The two compares of the ESB timer share one counter, and disarming the retransmit
 compare stops it (src/timer.rs). This is the PTX with its timer running: ticks, the
 TIMER interrupt that sets the shared flag, and the RADIO interrupt that takes it. The
 only timing assumption is that the interrupts after an ACK timeout are over within
 `latency` microseconds of it.
 */
module Retransmit {
  import opened Wrappers
  import opened PoolModel
  import opened AppModel
  import opened TimerModel
  import opened PtxModel

  const RAMP_UP_US: nat := 140
  const U16_MAX: nat := 65535

  /** The timing part of `EsbConfig`. */
  datatype Config = Config(delayUs: nat, ackTimeoutUs: nat, count: nat)

  /** `EsbConfig::validate`, for the fields of `Config`. */
  predicate Validated(c: Config) {
    && c.delayUs <= U16_MAX && c.ackTimeoutUs <= U16_MAX
    && 44 <= c.ackTimeoutUs
    && c.delayUs > SatAdd(c.ackTimeoutUs, 62, U16_MAX) && c.delayUs > RAMP_UP_US
    && c.count <= 15
  }

  /** CC[0] as `PtxStateMachine::new` computes it. */
  function RetransmitTicks(c: Config): nat {
    SatSub(c.delayUs, RAMP_UP_US)
  }

  /** CC[1] as `PtxStateMachine::new` computes it. */
  function AckTicks(c: Config): nat {
    SatAdd(c.ackTimeoutUs, RAMP_UP_US, U16_MAX)
  }

  datatype Timed = Timed(sys: Sys, app: App, flag: bool)

  datatype TimedStep =
    | Tick(us: nat)
    | TimerIsr
    | RadioIsr(disabled: bool, crcOk: bool, suppress: bool)
    | HearsAck(ack: Packet)
    | Call(call: AppAction)

  function Start(c: Config, buffers: nat): Timed {
    Timed(Sys(InitialPtx(c.count, RetransmitTicks(c), AckTicks(c), 0), EmptyPool(buffers)), IDLE_APP, false)
  }

  function OneStep(t: Timed, step: TimedStep, maxLen: nat): (r: Timed)
    requires InRange(t.sys)
    ensures InRange(r.sys)
  {
    var p := t.sys.ptx;
    match step
    case Tick(us) => t.(sys := t.sys.(ptx := p.(timer := Elapse(p.timer, us))))
    case TimerIsr =>
      if Pending(p.timer) then t.(sys := t.sys.(ptx := p.(timer := HandleTimerEvent(p.timer))), flag := true) else t
    case RadioIsr(disabled, crcOk, suppress) =>
      t.(sys := HandleRadioEvent(t.sys, Events(disabled, t.flag, crcOk), suppress).0, flag := false)
    case HearsAck(ack) => t.(sys := AckArrives(t.sys, ack))
    case Call(call) =>
      var (pool, app) := AppStep(t.sys.pool, t.app, call, maxLen);
      t.(sys := t.sys.(pool := pool), app := app)
  }

  function TimedRun(t: Timed, steps: seq<TimedStep>, maxLen: nat): (r: Timed)
    requires InRange(t.sys)
    ensures InRange(r.sys)
    decreases |steps|
  {
    if steps == [] then t else TimedRun(OneStep(t, steps[0], maxLen), steps[1..], maxLen)
  }

  /**
   What the environment grants: the ACK timeout is served within `latency`, a stopped radio
   raises no DISABLED event, and a RADIO interrupt in Tx or TxNoAck is due to one.
   */
  predicate Granted(t: Timed, step: TimedStep, latency: nat) {
    var p := t.sys.ptx;
    match step
    case Tick(us) => p.state == WaitAck && p.timer.running ==> p.timer.count + us <= p.ackTimeoutUs + latency
    case RadioIsr(disabled, _, _) =>
      && (disabled ==> p.radio != Off)
      && (p.state == Tx || p.state == TxNoAck ==> t.flag ==> disabled)
    case _ => true
  }

  predicate AllGranted(t: Timed, steps: seq<TimedStep>, maxLen: nat, latency: nat)
    requires InRange(t.sys)
    decreases |steps|
  {
    steps == [] ||
    (Granted(t, steps[0], latency) && AllGranted(OneStep(t, steps[0], maxLen), steps[1..], maxLen, latency))
  }

  /** The retransmission is still to come: its compare is armed and counting, or its interrupt is under way. */
  predicate Live(t: Timed) {
    var p := t.sys.ptx;
    p.state == WaitRetransmit ==>
      t.flag || (p.timer.running && p.timer.int0 && (p.timer.ev0 || p.timer.count < p.timer.cc0))
  }

  // ---- Enough delay is enough ----

  /** The two compares of an ACK wait, and the one left of them while waiting to retransmit. */
  ghost predicate TimerInv(t: Timed, d: nat, a: nat, latency: nat) {
    var p := t.sys.ptx;
    && p.retransmitDelayUs == d && p.ackTimeoutUs == a
    && (p.state == WaitAck ==>
          && p.timer.running && p.timer.int0 && !p.timer.ev0 && p.timer.cc0 == d && p.timer.cc1 == a
          && p.timer.count <= a + latency
          && (t.flag || (p.timer.int1 && (p.timer.ev1 || p.timer.count < a))))
    && Live(t)
  }

  ghost predicate SameConfig(a: Ptx, b: Ptx) {
    b.retransmitDelayUs == a.retransmitDelayUs && b.ackTimeoutUs == a.ackTimeoutUs && b.maxAttempts == a.maxAttempts
  }

  lemma ProceedTimer(s: Sys, suppress: bool)
    requires InRange(s)
    ensures var r := Proceed(s, suppress);
            && r.ptx.timer == s.ptx.timer && SameConfig(s.ptx, r.ptx)
            && r.ptx.state != WaitAck && r.ptx.state != WaitRetransmit
    ensures Proceed(s, false) == SendNext(s)
  {
  }

  /** Finishing a packet leaves no wait behind. */
  lemma FinishTimer(s: Sys, fate: Fate, suppress: bool)
    requires InRange(s)
    ensures var r := Proceed(AdvancePid(ReleaseTx(s), fate), suppress);
            && SameConfig(s.ptx, r.ptx)
            && r.ptx.state != WaitAck && r.ptx.state != WaitRetransmit
  {
    ProceedTimer(AdvancePid(ReleaseTx(s), fate), suppress);
  }

  lemma AckOkTimer(s: Sys, suppress: bool)
    requires InRange(s)
    ensures var r := OnAckOk(s, suppress);
            && SameConfig(s.ptx, r.ptx)
            && r.ptx.state != WaitAck && r.ptx.state != WaitRetransmit
  {
    hide Proceed;
    var a := DeliverAck(StopRadio(WithTimer(s, DisarmRetransmit(DisarmAckTimeout(s.ptx.timer)))));
    var b := a.(ptx := a.ptx.(attempts := 0));
    FinishTimer(b, Acked(s.ptx.failed), suppress);
    assert OnAckOk(s, suppress) == Proceed(AdvancePid(ReleaseTx(b), Acked(s.ptx.failed)), suppress);
  }

  /** A failed wait disarms the ACK timeout and nothing else. */
  lemma AckFailedTimer(s: Sys, suppress: bool)
    requires InRange(s)
    ensures var r := OnAckFailed(s, suppress).0;
            && SameConfig(s.ptx, r.ptx)
            && r.ptx.state != WaitAck
            && (r.ptx.state == WaitRetransmit ==>
                  r.ptx.timer == DisarmAckTimeout(s.ptx.timer) && s.ptx.attempts + 1 < s.ptx.maxAttempts)
  {
    hide Proceed;
    var a := ReleaseAckRx(StopRadio(WithTimer(s, DisarmAckTimeout(s.ptx.timer))));
    var n := s.ptx.failed + 1;
    var b := a.(ptx := a.ptx.(attempts := 0, failed := n));
    FinishTimer(b, Dropped(n), suppress);
    assert s.ptx.attempts + 1 >= s.ptx.maxAttempts ==>
        OnAckFailed(s, suppress).0 == Proceed(AdvancePid(ReleaseTx(b), Dropped(n)), suppress);
  }

  /** Giving a packet up leaves the retransmit compare as it was, still armed, while the next packet may go out. */
  lemma GivingUpLeavesTimerArmed(s: Sys, suppress: bool)
    requires InRange(s) && s.ptx.attempts + 1 >= s.ptx.maxAttempts
    ensures var r := OnAckFailed(s, suppress);
            r.1 == MaxAttempts && r.0.ptx.timer == DisarmAckTimeout(s.ptx.timer)
  {
    hide Proceed;
    var a := ReleaseAckRx(StopRadio(WithTimer(s, DisarmAckTimeout(s.ptx.timer))));
    var n := s.ptx.failed + 1;
    var b := AdvancePid(ReleaseTx(a.(ptx := a.ptx.(attempts := 0, failed := n))), Dropped(n));
    ProceedTimer(b, suppress);
    assert OnAckFailed(s, suppress).0 == Proceed(b, suppress);
  }

  lemma IsrKeepsTimer(t: Timed, step: TimedStep, d: nat, a: nat, latency: nat)
    requires InRange(t.sys) && RadioInv(t.sys.ptx) && TimerInv(t, d, a, latency) && Granted(t, step, latency)
    requires 0 < a && a + latency < d && step.RadioIsr?
    ensures TimerInv(OneStep(t, step, 0), d, a, latency)
  {
    hide Proceed, OnAckOk, OnAckFailed;
    AckOkTimer(t.sys, step.suppress);
    AckFailedTimer(t.sys, step.suppress);
    FinishTimer(StopRadio(t.sys), Unacked, step.suppress);
    ProceedTimer(t.sys, false);
  }

  lemma StepKeepsTimer(t: Timed, step: TimedStep, maxLen: nat, d: nat, a: nat, latency: nat)
    requires InRange(t.sys) && RadioInv(t.sys.ptx) && TimerInv(t, d, a, latency) && Granted(t, step, latency)
    requires 0 < a && a + latency < d
    ensures TimerInv(OneStep(t, step, maxLen), d, a, latency)
  {
    if step.RadioIsr? {
      IsrKeepsTimer(t, step, d, a, latency);
    }
    hide HandleRadioEvent, AppStep;
  }

  ghost predicate MachineInv(t: Timed) {
    Inv(t.sys, t.app.held, t.app.alloc)
  }

  lemma StepKeepsMachine(t: Timed, step: TimedStep, maxLen: nat)
    requires MachineInv(t)
    ensures MachineInv(OneStep(t, step, maxLen))
  {
    match step
    case RadioIsr(disabled, crcOk, suppress) =>
      HandleRadioEventInv(t.sys, Events(disabled, t.flag, crcOk), suppress, t.app.held, t.app.alloc);
    case HearsAck(ack) => AckArrivesInv(t.sys, ack, t.app.held, t.app.alloc);
    case Call(call) => CallKeepsMachine(t, call, maxLen);
    case Tick(us) => TimerKeepsMachine(t.sys, Elapse(t.sys.ptx.timer, us), t.app);
    case TimerIsr => TimerKeepsMachine(t.sys, HandleTimerEvent(t.sys.ptx.timer), t.app);
    hide Inv, HandleRadioEvent, AckArrives, AppStep;
  }

  lemma TimerKeepsMachine(s: Sys, timer: Timer, app: App)
    requires Inv(s, app.held, app.alloc)
    ensures Inv(s.(ptx := s.ptx.(timer := timer)), app.held, app.alloc)
  {
    hide Owned, AirInv, FateInv;
    assert DmaSet(s.ptx.(timer := timer)) == DmaSet(s.ptx);
  }

  lemma CallKeepsMachine(t: Timed, call: AppAction, maxLen: nat)
    requires MachineInv(t)
    ensures MachineInv(OneStep(t, Call(call), maxLen))
  {
    AppStepOwned(t.sys.pool, t.app, call, maxLen, DmaSet(t.sys.ptx));
    assert forall i | i in DmaSet(t.sys.ptx) :: t.sys.pool.st[i] == InDma;
    hide Owned, AirInv, FateInv, AppStep;
  }

  lemma MachineFacts(t: Timed)
    requires MachineInv(t)
    ensures InRange(t.sys) && RadioInv(t.sys.ptx)
  {
    hide Owned, AirInv, FateInv, BufferInv, NoAckInv, CountInv;
  }

  lemma {:induction false} RunKeepsTimer(t: Timed, steps: seq<TimedStep>, maxLen: nat, d: nat, a: nat, latency: nat)
    requires MachineInv(t) && TimerInv(t, d, a, latency) && AllGranted(t, steps, maxLen, latency)
    requires 0 < a && a + latency < d
    ensures var r := TimedRun(t, steps, maxLen); MachineInv(r) && TimerInv(r, d, a, latency)
    decreases |steps|
  {
    hide Inv, OneStep, Granted, TimerInv, RadioInv;
    if steps != [] {
      MachineFacts(t);
      StepKeepsMachine(t, steps[0], maxLen);
      StepKeepsTimer(t, steps[0], maxLen, d, a, latency);
      RunKeepsTimer(OneStep(t, steps[0], maxLen), steps[1..], maxLen, d, a, latency);
    }
  }

  lemma StartInv(c: Config, buffers: nat)
    ensures MachineInv(Start(c, buffers)) && Start(c, buffers).sys.ptx.state == Idle
  {
    InitialInv(buffers, c.count, RetransmitTicks(c), AckTicks(c), 0);
    hide Inv;
  }

  // ---- A single attempt never waits to retransmit ----

  ghost predicate NeverWaits(t: Timed) {
    t.sys.ptx.maxAttempts <= 1 && t.sys.ptx.state != WaitRetransmit
  }

  lemma SingleAttemptIsr(t: Timed, step: TimedStep)
    requires InRange(t.sys) && NeverWaits(t) && step.RadioIsr?
    ensures NeverWaits(OneStep(t, step, 0))
  {
    hide Proceed, OnAckOk, OnAckFailed, SendNext;
    AckOkTimer(t.sys, step.suppress);
    AckFailedTimer(t.sys, step.suppress);
    FinishTimer(StopRadio(t.sys), Unacked, step.suppress);
    ProceedTimer(t.sys, false);
  }

  lemma SingleAttempt(t: Timed, step: TimedStep, maxLen: nat)
    requires InRange(t.sys) && NeverWaits(t)
    ensures NeverWaits(OneStep(t, step, maxLen))
  {
    hide HandleRadioEvent, AppStep;
    if step.RadioIsr? {
      SingleAttemptIsr(t, step);
    }
  }

  lemma {:induction false} RunSingleAttempt(t: Timed, steps: seq<TimedStep>, maxLen: nat)
    requires InRange(t.sys) && NeverWaits(t)
    ensures NeverWaits(TimedRun(t, steps, maxLen))
    decreases |steps|
  {
    hide OneStep;
    if steps != [] {
      SingleAttempt(t, steps[0], maxLen);
      RunSingleAttempt(OneStep(t, steps[0], maxLen), steps[1..], maxLen);
    }
  }

  // ---- Too short a delay stalls ----

  /** Send one packet, hear nothing, and let both compares pass before the ACK timeout is handled. */
  function StallRun(c: Config): seq<TimedStep> {
    [Call(BeginSend(0, false, [0])), Call(FinishSend(0)), RadioIsr(false, false, false), RadioIsr(true, false, false),
     Tick(RetransmitTicks(c)), TimerIsr, RadioIsr(false, false, false)]
  }

  /** Waiting for a compare that is disarmed, on a stopped counter, with no interrupt under way. */
  ghost predicate Stalled(t: Timed) {
    var p := t.sys.ptx;
    && p.state == WaitRetransmit && p.radio == Off
    && !t.flag && !p.timer.running && !p.timer.int0 && !p.timer.int1
  }

  lemma StallSend(c: Config, buffers: nat, maxLen: nat)
    requires buffers >= 2 && maxLen >= 1
    ensures var t0 := Start(c, buffers);
            var t := OneStep(OneStep(t0, Call(BeginSend(0, false, [0])), maxLen), Call(FinishSend(0)), maxLen);
            && t.sys.ptx == t0.sys.ptx && !t.flag
            && |t.sys.pool.pkt| == |t.sys.pool.st| == buffers && t.sys.pool.st[0] == TxQueued
            && t.sys.pool.st[1] == Free
            && !t.sys.pool.pkt[0].noAck
  {
    var v := EmptyPool(buffers);
    assert v.st[0] == Free;
    assert FirstFrom(v.st, Free, 0) == Some(0);
  }

  lemma StallWaits(c: Config, t: Timed, maxLen: nat)
    requires t.sys.ptx == InitialPtx(c.count, RetransmitTicks(c), AckTicks(c), 0) && !t.flag
    requires |t.sys.pool.pkt| == |t.sys.pool.st| >= 2 && t.sys.pool.st[0] == TxQueued && t.sys.pool.st[1] == Free
    requires !t.sys.pool.pkt[0].noAck
    ensures var t1 := OneStep(t, RadioIsr(false, false, false), maxLen);
            var t2 := OneStep(t1, RadioIsr(true, false, false), maxLen);
            && t1.sys.ptx.radio != Off
            && t2.sys.ptx.state == WaitAck && t2.sys.ptx.attempts == 0 && t2.sys.ptx.maxAttempts == c.count && !t2.flag
            && t2.sys.ptx.ackTimeoutUs == AckTicks(c)
            && t2.sys.ptx.timer.(ev0 := false, ev1 := false) ==
               Timer(true, 0, RetransmitTicks(c), true, false, AckTicks(c), true, false)
            && !t2.sys.ptx.timer.ev0 && !t2.sys.ptx.timer.ev1
  {
    assert FirstFrom(t.sys.pool.st, TxQueued, 0) == Some(0);
    var t1 := OneStep(t, RadioIsr(false, false, false), maxLen);
    assert t1.sys.ptx.state == Tx && t1.sys.pool.st[1] == Free;
  }

  /** With both compares passed, one TIMER interrupt disarms both. */
  lemma StallDisarms(t: Timed, d: nat, maxLen: nat)
    requires InRange(t.sys) && t.sys.ptx.state == WaitAck && t.sys.ptx.attempts == 0
    requires t.sys.ptx.maxAttempts >= 2 && !t.flag
    requires var x := t.sys.ptx.timer; x.running && x.count == 0 && x.cc0 == d > 0 && x.int0 && x.int1 && !x.ev1
    ensures var t1 := OneStep(t, Tick(d), maxLen);
            var t2 := OneStep(t1, TimerIsr, maxLen);
            var t3 := OneStep(t2, RadioIsr(false, false, false), maxLen);
            t1.flag == t.flag && Stalled(t3)
  {
    var t2 := OneStep(OneStep(t, Tick(d), maxLen), TimerIsr, maxLen);
    assert t2.flag && !t2.sys.ptx.timer.running && !t2.sys.ptx.timer.int0;
    hide Proceed;
  }

  /** A delay within the ACK timeout and the latency lets the machine stall. */
  lemma ShortDelayStalls(c: Config, buffers: nat, maxLen: nat, latency: nat)
    requires buffers >= 2 && maxLen >= 1 && c.count >= 2
    requires 0 < RetransmitTicks(c) <= AckTicks(c) + latency
    ensures var t := Start(c, buffers);
            AllGranted(t, StallRun(c), maxLen, latency) && Stalled(TimedRun(t, StallRun(c), maxLen))
  {
    var t0 := Start(c, buffers);
    var t1 := OneStep(t0, Call(BeginSend(0, false, [0])), maxLen);
    var t2 := OneStep(t1, Call(FinishSend(0)), maxLen);
    StallSend(c, buffers, maxLen);
    StallWaits(c, t2, maxLen);
    var t3 := OneStep(t2, RadioIsr(false, false, false), maxLen);
    var t4 := OneStep(t3, RadioIsr(true, false, false), maxLen);
    StallDisarms(t4, RetransmitTicks(c), maxLen);
    var t5 := OneStep(t4, Tick(RetransmitTicks(c)), maxLen);
    var t6 := OneStep(t5, TimerIsr, maxLen);
    var t7 := OneStep(t6, RadioIsr(false, false, false), maxLen);
    assert t5.sys.ptx.state == t6.sys.ptx.state == WaitAck;
    hide OneStep, Stalled;
    UnrollGranted(t0, StallRun(c), maxLen, latency, [t0, t1, t2, t3, t4, t5, t6, t7]);
  }

  lemma {:induction false} UnrollGranted(t: Timed, steps: seq<TimedStep>, maxLen: nat, latency: nat, trace: seq<Timed>)
    requires |trace| == |steps| + 1 && trace[0] == t && forall i | 0 <= i < |trace| :: InRange(trace[i].sys)
    requires forall i | 0 <= i < |steps| ::
               Granted(trace[i], steps[i], latency) && OneStep(trace[i], steps[i], maxLen) == trace[i + 1]
    ensures AllGranted(t, steps, maxLen, latency) && TimedRun(t, steps, maxLen) == trace[|steps|]
    decreases |steps|
  {
    hide OneStep, Granted, InRange;
    if steps != [] {
      var s, r := steps[1..], trace[1..];
      forall i | 0 <= i < |s|
        ensures Granted(r[i], s[i], latency) && OneStep(r[i], s[i], maxLen) == r[i + 1]
      {
        assert s[i] == steps[i + 1] && r[i] == trace[i + 1] && r[i + 1] == trace[i + 2];
      }
      UnrollGranted(trace[1], s, maxLen, latency, r);
    }
  }

  /** Nothing wakes a stalled machine: not time, not the timer, not another send. */
  lemma {:induction false} StalledStays(t: Timed, steps: seq<TimedStep>, maxLen: nat, latency: nat)
    requires InRange(t.sys) && Stalled(t) && AllGranted(t, steps, maxLen, latency)
    ensures Stalled(TimedRun(t, steps, maxLen)) && TimedRun(t, steps, maxLen).sys.ptx.air == t.sys.ptx.air
    decreases |steps|
  {
    if steps != [] {
      StalledStep(t, steps[0], maxLen, latency);
      hide OneStep, Granted, Stalled;
      StalledStays(OneStep(t, steps[0], maxLen), steps[1..], maxLen, latency);
    }
  }

  lemma StalledStep(t: Timed, step: TimedStep, maxLen: nat, latency: nat)
    requires InRange(t.sys) && Stalled(t) && Granted(t, step, latency)
    ensures Stalled(OneStep(t, step, maxLen)) && OneStep(t, step, maxLen).sys.ptx.air == t.sys.ptx.air
  {
    hide AppStep, SendNext, OnAckOk, OnAckFailed, OnTxEnd, OnNoAckSent;
  }

  // ---- Exactly when the retransmission always comes ----

  /** The delay outlasts the ACK timeout and the interrupt latency. */
  predicate DelaySuffices(c: Config, latency: nat) {
    RetransmitTicks(c) > AckTicks(c) + latency
  }

  /**
   For a validated configuration, every state that waits to retransmit is live, in every
   run, if and only if a packet has a single attempt or the delay suffices.
   */
  lemma RetransmitLiveness(c: Config, buffers: nat, maxLen: nat, latency: nat)
    requires Validated(c) && buffers >= 2 && maxLen >= 1
    ensures (forall steps: seq<TimedStep> | AllGranted(Start(c, buffers), steps, maxLen, latency) ::
               Live(TimedRun(Start(c, buffers), steps, maxLen))) <==>
            c.count <= 1 || DelaySuffices(c, latency)
  {
    var t := Start(c, buffers);
    StartInv(c, buffers);
    hide MachineInv, AllGranted, TimedRun;
    if c.count <= 1 {
      forall steps: seq<TimedStep> | AllGranted(t, steps, maxLen, latency)
        ensures Live(TimedRun(t, steps, maxLen))
      {
        RunSingleAttempt(t, steps, maxLen);
      }
    } else if DelaySuffices(c, latency) {
      forall steps: seq<TimedStep> | AllGranted(t, steps, maxLen, latency)
        ensures Live(TimedRun(t, steps, maxLen))
      {
        RunKeepsTimer(t, steps, maxLen, RetransmitTicks(c), AckTicks(c), latency);
      }
    } else {
      ShortDelayStalls(c, buffers, maxLen, latency);
      assert !Live(TimedRun(t, StallRun(c), maxLen));
    }
  }

  /**
   Without saturation and latency, the bound is the ACK timeout plus two ramp-ups;
   `validate` asks for 62 microseconds.
   */
  lemma DelayBound(c: Config)
    requires c.ackTimeoutUs + RAMP_UP_US <= U16_MAX
    ensures DelaySuffices(c, 0) <==> c.delayUs > c.ackTimeoutUs + 2 * RAMP_UP_US
    ensures Validated(c.(delayUs := c.ackTimeoutUs + 2 * RAMP_UP_US)) <==>
            44 <= c.ackTimeoutUs <= U16_MAX - 2 * RAMP_UP_US && c.count <= 15
    ensures !DelaySuffices(c.(delayUs := c.ackTimeoutUs + 2 * RAMP_UP_US), 0)
  {
  }

  /** A live wait ends: once the compare has passed and both interrupts ran, the packet is on the air again. */
  lemma LiveRetransmits(t: Timed, suppress: bool, maxLen: nat)
    requires MachineInv(t) && t.sys.ptx.state == WaitRetransmit && Live(t)
    ensures var p := t.sys.ptx;
            var t1 := OneStep(t, Tick(SatSub(p.timer.cc0, p.timer.count)), maxLen);
            var r := OneStep(OneStep(t1, TimerIsr, maxLen), RadioIsr(false, false, suppress), maxLen);
            r.sys.ptx.state == Tx && |r.sys.ptx.air| == |p.air| + 1
            && r.sys.ptx.air[|p.air|].num == |p.fates|
  {
    MachineFacts(t);
    hide Inv, RadioInv;
    assert t.sys.ptx.txIdx.Some?;
    hide OnAckFailed, OnAckOk, OnTxEnd, OnNoAckSent, SendNext;
  }
}
