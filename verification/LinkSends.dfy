/** The log of sends over a whole run of a link: what was asked for is what goes out and what arrives. */
module LinkSends {
  import opened Wrappers
  import opened PoolModel
  import opened AppModel
  import opened Acceptance
  import opened Sends
  import opened LinkModel
  import opened LinkInvariant
  import opened LinkSteps
  import opened LinkFrames
  import opened Delivery
  import P = PtxModel
  import R = PrxModel

  function LogStep(log: Log, l: Link, c: Setup, a: Action): Log
    requires Ready(l)
  {
    match a
    case PtxCalls(call) => LogCall(log, l.ptx.pool, call, c.maxLen)
    case _ => LogEngine(log, l.ptx, Step(l, c, a).ptx)
  }

  function LogRun(log: Log, l: Link, c: Setup, actions: seq<Action>): Log
    requires Ready(l)
    decreases |actions|
  {
    if actions == [] then log else LogRun(LogStep(log, l, c, actions[0]), Step(l, c, actions[0]), c, actions[1..])
  }

  /** The log of a run from power-up. */
  function ReachedLog(c: Setup, actions: seq<Action>): Log {
    LogRun(EMPTY_LOG, InitialLink(c), c, actions)
  }

  /** Whatever happens on a link is, for the PTX, nothing, an interrupt, or a write to its ACK buffer. */
  ghost predicate EngineStep(s: P.Sys, r: P.Sys)
    requires P.InRange(s)
  {
    || r == s
    || (exists e: P.Events, suppress: bool :: r == P.HandleRadioEvent(s, e, suppress).0)
    || (exists ack: Packet :: r == P.AckArrives(s, ack))
  }

  lemma StepIsEngineStep(l: Link, c: Setup, a: Action)
    requires Ready(l) && !a.PtxCalls?
    ensures EngineStep(l.ptx, Step(l, c, a).ptx)
  {
    hide P.HandleRadioEvent, P.AckArrives, R.HandleRadioEvent, R.FrameArrives, AppStep;
    hide R.StartReceiving, R.StopReceiving, P.InRange, R.InRange;
    match a
    case Kick(suppress) =>
      assert Step(l, c, a).ptx == P.HandleRadioEvent(l.ptx, P.Events(false, false, false), suppress).0;
    case TxEnds(outcome, suppress) =>
      assert TxHeard(l, outcome).ptx == l.ptx;
      assert Step(l, c, a).ptx == l.ptx
             || Step(l, c, a).ptx == P.HandleRadioEvent(l.ptx, P.Events(true, false, false), suppress).0;
    case AckWaitEnds(timer, suppress) =>
      assert Step(l, c, a).ptx == l.ptx
             || Step(l, c, a).ptx == P.HandleRadioEvent(l.ptx, P.Events(true, timer, l.ptxIn.PtxAck?), suppress).0;
    case TimerFires(suppress) =>
      assert Step(l, c, a).ptx == l.ptx
             || Step(l, c, a).ptx == P.HandleRadioEvent(l.ptx, P.Events(false, true, false), suppress).0;
    case PtxHearsNoise(junk) => assert Step(l, c, a).ptx == l.ptx || Step(l, c, a).ptx == P.AckArrives(l.ptx, junk);
    case AckEnds(outcome) =>
      assert || Step(l, c, a).ptx == l.ptx
             || Step(l, c, a).ptx == P.AckArrives(l.ptx, AckPacket(l))
             || (outcome.Corrupt? && Step(l, c, a).ptx == P.AckArrives(l.ptx, outcome.junk));
    case _ =>
  }

  lemma AckArrivesKeepsQueue(s: P.Sys, ack: Packet, held: set<nat>, alloc: set<nat>)
    requires P.Inv(s, held, alloc)
    ensures QueueOnlyShrinks(s.pool, P.AckArrives(s, ack).pool) && P.AckArrives(s, ack).ptx == s.ptx
  {
    P.EngineInDma(s, held, alloc);
    hide Owned, P.AirInv, P.FateInv, P.BufferInv, P.CountInv, P.NoAckInv;
  }

  lemma EngineStepLogged(log: Log, s: P.Sys, r: P.Sys, held: set<nat>, alloc: set<nat>)
    requires P.Inv(s, held, alloc) && LogInv(log, s) && P.InRange(s) && EngineStep(s, r)
    ensures LogInv(LogEngine(log, s, r), r)
  {
    hide P.Inv, P.HandleRadioEvent, P.AckArrives, LogInv, QueueOnlyShrinks, P.TookNext, P.Shape, P.InRange;
    if r == s {
      assert LogEngine(log, s, r) == log;
    } else if e: P.Events, suppress: bool :| r == P.HandleRadioEvent(s, e, suppress).0 {
      P.InterruptTakes(s, e, suppress, held, alloc);
      InterruptShrinks(s, e, suppress, held, alloc);
      EngineLogged(log, s, r);
    } else {
      var ack: Packet :| r == P.AckArrives(s, ack);
      AckArrivesKeepsQueue(s, ack, held, alloc);
      EngineLogged(log, s, r);
    }
  }

  lemma InterruptShrinks(s: P.Sys, e: P.Events, suppress: bool, held: set<nat>, alloc: set<nat>)
    requires P.Inv(s, held, alloc)
    ensures P.InRange(s) && QueueOnlyShrinks(s.pool, P.HandleRadioEvent(s, e, suppress).0.pool)
  {
    P.InterruptShape(s, e, suppress, held, alloc);
    hide P.HandleRadioEvent, QueueOnlyShrinks, Owned, P.AirInv, P.FateInv;
  }

  lemma StepLogged(log: Log, l: Link, c: Setup, a: Action)
    requires LinkInv(l, c.crc) && Ready(l) && LogInv(log, l.ptx)
    ensures LogInv(LogStep(log, l, c, a), Step(l, c, a).ptx)
  {
    LinkIsBase(l, c.crc);
    hide LinkInv, BaseInv, InProgressInv, AnswerInv, LogInv, P.Inv, R.Inv, EngineStep, AppStep, P.InRange, R.InRange;
    if a.PtxCalls? {
      CallLogged(log, l.ptx, l.ptxApp, a.call, c.maxLen);
    } else {
      StepIsEngineStep(l, c, a);
      hide Step;
      EngineStepLogged(log, l.ptx, Step(l, c, a).ptx, l.ptxApp.held, l.ptxApp.alloc);
    }
  }

  lemma {:induction false} RunLogged(log: Log, l: Link, c: Setup, actions: seq<Action>)
    requires LinkInv(l, c.crc) && Ready(l) && LogInv(log, l.ptx)
    ensures LogInv(LogRun(log, l, c, actions), Run(l, c, actions).ptx)
    decreases |actions|
  {
    hide LinkInv, LogInv, Step, LogStep, P.InRange, R.InRange;
    if actions != [] {
      StepLogged(log, l, c, actions[0]);
      StepInv(l, c, actions[0]);
      RunLogged(LogStep(log, l, c, actions[0]), Step(l, c, actions[0]), c, actions[1..]);
    }
  }

  lemma InitialLogged(c: Setup)
    ensures Ready(InitialLink(c)) && LogInv(EMPTY_LOG, InitialLink(c).ptx)
  {
  }

  lemma ReachedLogged(c: Setup, actions: seq<Action>)
    ensures LogInv(ReachedLog(c, actions), Reached(c, actions).ptx)
  {
    hide LinkInv, LogInv, InitialLink, Run, LogRun, P.InRange, R.InRange;
    InitialLinkInv(c);
    InitialLogged(c);
    RunLogged(EMPTY_LOG, InitialLink(c), c, actions);
  }

  /**
   In every run each dequeued packet is one send of the application, with the pipe, flag and
   payload that were asked for, and no send goes out as two packets.
   */
  lemma SentAsAsked(c: Setup, actions: seq<Action>)
    ensures var log := ReachedLog(c, actions);
            var sent := Reached(c, actions).ptx.ptx.sent;
            && |log.took| == |sent|
            && (forall i, k | 0 <= i < k < |log.took| :: log.took[i] != log.took[k])
            && forall k | 0 <= k < |sent| ::
                 && log.took[k] < |log.asked|
                 && log.asked[log.took[k]] == Send(sent[k].pipe, sent[k].noAck, sent[k].payload)
  {
    ReachedLogged(c, actions);
    hide Reached, ReachedLog, HeldInv;
  }

  /**
   End to end, in every run: each packet the PRX application gets is a send of the PTX
   application, with its pipe, flag and payload; no send arrives twice; and packets arrive
   in the order they were dequeued.
   */
  lemma ArrivesAsAsked(c: Setup, actions: seq<Action>)
    ensures var log := ReachedLog(c, actions);
            var l := Reached(c, actions);
            var got := l.prx.pool.completed;
            && |got| == |l.del| && Increasing(l.del)
            && (forall k | 0 <= k < |got| ::
                  && l.del[k] < |log.took| && log.took[l.del[k]] < |log.asked|
                  && log.asked[log.took[l.del[k]]] == Send(got[k].pipe, got[k].noAck, got[k].payload))
            && (forall i, k | 0 <= i < k < |got| :: log.took[l.del[i]] != log.took[l.del[k]])
  {
    AtMostOnceInOrder(c, actions);
    SentAsAsked(c, actions);
    hide Reached, ReachedLog;
    var log := ReachedLog(c, actions);
    var l := Reached(c, actions);
    var got := l.prx.pool.completed;
    forall k | 0 <= k < |got|
      ensures && l.del[k] < |log.took| && log.took[l.del[k]] < |log.asked|
              && log.asked[log.took[l.del[k]]] == Send(got[k].pipe, got[k].noAck, got[k].payload)
    {
      assert OnAir(got[k]) == OnAir(l.ptx.ptx.sent[l.del[k]]);
    }
    forall i, k | 0 <= i < k < |got|
      ensures log.took[l.del[i]] != log.took[l.del[k]]
    {
      assert l.del[i] < l.del[k];
    }
  }
}
