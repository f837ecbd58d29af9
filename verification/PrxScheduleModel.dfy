/**
 Chaining PRX receive windows (the PRX timeslot callback of src/mpsl_timeslot.rs).

 MPSL is a small environment: it holds nothing, a request, or a granted slot, and sends
 only the signals that go with it. The outcome of an extension comes before the next
 TIMER0 signal. A session that was ended or refused is not idle before SESSION_IDLE says
 so, and until then MPSL refuses its requests.

 `request_window` marks the session under the lock and calls MPSL outside it, so it is
 three steps here, with any signal between them.
 */
module PrxScheduleModel {
  import opened Wrappers

  const U32_MAX: nat := 0xFFFF_FFFF

  /** `PrxSlotConfig` with its pacing, the session's mode, and the fast-window settings. */
  datatype Config = Config(
    slotLength: nat, matchUs: nat, reportEvery: nat,
    extendMode: bool, extendLength: nat, maxExtends: nat,
    normalDistance: nat, gapAfter: nat, gapDistance: nat,
    autoReschedule: bool, maxDistance: nat)

  /** The fast-window statics, which outlive a session: distance, refill and what is left of it. */
  datatype Fast = Fast(distance: nat, refill: nat, budget: nat)

  /** `PrxScheduleConfig::validate`. */
  predicate ValidSchedule(c: Config) {
    && (c.normalDistance != 0 ==> c.normalDistance >= c.slotLength)
    && (if c.gapAfter == 0 then c.gapDistance == 0 else c.gapDistance >= c.slotLength)
  }

  /** `PrxSlotConfig::validate`. */
  predicate ValidConfig(c: Config) {
    c.slotLength > 0 && 0 < c.matchUs < c.slotLength && c.reportEvery > 0 && ValidSchedule(c)
  }

  datatype Request = Earliest | Normal(distance: nat)

  /** What a callback returns to MPSL. */
  datatype Reply = NoReply | Extend | RequestNext | End

  datatype Sched = Sched(
    outstanding: bool, slotActive: bool, done: bool, extendCount: nat, windowsSinceGap: nat,
    starts: nat, lastReport: nat, reportReady: bool, request: Request, fast: Fast)

  /** `prx_next_normal_distance_us`. */
  function NextDistance(s: Sched, c: Config): (Sched, nat) {
    var n := SatAdd(s.windowsSinceGap, 1, U32_MAX);
    if c.gapAfter > 0 && n >= c.gapAfter then (s.(windowsSinceGap := 0), c.gapDistance)
    else (s.(windowsSinceGap := n), if c.normalDistance > 0 then c.normalDistance else c.slotLength)
  }

  /** `prx_finalize_and_reschedule`, for a session with reports. */
  function Finalize(s: Sched, c: Config): (Sched, Reply) {
    var a := if SatSub(s.starts, s.lastReport) >= c.reportEvery
             then s.(lastReport := s.starts, reportReady := true) else s;
    if c.autoReschedule then
      var (b, distance) := NextDistance(a, c);
      (b.(request := Normal(distance)), RequestNext)
    else if a.fast.budget > 0 then
      if c.slotLength <= a.fast.distance <= c.maxDistance
      then (a.(fast := a.fast.(budget := a.fast.budget - 1), request := Normal(a.fast.distance)), RequestNext)
      else (a.(fast := a.fast.(budget := 0), outstanding := false), End)
    else (a.(outstanding := false), End)
  }

  function OnStart(s: Sched): Sched {
    s.(starts := s.starts + 1, slotActive := true, outstanding := true, extendCount := 0)
  }

  /** A new frame funds the fast windows again. */
  function OnNewFrame(s: Sched): Sched {
    if s.fast.refill > 0 then s.(fast := s.fast.(budget := s.fast.refill)) else s
  }

  /** `configure_prx_fast_window`, at any time; the budget keeps its value. */
  function ConfigureFast(s: Sched, distance: nat, refill: nat): Sched {
    s.(fast := s.fast.(distance := distance, refill := refill))
  }

  function OnTimer0(s: Sched, c: Config): (Sched, Reply) {
    if c.extendMode && s.extendCount < c.maxExtends then (s, Extend) else Finalize(s.(slotActive := false), c)
  }

  function OnExtended(s: Sched, c: Config): (Sched, Reply) {
    var a := s.(extendCount := s.extendCount + 1);
    if a.extendCount >= c.maxExtends then Finalize(a.(slotActive := false), c) else (a, NoReply)
  }

  function OnExtendFailed(s: Sched, c: Config): (Sched, Reply) {
    Finalize(s.(slotActive := false), c)
  }

  function OnSessionIdle(s: Sched): Sched {
    s.(outstanding := false)
  }

  /** BLOCKED or CANCELLED: a parked session gives up, a chained one asks again at once. */
  function OnRefused(s: Sched, c: Config, accepted: bool): (Sched, bool) {
    if !c.autoReschedule then (s.(outstanding := false), false)
    else (s.(request := Earliest, done := s.done || !accepted), accepted)
  }

  /** `next_report` takes the report that is ready, unless the session is done. */
  function OnTakeReport(s: Sched): Sched {
    if s.done then s else s.(reportReady := false)
  }

  function OnSessionClosed(s: Sched): Sched {
    s.(outstanding := false, done := true)
  }

  function OnOverstayed(s: Sched): Sched {
    s.(slotActive := false, outstanding := false, done := true)
  }

  function OnOther(s: Sched): Sched {
    s.(slotActive := false, outstanding := false)
  }

  /** `request_window`: whether a request goes to MPSL at all. */
  predicate Submits(s: Sched) {
    !(s.done || s.slotActive || s.outstanding)
  }

  /** Its first section under the lock. */
  function MarkWindow(s: Sched): Sched {
    if !Submits(s) then s else s.(request := Earliest, outstanding := true)
  }

  /** Its second one, if MPSL has refused the request. */
  function UnmarkWindow(s: Sched): Sched {
    s.(outstanding := false)
  }

  // ---- MPSL and a whole run ----

  /**
   `timers` counts the TIMER0 signals of the slot, `granted` is its length including
   extensions. `Ending` is a session whose SESSION_IDLE is still to come.
   */
  datatype Mpsl = Nothing | Requested | InSlot(extending: bool, timers: nat, granted: nat) | Ending | Closed

  /** A call of `request_window` that has marked the session; `cleared` says that SESSION_IDLE has come since. */
  datatype Call = NoCall | Marked(cleared: bool) | Refusing

  /**
   History: `ends` counts the ENDs and the refusals that left the session without a request,
   `idles` the SESSION_IDLE signals; `chained` the fast windows since the last frame that
   funded any, and `funded` how many it funded; `distances` are all NORMAL requests, `paced`
   those of auto mode; `seen` the start count of the last report taken.
   */
  datatype World = World(
    s: Sched, m: Mpsl, call: Call, ends: nat, idles: nat,
    chained: nat, funded: nat, distances: seq<nat>, paced: seq<nat>, seen: nat)

  datatype Signal =
    | Start | NewFrame | Timer0 | ExtendSucceeded | ExtendFailed | SessionIdle
    | Refused(accepted: bool) | SessionClosed | Overstayed | OtherSignal
    | Configure(distance: nat, refill: nat)
    | TakeReport
    | Mark | Submit(accepted: bool) | Unmark

  /** What may come next. MPSL may take a request while the session is idle; in any other state it refuses. */
  predicate Legal(w: World, sig: Signal) {
    match sig
    case Start => w.m.Requested?
    case NewFrame => w.m.InSlot?
    case Timer0 => w.m.InSlot? && !w.m.extending
    case ExtendSucceeded => w.m.InSlot? && w.m.extending
    case ExtendFailed => w.m.InSlot? && w.m.extending
    case SessionIdle => w.m.Ending?
    case Refused(_) => w.m.Requested?
    case SessionClosed => !w.m.InSlot? && !w.m.Closed?
    case Overstayed => w.m.InSlot?
    case OtherSignal => w.m.InSlot?
    case Configure(_, _) => true
    case TakeReport => true
    case Mark => w.call.NoCall?
    case Submit(accepted) => w.call.Marked? && (accepted ==> w.m.Nothing?)
    case Unmark => w.call.Refusing?
  }

  /** The session is left without a request. */
  function Ended(w: World, s: Sched): World {
    w.(s := s, m := Ending, ends := w.ends + 1)
  }

  /** What MPSL makes of a reply given in slot `m`, and what the history records of it. */
  function Replied(w: World, s: Sched, c: Config, reply: Reply, m: Mpsl): World {
    match reply
    case NoReply => w.(s := s, m := m)
    case Extend => w.(s := s, m := if m.InSlot? then m.(extending := true) else m)
    case End => Ended(w, s)
    case RequestNext =>
      var distance := if s.request.Normal? then s.request.distance else 0;
      w.(s := s, m := Requested, chained := if c.autoReschedule then w.chained else w.chained + 1,
      distances := w.distances + [distance], paced := if c.autoReschedule then w.paced + [distance] else w.paced)
  }

  function OnSignal(w: World, c: Config, sig: Signal): World {
    match sig
    case Start => w.(s := OnStart(w.s), m := InSlot(false, 0, c.slotLength))
    case NewFrame =>
      var a := w.(s := OnNewFrame(w.s));
      if w.s.fast.refill > 0 then a.(chained := 0, funded := w.s.fast.refill) else a
    case Timer0 =>
      var (s, reply) := OnTimer0(w.s, c);
      Replied(w, s, c, reply, if w.m.InSlot? then w.m.(timers := w.m.timers + 1) else w.m)
    case ExtendSucceeded =>
      var (s, reply) := OnExtended(w.s, c);
      Replied(w, s, c, reply,
              if w.m.InSlot? then InSlot(false, w.m.timers, w.m.granted + c.extendLength) else w.m)
    case ExtendFailed =>
      var (s, reply) := OnExtendFailed(w.s, c);
      Replied(w, s, c, reply, w.m)
    case SessionIdle =>
      w.(s := OnSessionIdle(w.s), m := Nothing, idles := w.idles + 1,
      call := if w.call.Marked? then Marked(true) else w.call)
    case Refused(accepted) =>
      var (s, submitted) := OnRefused(w.s, c, accepted);
      if submitted then w.(s := s, m := Requested) else Ended(w, s)
    case SessionClosed => w.(s := OnSessionClosed(w.s), m := Closed)
    case Overstayed => Ended(w, OnOverstayed(w.s))
    case OtherSignal => Ended(w, OnOther(w.s))
    case TakeReport => w.(s := OnTakeReport(w.s), seen := if w.s.done then w.seen else w.s.lastReport)
    case Configure(distance, refill) => w.(s := ConfigureFast(w.s, distance, refill))
    case Mark => w.(s := MarkWindow(w.s), call := if Submits(w.s) then Marked(false) else NoCall)
    case Submit(accepted) => if accepted then w.(m := Requested, call := NoCall) else w.(call := Refusing)
    case Unmark => w.(s := UnmarkWindow(w.s), call := NoCall)
  }

  function OnSignals(w: World, c: Config, sigs: seq<Signal>): World
    decreases |sigs|
  {
    if sigs == [] then w else OnSignals(OnSignal(w, c, sigs[0]), c, sigs[1..])
  }

  predicate AllLegal(w: World, c: Config, sigs: seq<Signal>)
    decreases |sigs|
  {
    sigs == [] || (Legal(w, sigs[0]) && AllLegal(OnSignal(w, c, sigs[0]), c, sigs[1..]))
  }

  /** A session just opened, its first request submitted or not. */
  function Opened(submitNow: bool, fast: Fast): World {
    World(Sched(submitNow, false, false, 0, 0, 0, 0, false, Earliest, fast),
          if submitNow then Requested else Nothing, NoCall, 0, 0, 0, fast.budget, [], [], 0)
  }

  // ---- What every run keeps ----

  predicate Holds(m: Mpsl) {
    m.Requested? || m.InSlot?
  }

  /**
   The session is never marked for nothing: without a call in progress a mark stands for a
   request or slot of MPSL, or the session is done and its SESSION_IDLE still to come.
   */
  ghost predicate MarkInv(w: World) {
    && (w.s.slotActive <==> w.m.InSlot?)
    && (w.m.Closed? ==> w.s.done)
    && (!w.m.Closed? ==> w.ends == w.idles + (if w.m.Ending? then 1 else 0))
    && (w.s.outstanding && w.call.NoCall? ==> Holds(w.m) || (w.m.Ending? && w.s.done))
    && (w.call.Marked? && w.m.Nothing? ==> (w.s.outstanding <==> !w.call.cleared))
    && (w.call == Marked(true) ==> w.m.Nothing? || w.m.Closed?)
  }

  /** Extensions and TIMER0 signals of the current slot. */
  ghost predicate ExtendInv(w: World, c: Config) {
    && w.s.extendCount <= c.maxExtends
    && (w.m.InSlot? ==>
          && w.m.timers == w.s.extendCount + (if w.m.extending then 1 else 0)
          && w.m.granted == c.slotLength + w.s.extendCount * c.extendLength
          && (w.m.timers > 0 ==> c.extendMode && w.s.extendCount < c.maxExtends))
  }

  function Base(c: Config): nat {
    if c.normalDistance > 0 then c.normalDistance else c.slotLength
  }

  function Sum(s: seq<nat>): nat {
    if s == [] then 0 else Sum(s[..|s| - 1]) + s[|s| - 1]
  }

  /** The distances of `n` paced requests, `n / gapAfter` of which are the planned gap. */
  function PacedTotal(c: Config, n: nat): int
    requires c.gapAfter > 0
  {
    (n - n / c.gapAfter) * Base(c) + n / c.gapAfter * c.gapDistance
  }

  ghost predicate PacingInv(w: World, c: Config) {
    && (forall k | 0 <= k < |w.distances| :: w.distances[k] >= c.slotLength)
    && w.chained + w.s.fast.budget <= w.funded
    && (0 < c.gapAfter <= U32_MAX ==>
          && w.s.windowsSinceGap == |w.paced| % c.gapAfter
          && Sum(w.paced) == PacedTotal(c, |w.paced|))
  }

  ghost predicate Inv(w: World, c: Config) {
    MarkInv(w) && ExtendInv(w, c) && PacingInv(w, c)
  }

  /** One more paced request: it is the gap exactly when the count reaches a multiple of `gapAfter`. */
  lemma OneMorePaced(n: nat, g: nat, base: nat, gap: nat)
    requires g > 0
    ensures var d := if n % g + 1 >= g then gap else base;
            && (n + 1) % g == (if n % g + 1 >= g then 0 else n % g + 1)
            && (n + 1 - (n + 1) / g) * base + (n + 1) / g * gap == (n - n / g) * base + n / g * gap + d
  {
    var q, r := n / g, n % g;
    assert n == q * g + r;
    if r + 1 >= g {
      assert n + 1 == (q + 1) * g by {
        assert (q + 1) * g == q * g + g;
      }
      DivMod(n + 1, g, q + 1, 0);
    } else {
      DivMod(n + 1, g, q, r + 1);
      assert (n + 1 - q) * base == (n - q) * base + base;
    }
  }

  lemma MulMonotone(a: nat, b: nat, g: nat)
    requires a <= b
    ensures a * g <= b * g
  {
  }

  lemma DivMod(n: nat, g: nat, q: nat, r: nat)
    requires g > 0 && n == q * g + r && r < g
    ensures n / g == q && n % g == r
  {
    var q' := n / g;
    assert q' * g <= n < q' * g + g;
    assert (q + 1) * g == q * g + g && (q' + 1) * g == q' * g + g;
    if q' > q {
      MulMonotone(q + 1, q', g);
    } else if q' < q {
      MulMonotone(q' + 1, q, g);
    }
  }

  lemma SumAppend(s: seq<nat>, d: nat)
    ensures Sum(s + [d]) == Sum(s) + d
  {
    assert (s + [d])[..|s|] == s;
  }

  /** Ending a slot, in every way it can end. */
  lemma FinalizeInv(w: World, c: Config, s: Sched, m: Mpsl)
    requires ValidConfig(c) && PacingInv(w, c) && s.extendCount <= c.maxExtends && !s.slotActive
    requires MarkInv(w) && w.m.InSlot? && s.outstanding == w.s.outstanding
    requires s.fast == w.s.fast && s.windowsSinceGap == w.s.windowsSinceGap
    ensures var (r, reply) := Finalize(s, c);
            Inv(Replied(w, r, c, reply, m), c)
  {
    hide Sum, PacedTotal, ExtendInv, ValidConfig;
      var (r, reply) := Finalize(s, c);
    AtLeastASlot(c, s);
    if c.autoReschedule {
      OnePacedMore(w, c, s);
    }
    OutOfSlot(Replied(w, r, c, reply, m), c);
  }

  lemma AtLeastASlot(c: Config, s: Sched)
    requires ValidConfig(c)
    ensures var (r, reply) := Finalize(s, c);
            && r.extendCount == s.extendCount
            && (reply == RequestNext ==> r.request.Normal? && r.request.distance >= c.slotLength)
  {
  }

  lemma OutOfSlot(w: World, c: Config)
    requires !w.m.InSlot? && w.s.extendCount <= c.maxExtends
    ensures ExtendInv(w, c)
  {
  }

  lemma OnePacedMore(w: World, c: Config, s: Sched)
    requires PacingInv(w, c) && s.windowsSinceGap == w.s.windowsSinceGap
    ensures var (r, distance) := NextDistance(s, c);
            0 < c.gapAfter <= U32_MAX ==>
              && r.windowsSinceGap == (|w.paced| + 1) % c.gapAfter
              && Sum(w.paced + [distance]) == PacedTotal(c, |w.paced| + 1)
  {
    var (r, distance) := NextDistance(s, c);
    SumAppend(w.paced, distance);
    if 0 < c.gapAfter <= U32_MAX {
      OneMorePaced(|w.paced|, c.gapAfter, Base(c), c.gapDistance);
    }
    hide Sum;
  }

  lemma Timer0Inv(w: World, c: Config)
    requires ValidConfig(c) && Inv(w, c) && Legal(w, Timer0)
    ensures Inv(OnSignal(w, c, Timer0), c)
  {
    if !(c.extendMode && w.s.extendCount < c.maxExtends) {
      FinalizeInv(w, c, w.s.(slotActive := false), w.m.(timers := w.m.timers + 1));
    }
    hide PacingInv, Finalize, Inv;
    if c.extendMode && w.s.extendCount < c.maxExtends {
      ExtendRequested(w, c);
    }
  }

  lemma ExtendRequested(w: World, c: Config)
    requires Inv(w, c) && w.m.InSlot? && !w.m.extending && c.extendMode && w.s.extendCount < c.maxExtends
    ensures Inv(w.(m := InSlot(true, w.m.timers + 1, w.m.granted)), c)
  {
    hide Sum, PacedTotal;
  }

  lemma ExtendSucceededInv(w: World, c: Config)
    requires ValidConfig(c) && Inv(w, c) && Legal(w, ExtendSucceeded)
    ensures Inv(OnSignal(w, c, ExtendSucceeded), c)
  {
    var a := w.s.(extendCount := w.s.extendCount + 1);
    var m := InSlot(false, w.m.timers, w.m.granted + c.extendLength);
    if a.extendCount >= c.maxExtends {
      FinalizeInv(w, c, a.(slotActive := false), m);
    } else {
      ExtendGranted(w, c);
    }
    hide PacingInv, Finalize, Inv;
  }

  lemma ExtendGranted(w: World, c: Config)
    requires Inv(w, c) && w.m.InSlot? && w.m.extending && w.s.extendCount + 1 < c.maxExtends
    ensures Inv(w.(s := w.s.(extendCount := w.s.extendCount + 1),
                m := InSlot(false, w.m.timers, w.m.granted + c.extendLength)), c)
  {
    hide Sum, PacedTotal;
    assert (w.s.extendCount + 1) * c.extendLength == w.s.extendCount * c.extendLength + c.extendLength;
  }

  lemma ExtendFailedInv(w: World, c: Config)
    requires ValidConfig(c) && Inv(w, c) && Legal(w, ExtendFailed)
    ensures Inv(OnSignal(w, c, ExtendFailed), c)
  {
    FinalizeInv(w, c, w.s.(slotActive := false), w.m);
    hide PacingInv, Finalize, Inv;
  }

  lemma SignalInv(w: World, c: Config, sig: Signal)
    requires ValidConfig(c) && Inv(w, c) && Legal(w, sig)
    ensures Inv(OnSignal(w, c, sig), c)
  {
    if sig.Timer0? {
      Timer0Inv(w, c);
    } else if sig.ExtendSucceeded? {
      ExtendSucceededInv(w, c);
    } else if sig.ExtendFailed? {
      ExtendFailedInv(w, c);
    }
    hide Finalize, Sum, PacedTotal, OnTimer0, OnExtended, OnExtendFailed;
  }

  lemma {:induction false} RunInv(w: World, c: Config, sigs: seq<Signal>)
    requires ValidConfig(c) && Inv(w, c) && AllLegal(w, c, sigs)
    ensures Inv(OnSignals(w, c, sigs), c)
    decreases |sigs|
  {
    if sigs != [] {
      SignalInv(w, c, sigs[0]);
      hide Inv, OnSignal, ValidConfig, Legal;
      RunInv(OnSignal(w, c, sigs[0]), c, sigs[1..]);
    }
  }

  lemma OpenedInv(c: Config, submitNow: bool, fast: Fast)
    ensures Inv(Opened(submitNow, fast), c) && Agrees(Opened(submitNow, fast))
  {
    if c.gapAfter > 0 {
      DivMod(0, c.gapAfter, 0, 0);
    }
  }

  /**
   Window scheduling is sound in every run: a session that MPSL has told to be idle can ask
   for a window, no NORMAL request is shorter than a slot, a parked session chains at most as
   many windows as the last frame funded, or as were left over when it was opened, and
   extensions stay within their limit.
   */
  lemma SchedulingIsSound(c: Config, submitNow: bool, fast: Fast, sigs: seq<Signal>)
    requires ValidConfig(c) && AllLegal(Opened(submitNow, fast), c, sigs)
    ensures var w := OnSignals(Opened(submitNow, fast), c, sigs);
            && (w.call.NoCall? && w.m.Nothing? && !w.s.done ==> Submits(w.s))
            && (w.call.NoCall? && w.s.outstanding && !w.s.done ==> Holds(w.m))
            && (forall k | 0 <= k < |w.distances| :: w.distances[k] >= c.slotLength)
            && w.chained <= w.funded
            && w.s.extendCount <= c.maxExtends
  {
    OpenedInv(c, submitNow, fast);
    RunInv(Opened(submitNow, fast), c, sigs);
    hide OnSignals, Opened;
  }

  /** After `n` paced requests with a planned gap, their distances add up as planned. */
  lemma PlannedGapsAddUp(c: Config, submitNow: bool, fast: Fast, sigs: seq<Signal>)
    requires ValidConfig(c) && AllLegal(Opened(submitNow, fast), c, sigs)
    requires 0 < c.gapAfter <= U32_MAX
    ensures var w := OnSignals(Opened(submitNow, fast), c, sigs);
            var n := |w.paced|;
            Sum(w.paced) == (n - n / c.gapAfter) * Base(c) + n / c.gapAfter * c.gapDistance
  {
    OpenedInv(c, submitNow, fast);
    RunInv(Opened(submitNow, fast), c, sigs);
    hide OnSignals, Opened, Sum;
  }

  // ---- How a slot ends ----

  /**
   At the end of a slot of a parked session a window is asked for exactly if one is funded
   and MPSL would take the distance; otherwise the session ends, with no budget left.
   */
  lemma FastWindowExactly(s: Sched, c: Config)
    requires !c.autoReschedule
    ensures var (r, reply) := Finalize(s, c);
            var chains := s.fast.budget > 0 && c.slotLength <= s.fast.distance <= c.maxDistance;
            && reply == (if chains then RequestNext else End)
            && (chains ==> r.request == Normal(s.fast.distance) && r.outstanding == s.outstanding)
            && (!chains ==> !r.outstanding && r.request == s.request)
            && r.fast == s.fast.(budget := if chains then s.fast.budget - 1 else 0)
            && r.done == s.done && r.slotActive == s.slotActive && r.windowsSinceGap == s.windowsSinceGap
  {
  }

  /** A chained session always asks for the next window, and keeps the fast budget. */
  lemma PacedWindowExactly(s: Sched, c: Config)
    requires c.autoReschedule
    ensures var (r, reply) := Finalize(s, c);
            && reply == RequestNext && r.request.Normal? && r.outstanding == s.outstanding
            && r.fast == s.fast && r.done == s.done && r.slotActive == s.slotActive
  {
  }

  /** A refused chained session asks for the earliest window at once; a parked one waits for its owner. */
  lemma RefusedExactly(s: Sched, c: Config, accepted: bool)
    ensures var (r, submitted) := OnRefused(s, c, accepted);
            && (submitted <==> c.autoReschedule && accepted)
            && (c.autoReschedule ==>
                  r.request == Earliest && r.outstanding == s.outstanding && (r.done <==> s.done || !accepted))
            && (!c.autoReschedule ==> !r.outstanding && r.done == s.done)
  {
  }

  /** What ends a session for good, and what only ends its slot. */
  lemma EndingsExactly(s: Sched)
    ensures OnSessionClosed(s) == s.(outstanding := false, done := true)
    ensures OnOverstayed(s) == s.(slotActive := false, outstanding := false, done := true)
    ensures OnOther(s) == s.(slotActive := false, outstanding := false)
  {
  }

  /** A window is asked for as early as possible; without one nothing changes. */
  lemma MarkExactly(s: Sched)
    ensures var r := MarkWindow(s);
            && (Submits(s) ==> r == s.(request := Earliest, outstanding := true) && !Submits(r))
            && (!Submits(s) ==> r == s)
  {
  }

  lemma FinalizeKeepsFast(s: Sched, c: Config)
    ensures var r := Finalize(s, c).0.fast; r.distance == s.fast.distance && r.refill == s.fast.refill
  {
  }

  lemma SignalKeepsFast(w: World, c: Config, sig: Signal)
    requires !sig.Configure?
    ensures var r := OnSignal(w, c, sig).s.fast; r.distance == w.s.fast.distance && r.refill == w.s.fast.refill
  {
    hide Finalize;
    FinalizeKeepsFast(w.s.(slotActive := false), c);
    FinalizeKeepsFast(w.s.(extendCount := w.s.extendCount + 1, slotActive := false), c);
  }

  /** The last configuration is the one in force, whatever has happened since. */
  lemma {:induction false} ConfiguredStays(w: World, c: Config, sigs: seq<Signal>)
    requires forall k | 0 <= k < |sigs| :: !sigs[k].Configure?
    ensures var r := OnSignals(w, c, sigs).s.fast;
            r.distance == w.s.fast.distance && r.refill == w.s.fast.refill
    decreases |sigs|
  {
    if sigs != [] {
      assert !sigs[0].Configure?;
      SignalKeepsFast(w, c, sigs[0]);
      hide OnSignal;
      ConfiguredStays(OnSignal(w, c, sigs[0]), c, sigs[1..]);
    }
  }

  lemma LastConfigured(w: World, c: Config, distance: nat, refill: nat, sigs: seq<Signal>)
    requires forall k | 0 <= k < |sigs| :: !sigs[k].Configure?
    ensures var r := OnSignals(OnSignal(w, c, Configure(distance, refill)), c, sigs).s.fast;
            r.distance == distance && r.refill == refill
  {
    ConfiguredStays(OnSignal(w, c, Configure(distance, refill)), c, sigs);
  }

  /** Nothing but slot ends touches the fast windows. */
  ghost predicate Undisturbed(sigs: seq<Signal>) {
    forall k | 0 <= k < |sigs| ::
      var e := sigs[k];
      !e.NewFrame? && !e.Configure? && !e.Refused? && !e.Overstayed? && !e.OtherSignal?
  }

  /** The slots that have come to an end between `o` and `w`. */
  function SlotsEnded(o: World, w: World): int {
    w.ends - o.ends + |w.distances| - |o.distances|
  }

  /** `w` follows `o`, in which `n` windows were funded. */
  ghost predicate Chains(o: World, w: World, n: nat) {
    var k := |w.distances| - |o.distances|;
    && 0 <= k <= n && w.ends >= o.ends
    && w.distances == o.distances + seq(k, i => o.s.fast.distance)
    && w.chained == o.chained + k
    && w.s.fast == o.s.fast.(budget := n - k)
    && (w.ends > o.ends ==> k == n)
  }

  lemma OneMoreOf(d: nat, k: nat)
    ensures seq(k + 1, i => d) == seq(k, i => d) + [d]
  {
  }

  lemma EndedSlotChains(o: World, w: World, c: Config, n: nat, s: Sched, m: Mpsl)
    requires Chains(o, w, n) && !c.autoReschedule && c.slotLength <= o.s.fast.distance <= c.maxDistance
    requires s.fast == w.s.fast
    ensures var (r, reply) := Finalize(s, c); Chains(o, Replied(w, r, c, reply, m), n)
  {
    FastWindowExactly(s, c);
    OneMoreOf(o.s.fast.distance, |w.distances| - |o.distances|);
    hide Finalize;
  }

  lemma SameChains(o: World, w: World, r: World, n: nat)
    requires Chains(o, w, n) && r.distances == w.distances && r.chained == w.chained && r.ends == w.ends
    requires r.s.fast == w.s.fast
    ensures Chains(o, r, n)
  {
  }

  lemma SignalChains(o: World, w: World, c: Config, n: nat, sig: Signal)
    requires Chains(o, w, n) && !c.autoReschedule && c.slotLength <= o.s.fast.distance <= c.maxDistance
    requires !sig.NewFrame? && !sig.Configure? && !sig.Refused? && !sig.Overstayed? && !sig.OtherSignal?
    ensures Chains(o, OnSignal(w, c, sig), n)
  {
    hide Chains, Finalize;
    if sig.Timer0? && !(c.extendMode && w.s.extendCount < c.maxExtends) {
      var m := if w.m.InSlot? then w.m.(timers := w.m.timers + 1) else w.m;
      EndedSlotChains(o, w, c, n, w.s.(slotActive := false), m);
    } else if sig.ExtendSucceeded? && w.s.extendCount + 1 >= c.maxExtends {
      var m := if w.m.InSlot? then InSlot(false, w.m.timers, w.m.granted + c.extendLength) else w.m;
      EndedSlotChains(o, w, c, n, w.s.(extendCount := w.s.extendCount + 1, slotActive := false), m);
    } else if sig.ExtendFailed? {
      EndedSlotChains(o, w, c, n, w.s.(slotActive := false), w.m);
    } else {
      SameChains(o, w, OnSignal(w, c, sig), n);
    }
  }

  lemma {:induction false} RunChains(o: World, w: World, c: Config, n: nat, sigs: seq<Signal>)
    requires Chains(o, w, n) && !c.autoReschedule && c.slotLength <= o.s.fast.distance <= c.maxDistance
    requires Undisturbed(sigs)
    ensures Chains(o, OnSignals(w, c, sigs), n)
    decreases |sigs|
  {
    if sigs != [] {
      assert !sigs[0].NewFrame? && !sigs[0].Configure?;
      SignalChains(o, w, c, n, sigs[0]);
      hide Chains, OnSignal;
      RunChains(o, OnSignal(w, c, sigs[0]), c, n, sigs[1..]);
    }
  }

  /**
   In every run of a parked session: after a frame that funded `n` windows at a distance MPSL
   takes, and with no other frame, reconfiguration, refusal or lost slot, of the slots that
   end the first `n` each chain a window at that distance, and the session ends only after
   exactly `n`.
   */
  lemma FrameFundsWindows(c: Config, submitNow: bool, fast: Fast, before: seq<Signal>, sigs: seq<Signal>)
    requires ValidConfig(c) && !c.autoReschedule && Undisturbed(sigs)
    requires AllLegal(Opened(submitNow, fast), c, before + [NewFrame] + sigs)
    requires var f := OnSignals(Opened(submitNow, fast), c, before).s.fast;
             f.refill > 0 && c.slotLength <= f.distance <= c.maxDistance
    ensures var o := OnSignal(OnSignals(Opened(submitNow, fast), c, before), c, NewFrame);
            var w := OnSignals(o, c, sigs);
            var n := o.s.fast.refill;
            var ended := SlotsEnded(o, w);
            var k := if ended <= n then ended else n;
            && ended >= 0 && w.distances == o.distances + seq(k, i => o.s.fast.distance)
            && w.s.fast.budget == n - k && w.ends == o.ends + (ended - k)
  {
    var o := OnSignal(OnSignals(Opened(submitNow, fast), c, before), c, NewFrame);
    assert o.distances + seq(0, i => o.s.fast.distance) == o.distances;
    RunChains(o, o, c, o.s.fast.refill, sigs);
  }

  // ---- Reports ----

  /** A report is due at the first slot end after every `reportEvery` starts. */
  ghost predicate ReportInv(w: World, c: Config)
    requires c.reportEvery > 0
  {
    var n := if w.m.InSlot? then w.s.starts - 1 else w.s.starts;
    && n >= 0 && w.s.lastReport == n - n % c.reportEvery
    && w.seen <= w.s.lastReport
    && (w.s.reportReady <==> w.seen < w.s.lastReport)
  }

  lemma NextReport(n: nat, every: nat, last: nat)
    requires every > 0 && last == n - n % every
    ensures n + 1 - last >= every <==> (n + 1) % every == 0
    ensures (if n + 1 - last >= every then n + 1 else last) == n + 1 - (n + 1) % every
  {
    var q := n / every;
    var r := n % every;
    assert n == q * every + r;
    if r + 1 == every {
      assert n + 1 == (q + 1) * every by {
        assert (q + 1) * every == q * every + every;
      }
      DivMod(n + 1, every, q + 1, 0);
    } else {
      DivMod(n + 1, every, q, r + 1);
    }
  }

  lemma FinalizeReports(s: Sched, c: Config)
    ensures var r := Finalize(s, c).0;
            var due := SatSub(s.starts, s.lastReport) >= c.reportEvery;
            && r.starts == s.starts && r.lastReport == (if due then s.starts else s.lastReport)
            && r.reportReady == (s.reportReady || due)
  {
  }

  lemma EndedSlotReports(w: World, c: Config, s: Sched, m: Mpsl)
    requires c.reportEvery > 0 && ReportInv(w, c) && w.m.InSlot? && w.s.starts > 0
    requires s.starts == w.s.starts && s.lastReport == w.s.lastReport && s.reportReady == w.s.reportReady
    ensures var (r, reply) := Finalize(s, c); ReportInv(Replied(w, r, c, reply, m), c)
  {
    NextReport(w.s.starts - 1, c.reportEvery, w.s.lastReport);
    FinalizeReports(s, c);
    FinalizeKeepsMark(s, c);
    hide Finalize;
  }

  lemma SignalReports(w: World, c: Config, sig: Signal)
    requires c.reportEvery > 0 && ReportInv(w, c) && Legal(w, sig) && !sig.Overstayed? && !sig.OtherSignal?
    ensures ReportInv(OnSignal(w, c, sig), c)
  {
    hide Finalize;
    if w.m.InSlot? {
      InSlotStarted(w, c);
    }
    if sig.Timer0? && !(c.extendMode && w.s.extendCount < c.maxExtends) {
      EndedSlotReports(w, c, w.s.(slotActive := false), w.m.(timers := w.m.timers + 1));
    } else if sig.ExtendSucceeded? && w.s.extendCount + 1 >= c.maxExtends {
      EndedSlotReports(w, c, w.s.(extendCount := w.s.extendCount + 1, slotActive := false),
                       InSlot(false, w.m.timers, w.m.granted + c.extendLength));
    } else if sig.ExtendFailed? {
      EndedSlotReports(w, c, w.s.(slotActive := false), w.m);
    } else {
      SameReports(w, c, sig);
    }
  }

  lemma InSlotStarted(w: World, c: Config)
    requires c.reportEvery > 0 && ReportInv(w, c) && w.m.InSlot?
    ensures w.s.starts > 0
  {
  }

  lemma SameReports(w: World, c: Config, sig: Signal)
    requires c.reportEvery > 0 && ReportInv(w, c) && Legal(w, sig) && !sig.Overstayed? && !sig.OtherSignal?
    requires !(sig.Timer0? && !(c.extendMode && w.s.extendCount < c.maxExtends))
    requires !(sig.ExtendSucceeded? && w.s.extendCount + 1 >= c.maxExtends) && !sig.ExtendFailed?
    ensures ReportInv(OnSignal(w, c, sig), c)
  {
    hide Finalize;
  }

  /**
   In every run without a lost slot: reports are raised after every `reportEvery` slots, and
   one is ready exactly if the last one raised has not been taken.
   */
  lemma {:induction false} ReportsOnTime(w: World, c: Config, sigs: seq<Signal>)
    requires c.reportEvery > 0 && ReportInv(w, c) && AllLegal(w, c, sigs)
    requires forall k | 0 <= k < |sigs| :: !sigs[k].Overstayed? && !sigs[k].OtherSignal?
    ensures ReportInv(OnSignals(w, c, sigs), c)
    decreases |sigs|
  {
    if sigs != [] {
      assert !sigs[0].Overstayed?;
      SignalReports(w, c, sigs[0]);
      hide ReportInv, OnSignal, Legal;
      ReportsOnTime(OnSignal(w, c, sigs[0]), c, sigs[1..]);
    }
  }

  lemma OpenedReports(c: Config, submitNow: bool, fast: Fast, sigs: seq<Signal>)
    requires ValidConfig(c) && AllLegal(Opened(submitNow, fast), c, sigs)
    requires forall k | 0 <= k < |sigs| :: !sigs[k].Overstayed? && !sigs[k].OtherSignal?
    ensures var w := OnSignals(Opened(submitNow, fast), c, sigs);
            && (!w.m.InSlot? ==> w.s.lastReport == w.s.starts - w.s.starts % c.reportEvery)
            && (w.s.reportReady <==> w.seen < w.s.lastReport)
  {
    DivMod(0, c.reportEvery, 0, 0);
    ReportsOnTime(Opened(submitNow, fast), c, sigs);
  }

  // ---- When the mark and MPSL agree ----

  /** MPSL holds nothing that the session does not know of. */
  ghost predicate Agrees(w: World) {
    Holds(w.m) ==> w.s.outstanding && w.call.NoCall?
  }

  /** MPSL takes a request whose mark SESSION_IDLE has cleared since it was set. */
  predicate Slips(w: World, sig: Signal) {
    sig == Submit(true) && w.call == Marked(true)
  }

  lemma FinalizeKeepsMark(s: Sched, c: Config)
    ensures var (r, reply) := Finalize(s, c);
            && (reply == RequestNext ==> r.outstanding == s.outstanding)
            && (reply == RequestNext || reply == End)
  {
  }

  /** A signal breaks the agreement exactly if it lets a request slip. */
  lemma SignalAgrees(w: World, c: Config, sig: Signal)
    requires MarkInv(w) && Agrees(w) && Legal(w, sig)
    ensures Agrees(OnSignal(w, c, sig)) <==> !Slips(w, sig)
  {
    hide Finalize;
    FinalizeKeepsMark(w.s.(slotActive := false), c);
    FinalizeKeepsMark(w.s.(extendCount := w.s.extendCount + 1, slotActive := false), c);
  }

  /** They agree before and after every signal of a run. */
  ghost predicate AgreesThroughout(w: World, c: Config, sigs: seq<Signal>)
    decreases |sigs|
  {
    Agrees(w) && (sigs == [] || AgreesThroughout(OnSignal(w, c, sigs[0]), c, sigs[1..]))
  }

  predicate NeverSlips(w: World, c: Config, sigs: seq<Signal>)
    decreases |sigs|
  {
    sigs == [] || (!Slips(w, sigs[0]) && NeverSlips(OnSignal(w, c, sigs[0]), c, sigs[1..]))
  }

  lemma {:induction false} RunAgrees(w: World, c: Config, sigs: seq<Signal>)
    requires ValidConfig(c) && Inv(w, c) && Agrees(w) && AllLegal(w, c, sigs)
    ensures AgreesThroughout(w, c, sigs) <==> NeverSlips(w, c, sigs)
    decreases |sigs|
  {
    if sigs != [] {
      SignalInv(w, c, sigs[0]);
      InvMarks(w, c);
      SignalAgrees(w, c, sigs[0]);
      hide Inv, MarkInv, Agrees, OnSignal, ValidConfig, Legal, Slips;
      if !Slips(w, sigs[0]) {
        RunAgrees(OnSignal(w, c, sigs[0]), c, sigs[1..]);
      } else {
        DisagreesAtOnce(OnSignal(w, c, sigs[0]), c, sigs[1..]);
      }
    }
  }

  lemma InvMarks(w: World, c: Config)
    requires Inv(w, c)
    ensures MarkInv(w)
  {
  }

  lemma DisagreesAtOnce(w: World, c: Config, sigs: seq<Signal>)
    requires !Agrees(w)
    ensures !AgreesThroughout(w, c, sigs)
  {
  }

  lemma AgreesAtEnd(w: World, c: Config, sigs: seq<Signal>)
    requires AgreesThroughout(w, c, sigs)
    ensures Agrees(OnSignals(w, c, sigs))
    decreases |sigs|
  {
    hide Agrees, OnSignal;
    if sigs != [] {
      AgreesAtEnd(OnSignal(w, c, sigs[0]), c, sigs[1..]);
    }
  }

  /**
   In every run, MPSL never holds anything the session does not know of if and only if
   SESSION_IDLE never comes between the mark of a call and its acceptance. While that is so,
   `request_window` submits only when MPSL holds nothing.
   */
  lemma MarkAgreesExactly(c: Config, submitNow: bool, fast: Fast, sigs: seq<Signal>)
    requires ValidConfig(c) && AllLegal(Opened(submitNow, fast), c, sigs)
    ensures var o := Opened(submitNow, fast);
            var w := OnSignals(o, c, sigs);
            && (AgreesThroughout(o, c, sigs) <==> NeverSlips(o, c, sigs))
            && (NeverSlips(o, c, sigs) ==>
                  && (Submits(w.s) ==> !Holds(w.m))
                  && (w.call.NoCall? && !w.s.done ==> (w.s.outstanding <==> Holds(w.m))))
  {
    var o := Opened(submitNow, fast);
    OpenedInv(c, submitNow, fast);
    hide Inv, Opened, OnSignals, AgreesThroughout, NeverSlips, AllLegal, ValidConfig;
    RunAgrees(o, c, sigs);
    RunInv(o, c, sigs);
    InvMarks(OnSignals(o, c, sigs), c);
    if AgreesThroughout(o, c, sigs) {
      AgreesAtEnd(o, c, sigs);
    }
  }

  /** Every END, and every refusal that left the session without a request, has had its SESSION_IDLE. */
  predicate Settled(w: World) {
    w.ends == w.idles
  }

  /** A marked call has found the session idle, so no SESSION_IDLE is to come in it. */
  ghost predicate CallIsSafe(w: World) {
    w.call.Marked? ==> !w.call.cleared && (w.m.Nothing? || w.m.Closed?)
  }

  lemma SignalKeepsCallSafe(w: World, c: Config, sig: Signal)
    requires MarkInv(w) && CallIsSafe(w) && Legal(w, sig)
    requires sig.Mark? && Submits(w.s) ==> Settled(w) && !Holds(w.m)
    ensures CallIsSafe(OnSignal(w, c, sig)) && !Slips(w, sig)
  {
    hide Finalize;
  }

  /** Every call that gets past its guard starts after the SESSION_IDLE of the last END or refusal. */
  predicate Patient(w: World, c: Config, sigs: seq<Signal>)
    decreases |sigs|
  {
    sigs == [] ||
    ((sigs[0].Mark? && Submits(w.s) ==> Settled(w)) && Patient(OnSignal(w, c, sigs[0]), c, sigs[1..]))
  }

  lemma {:induction false} PatientNeverSlips(w: World, c: Config, sigs: seq<Signal>)
    requires ValidConfig(c) && Inv(w, c) && Agrees(w) && CallIsSafe(w)
    requires AllLegal(w, c, sigs) && Patient(w, c, sigs)
    ensures NeverSlips(w, c, sigs)
    decreases |sigs|
  {
    if sigs != [] {
      SignalInv(w, c, sigs[0]);
      InvMarks(w, c);
      SignalKeepsCallSafe(w, c, sigs[0]);
      SignalAgrees(w, c, sigs[0]);
      hide Inv, MarkInv, Agrees, OnSignal, ValidConfig, Legal, Slips, CallIsSafe, Submits, Settled;
      PatientNeverSlips(OnSignal(w, c, sigs[0]), c, sigs[1..]);
    }
  }

  /** Patient runs agree throughout. */
  lemma PatientRunsAgree(c: Config, submitNow: bool, fast: Fast, sigs: seq<Signal>)
    requires ValidConfig(c) && AllLegal(Opened(submitNow, fast), c, sigs) && Patient(Opened(submitNow, fast), c, sigs)
    ensures AgreesThroughout(Opened(submitNow, fast), c, sigs)
  {
    OpenedInv(c, submitNow, fast);
    PatientNeverSlips(Opened(submitNow, fast), c, sigs);
    RunAgrees(Opened(submitNow, fast), c, sigs);
  }

  ghost predicate NoMark(sigs: seq<Signal>) {
    forall k | 0 <= k < |sigs| :: !sigs[k].Mark?
  }

  lemma {:induction false} NoMarkIsPatient(w: World, c: Config, sigs: seq<Signal>)
    requires NoMark(sigs)
    ensures Patient(w, c, sigs)
    decreases |sigs|
  {
    hide OnSignal;
    if sigs != [] {
      assert !sigs[0].Mark?;
      NoMarkIsPatient(OnSignal(w, c, sigs[0]), c, sigs[1..]);
    }
  }

  /**
   When a call is safe: however the signals fall, it keeps the agreement if and only if the
   SESSION_IDLE of the last END or refusal had been signalled before the call.
   */
  lemma CallIsSafeExactly(c: Config, submitNow: bool, fast: Fast, before: seq<Signal>)
    requires ValidConfig(c) && AllLegal(Opened(submitNow, fast), c, before)
    requires AgreesThroughout(Opened(submitNow, fast), c, before)
    requires var w := OnSignals(Opened(submitNow, fast), c, before); w.call.NoCall? && Submits(w.s)
    ensures var w := OnSignals(Opened(submitNow, fast), c, before);
            (forall rest: seq<Signal> | NoMark(rest) && AllLegal(w, c, [Mark] + rest) ::
               AgreesThroughout(w, c, [Mark] + rest)) <==> Settled(w)
  {
    var w := OnSignals(Opened(submitNow, fast), c, before);
    OpenedInv(c, submitNow, fast);
    RunInv(Opened(submitNow, fast), c, before);
    AgreesAtEnd(Opened(submitNow, fast), c, before);
    hide Opened, OnSignals;
    if Settled(w) {
      forall rest: seq<Signal> | NoMark(rest) && AllLegal(w, c, [Mark] + rest)
        ensures AgreesThroughout(w, c, [Mark] + rest)
      {
        SettledCallAgrees(w, c, rest);
      }
    } else {
      InvMarks(w, c);
      UnsettledCallSlips(w, c);
    }
  }

  lemma SettledCallAgrees(w: World, c: Config, rest: seq<Signal>)
    requires ValidConfig(c) && Inv(w, c) && Agrees(w) && w.call.NoCall? && Settled(w)
    requires NoMark(rest) && AllLegal(w, c, [Mark] + rest)
    ensures AgreesThroughout(w, c, [Mark] + rest)
  {
    assert ([Mark] + rest)[1..] == rest;
    hide Inv, OnSignal, Legal, ValidConfig, Agrees, Settled;
    NoMarkIsPatient(OnSignal(w, c, Mark), c, rest);
    PatientNeverSlips(w, c, [Mark] + rest);
    RunAgrees(w, c, [Mark] + rest);
  }

  lemma UnsettledCallSlips(w: World, c: Config)
    requires MarkInv(w) && Agrees(w) && w.call.NoCall? && Submits(w.s) && !Settled(w)
    ensures var rest := [SessionIdle, Submit(true)];
            && NoMark(rest) && AllLegal(w, c, [Mark] + rest) && !AgreesThroughout(w, c, [Mark] + rest)
  {
    var all := [Mark] + [SessionIdle, Submit(true)];
    assert all[1..] == [SessionIdle, Submit(true)] && all[1..][1..] == [Submit(true)] && all[1..][1..][1..] == [];
    var w1 := OnSignal(w, c, Mark);
    var w2 := OnSignal(w1, c, SessionIdle);
    assert !Agrees(OnSignal(w2, c, Submit(true)));
    hide OnSignal, Agrees, Legal;
  }

  /** The first window ends, and a call comes before its SESSION_IDLE. */
  const RACE: seq<Signal> := [Start, Timer0, Mark, SessionIdle, Submit(true)]

  /** The next call, which MPSL refuses, and the START of the request it holds. */
  const AFTER_RACE: seq<Signal> := [Mark, Submit(false), Unmark, Start]

  /**
   The run of every parked session without extensions: after it MPSL holds a request the
   session does not know of, and the next call submits a second one, which MPSL refuses.
   START brings both together again.
   */
  lemma RequestsTwice(c: Config, fast: Fast)
    requires ValidConfig(c) && !c.autoReschedule && !c.extendMode && fast.budget == 0
    ensures var o := Opened(true, fast);
            var w := OnSignals(o, c, RACE);
            && AllLegal(o, c, RACE) && AllLegal(w, c, AFTER_RACE)
            && w.m == Requested && Submits(w.s)
            && OnSignal(w, c, Mark).call == Marked(false)
            && Agrees(OnSignals(w, c, AFTER_RACE))
  {
    var o := Opened(true, fast);
    var w1 := OnSignal(o, c, Start);
    var w2 := OnSignal(w1, c, Timer0);
    assert w2.m == Ending && Submits(w2.s);
    RunFive(o, c, RACE);
    var w := OnSignals(o, c, RACE);
    RunFour(w, c, AFTER_RACE);
  }

  lemma RunFour(w: World, c: Config, s: seq<Signal>)
    requires |s| == 4
    ensures var w1 := OnSignal(w, c, s[0]);
            var w2 := OnSignal(w1, c, s[1]);
            var w3 := OnSignal(w2, c, s[2]);
            && OnSignals(w, c, s) == OnSignal(w3, c, s[3])
            && (AllLegal(w, c, s) <==> Legal(w, s[0]) && Legal(w1, s[1]) && Legal(w2, s[2]) && Legal(w3, s[3]))
  {
    hide OnSignal, Legal;
    var w1 := OnSignal(w, c, s[0]);
    var w2 := OnSignal(w1, c, s[1]);
    var w3 := OnSignal(w2, c, s[2]);
    assert s[1..][1..] == s[2..] && s[2..][1..] == [s[3]] && [s[3]][1..] == [];
    assert OnSignals(w1, c, s[1..]) == OnSignals(w2, c, s[2..]) == OnSignals(w3, c, [s[3]]);
    assert AllLegal(w1, c, s[1..]) <==> Legal(w1, s[1]) && AllLegal(w2, c, s[2..]);
    assert AllLegal(w2, c, s[2..]) <==> Legal(w2, s[2]) && AllLegal(w3, c, [s[3]]);
  }

  lemma RunFive(w: World, c: Config, s: seq<Signal>)
    requires |s| == 5
    ensures var w1 := OnSignal(w, c, s[0]);
            var w2 := OnSignal(w1, c, s[1]);
            var w3 := OnSignal(w2, c, s[2]);
            var w4 := OnSignal(w3, c, s[3]);
            && OnSignals(w, c, s) == OnSignal(w4, c, s[4])
            && (AllLegal(w, c, s) <==>
                Legal(w, s[0]) && Legal(w1, s[1]) && Legal(w2, s[2]) && Legal(w3, s[3]) && Legal(w4, s[4]))
  {
    hide OnSignal, Legal;
    RunFour(OnSignal(w, c, s[0]), c, s[1..]);
  }

  // ---- TIMER0 and the granted end ----

  /** The next TIMER0 signal of the slot comes before the granted end. */
  predicate TimerInTime(w: World, c: Config) {
    w.m.InSlot? && !w.m.extending ==> (w.m.timers + 1) * c.matchUs < w.m.granted
  }

  /** The last TIMER0 signal of a fully extended slot comes before its end. */
  predicate ExtensionsFit(c: Config) {
    !c.extendMode || c.maxExtends <= 1 ||
    c.maxExtends * c.matchUs < c.slotLength + (c.maxExtends - 1) * c.extendLength
  }

  /** Between the first and the last signal the margin changes linearly, so the two ends decide. */
  lemma MarginIsLinear(len: nat, ext: nat, mt: nat, last: nat, j: nat)
    requires mt < len && j <= last && (last + 1) * mt < len + last * ext
    ensures (j + 1) * mt < len + j * ext
  {
    if ext >= mt {
      assert j * (ext - mt) >= 0;
      assert j * ext == j * (ext - mt) + j * mt;
    } else {
      assert (last - j) * (mt - ext) >= 0;
      assert last * mt - last * ext == j * (mt - ext) + (last - j) * (mt - ext);
    }
  }

  lemma FitMeansInTime(w: World, c: Config)
    requires ValidConfig(c) && ExtendInv(w, c) && ExtensionsFit(c)
    ensures TimerInTime(w, c)
  {
    if w.m.InSlot? && !w.m.extending && w.m.timers > 0 {
      MarginIsLinear(c.slotLength, c.extendLength, c.matchUs, c.maxExtends - 1, w.m.timers);
    }
  }

  /** A slot extended `n` times. */
  function ExtendedRun(n: nat): seq<Signal> {
    if n == 0 then [Start] else ExtendedRun(n - 1) + [Timer0, ExtendSucceeded]
  }

  lemma RunAppend(w: World, c: Config, s: seq<Signal>, t: seq<Signal>)
    ensures OnSignals(w, c, s + t) == OnSignals(OnSignals(w, c, s), c, t)
    ensures AllLegal(w, c, s + t) <==> AllLegal(w, c, s) && AllLegal(OnSignals(w, c, s), c, t)
    decreases |s|
  {
    hide OnSignal, Legal;
    if s == [] {
      assert s + t == t;
    } else {
      assert (s + t)[1..] == s[1..] + t;
      RunAppend(OnSignal(w, c, s[0]), c, s[1..], t);
    }
  }

  lemma {:induction false} ExtendedRunReaches(c: Config, fast: Fast, n: nat)
    requires c.extendMode && n < c.maxExtends
    ensures AllLegal(Opened(true, fast), c, ExtendedRun(n))
    ensures var w := OnSignals(Opened(true, fast), c, ExtendedRun(n));
            && w.s.extendCount == n
            && w.m == InSlot(false, n, c.slotLength + n * c.extendLength)
  {
    var o := Opened(true, fast);
    if n > 0 {
      ExtendedRunReaches(c, fast, n - 1);
      RunAppend(o, c, ExtendedRun(n - 1), [Timer0, ExtendSucceeded]);
      var w := OnSignals(o, c, ExtendedRun(n - 1));
      var a := OnSignal(w, c, Timer0);
      assert [Timer0, ExtendSucceeded][1..] == [ExtendSucceeded] && [ExtendSucceeded][1..] == [];
      assert OnSignals(w, c, [Timer0, ExtendSucceeded]) == OnSignals(a, c, [ExtendSucceeded]) ==
             OnSignal(a, c, ExtendSucceeded);
      assert AllLegal(w, c, [Timer0, ExtendSucceeded]);
      assert n * c.extendLength == (n - 1) * c.extendLength + c.extendLength;
    } else {
      assert [Start][1..] == [];
    }
  }

  /** Every TIMER0 signal of every run comes before the granted end exactly when the extensions fit. */
  lemma TimersInTimeExactlyWhenExtensionsFit(c: Config, fast: Fast)
    requires ValidConfig(c)
    ensures (forall sigs: seq<Signal> | AllLegal(Opened(true, fast), c, sigs) ::
               TimerInTime(OnSignals(Opened(true, fast), c, sigs), c)) <==> ExtensionsFit(c)
  {
    OpenedInv(c, true, fast);
    hide Inv, OnSignals, AllLegal, ValidConfig;
    if ExtensionsFit(c) {
      forall sigs: seq<Signal> | AllLegal(Opened(true, fast), c, sigs)
        ensures TimerInTime(OnSignals(Opened(true, fast), c, sigs), c)
      {
        RunInv(Opened(true, fast), c, sigs);
        InvExtends(OnSignals(Opened(true, fast), c, sigs), c);
        FitMeansInTime(OnSignals(Opened(true, fast), c, sigs), c);
      }
    } else {
      ExtendedRunReaches(c, fast, c.maxExtends - 1);
    }
  }

  lemma InvExtends(w: World, c: Config)
    requires Inv(w, c)
    ensures ExtendInv(w, c)
  {
  }

  lemma ShortMargin(len: nat, ext: nat, mt: nat, n: nat)
    requires mt < len && mt <= ext
    ensures (n + 1) * mt < len + n * ext
  {
    var a, b := n * mt, n * ext;
    assert (n + 1) * mt == a + mt;
    MulMonotone(mt, ext, n);
  }

  /** A match no later than the extension length always fits. */
  lemma ShortMatchFits(c: Config)
    requires ValidConfig(c) && c.matchUs <= c.extendLength
    ensures ExtensionsFit(c)
  {
    if c.maxExtends > 1 {
      ShortMargin(c.slotLength, c.extendLength, c.matchUs, c.maxExtends - 1);
    }
  }
}
