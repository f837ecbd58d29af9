/**
 Locking PTX slots to the receiver's windows, and taking turns between pipes (the PTX
 poll session of src/mpsl_timeslot.rs, src/mpsl_common.rs).
 */
module PhaseLockModel {
  import opened Wrappers

  const U32_MAX: nat := 0xFFFF_FFFF
  const U8_MAX: nat := 255

  datatype Mode = Disabled | FixedSkipAfterHint | PhaseLocked

  /** The poll session's configuration; `maxDistance` is the longest distance MPSL takes. */
  datatype Config = Config(mode: Mode, missLimit: nat, txOffsetUs: nat, skipSlots: nat, matchUs: nat, maxDistance: nat)

  /** `PtxScheduleGateConfig::validate`; the limit is a byte. */
  predicate ValidConfig(c: Config) {
    && (c.mode == PhaseLocked ==> c.missLimit > 0) && c.missLimit <= U8_MAX
    && (c.mode == FixedSkipAfterHint ==> c.skipSlots > 0)
  }

  datatype Request = Earliest | Normal(distance: nat)

  datatype Lock = Lock(
    active: bool, missStreak: nat, nextDistance: nat, periodUs: nat,
    lockCount: nat, reacquireCount: nat, skipRemaining: nat, skipCount: nat, request: Request)

  function Release(l: Lock): Lock {
    l.(active := false, missStreak := 0, nextDistance := 0, reacquireCount := l.reacquireCount + 1)
  }

  /** `ptx_configure_next_poll_request`. */
  function NextRequest(l: Lock, c: Config): Lock {
    if c.mode == PhaseLocked && l.active then
      var distance := if l.nextDistance > 0 then l.nextDistance else l.periodUs;
      var a := l.(nextDistance := 0);
      if 0 < distance <= c.maxDistance then a.(request := Normal(distance))
      else a.(active := false, missStreak := 0, reacquireCount := l.reacquireCount + 1, request := Earliest)
    else l.(request := Earliest)
  }

  /** `ptx_observe_schedule_hint`. */
  function ObserveHint(l: Lock, c: Config, nextDelayUs: nat, periodUs: nat, ackOffsetUs: nat): Lock {
    match c.mode
    case Disabled => l
    case FixedSkipAfterHint => l.(skipRemaining := c.skipSlots)
    case PhaseLocked =>
      var hinted := SatAdd(SatAdd(ackOffsetUs, nextDelayUs, U32_MAX), c.txOffsetUs, U32_MAX);
      l.(active := true, missStreak := 0, periodUs := periodUs,
      lockCount := if l.active then l.lockCount else l.lockCount + 1,
      nextDistance := Max(hinted, SatAdd(c.matchUs, 100, U32_MAX)))
  }

  /** `ptx_observe_schedule_miss`. */
  function ObserveMiss(l: Lock, c: Config): Lock {
    if c.mode == PhaseLocked && l.active then
      var streak := SatAdd(l.missStreak, 1, U8_MAX);
      if streak >= c.missLimit then Release(l) else l.(missStreak := streak)
    else l
  }

  /** START: a slot that is skipped transmits nothing. */
  predicate Skips(l: Lock, c: Config) {
    c.mode == FixedSkipAfterHint && l.skipRemaining > 0
  }

  function OnStart(l: Lock, c: Config): Lock {
    if Skips(l, c) then l.(skipRemaining := l.skipRemaining - 1, skipCount := l.skipCount + 1) else l
  }

  /** SESSION_IDLE of a poll session. */
  function OnSessionIdle(l: Lock, c: Config): Lock {
    var a := if c.mode == PhaseLocked then Release(l) else l;
    a.(request := Earliest)
  }

  /** BLOCKED or CANCELLED. */
  function OnRefused(l: Lock, c: Config): Lock {
    var a := if c.mode == PhaseLocked && l.active then Release(l) else l;
    a.(request := Earliest)
  }

  function OnOverstayed(l: Lock): Lock {
    Release(l).(request := Earliest)
  }

  datatype Event =
    | Hint(nextDelayUs: nat, periodUs: nat, ackOffsetUs: nat)
    | Miss
    | SlotStarts
    | SlotEnds
    | SessionIdle
    | Refused
    | Overstayed

  /** A decoded hint has passed validation, so its period is positive. */
  predicate ValidEvent(e: Event) {
    e.Hint? ==> e.periodUs > 0
  }

  function OnEvent(l: Lock, c: Config, e: Event): Lock {
    match e
    case Hint(delay, period, offset) => ObserveHint(l, c, delay, period, offset)
    case Miss => ObserveMiss(l, c)
    case SlotStarts => OnStart(l, c)
    case SlotEnds => NextRequest(l, c)
    case SessionIdle => OnSessionIdle(l, c)
    case Refused => OnRefused(l, c)
    case Overstayed => OnOverstayed(l)
  }

  function OnEvents(l: Lock, c: Config, events: seq<Event>): Lock
    decreases |events|
  {
    if events == [] then l else OnEvents(OnEvent(l, c, events[0]), c, events[1..])
  }

  const OPENED := Lock(false, 0, 0, 0, 0, 0, 0, 0, Earliest)

  ghost predicate Inv(l: Lock, c: Config) {
    && (l.active ==> c.mode == PhaseLocked && l.periodUs > 0 && l.missStreak < c.missLimit)
    && (!l.active ==> l.nextDistance == 0 && l.missStreak == 0)
    && l.lockCount <= l.reacquireCount + (if l.active then 1 else 0)
    && (l.request.Normal? ==> c.mode == PhaseLocked && 0 < l.request.distance <= c.maxDistance)
  }

  /**
   Phase-lock safety, in every run: an active lock has a period and fewer misses than the
   limit, locks and losses are accounted for, and MPSL is never given a NORMAL request
   with a distance it would refuse.
   */
  lemma {:induction false} LockIsSafe(l: Lock, c: Config, events: seq<Event>)
    requires ValidConfig(c) && Inv(l, c)
    requires forall k | 0 <= k < |events| :: ValidEvent(events[k])
    ensures Inv(OnEvents(l, c, events), c)
    decreases |events|
  {
    if events != [] {
      assert ValidEvent(events[0]);
      LockIsSafe(OnEvent(l, c, events[0]), c, events[1..]);
    }
  }

  /** In particular from the opening of the session on. */
  lemma SafeSinceOpened(c: Config, events: seq<Event>)
    requires ValidConfig(c) && forall k | 0 <= k < |events| :: ValidEvent(events[k])
    ensures Inv(OnEvents(OPENED, c, events), c)
  {
    LockIsSafe(OPENED, c, events);
  }

  function Misses(events: seq<Event>): nat {
    if events == [] then 0 else (if events[0].Miss? then 1 else 0) + Misses(events[1..])
  }

  ghost predicate NoHint(events: seq<Event>) {
    forall k | 0 <= k < |events| :: !events[k].Hint?
  }

  /** Without a hint, an unlocked session stays unlocked and a lock outlives only fewer misses than the limit. */
  lemma {:induction false} MissesAddUp(l: Lock, c: Config, events: seq<Event>)
    requires ValidConfig(c) && Inv(l, c) && NoHint(events)
    ensures var r := OnEvents(l, c, events);
            r.active ==> l.active && r.missStreak == l.missStreak + Misses(events) < c.missLimit
    decreases |events|
  {
    if events != [] {
      assert !events[0].Hint?;
      MissesAddUp(OnEvent(l, c, events[0]), c, events[1..]);
    }
  }

  /** After as many misses as the limit with no hint between, the next slot is asked for as early as possible. */
  lemma MissLimitFallsBack(c: Config, before: seq<Event>, silent: seq<Event>)
    requires ValidConfig(c) && c.mode == PhaseLocked
    requires forall k | 0 <= k < |before| :: ValidEvent(before[k])
    requires NoHint(silent) && Misses(silent) >= c.missLimit
    ensures var l := OnEvents(OnEvents(OPENED, c, before), c, silent);
            !l.active && NextRequest(l, c).request == Earliest
  {
    SafeSinceOpened(c, before);
    MissesAddUp(OnEvents(OPENED, c, before), c, silent);
  }

  // ---- Where the slots go ----

  function SlotEndsIn(events: seq<Event>): nat {
    if events == [] then 0 else (if events[0].SlotEnds? then 1 else 0) + SlotEndsIn(events[1..])
  }

  /** The request made at the end of each slot. */
  function Requests(l: Lock, c: Config, events: seq<Event>): seq<Request>
    decreases |events|
  {
    if events == [] then []
    else
      var r := OnEvent(l, c, events[0]);
      (if events[0].SlotEnds? then [r.request] else []) + Requests(r, c, events[1..])
  }

  /** How far a hint says the next slot is from the start of this one, if the slot has ended by then. */
  function HintedDistance(c: Config, hint: Event): nat
    requires hint.Hint?
  {
    Max(SatAdd(SatAdd(hint.ackOffsetUs, hint.nextDelayUs, U32_MAX), c.txOffsetUs, U32_MAX),
        SatAdd(c.matchUs, 100, U32_MAX))
  }

  /** `n` requests: the first at `first`, the others a period apart. */
  function Planned(first: nat, period: nat, n: nat): seq<Request> {
    seq(n, i => if i == 0 then Normal(first) else Normal(period))
  }

  /** Slots start, end and miss; fewer misses than the limit. */
  ghost predicate Tolerated(events: seq<Event>, c: Config, missed: nat) {
    && (forall k | 0 <= k < |events| :: events[k].Miss? || events[k].SlotStarts? || events[k].SlotEnds?)
    && missed + Misses(events) < c.missLimit
  }

  lemma ToleratedTail(events: seq<Event>, c: Config, missed: nat)
    requires Tolerated(events, c, missed) && events != []
    ensures Tolerated(events[1..], c, missed + if events[0].Miss? then 1 else 0)
    ensures events[0].Miss? ==> missed + 1 < c.missLimit
    ensures events[0].Miss? || events[0].SlotStarts? || events[0].SlotEnds?
  {
  }

  lemma {:induction false} PeriodicSlots(l: Lock, c: Config, mid: seq<Event>)
    requires ValidConfig(c) && c.mode == PhaseLocked && l.active && l.nextDistance == 0
    requires 0 < l.periodUs <= c.maxDistance && Tolerated(mid, c, l.missStreak)
    ensures Requests(l, c, mid) == seq(SlotEndsIn(mid), i => Normal(l.periodUs))
    decreases |mid|
  {
    if mid != [] {
      ToleratedTail(mid, c, l.missStreak);
      PeriodicSlots(OnEvent(l, c, mid[0]), c, mid[1..]);
    }
  }

  lemma {:induction false} LockedSlots(l: Lock, c: Config, mid: seq<Event>)
    requires ValidConfig(c) && c.mode == PhaseLocked && l.active
    requires 0 < l.nextDistance <= c.maxDistance && 0 < l.periodUs <= c.maxDistance
    requires Tolerated(mid, c, l.missStreak)
    ensures Requests(l, c, mid) == Planned(l.nextDistance, l.periodUs, SlotEndsIn(mid))
    decreases |mid|
  {
    if mid != [] {
      ToleratedTail(mid, c, l.missStreak);
      var r := OnEvent(l, c, mid[0]);
      if mid[0].SlotEnds? {
        PeriodicSlots(r, c, mid[1..]);
      } else {
        LockedSlots(r, c, mid[1..]);
      }
    }
  }

  function Distances(s: seq<Request>): int {
    if s == [] then 0
    else Distances(s[..|s| - 1]) + (if s[|s| - 1].Normal? then s[|s| - 1].distance else 0)
  }

  lemma {:induction false} PlannedDistances(first: nat, period: nat, n: nat)
    requires n > 0
    ensures Distances(Planned(first, period, n)) == first + (n - 1) * period
  {
    var s := Planned(first, period, n);
    if n == 1 {
      assert s[..0] == [];
    } else {
      assert s[..n - 1] == Planned(first, period, n - 1);
      PlannedDistances(first, period, n - 1);
      assert (n - 1) * period == (n - 2) * period + period;
    }
  }

  /**
   After a hint, and until the misses reach the limit, the first slot is requested where the
   hint points, from the start of the slot it came in, and every later one a period of that
   hint after the one before it; so the n-th starts at the hinted distance and n - 1 periods.
   */
  lemma SlotsFollowHint(c: Config, before: seq<Event>, hint: Event, mid: seq<Event>)
    requires ValidConfig(c) && c.mode == PhaseLocked && hint.Hint? && ValidEvent(hint)
    requires HintedDistance(c, hint) <= c.maxDistance && hint.periodUs <= c.maxDistance
    requires Tolerated(mid, c, 0)
    ensures var l := OnEvent(OnEvents(OPENED, c, before), c, hint);
            var n := SlotEndsIn(mid);
            && Requests(l, c, mid) == Planned(HintedDistance(c, hint), hint.periodUs, n)
            && (n > 0 ==> Distances(Requests(l, c, mid)) == HintedDistance(c, hint) + (n - 1) * hint.periodUs)
  {
    var l := OnEvent(OnEvents(OPENED, c, before), c, hint);
    LockedSlots(l, c, mid);
    if SlotEndsIn(mid) > 0 {
      PlannedDistances(HintedDistance(c, hint), hint.periodUs, SlotEndsIn(mid));
    }
  }

  lemma {:induction false} LockHolds(l: Lock, c: Config, quiet: seq<Event>)
    requires ValidConfig(c) && c.mode == PhaseLocked && l.active && Tolerated(quiet, c, l.missStreak)
    requires SlotEndsIn(quiet) == 0
    ensures var r := OnEvents(l, c, quiet);
            r.active && r.nextDistance == l.nextDistance && r.periodUs == l.periodUs
    decreases |quiet|
  {
    if quiet != [] {
      ToleratedTail(quiet, c, l.missStreak);
      LockHolds(OnEvent(l, c, quiet[0]), c, quiet[1..]);
    }
  }

  /** A hint that points further than MPSL takes requests is given up, and with it the lock. */
  lemma FirstSlotExactly(c: Config, before: seq<Event>, hint: Event, quiet: seq<Event>)
    requires ValidConfig(c) && c.mode == PhaseLocked && hint.Hint? && ValidEvent(hint)
    requires Tolerated(quiet, c, 0) && SlotEndsIn(quiet) == 0
    ensures var l := OnEvents(OnEvent(OnEvents(OPENED, c, before), c, hint), c, quiet);
            var r := OnEvent(l, c, SlotEnds);
            var distance := HintedDistance(c, hint);
            && (r.active <==> distance <= c.maxDistance)
            && r.request == if distance <= c.maxDistance then Normal(distance) else Earliest
  {
    LockHolds(OnEvent(OnEvents(OPENED, c, before), c, hint), c, quiet);
  }

  /** A session that loses its slot loses its lock, and asks for the earliest slot. */
  lemma InterruptedFallsBack(c: Config, before: seq<Event>, e: Event)
    requires e.SessionIdle? || e.Refused? || e.Overstayed?
    requires ValidConfig(c) && forall k | 0 <= k < |before| :: ValidEvent(before[k])
    ensures var l := OnEvents(OPENED, c, before);
            var r := OnEvent(l, c, e);
            !r.active && r.request == Earliest && r.skipRemaining == l.skipRemaining
  {
    SafeSinceOpened(c, before);
  }

  // ---- Counting ----

  /** Hints that found no lock. */
  function LocksIn(l: Lock, c: Config, events: seq<Event>): nat
    decreases |events|
  {
    if events == [] then 0
    else
      (if events[0].Hint? && c.mode == PhaseLocked && !l.active then 1 else 0)
      + LocksIn(OnEvent(l, c, events[0]), c, events[1..])
  }

  /** Events after which a lock is gone, and the signals that would have ended one. */
  function LossesIn(l: Lock, c: Config, events: seq<Event>): nat
    decreases |events|
  {
    if events == [] then 0
    else
      var r := OnEvent(l, c, events[0]);
      var ended := events[0].Overstayed? || (events[0].SessionIdle? && c.mode == PhaseLocked);
      (if ended || (l.active && !r.active) then 1 else 0) + LossesIn(r, c, events[1..])
  }

  lemma {:induction false} LocksAreCounted(l: Lock, c: Config, events: seq<Event>)
    ensures var r := OnEvents(l, c, events);
            && r.lockCount == l.lockCount + LocksIn(l, c, events)
            && r.reacquireCount == l.reacquireCount + LossesIn(l, c, events)
    decreases |events|
  {
    if events != [] {
      LocksAreCounted(OnEvent(l, c, events[0]), c, events[1..]);
    }
  }

  function StartsIn(events: seq<Event>): nat {
    if events == [] then 0 else (if events[0].SlotStarts? then 1 else 0) + StartsIn(events[1..])
  }

  lemma {:induction false} SkipsRunOut(l: Lock, c: Config, events: seq<Event>)
    requires c.mode == FixedSkipAfterHint && NoHint(events)
    ensures var r := OnEvents(l, c, events);
            var n := StartsIn(events);
            var skipped := if n <= l.skipRemaining then n else l.skipRemaining;
            r.skipRemaining == l.skipRemaining - skipped && r.skipCount == l.skipCount + skipped
    decreases |events|
  {
    if events != [] {
      assert !events[0].Hint?;
      SkipsRunOut(OnEvent(l, c, events[0]), c, events[1..]);
    }
  }

  /** In fixed-skip mode exactly the configured number of slots after the last hint is skipped. */
  lemma SkipsFollowHint(c: Config, before: seq<Event>, hint: Event, mid: seq<Event>)
    requires c.mode == FixedSkipAfterHint && hint.Hint? && NoHint(mid)
    ensures var l := OnEvents(OnEvent(OnEvents(OPENED, c, before), c, hint), c, mid);
            Skips(l, c) <==> StartsIn(mid) < c.skipSlots
  {
    SkipsRunOut(OnEvent(OnEvents(OPENED, c, before), c, hint), c, mid);
  }

  // ---- Taking turns ----

  const NUM_PIPES := 8

  /** The bits of a pipe mask. */
  type Mask = m: set<nat> | forall p | p in m :: p < NUM_PIPES

  /** How many pipes are passed over going up, cyclically, from `current` to `p`. */
  function Distance(current: nat, p: nat): int {
    if p > current then p - current - 1 else p + NUM_PIPES - current - 1
  }

  /** `p` is the first enabled pipe after `current`. */
  ghost predicate IsNext(current: nat, mask: Mask, p: nat) {
    p in mask && forall q | q in mask :: Distance(current, p) <= Distance(current, q)
  }

  /** Every pick is the first enabled pipe after the one before it. */
  ghost predicate Picks(current: nat, mask: Mask, picks: seq<nat>) {
    && (picks != [] ==> IsNext(current, mask, picks[0]))
    && forall k | 1 <= k < |picks| :: IsNext(picks[k - 1], mask, picks[k])
  }

  function Members(s: seq<nat>): set<nat> {
    set p | p in s
  }

  /** From a pick on, the pipes not yet picked come first, in the order of their distance. */
  lemma NextAfter(current: nat, mask: Mask, last: nat, p: nat, q: nat)
    requires current < NUM_PIPES && last in mask && IsNext(last, mask, p) && q in mask
    requires Distance(current, last) < Distance(current, q)
    ensures Distance(current, last) < Distance(current, p) <= Distance(current, q)
  {
    assert Distance(last, p) <= Distance(last, q);
    DistanceShift(current, last, q);
    DistanceShift(current, last, p);
  }

  lemma DistanceShift(current: nat, last: nat, q: nat)
    requires current < NUM_PIPES && last < NUM_PIPES && q < NUM_PIPES
    ensures Distance(last, q) ==
            if Distance(current, q) > Distance(current, last) then Distance(current, q) - Distance(current, last) - 1
            else Distance(current, q) + NUM_PIPES - Distance(current, last) - 1
  {
  }

  lemma DistanceInjective(current: nat, p: nat, q: nat)
    requires current < NUM_PIPES && p < NUM_PIPES && q < NUM_PIPES && Distance(current, p) == Distance(current, q)
    ensures p == q
  {
  }

  /** The picks are distinct, and they are the enabled pipes up to the last pick. */
  ghost predicate UpToLast(current: nat, mask: Mask, picks: seq<nat>) {
    && |Members(picks)| == |picks| && Members(picks) <= mask
    && (picks != [] ==>
          forall q | q in mask :: q in picks <==> Distance(current, q) <= Distance(current, picks[|picks| - 1]))
  }

  lemma {:induction false} PicksInOrder(current: nat, mask: Mask, picks: seq<nat>)
    requires current < NUM_PIPES && Picks(current, mask, picks) && |picks| <= |mask|
    ensures UpToLast(current, mask, picks)
    decreases |picks|
  {
    hide Distance, IsNext, UpToLast;
    if picks == [] {
      NoPick(current, mask);
    } else if |picks| == 1 {
      assert picks == [picks[0]];
      FirstPick(current, mask, picks[0]);
    } else {
      var n := |picks| - 1;
      PicksInOrder(current, mask, picks[..n]);
      OneMorePick(current, mask, picks[..n], picks[n]);
      assert picks == picks[..n] + [picks[n]];
    }
  }

  lemma NoPick(current: nat, mask: Mask)
    ensures UpToLast(current, mask, [])
  {
    assert Members([]) == {};
  }

  lemma FirstPick(current: nat, mask: Mask, p: nat)
    requires current < NUM_PIPES && IsNext(current, mask, p)
    ensures UpToLast(current, mask, [p])
  {
    assert Members([p]) == {p};
    forall q | q in mask && Distance(current, q) == Distance(current, p)
      ensures q == p
    {
      DistanceInjective(current, p, q);
    }
  }

  lemma OneMorePick(current: nat, mask: Mask, before: seq<nat>, p: nat)
    requires current < NUM_PIPES && before != [] && |before| < |mask|
    requires UpToLast(current, mask, before) && IsNext(before[|before| - 1], mask, p)
    ensures UpToLast(current, mask, before + [p])
  {
    var last := before[|before| - 1];
    assert last in Members(before);
    var picks := before + [p];
    assert |mask - Members(before)| == |mask| - |Members(before)|;
    var left :| left in mask - Members(before);
    assert left !in before;
    NextAfter(current, mask, last, p, left);
    assert p !in before;
    assert Members(picks) == Members(before) + {p};
    forall q | q in mask
      ensures q in picks <==> Distance(current, q) <= Distance(current, p)
    {
      if q !in before {
        NextAfter(current, mask, last, p, q);
        if Distance(current, q) == Distance(current, p) {
          DistanceInjective(current, p, q);
        }
      }
    }
  }

  /** Any `|mask|` consecutive slots serve every enabled pipe exactly once. */
  lemma EveryPipeOnce(current: nat, mask: Mask, picks: seq<nat>)
    requires current < NUM_PIPES && Picks(current, mask, picks) && |picks| == |mask|
    ensures Members(picks) == mask
    ensures forall i, k | 0 <= i < k < |picks| :: picks[i] != picks[k]
  {
    PicksInOrder(current, mask, picks);
    SubsetSameSize(Members(picks), mask);
    DistinctByCount(picks);
  }

  lemma SubsetSameSize(a: set<nat>, b: set<nat>)
    requires a <= b && |a| == |b|
    ensures a == b
  {
    assert |b - a| == |b| - |a|;
  }

  lemma {:induction false} DistinctByCount(s: seq<nat>)
    requires |Members(s)| == |s|
    ensures forall i, k | 0 <= i < k < |s| :: s[i] != s[k]
  {
    if s != [] {
      var n := |s| - 1;
      assert Members(s) == Members(s[..n]) + {s[n]};
      MembersBound(s[..n]);
      DistinctByCount(s[..n]);
      assert s[n] !in Members(s[..n]);
    }
  }

  lemma {:induction false} MembersBound(s: seq<nat>)
    ensures |Members(s)| <= |s|
  {
    if s != [] {
      var n := |s| - 1;
      assert Members(s) == Members(s[..n]) + {s[n]};
      MembersBound(s[..n]);
    }
  }
}
