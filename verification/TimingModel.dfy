/**
 Waiting for the receiver's next window (`LinkTiming` in src/mpsl_schedule.rs).

 A hint announces a first window and a period. The wait catches the stored window up with
 the clock; here that is a closed form, and the laws are about any sequence of hints,
 misses, resets and waits.
 */
module TimingModel {
  import opened Wrappers

  const U64_MAX: nat := 0xFFFF_FFFF_FFFF_FFFF
  const U32_MAX: nat := 0xFFFF_FFFF
  const U8_MAX: nat := 255

  datatype Hint = Hint(windowId: nat, nextDelayUs: nat, periodUs: nat, windowUs: nat)

  /** `ScheduleHint::validate`, which every decoded hint has passed. */
  predicate ValidHint(h: Hint) {
    0 < h.windowUs <= h.periodUs
  }

  datatype Mode = Unsynced | Synced | Degraded

  datatype Fallback = NoHint | HintExpired | WaitTooLong | FallbackDegraded

  datatype Wait = Wait(waitUs: nat, fallback: Option<Fallback>)

  datatype Config = Config(hintValidUs: nat, maxWaitUs: nat, windowGuardUs: nat, missLimit: nat)

  predicate ValidConfig(c: Config) {
    c.hintValidUs > 0 && c.maxWaitUs > 0 && c.missLimit > 0
  }

  datatype Timing = Timing(
    mode: Mode, lastHint: Option<Hint>, lastHintAtUs: nat, nextWindowAtUs: nat,
    lockCount: nat, fallbackCount: nat, missStreak: nat)

  const NEW := Timing(Unsynced, None, 0, 0, 0, 0, 0)

  ghost predicate Wf(t: Timing) {
    t.lastHint.Some? ==> ValidHint(t.lastHint.value)
  }

  // ---- The least open window ----

  /**
   The first of `w0`, `w0 + period`, `w0 + 2 * period`, ... that has not closed at `now`;
   of a hint without a period, `w0` is the only one.
   */
  function LeastOpen(w0: nat, h: Hint, now: nat): nat {
    if w0 + h.windowUs > now || h.periodUs == 0 then w0
    else w0 + ((now - h.windowUs - w0) / h.periodUs + 1) * h.periodUs
  }

  /** It is a window, it has not closed, and every window that has not closed is at least as late. */
  lemma LeastOpenMeaning(w0: nat, h: Hint, now: nat)
    requires h.periodUs > 0
    ensures exists k: nat :: LeastOpen(w0, h, now) == w0 + k * h.periodUs
    ensures LeastOpen(w0, h, now) + h.windowUs > now
    ensures LeastOpen(w0, h, now) > w0 ==> LeastOpen(w0, h, now) - h.periodUs + h.windowUs <= now
    ensures forall k: nat :: w0 + k * h.periodUs + h.windowUs > now ==> LeastOpen(w0, h, now) <= w0 + k * h.periodUs
  {
    var p := h.periodUs;
    if w0 + h.windowUs > now {
      assert w0 == w0 + 0 * p;
    } else {
      var d := now - h.windowUs - w0;
      var q := d / p;
      QuotientBounds(d, p);
      assert LeastOpen(w0, h, now) == w0 + (q + 1) * p == w0 + q * p + p;
      forall k: nat | w0 + k * p + h.windowUs > now
        ensures (q + 1) * p <= k * p
      {
        if k <= q {
          MulMonotone(k, q, p);
        } else {
          MulMonotone(q + 1, k, p);
        }
      }
    }
  }

  lemma QuotientBounds(d: nat, p: nat)
    requires p > 0
    ensures d / p * p <= d < (d / p + 1) * p
  {
  }

  lemma MulMonotone(a: nat, b: nat, p: nat)
    requires a <= b
    ensures a * p <= b * p
  {
  }

  /** Stepping by whole periods, the first open window reached is the least one. */
  lemma FirstReached(w0: nat, h: Hint, now: nat, i: nat)
    requires h.periodUs > 0 && w0 + i * h.periodUs + h.windowUs > now
    requires i > 0 ==> w0 + (i - 1) * h.periodUs + h.windowUs <= now
    ensures LeastOpen(w0, h, now) == w0 + i * h.periodUs
  {
    LeastOpenMeaning(w0, h, now);
    var k: nat :| LeastOpen(w0, h, now) == w0 + k * h.periodUs;
    if k < i {
      MulMonotone(k, i - 1, h.periodUs);
    } else {
      MulMonotone(i, k, h.periodUs);
    }
  }

  /** Catching up twice is catching up once, to the later time. */
  lemma LeastOpenComposes(w0: nat, h: Hint, m: nat, n: nat)
    requires h.periodUs > 0
    ensures LeastOpen(LeastOpen(w0, h, m), h, n) == LeastOpen(w0, h, Max(m, n))
  {
    var w := LeastOpen(w0, h, m);
    var x := LeastOpen(w, h, n);
    LeastOpenMeaning(w0, h, m);
    LeastOpenMeaning(w, h, n);
    var i: nat :| w == w0 + i * h.periodUs;
    var j: nat :| x == w + j * h.periodUs;
    assert x == w0 + (i + j) * h.periodUs;
    if i + j > 0 {
      MulMonotone(1, i + j, h.periodUs);
      assert x == w0 + (i + j - 1) * h.periodUs + h.periodUs;
      if j > 0 {
        MulMonotone(1, j, h.periodUs);
      }
    }
    FirstReached(w0, h, Max(m, n), i + j);
  }

  /** The stored window is a `u64`. */
  function Cap(w: nat): nat {
    if w <= U64_MAX then w else U64_MAX
  }

  /** The stored window after `k` steps of the catch-up loop. */
  function Stepped(w: nat, h: Hint, k: nat): (r: nat)
    requires w <= U64_MAX
    ensures r <= U64_MAX
  {
    if k == 0 then w else SatAdd(Stepped(w, h, k - 1), h.periodUs, U64_MAX)
  }

  /** The catch-up loop goes on. */
  predicate Closed(w: nat, h: Hint, now: nat) {
    SatAdd(w, h.windowUs, U64_MAX) <= now
  }

  /** When the loop ends. */
  predicate CatchUpEnds(w: nat, h: Hint, now: nat) {
    !Closed(w, h, now) || (h.periodUs > 0 && now < U64_MAX)
  }

  lemma {:induction false} SteppedGrows(w: nat, h: Hint, k: nat)
    requires w <= U64_MAX
    ensures h.periodUs > 0 ==> Stepped(w, h, k) >= k || Stepped(w, h, k) == U64_MAX
    ensures h.periodUs == 0 ==> Stepped(w, h, k) == w
  {
    if k > 0 {
      SteppedGrows(w, h, k - 1);
    }
  }

  lemma EndsAfter(w: nat, h: Hint, now: nat, n: nat)
    requires w <= U64_MAX && !Closed(Stepped(w, h, n), h, now)
    ensures exists k: nat :: !Closed(Stepped(w, h, k), h, now)
  {
  }

  /**
   The loop ends, for any stored hint, exactly if it need not start, or the period is
   positive and the clock not at its maximum.
   */
  lemma CatchUpEndsExactly(w: nat, h: Hint, now: nat)
    requires w <= U64_MAX && now <= U64_MAX
    ensures (exists k: nat :: !Closed(Stepped(w, h, k), h, now)) <==> CatchUpEnds(w, h, now)
  {
    if !Closed(w, h, now) {
      EndsAfter(w, h, now, 0);
    } else if h.periodUs > 0 && now < U64_MAX {
      SteppedGrows(w, h, now + 1);
      EndsAfter(w, h, now, now + 1);
    } else {
      forall k: nat
        ensures Closed(Stepped(w, h, k), h, now)
      {
        SteppedGrows(w, h, k);
      }
    }
  }

  // ---- The operations ----

  function ObserveHint(t: Timing, now: nat, h: Hint): Timing {
    t.(mode := Synced, lastHint := Some(h), lastHintAtUs := now,
    nextWindowAtUs := SatAdd(now, h.nextDelayUs, U64_MAX), missStreak := 0,
    lockCount := if t.mode == Synced then t.lockCount else SatAdd(t.lockCount, 1, U32_MAX))
  }

  function ObserveMiss(t: Timing, c: Config): Timing {
    var streak := SatAdd(t.missStreak, 1, U8_MAX);
    t.(missStreak := streak, mode := if streak >= c.missLimit then Degraded else t.mode)
  }

  function ResetToScan(t: Timing): Timing {
    t.(mode := Unsynced, lastHint := None, nextWindowAtUs := 0, missStreak := 0)
  }

  function FellBack(t: Timing): Timing {
    t.(fallbackCount := SatAdd(t.fallbackCount, 1, U32_MAX))
  }

  /** A wait that uses the hint: not degraded, and the hint is recent. */
  predicate Usable(t: Timing, now: nat, c: Config) {
    ValidConfig(c) && t.mode != Degraded && t.lastHint.Some? && SatSub(now, t.lastHintAtUs) <= c.hintValidUs
  }

  /** The window a usable wait aims for. */
  function Chosen(t: Timing, now: nat): nat
    requires t.lastHint.Some?
  {
    Cap(LeastOpen(t.nextWindowAtUs, t.lastHint.value, now))
  }

  /** `bounded_wait` returns: it does not reach the loop, or the loop ends. */
  predicate WaitEnds(t: Timing, now: nat, c: Config) {
    Usable(t, now, c) ==> CatchUpEnds(t.nextWindowAtUs, t.lastHint.value, now)
  }

  function BoundedWait(t: Timing, now: nat, c: Config): (Timing, Wait) {
    if !ValidConfig(c) then (FellBack(t), Wait(0, Some(NoHint)))
    else if t.mode == Degraded then (FellBack(t), Wait(0, Some(FallbackDegraded)))
    else if t.lastHint.None? then (FellBack(t), Wait(0, Some(NoHint)))
    else if !Usable(t, now, c) then
      (FellBack(t.(mode := Unsynced, lastHint := None)), Wait(0, Some(HintExpired)))
    else
      var a := t.(nextWindowAtUs := Chosen(t, now));
      var wait := SatSub(SatSub(a.nextWindowAtUs, c.windowGuardUs), now);
      if wait > c.maxWaitUs then (FellBack(a), Wait(0, Some(WaitTooLong))) else (a, Wait(wait, None))
  }

  /**
   A wait that does not fall back ends inside the least window that is still open: not
   before its guard, and before it closes unless it is empty; and it is no longer than
   the limit.
   */
  lemma WaitHitsWindow(t: Timing, now: nat, c: Config)
    requires now <= U64_MAX && WaitEnds(t, now, c) && BoundedWait(t, now, c).1.fallback.None?
    ensures var (r, wait) := BoundedWait(t, now, c);
            var w := r.nextWindowAtUs;
            && r == t.(nextWindowAtUs := Chosen(t, now))
            && wait.waitUs <= c.maxWaitUs
            && w <= now + wait.waitUs + c.windowGuardUs
            && (t.lastHint.value.windowUs > 0 ==> now + wait.waitUs < w + t.lastHint.value.windowUs)
            && (wait.waitUs > 0 ==> now + wait.waitUs + c.windowGuardUs == w)
  {
    if t.lastHint.value.periodUs > 0 {
      LeastOpenMeaning(t.nextWindowAtUs, t.lastHint.value, now);
    }
  }

  /** How long a wait for window `w` would be. */
  function Need(w: nat, now: nat, c: Config): nat {
    SatSub(SatSub(w, c.windowGuardUs), now)
  }

  /**
   When a wait falls back and why, for every stored state: each answer is given exactly under
   its condition, and what it leaves behind.
   */
  lemma WaitExactly(t: Timing, now: nat, c: Config)
    ensures var (r, wait) := BoundedWait(t, now, c);
            var works := ValidConfig(c) && t.mode != Degraded;
            var recent := t.lastHint.Some? && SatSub(now, t.lastHintAtUs) <= c.hintValidUs;
            var w := if t.lastHint.Some? then Chosen(t, now) else 0;
            && (wait.fallback == None <==> works && recent && Need(w, now, c) <= c.maxWaitUs)
            && (wait.fallback == Some(NoHint) <==> !ValidConfig(c) || (works && t.lastHint.None?))
            && (wait.fallback == Some(FallbackDegraded) <==> ValidConfig(c) && t.mode == Degraded)
            && (wait.fallback == Some(HintExpired) <==> works && t.lastHint.Some? && !recent)
            && (wait.fallback == Some(WaitTooLong) <==> works && recent && Need(w, now, c) > c.maxWaitUs)
            && wait.waitUs == (if wait.fallback.None? then Need(w, now, c) else 0)
            && r.fallbackCount ==
               (if wait.fallback.Some? then SatAdd(t.fallbackCount, 1, U32_MAX) else t.fallbackCount)
            && r.nextWindowAtUs == (if works && recent then w else t.nextWindowAtUs)
            && (if wait.fallback == Some(HintExpired) then r.mode == Unsynced && r.lastHint.None?
                else r.mode == t.mode && r.lastHint == t.lastHint)
            && r.lastHintAtUs == t.lastHintAtUs && r.lockCount == t.lockCount && r.missStreak == t.missStreak
  {
  }

  // ---- Any sequence of events ----

  datatype Event = Hears(now: nat, h: Hint) | Misses | Resets | Waits(now: nat)

  ghost predicate ValidEvent(e: Event) {
    match e
    case Hears(now, h) => ValidHint(h) && now <= U64_MAX
    case Waits(now) => now < U64_MAX
    case _ => true
  }

  /** A hint and when it was heard. */
  datatype Heard = Heard(h: Hint, at: nat)

  /**
   The timing, and what the events say on their own: the last hint heard since a reset or an
   expiry, the latest time its windows were caught up with, the misses since a hint or a
   reset, the locks and the fallbacks so far.
   */
  datatype Trace = Trace(t: Timing, heard: Option<Heard>, latest: nat, misses: nat, locks: nat, fallbacks: nat)

  /** The mode the events amount to. */
  function ModeOf(x: Trace, c: Config): Mode {
    if x.misses >= c.missLimit then Degraded else if x.heard.Some? then Synced else Unsynced
  }

  /** The first window of a hint that was open at `time`, as a 64-bit number. */
  function Target(heard: Heard, time: nat): nat {
    Cap(LeastOpen(SatAdd(heard.at, heard.h.nextDelayUs, U64_MAX), heard.h, time))
  }

  predicate Recent(x: Trace, now: nat, c: Config) {
    x.heard.Some? && SatSub(now, x.heard.value.at) <= c.hintValidUs
  }

  /** What a wait at `now` has to answer. */
  function Answer(x: Trace, now: nat, c: Config): Wait {
    if ModeOf(x, c) == Degraded then Wait(0, Some(FallbackDegraded))
    else if x.heard.None? then Wait(0, Some(NoHint))
    else if !Recent(x, now, c) then Wait(0, Some(HintExpired))
    else
      var need := Need(Target(x.heard.value, Max(x.latest, now)), now, c);
      if need > c.maxWaitUs then Wait(0, Some(WaitTooLong)) else Wait(need, None)
  }

  function OnEvent(x: Trace, c: Config, e: Event): Trace {
    match e
    case Hears(now, h) =>
      Trace(ObserveHint(x.t, now, h), Some(Heard(h, now)), 0, 0,
            x.locks + (if ModeOf(x, c) == Synced then 0 else 1), x.fallbacks)
    case Misses => x.(t := ObserveMiss(x.t, c), misses := x.misses + 1)
    case Resets => x.(t := ResetToScan(x.t), heard := None, misses := 0)
    case Waits(now) =>
      var answer := Answer(x, now, c).fallback;
      x.(t := BoundedWait(x.t, now, c).0,
      heard := if answer == Some(HintExpired) then None else x.heard,
      latest := if answer == None || answer == Some(WaitTooLong) then Max(x.latest, now) else x.latest,
      fallbacks := x.fallbacks + (if answer.Some? then 1 else 0))
  }

  function OnEvents(x: Trace, c: Config, events: seq<Event>): Trace
    decreases |events|
  {
    if events == [] then x else OnEvents(OnEvent(x, c, events[0]), c, events[1..])
  }

  function Limited(n: nat, max: nat): nat {
    if n <= max then n else max
  }

  /** The stored state is what the events amount to. */
  ghost predicate TraceInv(x: Trace, c: Config) {
    var t := x.t;
    && t.mode == ModeOf(x, c)
    && t.lastHint == (if x.heard.Some? then Some(x.heard.value.h) else None)
    && (x.heard.Some? ==>
          && ValidHint(x.heard.value.h)
          && t.lastHintAtUs == x.heard.value.at && t.nextWindowAtUs == Target(x.heard.value, x.latest))
    && t.missStreak == Limited(x.misses, U8_MAX)
    && t.lockCount == Limited(x.locks, U32_MAX) && t.fallbackCount == Limited(x.fallbacks, U32_MAX)
    && x.latest < U64_MAX
  }

  lemma CapComposes(w0: nat, h: Hint, m: nat, n: nat)
    requires h.periodUs > 0 && m < U64_MAX && n < U64_MAX
    ensures Cap(LeastOpen(Cap(LeastOpen(w0, h, m)), h, n)) == Cap(LeastOpen(w0, h, Max(m, n)))
  {
    LeastOpenComposes(w0, h, m, n);
    var w := LeastOpen(w0, h, m);
    if w > U64_MAX {
      assert LeastOpen(U64_MAX, h, n) == U64_MAX;
      assert LeastOpen(w, h, n) == w;
    }
  }

  /** A wait answers what the events call for. */
  lemma WaitAnswers(x: Trace, c: Config, now: nat)
    requires ValidConfig(c) && TraceInv(x, c) && now < U64_MAX
    ensures BoundedWait(x.t, now, c).1 == Answer(x, now, c)
    ensures x.heard.Some? ==> Chosen(x.t, now) == Target(x.heard.value, Max(x.latest, now))
  {
    hide LeastOpen, Cap;
    if x.heard.Some? {
      var heard := x.heard.value;
      CapComposes(SatAdd(heard.at, heard.h.nextDelayUs, U64_MAX), heard.h, x.latest, now);
    }
    WaitExactly(x.t, now, c);
  }

  lemma EventKeepsInv(x: Trace, c: Config, e: Event)
    requires ValidConfig(c) && c.missLimit <= U8_MAX && TraceInv(x, c) && ValidEvent(e)
    ensures TraceInv(OnEvent(x, c, e), c)
  {
    match e
    case Waits(now) =>
      WaitAnswers(x, c, now);
      WaitExactly(x.t, now, c);
      hide BoundedWait, LeastOpen, Cap, Chosen, Need;
    case Hears(now, h) => FirstWindow(now, h);
    case _ =>
  }

  /** No window of a hint has closed at time 0, when none was asked for yet. */
  lemma FirstWindow(now: nat, h: Hint)
    requires ValidHint(h)
    ensures Target(Heard(h, now), 0) == SatAdd(now, h.nextDelayUs, U64_MAX)
  {
  }

  /**
   Over any events, with a fixed configuration, the stored state is what the events amount
   to: the mode follows the hints heard and the misses since; the stored hint is the last one
   heard, unless it expired or was dropped by a reset; the lock count is the number of hints
   that found another mode, the fallback count the number of waits that fell back; and the
   stored window is the least one of that hint that was open at the latest time asked about.
   */
  lemma {:induction false} TimingLaw(x: Trace, c: Config, events: seq<Event>)
    requires ValidConfig(c) && c.missLimit <= U8_MAX && TraceInv(x, c)
    requires forall k | 0 <= k < |events| :: ValidEvent(events[k])
    ensures TraceInv(OnEvents(x, c, events), c)
    decreases |events|
  {
    if events != [] {
      EventKeepsInv(x, c, events[0]);
      hide TraceInv, OnEvent;
      TimingLaw(OnEvent(x, c, events[0]), c, events[1..]);
    }
  }

  const START := Trace(NEW, None, 0, 0, 0, 0)

  lemma NewInv(c: Config)
    requires ValidConfig(c)
    ensures TraceInv(START, c)
  {
  }

  /**
   After any events, a wait ends in no fallback exactly if fewer misses than the limit were
   seen since the last hint, that hint has neither expired nor been reset, and its least
   window that is still open is near enough; it is then exactly as long as that window is
   away, less the guard. Each fallback is given exactly for its reason.
   */
  lemma WaitAfterRun(c: Config, events: seq<Event>, now: nat)
    requires ValidConfig(c) && c.missLimit <= U8_MAX
    requires forall k | 0 <= k < |events| :: ValidEvent(events[k])
    requires var x := OnEvents(START, c, events); x.latest <= now < U64_MAX
    ensures var x := OnEvents(START, c, events);
            var wait := BoundedWait(x.t, now, c).1;
            var need := if x.heard.Some? then Need(Target(x.heard.value, now), now, c) else 0;
            && (wait.fallback == None <==> x.misses < c.missLimit && Recent(x, now, c) && need <= c.maxWaitUs)
            && (wait.fallback == Some(FallbackDegraded) <==> x.misses >= c.missLimit)
            && (wait.fallback == Some(NoHint) <==> x.misses < c.missLimit && x.heard.None?)
            && (wait.fallback == Some(HintExpired) <==>
                x.misses < c.missLimit && x.heard.Some? && !Recent(x, now, c))
            && (wait.fallback == Some(WaitTooLong) <==>
                x.misses < c.missLimit && Recent(x, now, c) && need > c.maxWaitUs)
            && wait.waitUs == if wait.fallback.None? then need else 0
  {
    hide TraceInv, BoundedWait, OnEvents, Target, Need;
    NewInv(c);
    TimingLaw(START, c, events);
    WaitAnswers(OnEvents(START, c, events), c, now);
  }
}
