/** Schedule timing and tracking in place (src/mpsl_schedule.rs). */
module LinkTimings {
  import opened Wrappers
  import opened TimingModel
  import Spec = TrackerModel

  type U64 = n: nat | n <= U64_MAX

  class LinkTiming {
    var mode: Mode
    var lastHint: Option<Hint>
    var lastHintAtUs: U64
    var nextWindowAtUs: U64
    var lockCount: nat
    var fallbackCount: nat
    var missStreak: nat

    ghost function View(): Timing
      reads this
    {
      Timing(mode, lastHint, lastHintAtUs, nextWindowAtUs, lockCount, fallbackCount, missStreak)
    }

    constructor ()
      ensures View() == NEW
    {
      mode, lastHint, lastHintAtUs, nextWindowAtUs := Unsynced, None, 0, 0;
      lockCount, fallbackCount, missStreak := 0, 0, 0;
    }

    method ObserveHint(now: U64, h: Hint)
      modifies this
      ensures View() == TimingModel.ObserveHint(old(View()), now, h)
    {
      var wasSynced := mode == Synced;
      mode := Synced;
      lastHint := Some(h);
      lastHintAtUs := now;
      nextWindowAtUs := SatAdd(now, h.nextDelayUs, U64_MAX);
      missStreak := 0;
      if !wasSynced {
        lockCount := SatAdd(lockCount, 1, U32_MAX);
      }
    }

    method ObserveMiss(c: Config)
      modifies this
      ensures View() == TimingModel.ObserveMiss(old(View()), c)
    {
      missStreak := SatAdd(missStreak, 1, U8_MAX);
      if missStreak >= c.missLimit {
        mode := Degraded;
      }
    }

    method ResetToScan()
      modifies this
      ensures View() == TimingModel.ResetToScan(old(View()))
    {
      mode, lastHint, nextWindowAtUs, missStreak := Unsynced, None, 0, 0;
    }

    method FallBack(reason: Fallback) returns (wait: Wait)
      modifies `fallbackCount
      ensures View() == FellBack(old(View())) && wait == Wait.Wait(0, Some(reason))
    {
      fallbackCount := SatAdd(fallbackCount, 1, U32_MAX);
      wait := Wait.Wait(0, Some(reason));
    }

    /** Steps the stored window on by whole periods until one is open. */
    method CatchUp(now: U64, h: Hint)
      requires CatchUpEnds(nextWindowAtUs, h, now)
      modifies `nextWindowAtUs
      ensures nextWindowAtUs == Cap(LeastOpen(old(nextWindowAtUs), h, now))
    {
      ghost var w0 := nextWindowAtUs;
      ghost var i: nat := 0;
      while SatAdd(nextWindowAtUs, h.windowUs, U64_MAX) <= now
        invariant nextWindowAtUs == Cap(w0 + i * h.periodUs) && CatchUpEnds(nextWindowAtUs, h, now)
        invariant i > 0 ==> w0 + (i - 1) * h.periodUs + h.windowUs <= now
        decreases U64_MAX - nextWindowAtUs
      {
        assert w0 + (i + 1) * h.periodUs == w0 + i * h.periodUs + h.periodUs;
        nextWindowAtUs := SatAdd(nextWindowAtUs, h.periodUs, U64_MAX);
        i := i + 1;
      }
      if h.periodUs > 0 {
        FirstReached(w0, h, now, i);
      }
    }

    method BoundedWait(now: U64, c: Config) returns (wait: Wait)
      requires WaitEnds(View(), now, c)
      modifies this
      ensures (View(), wait) == TimingModel.BoundedWait(old(View()), now, c)
    {
      if !ValidConfig(c) {
        wait := FallBack(NoHint);
        return;
      }
      if mode == Degraded {
        wait := FallBack(FallbackDegraded);
        return;
      }
      if lastHint.None? {
        wait := FallBack(NoHint);
        return;
      }
      var h := lastHint.value;
      if SatSub(now, lastHintAtUs) > c.hintValidUs {
        mode := Unsynced;
        lastHint := None;
        wait := FallBack(HintExpired);
        return;
      }
      CatchUp(now, h);
      var target := SatSub(nextWindowAtUs, c.windowGuardUs);
      var us := SatSub(target, now);
      if us > c.maxWaitUs {
        wait := FallBack(WaitTooLong);
        return;
      }
      wait := Wait.Wait(us, None);
    }
  }

  class ScheduleTracker {
    var seenHint: bool
    var validHints: nat
    var badHints: nat
    var repeats: nat
    var jumps: nat
    var missedWindows: nat
    var regresses: nat
    var missStreak: nat
    var maxMissStreak: nat
    var lastWindowId: nat

    function View(): Spec.Tracker
      reads this
    {
      Spec.Tracker(seenHint, validHints, badHints, repeats, jumps, missedWindows, regresses, missStreak,
                   maxMissStreak, lastWindowId)
    }

    constructor ()
      ensures View() == Spec.NEW
    {
      seenHint, validHints, badHints, repeats, jumps, missedWindows := false, 0, 0, 0, 0, 0;
      regresses, missStreak, maxMissStreak, lastWindowId := 0, 0, 0, 0;
    }

    method ObserveHint(id: nat)
      modifies this
      ensures View() == Spec.ObserveHint(old(View()), id)
    {
      if seenHint {
        if id == lastWindowId {
          repeats := repeats + 1;
        } else if id > lastWindowId {
          var delta := id - lastWindowId;
          if delta > 1 {
            jumps := jumps + 1;
            missedWindows := missedWindows + delta - 1;
          }
        } else {
          regresses := regresses + 1;
        }
      } else {
        seenHint := true;
      }
      validHints := validHints + 1;
      missStreak := 0;
      lastWindowId := id;
    }

    method ObserveMiss()
      modifies this
      ensures View() == Spec.ObserveMiss(old(View()))
    {
      missStreak := missStreak + 1;
      if missStreak > maxMissStreak {
        maxMissStreak := missStreak;
      }
    }

    method ObserveBadHint()
      modifies this
      ensures View() == Spec.ObserveBadHint(old(View()))
    {
      badHints := badHints + 1;
      ObserveMiss();
    }
  }
}
