/** The PTX poll session's lock in place, and its pipe rotation (src/mpsl_timeslot.rs, src/mpsl_common.rs). */
module PtxScheduler {
  import opened Wrappers
  import Spec = PhaseLockModel
  import opened PhaseLockModel

  /** `next_pipe_in_mask`: the first enabled pipe after `current`, none for an empty mask. */
  method NextPipeInMask(current: nat, mask: Mask) returns (next: Option<nat>)
    requires current < NUM_PIPES
    ensures next.None? <==> mask == {}
    ensures next.Some? ==> IsNext(current, mask, next.value)
  {
    if mask == {} {
      return None;
    }
    ghost var some :| some in mask;
    var p := current;
    var i := 0;
    while i < NUM_PIPES
      invariant 0 <= i <= NUM_PIPES && p == (current + i) % NUM_PIPES
      invariant forall q | q in mask :: Distance(current, q) >= i
    {
      p := (p + 1) % NUM_PIPES;
      if p in mask {
        assert Distance(current, p) == i;
        return Some(p);
      }
      forall q | q in mask
        ensures Distance(current, q) >= i + 1
      {
        if Distance(current, q) == i {
          DistanceInjective(current, p, q);
        }
      }
      i := i + 1;
    }
    assert false;
    next := None;
  }

  class PtxInnerState {
    const c: Config
    var active: bool
    var missStreak: nat
    var nextDistance: nat
    var periodUs: nat
    var lockCount: nat
    var reacquireCount: nat
    var skipRemaining: nat
    var skipCount: nat
    var request: Request

    function View(): Lock
      reads this
    {
      Lock(active, missStreak, nextDistance, periodUs, lockCount, reacquireCount, skipRemaining, skipCount, request)
    }

    constructor (config: Config)
      ensures c == config && View() == OPENED
    {
      c := config;
      active, missStreak, nextDistance, periodUs := false, 0, 0, 0;
      lockCount, reacquireCount, skipRemaining, skipCount, request := 0, 0, 0, 0, Earliest;
    }

    method NextRequest()
      modifies this
      ensures View() == Spec.NextRequest(old(View()), c)
    {
      if c.mode == PhaseLocked && active {
        var distance := periodUs;
        if nextDistance > 0 {
          distance := nextDistance;
          nextDistance := 0;
        }
        if 0 < distance <= c.maxDistance {
          request := Normal(distance);
          return;
        }
        active := false;
        missStreak := 0;
        reacquireCount := reacquireCount + 1;
      }
      request := Earliest;
    }

    method ObserveHint(nextDelayUs: nat, hintPeriodUs: nat, ackOffsetUs: nat)
      modifies this
      ensures View() == Spec.ObserveHint(old(View()), c, nextDelayUs, hintPeriodUs, ackOffsetUs)
    {
      match c.mode
      case Disabled =>
      case FixedSkipAfterHint => skipRemaining := c.skipSlots;
      case PhaseLocked =>
        if !active {
          lockCount := lockCount + 1;
        }
        active := true;
        missStreak := 0;
        periodUs := hintPeriodUs;
        var minDistance := SatAdd(c.matchUs, 100, U32_MAX);
        var hinted := SatAdd(SatAdd(ackOffsetUs, nextDelayUs, U32_MAX), c.txOffsetUs, U32_MAX);
        nextDistance := Max(hinted, minDistance);
    }

    /** Whether the slot that starts is skipped. */
    method OnStart() returns (skip: bool)
      modifies `skipRemaining, `skipCount
      ensures View() == Spec.OnStart(old(View()), c) && skip == Skips(old(View()), c)
    {
      if c.mode == FixedSkipAfterHint && skipRemaining > 0 {
        skipRemaining := skipRemaining - 1;
        skipCount := skipCount + 1;
        return true;
      }
      skip := false;
    }

    method Release()
      modifies this
      ensures View() == Spec.Release(old(View()))
    {
      active := false;
      missStreak := 0;
      nextDistance := 0;
      reacquireCount := reacquireCount + 1;
    }

    method ObserveMiss()
      modifies this
      ensures View() == Spec.ObserveMiss(old(View()), c)
    {
      if c.mode == PhaseLocked && active {
        missStreak := SatAdd(missStreak, 1, U8_MAX);
        if missStreak >= c.missLimit {
          Release();
        }
      }
    }

    method OnSessionIdle()
      modifies this
      ensures View() == Spec.OnSessionIdle(old(View()), c)
    {
      if c.mode == PhaseLocked {
        Release();
      }
      request := Earliest;
    }

    method OnRefused()
      modifies this
      ensures View() == Spec.OnRefused(old(View()), c)
    {
      if c.mode == PhaseLocked && active {
        Release();
      }
      request := Earliest;
    }

    method OnOverstayed()
      modifies this
      ensures View() == Spec.OnOverstayed(old(View()))
    {
      Release();
      request := Earliest;
    }
  }
}
