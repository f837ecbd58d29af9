/** The PRX session state in place, one method per MPSL signal (src/mpsl_timeslot.rs). */
module PrxScheduler {
  import opened Wrappers
  import Spec = PrxScheduleModel
  import opened PrxScheduleModel

  class PrxInnerState {
    const c: Config
    var outstanding: bool
    var slotActive: bool
    var done: bool
    var extendCount: nat
    var windowsSinceGap: nat
    var starts: nat
    var lastReport: nat
    var reportReady: bool
    var request: Request
    var fastDistance: nat
    var fastRefill: nat
    var fastBudget: nat

    function View(): Sched
      reads this
    {
      Sched(outstanding, slotActive, done, extendCount, windowsSinceGap, starts, lastReport, reportReady,
            request, Fast(fastDistance, fastRefill, fastBudget))
    }

    constructor (config: Config, submitNow: bool, fast: Fast)
      ensures c == config && View() == Opened(submitNow, fast).s
    {
      c := config;
      outstanding, slotActive, done := submitNow, false, false;
      extendCount, windowsSinceGap, starts, lastReport := 0, 0, 0, 0;
      reportReady, request := false, Earliest;
      fastDistance, fastRefill, fastBudget := fast.distance, fast.refill, fast.budget;
    }

    method NextDistance() returns (distance: nat)
      modifies `windowsSinceGap
      ensures (View(), distance) == Spec.NextDistance(old(View()), c)
    {
      windowsSinceGap := SatAdd(windowsSinceGap, 1, U32_MAX);
      if c.gapAfter > 0 && windowsSinceGap >= c.gapAfter {
        windowsSinceGap := 0;
        return c.gapDistance;
      }
      distance := if c.normalDistance > 0 then c.normalDistance else c.slotLength;
    }

    /** `prx_consume_fast_budget`. */
    method ConsumeFastBudget() returns (funded: bool)
      modifies `fastBudget
      ensures funded <==> old(fastBudget) > 0
      ensures fastBudget == SatSub(old(fastBudget), 1)
    {
      if fastBudget > 0 {
        fastBudget := fastBudget - 1;
        return true;
      }
      funded := false;
    }

    method Finalize() returns (reply: Reply)
      modifies this
      ensures (View(), reply) == Spec.Finalize(old(View()), c)
    {
      if SatSub(starts, lastReport) >= c.reportEvery {
        lastReport := starts;
        reportReady := true;
      }
      if c.autoReschedule {
        var distance := NextDistance();
        request := Normal(distance);
        return RequestNext;
      }
      var funded := ConsumeFastBudget();
      if funded {
        if c.slotLength <= fastDistance <= c.maxDistance {
          request := Normal(fastDistance);
          return RequestNext;
        }
        fastBudget := 0;
      }
      outstanding := false;
      reply := End;
    }

    method OnStart()
      modifies this
      ensures View() == Spec.OnStart(old(View()))
    {
      starts := starts + 1;
      slotActive := true;
      outstanding := true;
      extendCount := 0;
    }

    method OnNewFrame()
      modifies this
      ensures View() == Spec.OnNewFrame(old(View()))
    {
      if fastRefill > 0 {
        fastBudget := fastRefill;
      }
    }

    /** `configure_prx_fast_window`. */
    method ConfigureFast(distance: nat, refill: nat)
      modifies this
      ensures View() == Spec.ConfigureFast(old(View()), distance, refill)
    {
      fastDistance := distance;
      fastRefill := refill;
    }

    method OnTimer0() returns (reply: Reply)
      modifies this
      ensures (View(), reply) == Spec.OnTimer0(old(View()), c)
    {
      if c.extendMode && extendCount < c.maxExtends {
        return Extend;
      }
      slotActive := false;
      reply := Finalize();
    }

    method OnExtended() returns (reply: Reply)
      modifies this
      ensures (View(), reply) == Spec.OnExtended(old(View()), c)
    {
      extendCount := extendCount + 1;
      if extendCount >= c.maxExtends {
        slotActive := false;
        reply := Finalize();
      } else {
        reply := NoReply;
      }
    }

    method OnExtendFailed() returns (reply: Reply)
      modifies this
      ensures (View(), reply) == Spec.OnExtendFailed(old(View()), c)
    {
      slotActive := false;
      reply := Finalize();
    }

    method OnSessionIdle()
      modifies this
      ensures View() == Spec.OnSessionIdle(old(View()))
    {
      outstanding := false;
    }

    /** `accepted` is the outcome of the request a chained session makes at once. */
    method OnRefused(accepted: bool) returns (submitted: bool)
      modifies this
      ensures (View(), submitted) == Spec.OnRefused(old(View()), c, accepted)
    {
      if !c.autoReschedule {
        outstanding := false;
        return false;
      }
      request := Earliest;
      if !accepted {
        done := true;
      }
      submitted := accepted;
    }

    method OnTakeReport()
      modifies `reportReady
      ensures View() == Spec.OnTakeReport(old(View()))
    {
      if !done {
        reportReady := false;
      }
    }

    method OnSessionClosed()
      modifies this
      ensures View() == Spec.OnSessionClosed(old(View()))
    {
      outstanding := false;
      done := true;
    }

    method OnOverstayed()
      modifies this
      ensures View() == Spec.OnOverstayed(old(View()))
    {
      slotActive := false;
      outstanding := false;
      done := true;
    }

    method OnOther()
      modifies this
      ensures View() == Spec.OnOther(old(View()))
    {
      slotActive := false;
      outstanding := false;
    }

    /** The first section of `request_window` under the lock; without a mark no request goes to MPSL. */
    method MarkWindow() returns (marked: bool)
      modifies this
      ensures View() == Spec.MarkWindow(old(View())) && marked == Submits(old(View()))
    {
      if done || slotActive || outstanding {
        return false;
      }
      request := Earliest;
      outstanding := true;
      marked := true;
    }

    /** The second one, after MPSL has refused the request. */
    method UnmarkWindow()
      modifies this
      ensures View() == Spec.UnmarkWindow(old(View()))
    {
      outstanding := false;
    }
  }
}
