/** The ESB timer registers in place (src/timer.rs). */
module Timers {
  import opened Spec = TimerModel

  class EsbTimer {
    var running: bool
    var count: nat
    var cc0: nat
    var int0: bool
    var ev0: bool
    var cc1: nat
    var int1: bool
    var ev1: bool

    function View(): Timer
      reads this
    {
      Timer(running, count, cc0, int0, ev0, cc1, int1, ev1)
    }

    constructor ()
      ensures fresh(this) && View() == STOPPED
    {
      running, count := false, 0;
      cc0, int0, ev0 := 0, false, false;
      cc1, int1, ev1 := 0, false, false;
    }

    method ArmRetransmit(us: nat)
      modifies this
      ensures View() == Spec.ArmRetransmit(old(View()), us)
    {
      cc0 := us;
      ev0 := false;
      int0 := true;
      count := 0;
      running := true;
    }

    method DisarmRetransmit()
      modifies this
      ensures View() == Spec.DisarmRetransmit(old(View()))
    {
      int0 := false;
      ev0 := false;
      running := false;
    }

    method ArmAckTimeout(us: nat)
      modifies this
      ensures View() == Spec.ArmAckTimeout(old(View()), us)
    {
      cc1 := count;
      cc1 := cc1 + us;
      ev1 := false;
      int1 := true;
    }

    method DisarmAckTimeout()
      modifies this
      ensures View() == Spec.DisarmAckTimeout(old(View()))
    {
      int1 := false;
      ev1 := false;
    }

    method Stop()
      modifies this
      ensures View() == Spec.Stop(old(View()))
    {
      running := false;
    }

    /** `handle_timer_event` of the PTX, without the pending of the RADIO interrupt. */
    method HandleTimerEvent()
      modifies this
      ensures View() == Spec.HandleTimerEvent(old(View()))
    {
      if ev0 {
        DisarmRetransmit();
      }
      if ev1 {
        DisarmAckTimeout();
      }
    }
  }
}
