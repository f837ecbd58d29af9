/**
 The ESB timer (src/timer.rs) as a value: one microsecond counter with two compares.
 CC[0] is the retransmit timeout, counted from a cleared counter; CC[1] is the ACK
 timeout, counted from the captured counter value.
 */
module TimerModel {
  datatype Timer = Timer(
    running: bool, count: nat,
    cc0: nat, int0: bool, ev0: bool,
    cc1: nat, int1: bool, ev1: bool)

  const STOPPED := Timer(false, 0, 0, false, false, 0, false, false)

  function ArmRetransmit(t: Timer, us: nat): Timer {
    t.(running := true, count := 0, cc0 := us, int0 := true, ev0 := false)
  }

  /** Disarming the retransmit compare also stops the counter both compares share. */
  function DisarmRetransmit(t: Timer): Timer {
    t.(running := false, int0 := false, ev0 := false)
  }

  function ArmAckTimeout(t: Timer, us: nat): Timer {
    t.(cc1 := t.count + us, int1 := true, ev1 := false)
  }

  function DisarmAckTimeout(t: Timer): Timer {
    t.(int1 := false, ev1 := false)
  }

  function Stop(t: Timer): Timer {
    t.(running := false)
  }

  /** The TIMER interrupt body of the PTX: disarm whatever fired. */
  function HandleTimerEvent(t: Timer): Timer {
    var a := if t.ev0 then DisarmRetransmit(t) else t;
    if a.ev1 then DisarmAckTimeout(a) else a
  }

  /** The TIMER interrupt line is raised. */
  predicate Pending(t: Timer) {
    (t.int0 && t.ev0) || (t.int1 && t.ev1)
  }

  /** `us` microseconds of hardware time: a compare fires when the counter reaches it. */
  function Elapse(t: Timer, us: nat): Timer {
    if !t.running then t
    else t.(count := t.count + us,
         ev0 := t.ev0 || t.count < t.cc0 <= t.count + us,
                                ev1 := t.ev1 || t.count < t.cc1 <= t.count + us)
  }

  /** A stopped timer stands still, and nothing new fires. */
  lemma StoppedStands(t: Timer, us: nat)
    ensures var s := Stop(t);
            Elapse(s, us) == s && s.count == t.count && Pending(s) == Pending(t)
    ensures var s := DisarmRetransmit(t); Elapse(s, us) == s && !(s.int0 && s.ev0)
  {
  }

  /** From arming on, each compare fires exactly when its time has passed. */
  lemma ComparesFireInTime(t: Timer, retransmitUs: nat, ackUs: nat, us: nat)
    requires retransmitUs > 0 && ackUs > 0
    ensures var r := Elapse(ArmAckTimeout(ArmRetransmit(t, retransmitUs), ackUs), us);
            && (r.int0 && r.ev0 <==> us >= retransmitUs)
            && (r.int1 && r.ev1 <==> us >= ackUs)
  {
  }
}
