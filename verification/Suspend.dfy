/** The PTX driver in place (src/isr.rs): its two interrupt handlers and the pieces of `suspend`. */
module PtxDriver {
  import opened PoolModel
  import opened TimerModel
  import opened PtxModel
  import opened PacketPools
  import opened PtxEngine
  import Spec = SuspendModel

  class EsbPtx {
    const sm: PtxStateMachine
    const pool: PacketPool
    var timerFlag: bool
    var maxAttemptsFlag: bool
    var suspendRequested: bool
    var registered: bool
    var woken: bool
    var masked: bool

    ghost predicate Valid()
      reads this, sm, sm.timer, pool, pool.state, pool.storage
    {
      sm.Valid(pool)
    }

    ghost function View(): Spec.Driver
      reads this, sm, sm.timer, pool, pool.state, pool.storage
      requires Valid()
    {
      Spec.Driver(sm.SysView(pool), timerFlag, maxAttemptsFlag, suspendRequested, registered, woken, masked)
    }

    constructor (machine: PtxStateMachine, buffers: PacketPool)
      requires machine.Valid(buffers)
      ensures Valid() && sm == machine && pool == buffers
      ensures View() == Spec.Driver(machine.SysView(buffers), false, false, false, false, false, false)
    {
      sm, pool := machine, buffers;
      timerFlag, maxAttemptsFlag, suspendRequested := false, false, false;
      registered, woken, masked := false, false, false;
    }

    method Wake()
      requires Valid()
      modifies this
      ensures Valid() && View() == Spec.Wake(old(View()))
    {
      if registered {
        registered := false;
        woken := true;
      }
    }

    method OnRadioInterrupt(disabled: bool, crcOk: bool)
      requires Valid()
      modifies this, sm, sm.timer, pool, pool.state, pool.storage
      ensures Valid() && View() == Spec.OnRadioInterrupt(old(View()), disabled, crcOk)
    {
      var flag := timerFlag;
      if flag {
        timerFlag := false;
      }
      var suppress := suspendRequested;
      var event := sm.HandleRadioEvent(pool, Events(disabled, flag, crcOk), suppress);
      if event == MaxAttempts {
        maxAttemptsFlag := true;
      }
      if suppress && sm.state == Idle {
        Wake();
      }
    }

    method OnTimerInterrupt()
      requires Valid()
      modifies this, sm.timer
      ensures Valid() && View() == Spec.OnTimerInterrupt(old(View()))
    {
      timerFlag := true;
      sm.timer.HandleTimerEvent();
    }

    /** Masks the RADIO interrupt; it stays masked exactly when the suspension succeeds. */
    method TrySuspend() returns (done: bool)
      requires Valid()
      modifies this, sm, sm.timer, pool.state
      ensures Valid() && (View(), done) == Spec.TrySuspend(old(View()))
    {
      if sm.state != Idle {
        return false;
      }
      sm.DoSuspend(pool);
      masked := true;
      done := true;
    }

    /** The `SuspendRequestGuard`: set on entry, cleared when the future ends or is dropped. */
    method Request(wanted: bool)
      requires Valid()
      modifies `suspendRequested
      ensures Valid() && View() == old(View()).(suspendRequested := wanted)
    {
      suspendRequested := wanted;
    }

    /** One poll of the waiting future: register first, then look at the state. */
    method Poll() returns (ready: bool)
      requires Valid()
      modifies `registered
      ensures Valid() && View() == old(View()).(registered := true)
      ensures ready <==> View().sys.ptx.state == Idle
    {
      registered := true;
      ready := sm.state == Idle;
    }

    /** `max_attempts_reached`. */
    method ReadMaxAttempts() returns (reached: bool)
      requires Valid()
      modifies `maxAttemptsFlag
      ensures Valid() && (View(), reached) == Spec.ReadMaxAttempts(old(View()))
    {
      reached := maxAttemptsFlag;
      maxAttemptsFlag := false;
    }

    method Restore(pipe: Pipe)
      requires Valid()
      modifies this, sm
      ensures Valid() && View() == Spec.Restore(old(View()), pipe)
    {
      sm.state := Idle;
      sm.radio := Off;
      sm.activeTxPipe := pipe;
      suspendRequested := false;
      masked := false;
    }
  }
}
