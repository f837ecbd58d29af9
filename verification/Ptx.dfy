/**
 The PTX state machine (src/state_machine.rs) in place, driven by its RADIO interrupt.
 Every method is the `PtxModel` function of the same name on the machine and its pool.
 */
module PtxEngine {
  import opened Wrappers
  import opened PoolModel
  import opened TimerModel
  import opened Spec = PtxModel
  import opened PacketPools
  import opened Timers

  class PtxStateMachine {
    var state: StatePtx
    var attempts: nat
    const maxAttempts: nat
    const retransmitDelayUs: nat
    const ackTimeoutUs: nat
    var pid: nat
    var txIdx: Option<nat>
    var ackRxIdx: Option<nat>
    var activeTxPipe: nat
    var radio: Radio
    const timer: EsbTimer
    ghost var sent: seq<Packet>
    ghost var fates: seq<Fate>
    ghost var failed: nat
    ghost var air: seq<AirFrame>

    ghost function View(): Ptx
      reads this, timer
    {
      Ptx(state, attempts, maxAttempts, retransmitDelayUs, ackTimeoutUs, pid, txIdx, ackRxIdx,
          activeTxPipe, radio, timer.View(), sent, fates, failed, air)
    }

    ghost function SysView(pool: PacketPool): Sys
      reads this, timer, pool, pool.state, pool.storage
      requires pool.Valid()
    {
      Sys(View(), pool.View())
    }

    ghost predicate Valid(pool: PacketPool)
      reads this, timer, pool, pool.state, pool.storage
    {
      pool.Valid() && InRange(SysView(pool))
    }

    /** `delayUs` loses the ramp-up that precedes a transmission, `timeoutUs` gains the one before listening. */
    constructor (t: EsbTimer, count: nat, delayUs: nat, timeoutUs: nat, txPipe: nat)
      requires t.View() == STOPPED
      ensures fresh(this) && timer == t
      ensures View() == InitialPtx(count, SatSub(delayUs, 140), SatAdd(timeoutUs, 140, 65535), txPipe)
    {
      state, attempts, pid := Idle, 0, 0;
      maxAttempts := count;
      retransmitDelayUs := SatSub(delayUs, 140);
      ackTimeoutUs := SatAdd(timeoutUs, 140, 65535);
      txIdx, ackRxIdx, activeTxPipe := None, None, txPipe;
      radio, timer := Off, t;
      sent, fates, failed, air := [], [], 0, [];
    }

    method Transmit(pool: PacketPool, i: nat, ack: bool)
      requires Valid(pool) && i < pool.n
      modifies this
      ensures Valid(pool)
      ensures SysView(pool) == Spec.Transmit(old(SysView(pool)), i, ack)
    {
      radio := Transmitting(activeTxPipe, i, ack);
      state := if ack then Tx else TxNoAck;
      air := air + [AirFrame(|fates|, pool.storage[i])];
    }

    method GoIdle(pool: PacketPool)
      requires Valid(pool)
      modifies this
      ensures Valid(pool)
      ensures SysView(pool) == Spec.GoIdle(old(SysView(pool)))
    {
      state := Idle;
    }

    method SendNext(pool: PacketPool)
      requires Valid(pool)
      modifies this, pool.state, pool.storage
      ensures Valid(pool)
      ensures SysView(pool) == Spec.SendNext(old(SysView(pool)))
    {
      if txIdx.Some? {
        Transmit(pool, txIdx.value, true);
        return;
      }
      var next := pool.TryDequeueTx();
      if next.Some? {
        var i := next.value;
        var header := pool.storage[i].(pid := pid);
        activeTxPipe := header.pipe;
        pool.WritePacket(i, header);
        txIdx := Some(i);
        sent := sent + [header];
        Transmit(pool, i, !header.noAck);
      } else {
        GoIdle(pool);
      }
    }

    method Retransmit(pool: PacketPool)
      requires Valid(pool)
      modifies this
      ensures Valid(pool)
      ensures SysView(pool) == Spec.Retransmit(old(SysView(pool)))
    {
      if txIdx.Some? {
        Transmit(pool, txIdx.value, true);
      } else {
        GoIdle(pool);
      }
    }

    method ReleaseTx(pool: PacketPool)
      requires Valid(pool)
      modifies this, pool.state
      ensures Valid(pool)
      ensures SysView(pool) == Spec.ReleaseTx(old(SysView(pool)))
    {
      if txIdx.Some? {
        pool.Release(txIdx.value);
        txIdx := None;
      }
    }

    method ReleaseAckRx(pool: PacketPool)
      requires Valid(pool)
      modifies this, pool.state
      ensures Valid(pool)
      ensures SysView(pool) == Spec.ReleaseAckRx(old(SysView(pool)))
    {
      if ackRxIdx.Some? {
        pool.Release(ackRxIdx.value);
        ackRxIdx := None;
      }
    }

    method AdvancePid(pool: PacketPool, ghost fate: Fate)
      requires Valid(pool)
      modifies this
      ensures Valid(pool)
      ensures SysView(pool) == Spec.AdvancePid(old(SysView(pool)), fate)
    {
      pid := (pid + 1) % 4;
      fates := fates + [fate];
      failed := 0;
    }

    method Proceed(pool: PacketPool, suppressNextTx: bool)
      requires Valid(pool)
      modifies this, pool.state, pool.storage
      ensures Valid(pool)
      ensures SysView(pool) == Spec.Proceed(old(SysView(pool)), suppressNextTx)
    {
      if suppressNextTx {
        GoIdle(pool);
      } else {
        SendNext(pool);
      }
    }

    method OnTxEnd(pool: PacketPool)
      requires Valid(pool)
      modifies this, timer, pool.state
      ensures Valid(pool)
      ensures SysView(pool) == Spec.OnTxEnd(old(SysView(pool)))
    {
      var ack := pool.AllocDma();
      if ack.Some? {
        radio := Listening(ack.value);
        ackRxIdx := ack;
        state := WaitAck;
      } else {
        radio := Off;
        state := Idle;
        return;
      }
      timer.ArmRetransmit(retransmitDelayUs);
      timer.ArmAckTimeout(ackTimeoutUs);
    }

    method OnAckOk(pool: PacketPool, suppressNextTx: bool)
      requires Valid(pool)
      modifies this, timer, pool, pool.state, pool.storage
      ensures Valid(pool)
      ensures SysView(pool) == Spec.OnAckOk(old(SysView(pool)), suppressNextTx)
    {
      timer.DisarmAckTimeout();
      timer.DisarmRetransmit();
      radio := Off;
      if ackRxIdx.Some? {
        if pool.storage[ackRxIdx.value].payload != [] {
          pool.RxComplete(ackRxIdx.value);
        } else {
          ReleaseAckRx(pool);
        }
      }
      ReleaseTx(pool);
      attempts := 0;
      AdvancePid(pool, Acked(failed));
      Proceed(pool, suppressNextTx);
    }

    method OnAckFailed(pool: PacketPool, suppressNextTx: bool) returns (event: PtxEvent)
      requires Valid(pool)
      modifies this, timer, pool.state, pool.storage
      ensures Valid(pool)
      ensures (SysView(pool), event) == Spec.OnAckFailed(old(SysView(pool)), suppressNextTx)
    {
      timer.DisarmAckTimeout();
      radio := Off;
      ReleaseAckRx(pool);
      attempts := attempts + 1;
      failed := failed + 1;
      if attempts >= maxAttempts {
        ReleaseTx(pool);
        attempts := 0;
        AdvancePid(pool, Dropped(failed));
        Proceed(pool, suppressNextTx);
        return MaxAttempts;
      }
      state := WaitRetransmit;
      return NoEvent;
    }

    method HandleRadioEvent(pool: PacketPool, e: Events, suppressNextTx: bool) returns (event: PtxEvent)
      requires Valid(pool)
      modifies this, timer, pool, pool.state, pool.storage
      ensures Valid(pool)
      ensures (SysView(pool), event) == Spec.HandleRadioEvent(old(SysView(pool)), e, suppressNextTx)
    {
      event := NoEvent;
      if UserEvent(e) && state != Idle {
        return;
      }
      match state {
        case Idle =>
          if !suppressNextTx {
            SendNext(pool);
          }
        case TxNoAck =>
          radio := Off;
          ReleaseTx(pool);
          AdvancePid(pool, Unacked);
          Proceed(pool, suppressNextTx);
        case Tx =>
          OnTxEnd(pool);
        case WaitAck =>
          if e.disabled && e.crcOk {
            OnAckOk(pool, suppressNextTx);
          } else {
            event := OnAckFailed(pool, suppressNextTx);
          }
        case WaitRetransmit =>
          Retransmit(pool);
      }
    }

    method DoSuspend(pool: PacketPool)
      requires Valid(pool)
      modifies this, timer, pool.state
      ensures Valid(pool)
      ensures SysView(pool) == Spec.DoSuspend(old(SysView(pool)))
    {
      if state != Idle {
        ReleaseTx(pool);
        ReleaseAckRx(pool);
      }
      radio := Off;
      timer.Stop();
      timer.DisarmRetransmit();
      timer.DisarmAckTimeout();
      state := Idle;
      attempts := 0;
      txIdx, ackRxIdx := None, None;
    }
  }
}
