/**
 The PRX state machine (src/state_machine.rs) in place, in exclusive mode. Every method
 is the `PrxModel` function of the same name on the machine and its pool.
 */
module PrxEngine {
  import opened Wrappers
  import opened PoolModel
  import opened Spec = PrxModel
  import opened PacketPools
  import opened Radios

  class PrxStateMachine {
    var state: StatePrx
    var rxIdx: Option<nat>
    var pendingRxIdx: Option<nat>
    var ackTxIdx: Option<nat>
    const filter: DuplicateFilter
    var radio: Radio

    ghost function SysView(pool: PacketPool): Sys
      reads this, filter, filter.lastCrc, filter.lastPid, filter.lastValid
      reads pool, pool.state, pool.storage
      requires pool.Valid() && filter.Valid()
    {
      Sys(Prx(state, rxIdx, pendingRxIdx, ackTxIdx, filter.View(), radio), pool.View())
    }

    ghost predicate Valid(pool: PacketPool)
      reads this, filter, filter.lastCrc, filter.lastPid, filter.lastValid
      reads pool, pool.state, pool.storage
    {
      pool.Valid() && filter.Valid() && InRange(SysView(pool))
    }

    constructor (f: DuplicateFilter)
      requires f.Valid()
      ensures fresh(this) && filter == f
      ensures Prx(state, rxIdx, pendingRxIdx, ackTxIdx, f.View(), radio) == INITIAL_PRX.(filter := f.View())
    {
      state, radio, filter := Idle, Off, f;
      rxIdx, pendingRxIdx, ackTxIdx := None, None, None;
    }

    method StartReceiving(pool: PacketPool) returns (ok: bool)
      requires Valid(pool)
      modifies this, pool.state
      ensures Valid(pool)
      ensures (SysView(pool), ok) == Spec.StartReceiving(old(SysView(pool)))
    {
      if state != Idle {
        return true;
      }
      var next := pool.AllocDma();
      if next.None? {
        return false;
      }
      rxIdx := next;
      radio := Receiving(next.value);
      state := Receiver;
      return true;
    }

    method Rearm(pool: PacketPool)
      requires pool.Valid() && filter.Valid()
      requires InRange(SysView(pool).(prx := SysView(pool).prx.(state := Idle)))
      modifies this, pool.state
      ensures Valid(pool)
      ensures SysView(pool) == Spec.Rearm(old(SysView(pool)))
    {
      var next := pool.AllocDma();
      if next.Some? {
        rxIdx := next;
        radio := Receiving(next.value);
        state := Receiver;
      } else {
        radio := Off;
        state := Idle;
      }
    }

    method SetupAckTx(pool: PacketPool, pipe: nat)
      requires Valid(pool)
      modifies this, pool.state
      ensures Valid(pool)
      ensures SysView(pool) == Spec.SetupAckTx(old(SysView(pool)), pipe)
    {
      ackTxIdx := pool.TryDequeueTxForPipe(pipe);
      radio := Answering(pipe, ackTxIdx);
    }

    method ReleaseAckTx(pool: PacketPool)
      requires Valid(pool)
      modifies this, pool.state
      ensures Valid(pool)
      ensures var s := old(SysView(pool));
              SysView(pool) == Sys(s.prx.(ackTxIdx := None), ReleaseIdx(s.pool, s.prx.ackTxIdx))
    {
      if ackTxIdx.Some? {
        pool.Release(ackTxIdx.value);
        ackTxIdx := None;
      }
    }

    /** What every new packet does first: remember it, and fill in the two software bytes. */
    method Record(pool: PacketPool, rx: Rx)
      requires Valid(pool) && state == Receiver
      modifies filter.lastCrc, filter.lastPid, filter.lastValid, pool.storage
      ensures Valid(pool)
      ensures var s := old(SysView(pool));
              var header := s.pool.pkt[s.prx.rxIdx.value];
              SysView(pool) == Sys(s.prx.(filter := Spec.UpdateDetection(s.prx.filter, rx.pipe, header.pid, rx.crc)),
                                   Write(s.pool, s.prx.rxIdx.value, header.(rssi := rx.rssi, pipe := rx.pipe)))
    {
      var i := rxIdx.value;
      var header := pool.storage[i];
      filter.UpdateDetection(rx.pipe, header.pid, rx.crc);
      pool.WritePacket(i, header.(rssi := rx.rssi, pipe := rx.pipe));
    }

    method OnNewPacket(pool: PacketPool, rx: Rx) returns (event: PrxEvent, index: Option<nat>)
      requires Valid(pool) && state == Receiver
      modifies this, filter.lastCrc, filter.lastPid, filter.lastValid, pool, pool.state, pool.storage
      ensures Valid(pool)
      ensures (SysView(pool), event, index) == Spec.OnNewPacket(old(SysView(pool)), rx)
    {
      var i := rxIdx.value;
      var noAck := pool.storage[i].noAck;
      Record(pool, rx);
      index := Some(i);
      rxIdx := None;
      if noAck {
        pool.RxComplete(i);
        Rearm(pool);
        event := ReceivedNoAck;
      } else {
        state := TxAck;
        SetupAckTx(pool, rx.pipe);
        pendingRxIdx := Some(i);
        event := Received;
      }
    }

    method OnDuplicate(pool: PacketPool, pipe: nat, noAck: bool)
      requires Valid(pool) && state == Receiver
      modifies this, pool.state
      ensures Valid(pool)
      ensures SysView(pool) == (if noAck then OnDuplicateNoAck(old(SysView(pool)))
                                else Spec.OnDuplicate(old(SysView(pool)), pipe))
    {
      var i := rxIdx.value;
      if noAck {
        var next := pool.AllocDma();
        if next.Some? {
          pool.Release(i);
          rxIdx := next;
          radio := Receiving(next.value);
        }
      } else {
        pool.Release(i);
        rxIdx := None;
        radio := Answering(pipe, None);
        state := TxRepeatedAck;
      }
    }

    method HandleRadioEvent(pool: PacketPool, disabled: bool, timer: bool, rx: Rx)
      returns (event: PrxEvent, index: Option<nat>)
      requires Valid(pool)
      modifies this, filter.lastCrc, filter.lastPid, filter.lastValid, pool, pool.state, pool.storage
      ensures Valid(pool)
      ensures (SysView(pool), event, index) == Spec.HandleRadioEvent(old(SysView(pool)), disabled, timer, rx)
    {
      if !disabled && !timer && state != Idle {
        return NoEvent, None;
      }
      match state {
        case Receiver =>
          if !rx.crcOk {
            return BadCrc, None;
          }
          var header := pool.storage[rxIdx.value];
          var dup := filter.CheckDuplicate(rx.pipe, header.pid, rx.crc);
          if dup {
            OnDuplicate(pool, rx.pipe, header.noAck);
            return Duplicate, None;
          }
          event, index := OnNewPacket(pool, rx);
        case TxAck =>
          if pendingRxIdx.Some? {
            pool.RxComplete(pendingRxIdx.value);
            pendingRxIdx := None;
          }
          ReleaseAckTx(pool);
          Rearm(pool);
          return NoEvent, None;
        case TxRepeatedAck =>
          ReleaseAckTx(pool);
          Rearm(pool);
          return NoEvent, None;
        case Idle =>
          var _ := StartReceiving(pool);
          return NoEvent, None;
      }
    }

    method StopReceiving(pool: PacketPool)
      requires Valid(pool)
      modifies this, pool.state
      ensures Valid(pool)
      ensures SysView(pool) == Spec.StopReceiving(old(SysView(pool)))
    {
      radio := Off;
      if rxIdx.Some? {
        pool.Release(rxIdx.value);
      }
      if pendingRxIdx.Some? {
        pool.Release(pendingRxIdx.value);
      }
      if ackTxIdx.Some? {
        pool.Release(ackTxIdx.value);
      }
      rxIdx, pendingRxIdx, ackTxIdx := None, None, None;
      state := Idle;
    }
  }
}
