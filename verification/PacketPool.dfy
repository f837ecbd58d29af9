/**
 The packet buffer pool (src/payload.rs) in place: an array of ownership states, an array
 of buffers and a channel of completed indices. Each method is the `PoolModel` function
 of the same name applied to `View()`.
 */
module PacketPools {
  import opened Wrappers
  import opened Spec = PoolModel

  class PacketPool {
    const n: nat
    const state: array<BufferState>
    const storage: array<Packet>
    var rxQueue: seq<nat>
    ghost var completed: seq<Packet>

    ghost predicate Valid()
      reads this, state, storage
    {
      state.Length == n && storage.Length == n
    }

    ghost function View(): (v: Pool)
      reads this, state, storage
      requires Valid()
      ensures Wf(v) && |v.st| == n
    {
      Pool(state[..], storage[..], rxQueue, completed)
    }

    constructor (size: nat)
      ensures Valid() && fresh(this) && fresh(state) && fresh(storage)
      ensures n == size && View() == EmptyPool(size)
    {
      n := size;
      var s := new BufferState[size](i => Free);
      var p := new Packet[size](i => EMPTY_PACKET);
      state, storage := s, p;
      rxQueue := [];
      completed := [];
      new;
      assert state[..] == EmptyPool(size).st;
      assert storage[..] == EmptyPool(size).pkt;
    }

    /** The scan shared by `alloc_tx`, `alloc_dma_buffer` and `try_dequeue_tx`. */
    method ClaimFirst(was: BufferState, now: BufferState) returns (r: Option<nat>)
      requires Valid()
      modifies state
      ensures Valid()
      ensures (View(), r) == Claim(old(View()), was, now)
    {
      for i := 0 to n
        invariant state[..] == old(state[..])
        invariant forall j | 0 <= j < i :: state[j] != was
      {
        if state[i] == was {
          state[i] := now;
          assert state[..] == old(state[..])[i := now];
          return Some(i);
        }
      }
      return None;
    }

    method AllocTx() returns (r: Option<nat>)
      requires Valid()
      modifies state
      ensures Valid()
      ensures (View(), r) == Spec.AllocTx(old(View()))
    {
      r := ClaimFirst(Free, TxAllocated);
    }

    method AllocDma() returns (r: Option<nat>)
      requires Valid()
      modifies state
      ensures Valid()
      ensures (View(), r) == Spec.AllocDma(old(View()))
    {
      r := ClaimFirst(Free, InDma);
    }

    method TryDequeueTx() returns (r: Option<nat>)
      requires Valid()
      modifies state
      ensures Valid()
      ensures (View(), r) == DequeueTx(old(View()))
    {
      r := ClaimFirst(TxQueued, InDma);
    }

    method TryDequeueTxForPipe(pipe: nat) returns (r: Option<nat>)
      requires Valid()
      modifies state
      ensures Valid()
      ensures (View(), r) == DequeueTxFor(old(View()), pipe)
    {
      for i := 0 to n
        invariant state[..] == old(state[..])
        invariant forall j | 0 <= j < i :: !(state[j] == TxQueued && storage[j].pipe == pipe)
      {
        if state[i] == TxQueued && storage[i].pipe == pipe {
          state[i] := InDma;
          assert state[..] == old(state[..])[i := InDma];
          return Some(i);
        }
      }
      return None;
    }

    method EnqueueTx(i: nat)
      requires Valid() && i < n
      modifies state
      ensures Valid()
      ensures View() == Spec.EnqueueTx(old(View()), i)
    {
      if state[i] == TxAllocated {
        state[i] := TxQueued;
        assert state[..] == old(state[..])[i := TxQueued];
      }
    }

    /** `release_tx` and `release_rx`: an unconditional store of FREE. */
    method Release(i: nat)
      requires Valid() && i < n
      modifies state
      ensures Valid()
      ensures View() == Spec.Release(old(View()), i)
    {
      state[i] := Free;
      assert state[..] == old(state[..])[i := Free];
    }

    method WritePacket(i: nat, p: Packet)
      requires Valid() && i < n
      modifies storage
      ensures Valid()
      ensures View() == Write(old(View()), i, p)
    {
      storage[i] := p;
      assert storage[..] == old(storage[..])[i := p];
    }

    method RxComplete(i: nat)
      requires Valid() && i < n
      modifies this`rxQueue, this`completed, state
      ensures Valid()
      ensures View() == Spec.RxComplete(old(View()), i)
    {
      state[i] := RxQueued;
      assert state[..] == old(state[..])[i := RxQueued];
      completed := completed + [storage[i]];
      if |rxQueue| < n {
        rxQueue := rxQueue + [i];
      }
    }

    method TryReceiveRx() returns (r: Option<nat>)
      requires Valid()
      modifies this`rxQueue
      ensures Valid()
      ensures (View(), r) == TryReceive(old(View()))
    {
      if rxQueue == [] {
        return None;
      }
      r := Some(rxQueue[0]);
      rxQueue := rxQueue[1..];
    }

    method DiscardReceived() returns (count: nat)
      requires Valid() && forall k | 0 <= k < |rxQueue| :: rxQueue[k] < n
      modifies this`rxQueue, state
      ensures Valid()
      ensures (View(), count) == Spec.DiscardReceived(old(View()))
    {
      count := 0;
      while rxQueue != []
        invariant Valid() && forall k | 0 <= k < |rxQueue| :: rxQueue[k] < n
        invariant var rest := Spec.DiscardReceived(View());
                  (rest.0, rest.1 + count) == Spec.DiscardReceived(old(View()))
        decreases |rxQueue|
      {
        assert rxQueue[0] in rxQueue;
        var r := TryReceiveRx();
        Release(r.value);
        count := count + 1;
      }
    }
  }
}
