/**
 Any interleaving of a packet pool's clients (src/payload.rs, src/isr.rs): an engine that
 works on the buffers it has in DMA, and an application with its handles and allocations.
 */
module PoolRuns {
  import opened Wrappers
  import opened PoolModel

  /** The pool, what each client owns, and the packets the application has taken so far. */
  datatype Clients = Clients(pool: Pool, dma: set<nat>, held: set<nat>, alloc: set<nat>, taken: seq<Packet>)

  datatype Move =
    | Allocates
    | Fills(i: nat, p: Packet)
    | Queues(i: nat)
    | Takes
    | Drops(i: nat)
    | ClaimsFree
    | Dequeues
    | DequeuesFor(pipe: nat)
    | Writes(i: nat, p: Packet)
    | Releases(i: nat)
    | Completes(i: nat)
    | Discards

  function Claimed(c: Clients, r: (Pool, Option<nat>), forDma: bool): Clients {
    match r.1
    case None => c
    case Some(i) =>
      if forDma then c.(pool := r.0, dma := c.dma + {i}) else c.(pool := r.0, alloc := c.alloc + {i})
  }

  /** A client never touches a buffer it does not own. */
  ghost function MoveClients(c: Clients, m: Move): Clients
    requires Owned(c.pool, c.dma, c.held, c.alloc)
  {
    var v := c.pool;
    match m
    case Allocates => Claimed(c, AllocTx(v), false)
    case Fills(i, p) => if i in c.alloc then c.(pool := Write(v, i, p)) else c
    case Queues(i) => if i in c.alloc then c.(pool := EnqueueTx(v, i), alloc := c.alloc - {i}) else c
    case Takes =>
      var (w, r) := TryReceive(v);
      if r.None? then c else c.(pool := w, held := c.held + {r.value}, taken := c.taken + [v.pkt[r.value]])
    case Drops(i) => if i in c.held then c.(pool := Release(v, i), held := c.held - {i}) else c
    case ClaimsFree => Claimed(c, AllocDma(v), true)
    case Dequeues => Claimed(c, DequeueTx(v), true)
    case DequeuesFor(pipe) => Claimed(c, DequeueTxFor(v, pipe), true)
    case Writes(i, p) => if i in c.dma then c.(pool := Write(v, i, p)) else c
    case Releases(i) => if i in c.dma then c.(pool := Release(v, i), dma := c.dma - {i}) else c
    case Completes(i) => if i in c.dma then c.(pool := RxComplete(v, i), dma := c.dma - {i}) else c
    case Discards => c.(pool := DiscardReceived(v).0, taken := v.completed)
  }

  /** Taken and waiting packets are together the completed ones, in completion order. */
  ghost predicate InOrder(c: Clients) {
    |c.pool.rxq| <= |c.pool.completed| && c.taken == c.pool.completed[..|c.pool.completed| - |c.pool.rxq|]
  }

  ghost predicate Inv(c: Clients) {
    Owned(c.pool, c.dma, c.held, c.alloc) && InOrder(c)
  }

  lemma {:induction false} DiscardKeepsCompleted(v: Pool)
    requires forall k | 0 <= k < |v.rxq| :: v.rxq[k] < |v.st|
    ensures DiscardReceived(v).0.completed == v.completed
    decreases |v.rxq|
  {
    if v.rxq != [] {
      DiscardKeepsCompleted(Release(v.(rxq := v.rxq[1..]), v.rxq[0]));
    }
  }

  lemma EngineKeepsInv(c: Clients, m: Move)
    requires Inv(c)
    requires m.ClaimsFree? || m.Dequeues? || m.DequeuesFor? || m.Writes? || m.Releases? || m.Completes?
    ensures Inv(MoveClients(c, m))
  {
    var v := c.pool;
    match m
    case ClaimsFree => AllocDmaOwned(v, c.dma, c.held, c.alloc);
    case Dequeues => DequeueOwned(v, c.dma, c.held, c.alloc);
    case DequeuesFor(pipe) => DequeueForOwned(v, pipe, c.dma, c.held, c.alloc);
    case Writes(i, p) => if i in c.dma { WriteOwned(v, i, p, c.dma, c.held, c.alloc); }
    case Releases(i) => if i in c.dma { ReleaseOwned(v, i, c.dma, c.held, c.alloc); }
    case Completes(i) => if i in c.dma { RxCompleteOwned(v, i, c.dma, c.held, c.alloc); }
    hide Owned;
  }

  lemma AppKeepsInv(c: Clients, m: Move)
    requires Inv(c)
    requires m.Allocates? || m.Fills? || m.Queues? || m.Takes? || m.Drops? || m.Discards?
    ensures Inv(MoveClients(c, m))
  {
    var v := c.pool;
    match m
    case Allocates => AllocTxOwned(v, c.dma, c.held, c.alloc);
    case Fills(i, p) => if i in c.alloc { WriteOwned(v, i, p, c.dma, c.held, c.alloc); }
    case Queues(i) => if i in c.alloc { EnqueueOwned(v, i, c.dma, c.held, c.alloc); }
    case Takes => ReceiveOwned(v, c.dma, c.held, c.alloc);
    case Drops(i) => if i in c.held { DropOwned(v, i, c.dma, c.held, c.alloc); }
    case Discards =>
      DiscardOwned(v, c.dma, c.held, c.alloc);
      DiscardKeepsCompleted(v);
      hide Owned, DiscardReceived;
  }

  ghost function MoveAll(c: Clients, moves: seq<Move>): (r: Clients)
    requires Inv(c)
    ensures Inv(r)
    decreases |moves|
  {
    if moves == [] then c
    else
      MoveKeepsInv(c, moves[0]);
      MoveAll(MoveClients(c, moves[0]), moves[1..])
  }

  lemma MoveKeepsInv(c: Clients, m: Move)
    requires Inv(c)
    ensures Inv(MoveClients(c, m))
  {
    hide Inv, MoveClients;
    if m.ClaimsFree? || m.Dequeues? || m.DequeuesFor? || m.Writes? || m.Releases? || m.Completes? {
      EngineKeepsInv(c, m);
    } else {
      AppKeepsInv(c, m);
    }
  }

  lemma EmptyInv(n: nat)
    ensures Inv(Clients(EmptyPool(n), {}, {}, {}, []))
  {
    EmptyPoolOwned(n);
  }

  /** A whole run of a pool of `n` buffers. */
  ghost function Reached(n: nat, moves: seq<Move>): Clients {
    EmptyInv(n);
    MoveAll(Clients(EmptyPool(n), {}, {}, {}, []), moves)
  }

  /**
   Every buffer has one owner in every run, the channel always has room for another
   completed buffer, and the application takes packets in the order they were completed,
   none missing.
   */
  lemma PoolIsSafe(n: nat, moves: seq<Move>)
    ensures var c := Reached(n, moves);
            && Owned(c.pool, c.dma, c.held, c.alloc)
            && (forall i | i in c.dma :: i < |c.pool.st| && RxComplete(c.pool, i).rxq == c.pool.rxq + [i])
            && |c.pool.rxq| <= |c.pool.completed|
            && c.taken == c.pool.completed[..|c.pool.completed| - |c.pool.rxq|]
  {
    EmptyInv(n);
    var c := Reached(n, moves);
    forall i | i in c.dma
      ensures i < |c.pool.st| && RxComplete(c.pool, i).rxq == c.pool.rxq + [i]
    {
      RxCompleteOwned(c.pool, i, c.dma, c.held, c.alloc);
    }
  }
}
