/**
 The packet buffer pool (src/payload.rs).

 `Pool` is the pool as a value: one ownership state and one packet per buffer, the
 channel of completed receive buffers, and the history of packets that were ever
 completed. Every operation of the source is a function on it; `PacketPools` performs the
 same operations in place.
 */
module PoolModel {
  import opened Wrappers

  datatype BufferState = Free | TxAllocated | TxQueued | InDma | RxQueued

  /** RXMATCH and TXADDRESS are three bits wide, and every send checks its pipe. */
  type Pipe = p: nat | p < 8

  /**
   A packet buffer. `rssi` and `pipe` are the two software header bytes; `pid`, `noAck`
   and `payload` are what the radio reads and writes by DMA. The length byte is `|payload|`.
   */
  datatype Packet = Packet(rssi: nat, pipe: Pipe, pid: nat, noAck: bool, payload: seq<nat>)

  const EMPTY_PACKET := Packet(0, 0, 0, false, [])

  /** What a receiving DMA leaves in a buffer: the software bytes are untouched. */
  function Dma(buffer: Packet, air: Packet): Packet {
    buffer.(pid := air.pid, noAck := air.noAck, payload := air.payload)
  }

  datatype Pool = Pool(st: seq<BufferState>, pkt: seq<Packet>, rxq: seq<nat>, completed: seq<Packet>)

  ghost predicate Wf(v: Pool) {
    |v.st| == |v.pkt|
  }

  function EmptyPool(n: nat): Pool {
    Pool(seq(n, i => Free), seq(n, i => EMPTY_PACKET), [], [])
  }

  /** Lowest index at or above `from` whose state is `s`. */
  function FirstFrom(st: seq<BufferState>, s: BufferState, from: nat): (r: Option<nat>)
    requires from <= |st|
    ensures r.Some? ==> from <= r.value < |st| && st[r.value] == s
    ensures r.Some? ==> forall j | from <= j < r.value :: st[j] != s
    ensures r.None? ==> forall j | from <= j < |st| :: st[j] != s
    decreases |st| - from
  {
    if from == |st| then None
    else if st[from] == s then Some(from)
    else FirstFrom(st, s, from + 1)
  }

  /** Lowest index at or above `from` holding a packet queued for `pipe`. */
  function FirstQueuedFor(v: Pool, pipe: nat, from: nat): (r: Option<nat>)
    requires Wf(v) && from <= |v.st|
    ensures r.Some? ==> from <= r.value < |v.st| && v.st[r.value] == TxQueued && v.pkt[r.value].pipe == pipe
    ensures r.Some? ==> forall j | from <= j < r.value :: !(v.st[j] == TxQueued && v.pkt[j].pipe == pipe)
    ensures r.None? ==> forall j | from <= j < |v.st| :: !(v.st[j] == TxQueued && v.pkt[j].pipe == pipe)
    decreases |v.st| - from
  {
    if from == |v.st| then None
    else if v.st[from] == TxQueued && v.pkt[from].pipe == pipe then Some(from)
    else FirstQueuedFor(v, pipe, from + 1)
  }

  /** `r` is the lowest buffer queued for `pipe`, or none is. */
  ghost predicate IsNextFor(v: Pool, pipe: nat, r: Option<nat>)
    requires Wf(v)
  {
    match r
    case None => forall j | 0 <= j < |v.st| :: !(v.st[j] == TxQueued && v.pkt[j].pipe == pipe)
    case Some(i) =>
      && i < |v.st| && v.st[i] == TxQueued && v.pkt[i].pipe == pipe
      && forall j | 0 <= j < i :: !(v.st[j] == TxQueued && v.pkt[j].pipe == pipe)
  }

  function SetState(v: Pool, i: nat, s: BufferState): Pool
    requires i < |v.st|
  {
    v.(st := v.st[i := s])
  }

  function Write(v: Pool, i: nat, p: Packet): Pool
    requires i < |v.pkt|
  {
    v.(pkt := v.pkt[i := p])
  }

  /** Claim the lowest buffer in state `was` for `now`; the shape of every allocation. */
  function Claim(v: Pool, was: BufferState, now: BufferState): (Pool, Option<nat>) {
    match FirstFrom(v.st, was, 0)
    case None => (v, None)
    case Some(i) => (SetState(v, i, now), Some(i))
  }

  function AllocTx(v: Pool): (Pool, Option<nat>) {
    Claim(v, Free, TxAllocated)
  }

  function AllocDma(v: Pool): (Pool, Option<nat>) {
    Claim(v, Free, InDma)
  }

  function DequeueTx(v: Pool): (Pool, Option<nat>) {
    Claim(v, TxQueued, InDma)
  }

  function DequeueTxFor(v: Pool, pipe: nat): (Pool, Option<nat>)
    requires Wf(v)
  {
    match FirstQueuedFor(v, pipe, 0)
    case None => (v, None)
    case Some(i) => (SetState(v, i, InDma), Some(i))
  }

  /** `enqueue_tx`: a compare-exchange, so anything but an allocated buffer is left alone. */
  function EnqueueTx(v: Pool, i: nat): Pool
    requires i < |v.st|
  {
    if v.st[i] == TxAllocated then SetState(v, i, TxQueued) else v
  }

  function Release(v: Pool, i: nat): Pool
    requires i < |v.st|
  {
    SetState(v, i, Free)
  }

  /** `rx_complete`: the `try_send` result is ignored, so a full channel loses the index. */
  function RxComplete(v: Pool, i: nat): Pool
    requires Wf(v) && i < |v.st|
  {
    SetState(v, i, RxQueued).(
    rxq := if |v.rxq| < |v.st| then v.rxq + [i] else v.rxq,
    completed := v.completed + [v.pkt[i]])
  }

  function TryReceive(v: Pool): (Pool, Option<nat>) {
    if v.rxq == [] then (v, None) else (v.(rxq := v.rxq[1..]), Some(v.rxq[0]))
  }

  function DiscardReceived(v: Pool): (r: (Pool, nat))
    requires forall k | 0 <= k < |v.rxq| :: v.rxq[k] < |v.st|
    ensures r.1 == |v.rxq| && |r.0.st| == |v.st|
    decreases |v.rxq|
  {
    if v.rxq == [] then (v, 0)
    else
      var rest := DiscardReceived(Release(v.(rxq := v.rxq[1..]), v.rxq[0]));
      (rest.0, rest.1 + 1)
  }

  /** The engines never queue a transmit buffer, and never touch one they leave queued. */
  ghost predicate QueueOnlyShrinks(v: Pool, w: Pool) {
    && Wf(v) && Wf(w) && |v.st| == |w.st|
    && forall i | 0 <= i < |w.st| && (w.st[i] == TxQueued || w.st[i] == TxAllocated) ::
         v.st[i] == w.st[i] && w.pkt[i] == v.pkt[i]
  }

  // ---- Ownership ----

  ghost predicate Distinct(s: seq<nat>) {
    forall i, j | 0 <= i < j < |s| :: s[i] != s[j]
  }

  /**
   Every buffer has exactly one owner, and its state names that owner: the engine's DMA
   set, the application's received handles or the channel, the application's unsent
   allocations, the transmit queue, or nobody. Channel entries are distinct, and the
   channel holds the most recently completed packets, oldest first.
   */
  ghost predicate Owned(v: Pool, dma: set<nat>, held: set<nat>, alloc: set<nat>) {
    && Wf(v)
    && (forall i | 0 <= i < |v.st| :: v.st[i] == InDma <==> i in dma)
    && (forall i | 0 <= i < |v.st| :: v.st[i] == TxAllocated <==> i in alloc)
    && (forall i | 0 <= i < |v.st| :: v.st[i] == RxQueued <==> (i in held || i in v.rxq))
    && (forall i | i in dma :: i < |v.st|)
    && (forall i | i in alloc :: i < |v.st|)
    && (forall i | i in held :: i < |v.st| && i !in v.rxq)
    && (forall k | 0 <= k < |v.rxq| :: v.rxq[k] < |v.st| && v.st[v.rxq[k]] == RxQueued)
    && Distinct(v.rxq)
    && |v.rxq| <= |v.completed|
    && (forall k | 0 <= k < |v.rxq| :: v.pkt[v.rxq[k]] == v.completed[|v.completed| - |v.rxq| + k])
  }

  lemma OwnedIsWf(v: Pool, dma: set<nat>, held: set<nat>, alloc: set<nat>)
    requires Owned(v, dma, held, alloc)
    ensures Wf(v)
  {
  }

  /** A set of numbers below `n` has at most `n` members. */
  lemma BoundedSet(s: set<nat>, n: nat)
    requires forall i | i in s :: i < n
    ensures |s| <= n
  {
    if n == 0 {
      assert s == {};
    } else {
      BoundedSet(s - {n - 1}, n - 1);
    }
  }

  function Elements(s: seq<nat>): set<nat> {
    set i | i in s
  }

  lemma DistinctCount(s: seq<nat>)
    requires Distinct(s)
    ensures |Elements(s)| == |s|
  {
    if s != [] {
      var rest := s[1..];
      DistinctCount(rest);
      assert s == [s[0]] + rest;
      assert s[0] !in rest;
      assert s[0] !in Elements(rest);
      assert Elements(s) == Elements(rest) + {s[0]};
    }
  }

  /**
   The channel never overflows: an index still outside it always fits, because its
   entries are distinct buffers. This is why the ignored `try_send` cannot fail.
   */
  lemma ChannelHasRoom(v: Pool, dma: set<nat>, held: set<nat>, alloc: set<nat>, i: nat)
    requires Owned(v, dma, held, alloc)
    requires i in dma
    ensures |v.rxq| < |v.st|
  {
    var s := Elements(v.rxq);
    DistinctCount(v.rxq);
    assert v.st[i] == InDma;
    assert i !in s;
    BoundedSet(s + {i}, |v.st|);
    assert |s + {i}| == |s| + 1;
  }

  lemma AllocTxOwned(v: Pool, dma: set<nat>, held: set<nat>, alloc: set<nat>)
    requires Owned(v, dma, held, alloc)
    ensures var (w, r) := AllocTx(v);
            match r
            case None => w == v && Free !in v.st
            case Some(i) => i < |v.st| && v.st[i] == Free && Owned(w, dma, held, alloc + {i})
  {
  }

  lemma AllocDmaOwned(v: Pool, dma: set<nat>, held: set<nat>, alloc: set<nat>)
    requires Owned(v, dma, held, alloc)
    ensures var (w, r) := AllocDma(v);
            match r
            case None => w == v && Free !in v.st
            case Some(i) => i < |v.st| && i !in dma && v.st[i] == Free && Owned(w, dma + {i}, held, alloc)
  {
  }

  lemma DequeueOwned(v: Pool, dma: set<nat>, held: set<nat>, alloc: set<nat>)
    requires Owned(v, dma, held, alloc)
    ensures var (w, r) := DequeueTx(v);
            match r
            case None => w == v && TxQueued !in v.st
            case Some(i) => i < |v.st| && i !in dma && v.st[i] == TxQueued && Owned(w, dma + {i}, held, alloc)
  {
  }

  lemma DequeueForOwned(v: Pool, pipe: nat, dma: set<nat>, held: set<nat>, alloc: set<nat>)
    requires Owned(v, dma, held, alloc)
    ensures var (w, r) := DequeueTxFor(v, pipe);
            IsNextFor(v, pipe, r) &&
            match r
            case None => w == v
            case Some(i) => i < |v.st| && i !in dma && v.st[i] == TxQueued && v.pkt[i].pipe == pipe
                            && Owned(w, dma + {i}, held, alloc)
  {
  }

  lemma ReleaseOwned(v: Pool, i: nat, dma: set<nat>, held: set<nat>, alloc: set<nat>)
    requires Owned(v, dma, held, alloc)
    requires i in dma
    ensures Owned(Release(v, i), dma - {i}, held, alloc)
  {
  }

  /** Only the DMA owner writes a buffer, so no completed packet is disturbed. */
  lemma WriteOwned(v: Pool, i: nat, p: Packet, dma: set<nat>, held: set<nat>, alloc: set<nat>)
    requires Owned(v, dma, held, alloc)
    requires i in dma || i in alloc
    ensures Owned(Write(v, i, p), dma, held, alloc)
  {
  }

  lemma RxCompleteOwned(v: Pool, i: nat, dma: set<nat>, held: set<nat>, alloc: set<nat>)
    requires Owned(v, dma, held, alloc)
    requires i in dma
    ensures Owned(RxComplete(v, i), dma - {i}, held, alloc)
    ensures RxComplete(v, i).rxq == v.rxq + [i]
  {
    ChannelHasRoom(v, dma, held, alloc, i);
    NotInChannel(v, dma, held, alloc, i);
    AppendMembers(v.rxq, i);
    CompletedContents(v, i);
    hide Distinct;
    var w := RxComplete(v, i);
    assert w.st == v.st[i := RxQueued] && w.pkt == v.pkt && w.rxq == v.rxq + [i];
    hide RxComplete;
  }

  lemma NotInChannel(v: Pool, dma: set<nat>, held: set<nat>, alloc: set<nat>, i: nat)
    requires Owned(v, dma, held, alloc) && i in dma
    ensures i < |v.st| && v.st[i] == InDma && i !in v.rxq && i !in held && i !in alloc
  {
    hide Distinct;
  }

  /** Appending a buffer and its packet keeps the channel the tail of the completion history. */
  lemma CompletedContents(v: Pool, i: nat)
    requires Wf(v) && i < |v.st| && |v.rxq| <= |v.completed|
    requires forall k | 0 <= k < |v.rxq| :: v.rxq[k] < |v.st|
    requires forall k | 0 <= k < |v.rxq| :: v.pkt[v.rxq[k]] == v.completed[|v.completed| - |v.rxq| + k]
    ensures var q, done := v.rxq + [i], v.completed + [v.pkt[i]];
            forall k | 0 <= k < |q| :: q[k] < |v.st| && v.pkt[q[k]] == done[|done| - |q| + k]
  {
  }

  lemma EnqueueOwned(v: Pool, i: nat, dma: set<nat>, held: set<nat>, alloc: set<nat>)
    requires Owned(v, dma, held, alloc)
    requires i in alloc
    ensures Owned(EnqueueTx(v, i), dma, held, alloc - {i})
  {
  }

  lemma TailMembers(s: seq<nat>)
    requires s != [] && Distinct(s)
    ensures forall k: nat :: k in s[1..] <==> k in s && k != s[0]
    ensures Distinct(s[1..])
  {
    forall k: nat | k in s && k != s[0]
      ensures k in s[1..]
    {
      var j :| 0 <= j < |s| && s[j] == k;
      assert s[1..][j - 1] == k;
    }
  }

  lemma AppendMembers(s: seq<nat>, i: nat)
    requires i !in s && Distinct(s)
    ensures forall k: nat :: k in s + [i] <==> k in s || k == i
    ensures Distinct(s + [i])
  {
  }

  /** Taking a handle from the channel yields the oldest undelivered completed packet. */
  lemma ReceiveOwned(v: Pool, dma: set<nat>, held: set<nat>, alloc: set<nat>)
    requires Owned(v, dma, held, alloc)
    ensures var (w, r) := TryReceive(v);
            match r
            case None => w == v
            case Some(i) => i < |v.st| && Owned(w, dma, held + {i}, alloc)
                            && v.pkt[i] == v.completed[|v.completed| - |v.rxq|]
  {
    if v.rxq != [] {
      TailMembers(v.rxq);
      var i := v.rxq[0];
      assert v.rxq[0] in v.rxq;
      hide Distinct;
      var w := v.(rxq := v.rxq[1..]);
      assert |w.rxq| == |v.rxq| - 1;
      forall k | 0 <= k < |w.rxq|
        ensures w.rxq[k] < |v.st| && v.st[w.rxq[k]] == RxQueued
        ensures v.pkt[w.rxq[k]] == v.completed[|v.completed| - |w.rxq| + k]
      {
        assert w.rxq[k] == v.rxq[k + 1];
      }
    }
  }

  lemma DropOwned(v: Pool, i: nat, dma: set<nat>, held: set<nat>, alloc: set<nat>)
    requires Owned(v, dma, held, alloc)
    requires i in held
    ensures Owned(Release(v, i), dma, held - {i}, alloc)
  {
  }

  /** `discard_received` empties the channel and frees exactly the buffers it held. */
  lemma {:induction false} DiscardOwned(v: Pool, dma: set<nat>, held: set<nat>, alloc: set<nat>)
    requires Owned(v, dma, held, alloc)
    ensures Owned(DiscardReceived(v).0, dma, held, alloc)
    ensures DiscardReceived(v).0.rxq == []
    decreases |v.rxq|
  {
    if v.rxq != [] {
      ReceiveOwned(v, dma, held, alloc);
      var (w, r) := TryReceive(v);
      DropOwned(w, r.value, dma, held + {r.value}, alloc);
      assert v.rxq[0] in v.rxq;
      assert held + {r.value} - {r.value} == held;
      DiscardOwned(Release(w, r.value), dma, held, alloc);
    }
  }

  lemma EmptyPoolOwned(n: nat)
    ensures Owned(EmptyPool(n), {}, {}, {})
  {
  }
}
