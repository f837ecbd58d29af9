/**
 What the PTX application asked for, and which of it went out. A send claims a buffer,
 fills it and queues it later; a packet is dequeued later still. The log follows the sends
 through their buffers, so that what is on the air can be compared with the calls.
 */
module Sends {
  import opened Wrappers
  import opened PoolModel
  import opened AppModel
  import opened TimerModel
  import opened PtxModel

  /** The arguments of a send. */
  datatype Send = Send(pipe: nat, noAck: bool, payload: seq<nat>)

  /** The part of a packet that a send asks for. */
  function SendOf(p: Packet): Send {
    Send(p.pipe, p.noAck, p.payload)
  }

  /** All sends that got a buffer; the buffers that hold one; which send each dequeued packet was. */
  datatype Log = Log(asked: seq<Send>, tag: map<nat, nat>, took: seq<nat>)

  const EMPTY_LOG := Log([], map[], [])

  predicate Asks(v: Pool, call: AppAction, maxLen: nat) {
    call.BeginSend? && ValidSend(call.pipe, call.payload, maxLen) && AllocTx(v).1.Some?
  }

  function LogCall(log: Log, v: Pool, call: AppAction, maxLen: nat): Log {
    if Asks(v, call, maxLen) then
      log.(asked := log.asked + [Send(call.pipe, call.noAck, call.payload)],
      tag := log.tag[AllocTx(v).1.value := |log.asked|])
    else log
  }

  /** An engine step that dequeued a packet took the send its buffer holds. */
  function LogEngine(log: Log, before: Sys, after: Sys): Log {
    if |after.ptx.sent| > |before.ptx.sent| && after.ptx.txIdx.Some? && after.ptx.txIdx.value in log.tag
    then log.(took := log.took + [log.tag[after.ptx.txIdx.value]])
    else log
  }

  predicate Waiting(st: BufferState) {
    st == TxAllocated || st == TxQueued
  }

  ghost predicate AllDifferent(s: seq<nat>) {
    forall i, k | 0 <= i < k < |s| :: s[i] != s[k]
  }

  /** Every buffer with an unsent packet holds a send of its own, none of which was dequeued. */
  ghost predicate HeldInv(log: Log, v: Pool) {
    && Wf(v)
    && (forall i: nat | i < |v.st| && Waiting(v.st[i]) ::
          && i in log.tag && log.tag[i] < |log.asked| && log.asked[log.tag[i]] == SendOf(v.pkt[i])
          && log.tag[i] !in log.took)
    && (forall i: nat, j: nat | i < j < |v.st| && Waiting(v.st[i]) && Waiting(v.st[j]) ::
          i in log.tag && j in log.tag && log.tag[i] != log.tag[j])
  }

  /** Every dequeued packet is one of the sends, unchanged, and no two are the same one. */
  ghost predicate TookInv(log: Log, sent: seq<Packet>) {
    && |log.took| == |sent| && AllDifferent(log.took)
    && forall k | 0 <= k < |sent| :: log.took[k] < |log.asked| && log.asked[log.took[k]] == SendOf(sent[k])
  }

  ghost predicate LogInv(log: Log, s: Sys) {
    HeldInv(log, s.pool) && TookInv(log, s.ptx.sent)
  }

  /** A valid call with a free buffer fills it with exactly its arguments, and nothing else changes. */
  lemma SendFillsBuffer(v: Pool, app: App, call: AppAction, maxLen: nat)
    requires Wf(v) && Asks(v, call, maxLen)
    ensures var (w, app') := AppStep(v, app, call, maxLen);
            var i := AllocTx(v).1.value;
            && i < |v.st| && v.st[i] == Free && Wf(w) && w.st == v.st[i := TxAllocated]
            && SendOf(w.pkt[i]) == Send(call.pipe, call.noAck, call.payload)
            && (forall j | 0 <= j < |v.st| && j != i :: w.pkt[j] == v.pkt[j])
            && w.rxq == v.rxq && w.completed == v.completed
            && app' == app.(alloc := app.alloc + {i})
  {
  }

  /** What a call refuses: nothing changes. */
  lemma RefusedSend(v: Pool, app: App, call: AppAction, maxLen: nat)
    requires Wf(v) && call.BeginSend? && !Asks(v, call, maxLen)
    ensures AppStep(v, app, call, maxLen) == (v, app)
    ensures Free in v.st ==> !ValidSend(call.pipe, call.payload, maxLen)
  {
  }

  /** Buffers that stay unsent keep their sends. */
  lemma FewerWaiting(log: Log, v: Pool, w: Pool)
    requires HeldInv(log, v) && Wf(w) && |w.st| == |v.st|
    requires forall i: nat | i < |w.st| && Waiting(w.st[i]) :: Waiting(v.st[i]) && w.pkt[i] == v.pkt[i]
    ensures HeldInv(log, w)
  {
    hide Waiting;
  }

  lemma OtherCallKeepsBuffers(v: Pool, app: App, call: AppAction, maxLen: nat)
    requires Wf(v) && !Asks(v, call, maxLen)
    ensures var w := AppStep(v, app, call, maxLen).0;
            && Wf(w) && |w.st| == |v.st|
            && forall i: nat | i < |w.st| && Waiting(w.st[i]) :: Waiting(v.st[i]) && w.pkt[i] == v.pkt[i]
  {
  }

  lemma MoreAsked(log: Log, x: Send, v: Pool, w: Pool, i: nat)
    requires HeldInv(log, v) && Wf(w) && |w.st| == |v.st| && i < |v.st| && SendOf(w.pkt[i]) == x
    requires forall k | 0 <= k < |log.took| :: log.took[k] < |log.asked|
    requires forall j: nat | j < |w.st| && Waiting(w.st[j]) && j != i :: Waiting(v.st[j]) && w.pkt[j] == v.pkt[j]
    ensures HeldInv(Log(log.asked + [x], log.tag[i := |log.asked|], log.took), w)
  {
    hide Waiting;
  }

  lemma CallLogged(log: Log, s: Sys, app: App, call: AppAction, maxLen: nat)
    requires LogInv(log, s)
    ensures var w := AppStep(s.pool, app, call, maxLen).0;
            LogInv(LogCall(log, s.pool, call, maxLen), s.(pool := w))
  {
    hide AppStep, HeldInv;
    HeldIsWf(log, s.pool);
    var w := AppStep(s.pool, app, call, maxLen).0;
    if Asks(s.pool, call, maxLen) {
      var i := AllocTx(s.pool).1.value;
      SendFillsBuffer(s.pool, app, call, maxLen);
      MoreAsked(log, Send(call.pipe, call.noAck, call.payload), s.pool, w, i);
    } else {
      OtherCallKeepsBuffers(s.pool, app, call, maxLen);
      FewerWaiting(log, s.pool, w);
    }
  }

  lemma HeldIsWf(log: Log, v: Pool)
    requires HeldInv(log, v)
    ensures Wf(v)
  {
  }

  /** The send of a buffer that leaves the queue is taken by nobody else. */
  lemma TakenOnce(log: Log, v: Pool, w: Pool, i: nat)
    requires HeldInv(log, v) && HeldInv(log, w) && |w.st| == |v.st|
    requires i < |v.st| && Waiting(v.st[i]) && !Waiting(w.st[i])
    requires forall j: nat | j < |w.st| && Waiting(w.st[j]) :: Waiting(v.st[j])
    ensures HeldInv(log.(took := log.took + [log.tag[i]]), w)
  {
    forall j: nat | j < |w.st| && Waiting(w.st[j])
      ensures log.tag[j] != log.tag[i]
    {
      var a, b := if i < j then i else j, if i < j then j else i;
      assert Waiting(v.st[a]) && Waiting(v.st[b]) && a < b;
    }
    hide Waiting;
  }

  /** An engine step that takes at most the next packet keeps the log right. */
  lemma EngineLogged(log: Log, s: Sys, r: Sys)
    requires LogInv(log, s) && QueueOnlyShrinks(s.pool, r.pool)
    requires r.ptx.sent == s.ptx.sent || TookNext(s.pool, s.ptx.sent, r)
    ensures LogInv(LogEngine(log, s, r), r)
  {
    assert forall i: nat | i < |r.pool.st| && Waiting(r.pool.st[i]) ::
        Waiting(s.pool.st[i]) && r.pool.pkt[i] == s.pool.pkt[i];
    FewerWaiting(log, s.pool, r.pool);
    if r.ptx.sent != s.ptx.sent {
      var i := r.ptx.txIdx.value;
      assert Waiting(s.pool.st[i]) && !Waiting(r.pool.st[i]);
      TakenOnce(log, s.pool, r.pool, i);
      hide HeldInv, QueueOnlyShrinks;
    }
  }
}
