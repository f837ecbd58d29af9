/**
 The application side of a packet pool (src/isr.rs): sending fills an allocated buffer
 and queues it, receiving takes a completed buffer, dropping the handle frees it. The
 RADIO interrupt can run between any two of these steps.
 */
module AppModel {
  import opened Wrappers
  import opened PoolModel

  /** Buffers the application owns: handles of received packets, and sends not yet queued. */
  datatype App = App(held: set<nat>, alloc: set<nat>)

  const IDLE_APP := App({}, {})

  datatype AppAction =
    | BeginSend(pipe: nat, noAck: bool, payload: seq<nat>)
    | FinishSend(i: nat)
    | Receive
    | DropHandle(i: nat)

  /** `send_to`, `send_no_ack_to`, `send_ack_payload`: the argument checks before allocation. */
  predicate ValidSend(pipe: nat, payload: seq<nat>, maxLen: nat) {
    pipe < 8 && 0 < |payload| <= maxLen
  }

  function AppStep(v: Pool, app: App, a: AppAction, maxLen: nat): (Pool, App)
    requires Wf(v)
  {
    match a
    case BeginSend(pipe, noAck, payload) =>
      if !ValidSend(pipe, payload, maxLen) then (v, app)
      else
        var (w, r) := AllocTx(v);
        if r.None? then (v, app)
        else
          var i := r.value;
          (Write(w, i, w.pkt[i].(pipe := pipe, noAck := noAck, payload := payload)), app.(alloc := app.alloc + {i}))
    case FinishSend(i) =>
      if i in app.alloc && i < |v.st| then (EnqueueTx(v, i), app.(alloc := app.alloc - {i})) else (v, app)
    case Receive =>
      var (w, r) := TryReceive(v);
      if r.None? then (v, app) else (w, app.(held := app.held + {r.value}))
    case DropHandle(i) =>
      if i in app.held && i < |v.st| then (Release(v, i), app.(held := app.held - {i})) else (v, app)
  }

  /** What the application cannot touch: buffers in DMA or queued, and the completion history. */
  ghost predicate Undisturbed(v: Pool, w: Pool) {
    && Wf(v) && Wf(w) && |v.st| == |w.st| && v.completed == w.completed
    && forall i | 0 <= i < |v.st| && (v.st[i] == InDma || v.st[i] == TxQueued) ::
         w.st[i] == v.st[i] && w.pkt[i] == v.pkt[i]
  }

  lemma AppStepOwned(v: Pool, app: App, a: AppAction, maxLen: nat, dma: set<nat>)
    requires Owned(v, dma, app.held, app.alloc)
    ensures var (w, app') := AppStep(v, app, a, maxLen);
            Owned(w, dma, app'.held, app'.alloc) && Undisturbed(v, w)
  {
    match a
    case BeginSend(pipe, noAck, payload) =>
      AllocTxOwned(v, dma, app.held, app.alloc);
      var (w, r) := AllocTx(v);
      if ValidSend(pipe, payload, maxLen) && r.Some? {
        var i := r.value;
        WriteOwned(w, i, w.pkt[i].(pipe := pipe, noAck := noAck, payload := payload),
                   dma, app.held, app.alloc + {i});
      }
    case FinishSend(i) =>
      if i in app.alloc {
        EnqueueOwned(v, i, dma, app.held, app.alloc);
      }
    case Receive =>
      ReceiveOwned(v, dma, app.held, app.alloc);
    case DropHandle(i) =>
      if i in app.held {
        DropOwned(v, i, dma, app.held, app.alloc);
      }
  }

  lemma AppStepUndisturbed(v: Pool, app: App, a: AppAction, maxLen: nat)
    requires Wf(v)
    ensures var w := AppStep(v, app, a, maxLen).0; Wf(w) && |w.st| == |v.st|
  {
  }

  /** A buffer waiting to be sent was waiting before, unchanged, unless this very call filled it. */
  lemma AppStepUnsent(v: Pool, app: App, a: AppAction, maxLen: nat, i: nat)
    requires Wf(v) && i < |v.st|
    ensures var w := AppStep(v, app, a, maxLen).0;
            var fills := a.BeginSend? && ValidSend(a.pipe, a.payload, maxLen) && AllocTx(v).1 == Some(i);
            && Wf(w) && |w.st| == |v.st|
            && (w.st[i] == TxAllocated || w.st[i] == TxQueued ==>
                  if fills then v.st[i] == Free
                  else (v.st[i] == TxAllocated || v.st[i] == TxQueued) && w.pkt[i] == v.pkt[i])
            && (fills ==>
                  && w.st[i] == TxAllocated
                  && w.pkt[i].pipe == a.pipe && w.pkt[i].noAck == a.noAck && w.pkt[i].payload == a.payload)
  {
  }
}
