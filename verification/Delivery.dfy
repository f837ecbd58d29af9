/**
 What a link promises, for every run: every packet at most once and in order, exactly
 when an acknowledged packet is delivered, and how ACK payloads travel.
 */
module Delivery {
  import opened Wrappers
  import opened PoolModel
  import opened Acceptance
  import opened LinkModel
  import opened LinkInvariant
  import opened LinkFrames
  import P = PtxModel
  import R = PrxModel

  /** Packet `n` was acknowledged to the PTX. */
  ghost predicate IsAcked(l: Link, n: nat) {
    n < |l.ptx.ptx.fates| && l.ptx.ptx.fates[n].Acked?
  }

  /** Packet `n` was queued to the PRX application. */
  ghost predicate IsDelivered(l: Link, n: nat) {
    n in l.del
  }

  lemma LinkDelivered(l: Link, crc: Crc)
    requires LinkInv(l, crc)
    ensures DeliveredInv(l) && AckedInv(l) && Accepting(l, crc) && P.CountInv(l.ptx.ptx)
  {
    hide Owned, OfferInv, AcksInv, CarriedInv, Verdicts, FilterMatches;
    hide P.AirInv, P.FateInv, DeliveredInv, AckedInv, AccWf;
  }

  lemma DeliveredIncreases(acc: seq<Accepted>, del: seq<nat>, pending: seq<nat>)
    requires Nums(acc) == del + pending && forall i, k | 0 <= i < k < |acc| :: acc[i].num < acc[k].num
    ensures Increasing(del)
  {
    forall i, k | 0 <= i < k < |del|
      ensures del[i] < del[k]
    {
      assert del[i] == Nums(acc)[i] && del[k] == Nums(acc)[k];
    }
  }

  /** The completed packets are dequeued packets, in dequeue order, none twice, unchanged. */
  lemma AtMostOnceInOrder(c: Setup, actions: seq<Action>)
    ensures var l := Reached(c, actions);
            && |l.prx.pool.completed| == |l.del|
            && Increasing(l.del)
            && forall k | 0 <= k < |l.del| ::
                 l.del[k] < |l.ptx.ptx.sent| && OnAir(l.prx.pool.completed[k]) == OnAir(l.ptx.ptx.sent[l.del[k]])
  {
    hide LinkInv, Reached, Pending, Verdicts, FilterMatches, P.AirInv;
    hide HeardWf, HeardNum, AckedInv, Increasing, P.CountInv, Nums;
    var l := Reached(c, actions);
    ReachedInv(c, actions);
    LinkDelivered(l, c.crc);
    DeliveredIncreases(l.acc, l.del, Pending(l));
  }

  lemma AcceptedIsDelivered(l: Link, n: nat)
    requires DeliveredInv(l)
    ensures IsAccepted(l.acc, n) <==> IsDelivered(l, n) || n in Pending(l)
  {
    hide Pending;
    assert |Nums(l.acc)| == |l.acc|;
    if IsAccepted(l.acc, n) {
      var k :| 0 <= k < |l.acc| && l.acc[k].num == n;
      assert (l.del + Pending(l))[k] == n;
    }
    if n in l.del + Pending(l) {
      var k :| 0 <= k < |Nums(l.acc)| && Nums(l.acc)[k] == n;
      assert l.acc[k].num == n;
    }
  }

  /**
   An acknowledged packet reached the application exactly when it is not shadowed: the
   last packet accepted on its pipe before it has another PID or another CRC.
   */
  lemma AckedDelivered(c: Setup, actions: seq<Action>, n: nat)
    requires IsAcked(Reached(c, actions), n)
    ensures var l := Reached(c, actions);
            n < |l.ptx.ptx.sent| && (IsDelivered(l, n) <==> !Shadowed(c.crc, l.acc, l.ptx.ptx.sent, n))
  {
    var l := Reached(c, actions);
    ReachedInv(c, actions);
    LinkDelivered(l, c.crc);
    hide LinkInv, Reached;
    AcceptedIsDelivered(l, n);
    hide Shadowed, FilterMatches, P.AirInv, HeardWf, HeardNum, DeliveredInv, Pending, AccWf;
  }

  /** What a missing acknowledged packet looks like: an earlier delivered one, 4k before it, same pipe and CRC. */
  lemma MissingMeansCollision(c: Setup, actions: seq<Action>, n: nat)
    requires IsAcked(Reached(c, actions), n) && !IsDelivered(Reached(c, actions), n)
    ensures var l := Reached(c, actions);
            exists m: nat | m < n < |l.ptx.ptx.sent| && IsAccepted(l.acc, m) :: Collide(c, l, m, n)
  {
    AckedDelivered(c, actions, n);
    var l := Reached(c, actions);
    ReachedInv(c, actions);
    LinkDelivered(l, c.crc);
    hide LinkInv, Reached, AckedInv, DeliveredInv;
    ShadowCollides(c, l, n);
  }

  ghost predicate Collide(c: Setup, l: Link, m: nat, n: nat)
    requires m < n < |l.ptx.ptx.sent|
  {
    var sent := l.ptx.ptx.sent;
    && m % 4 == n % 4 && sent[m].pipe == sent[n].pipe
    && c.crc(OnAir(sent[m])) == c.crc(OnAir(sent[n]))
  }

  lemma ShadowCollides(c: Setup, l: Link, n: nat)
    requires Accepting(l, c.crc) && n < |l.ptx.ptx.sent| && Shadowed(c.crc, l.acc, l.ptx.ptx.sent, n)
    ensures var a := LastBelow(l.acc, l.ptx.ptx.sent[n].pipe, n);
            a.Some? && a.value.num < n && IsAccepted(l.acc, a.value.num) && Collide(c, l, a.value.num, n)
  {
    hide Verdicts, FilterMatches, HeardWf, HeardNum;
    var a := LastBelow(l.acc, l.ptx.ptx.sent[n].pipe, n).value;
    assert l.ptx.ptx.sent[n].pid == n % 4 && l.ptx.ptx.sent[a.num].pid == a.num % 4;
  }

  /** Of any three consecutive packets, the PRX heard at least one transmission. */
  ghost predicate NoThreeLost(l: Link) {
    forall n: nat | n + 2 < |l.ptx.ptx.sent| ::
      || HeardNum(l.heard, l.ptx.ptx.air, n)
      || HeardNum(l.heard, l.ptx.ptx.air, n + 1)
      || HeardNum(l.heard, l.ptx.ptx.air, n + 2)
  }

  ghost predicate OnePipe(sent: seq<Packet>, p: nat) {
    forall k | 0 <= k < |sent| :: sent[k].pipe == p
  }

  /** On one pipe, a heard packet between a shadow and the packet it shadows is impossible. */
  lemma NothingBetween(c: Setup, l: Link, p: nat, m: nat, n: nat)
    requires Accepting(l, c.crc) && OnePipe(l.ptx.ptx.sent, p)
    requires n < |l.ptx.ptx.sent| && Shadowed(c.crc, l.acc, l.ptx.ptx.sent, n)
    requires var a := LastBelow(l.acc, p, n); a.Some? && a.value.num < m < n && m % 4 != n % 4
    ensures !HeardNum(l.heard, l.ptx.ptx.air, m)
  {
    hide FilterMatches, HeardWf, P.AirInv;
    var a := LastBelow(l.acc, p, n).value;
    if HeardNum(l.heard, l.ptx.ptx.air, m) {
      if IsAccepted(l.acc, m) {
        var k :| 0 <= k < |l.acc| && l.acc[k].num == m;
        LastBelowIsGreatest(l.acc, p, n, k);
        assert false;
      }
      assert Shadowed(c.crc, l.acc, l.ptx.ptx.sent, m);
      forall k | 0 <= k < |l.acc| && l.acc[k].pipe == p
        ensures l.acc[k].num < m <==> l.acc[k].num < n
      {
        if l.acc[k].num < n {
          LastBelowIsGreatest(l.acc, p, n, k);
        }
      }
      LastBelowBound(l.acc, p, m, n);
      ShadowPid(c, l, m);
      ShadowPid(c, l, n);
      assert false;
    }
  }

  lemma ShadowPid(c: Setup, l: Link, n: nat)
    requires Accepting(l, c.crc) && n < |l.ptx.ptx.sent| && Shadowed(c.crc, l.acc, l.ptx.ptx.sent, n)
    ensures LastBelow(l.acc, l.ptx.ptx.sent[n].pipe, n).value.num % 4 == n % 4
  {
    ShadowCollides(c, l, n);
  }

  /** On one pipe, a shadowed packet follows at least three wholly unheard ones. */
  lemma ShadowNeedsThreeLost(c: Setup, l: Link, p: nat, n: nat)
    requires Accepting(l, c.crc) && OnePipe(l.ptx.ptx.sent, p) && n < |l.ptx.ptx.sent|
    requires Shadowed(c.crc, l.acc, l.ptx.ptx.sent, n)
    ensures !NoThreeLost(l)
  {
    hide Shadowed, Accepting, HeardNum;
    FourApart(c, l, p, n);
    NothingBetween(c, l, p, n - 3, n);
    NothingBetween(c, l, p, n - 2, n);
    NothingBetween(c, l, p, n - 1, n);
    hide OnePipe;
    assert !HeardNum(l.heard, l.ptx.ptx.air, n - 3 + 1) && !HeardNum(l.heard, l.ptx.ptx.air, n - 3 + 2);
  }

  lemma FourApart(c: Setup, l: Link, p: nat, n: nat)
    requires Accepting(l, c.crc) && OnePipe(l.ptx.ptx.sent, p) && n < |l.ptx.ptx.sent|
    requires Shadowed(c.crc, l.acc, l.ptx.ptx.sent, n)
    ensures LastBelow(l.acc, p, n).Some? && LastBelow(l.acc, p, n).value.num + 4 <= n
  {
    hide Shadowed, Accepting, LastBelow;
    ShadowCollides(c, l, n);
  }

  lemma OnceInIncreasing(s: seq<nat>, n: nat)
    requires Increasing(s) && n in s
    ensures exists k :: 0 <= k < |s| && s[k] == n && forall j | 0 <= j < |s| && j != k :: s[j] != n
  {
    var k :| 0 <= k < |s| && s[k] == n;
    forall j | 0 <= j < |s| && j != k
      ensures s[j] != n
    {
      var a, b := if j < k then j else k, if j < k then k else j;
      assert s[a] < s[b];
    }
  }

  /**
   Exactly once under bounded loss: with one pipe, and no three consecutive packets wholly
   unheard, every acknowledged packet is queued to the PRX application, once.
   */
  lemma ExactlyOnce(c: Setup, actions: seq<Action>, p: nat, n: nat)
    requires var l := Reached(c, actions);
             OnePipe(l.ptx.ptx.sent, p) && NoThreeLost(l) && IsAcked(l, n)
    ensures var l := Reached(c, actions);
            exists k :: 0 <= k < |l.del| && l.del[k] == n && forall j | 0 <= j < |l.del| && j != k :: l.del[j] != n
  {
    var l := Reached(c, actions);
    hide LinkInv, Reached, Shadowed, Accepting, NoThreeLost, OnePipe;
    AckedDelivered(c, actions, n);
    AtMostOnceInOrder(c, actions);
    ReachedInv(c, actions);
    LinkDelivered(l, c.crc);
    if Shadowed(c.crc, l.acc, l.ptx.ptx.sent, n) {
      ShadowNeedsThreeLost(c, l, p, n);
      assert false;
    }
    OnceInIncreasing(l.del, n);
  }

  /** With no collision at all, any number of pipes and any loss is safe. */
  lemma ExactlyOnceWithoutCollision(c: Setup, actions: seq<Action>, n: nat)
    requires var l := Reached(c, actions);
             && IsAcked(l, n)
             && forall m: nat | m < n < |l.ptx.ptx.sent| :: !Collide(c, l, m, n)
    ensures IsDelivered(Reached(c, actions), n)
  {
    if !IsDelivered(Reached(c, actions), n) {
      MissingMeansCollision(c, actions, n);
    }
  }

  /**
   A payload put into an ACK was offered for the pipe of the packet it answers, that
   packet was accepted on that pipe, and neither the payload nor the packet occurs in
   another ACK with a payload.
   */
  lemma AckPayloadsArePipeSafe(c: Setup, actions: seq<Action>, k: nat)
    requires k < |Reached(c, actions).acks|
    ensures var l := Reached(c, actions);
            var a := l.acks[k];
            && a.ordinal < |l.offered| && l.offered[a.ordinal].pipe == a.pipe
            && (exists j :: 0 <= j < |l.acc| && l.acc[j].num == a.num && l.acc[j].pipe == a.pipe)
            && forall i | 0 <= i < |l.acks| && i != k :: l.acks[i].ordinal != a.ordinal && l.acks[i].num != a.num
  {
    var l := Reached(c, actions);
    ReachedInv(c, actions);
    hide Reached, AcceptInv, OfferInv, MachinesInv;
    assert Answers(l.acks[k], l.acc);
    forall i | 0 <= i < |l.acks| && i != k
      ensures l.acks[i].ordinal != l.acks[k].ordinal && l.acks[i].num != l.acks[k].num
    {
      var a, b := if i < k then i else k, if i < k then k else i;
      assert l.acks[a].ordinal != l.acks[b].ordinal && l.acks[a].num < l.acks[b].num;
    }
  }

  /** The PTX application gets sent ACK payloads, each at most once, in the order they were sent. */
  lemma AckPayloadsAtMostOnce(c: Setup, actions: seq<Action>)
    ensures var l := Reached(c, actions);
            && |l.ptx.pool.completed| == |l.got| && Increasing(l.got)
            && forall i | 0 <= i < |l.got| ::
                 && l.got[i] < |l.acks| && l.acks[l.got[i]].ordinal < |l.offered|
                 && l.ptx.pool.completed[i].payload == l.offered[l.acks[l.got[i]].ordinal].payload
  {
    var l := Reached(c, actions);
    ReachedInv(c, actions);
    hide Reached, AcceptInv, OfferInv, MachinesInv, DeliveredInv, AckedInv;
  }

  /** PID discipline: every transmission of the k-th dequeued packet carries PID k mod 4 and the same contents. */
  lemma PidDiscipline(c: Setup, actions: seq<Action>)
    ensures var x := Reached(c, actions).ptx.ptx;
            && x.pid == |x.fates| % 4
            && forall j | 0 <= j < |x.air| ::
                 && x.air[j].num < |x.sent| && x.air[j].pkt == x.sent[x.air[j].num]
                 && x.air[j].pkt.pid == x.air[j].num % 4
  {
    ReachedInv(c, actions);
    hide Reached, AcceptInv, OfferInv, DeliveredInv, AckedInv, Owned, AcksInv, CarriedInv, R.Inv;
  }

  /** The retry budget: no packet suffers more failed ACK waits than its limit, and a dropped one exactly that many. */
  lemma RetryBudget(c: Setup, actions: seq<Action>, n: nat)
    requires n < |Reached(c, actions).ptx.ptx.fates|
    ensures var x := Reached(c, actions).ptx.ptx;
            n < |x.sent| && P.FateOk(x.fates[n], x.sent[n], P.Limit(x)) && x.failed < P.Limit(x)
  {
    ReachedInv(c, actions);
    hide Reached, AcceptInv, OfferInv, DeliveredInv, AckedInv, Owned, AcksInv, CarriedInv, R.Inv;
  }

  /** Single ownership, PTX: in DMA are the packet in flight and, in WaitAck, the ACK buffer; nothing else. */
  lemma PtxBuffersHaveOneOwner(c: Setup, actions: seq<Action>)
    ensures var l := Reached(c, actions);
            var x := l.ptx.ptx;
            && Owned(l.ptx.pool, P.DmaSet(x), l.ptxApp.held, l.ptxApp.alloc)
            && (forall i: nat | i < |l.ptx.pool.st| ::
                  l.ptx.pool.st[i] == InDma <==>
                  x.txIdx == Some(i) || (x.state == P.WaitAck && x.ackRxIdx == Some(i)))
            && (x.state == P.WaitAck ==> x.txIdx.Some? && x.ackRxIdx.Some? && x.ackRxIdx != x.txIdx)
  {
    ReachedInv(c, actions);
    hide Reached, AcceptInv, OfferInv, DeliveredInv, AckedInv, AcksInv, CarriedInv, R.Inv;
    hide P.AirInv, P.FateInv, P.BufferInv, P.CountInv, Distinct;
  }

  /** Single ownership, PRX: the three indices are distinct, each set exactly in its state. */
  lemma PrxBuffersHaveOneOwner(c: Setup, actions: seq<Action>)
    ensures var l := Reached(c, actions);
            var x := l.prx.prx;
            && Owned(l.prx.pool, R.DmaSet(x), l.prxApp.held, l.prxApp.alloc)
            && (forall i: nat | i < |l.prx.pool.st| ::
                  l.prx.pool.st[i] == InDma <==>
                  x.rxIdx == Some(i) || x.pendingRxIdx == Some(i) || x.ackTxIdx == Some(i))
            && (x.state == R.Receiver <==> x.rxIdx.Some?) && (x.state == R.TxAck <==> x.pendingRxIdx.Some?)
            && (x.ackTxIdx.Some? ==> x.pendingRxIdx.Some? && x.ackTxIdx != x.pendingRxIdx)
  {
    ReachedInv(c, actions);
    hide Reached, AcceptInv, OfferInv, DeliveredInv, AckedInv, AcksInv, CarriedInv, P.Inv, Distinct;
  }
}
