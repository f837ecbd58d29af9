/**
 What the duplicate filter of the PRX (src/radio.rs) accepts out of a stream of heard
 transmissions. Packets carry their number in the dequeue order of the PTX; the filter
 only ever sees pipe, PID and CRC.
 */
module Acceptance {
  import opened Wrappers
  import opened PoolModel
  import opened PtxModel
  import R = PrxModel

  /** A 16-bit CRC is some function of everything on the air: address (pipe), header and payload. */
  type Crc = Packet -> nat

  /** The part of a buffer that is on the air. */
  function OnAir(p: Packet): Packet {
    p.(rssi := 0)
  }

  /** What the filter remembers of a packet. */
  function SeenOf(crc: Crc, p: Packet): R.Seen {
    R.Seen(p.pid, crc(OnAir(p)))
  }

  datatype Accepted = Accepted(num: nat, pipe: Pipe, seen: R.Seen)

  /** The last acceptance on `pipe` among packets numbered below `n`. */
  function LastBelow(acc: seq<Accepted>, pipe: nat, n: nat): (r: Option<Accepted>)
    ensures r.Some? ==> r.value in acc && r.value.pipe == pipe && r.value.num < n
  {
    if acc == [] then None
    else
      var a := acc[|acc| - 1];
      if a.pipe == pipe && a.num < n then Some(a) else LastBelow(acc[..|acc| - 1], pipe, n)
  }

  /**
   Packet `n` is shadowed: when it is first heard, the last packet accepted on its pipe
   has the same PID and CRC, so the filter takes it for a repeat of that one.
   */
  ghost predicate Shadowed(crc: Crc, acc: seq<Accepted>, sent: seq<Packet>, n: nat)
    requires n < |sent|
  {
    match LastBelow(acc, sent[n].pipe, n)
    case None => false
    case Some(a) => a.seen == SeenOf(crc, sent[n])
  }

  ghost predicate IsAccepted(acc: seq<Accepted>, n: nat) {
    exists k | 0 <= k < |acc| :: acc[k].num == n
  }

  /** Acceptances are in packet order, each describing the packet of its number. */
  ghost predicate AccWf(crc: Crc, acc: seq<Accepted>, sent: seq<Packet>) {
    && (forall k | 0 <= k < |acc| :: acc[k].num < |sent|)
    && (forall k | 0 <= k < |acc| ::
          acc[k] == Accepted(acc[k].num, sent[acc[k].num].pipe, SeenOf(crc, sent[acc[k].num])))
    && (forall i, k | 0 <= i < k < |acc| :: acc[i].num < acc[k].num)
  }

  /** Transmissions handled so far, in order, and each within the air log. */
  ghost predicate HeardWf(heard: seq<nat>, air: seq<AirFrame>) {
    && (forall k | 0 <= k < |heard| :: heard[k] < |air|)
    && (forall i, k | 0 <= i < k < |heard| :: heard[i] < heard[k])
  }

  ghost predicate HeardNum(heard: seq<nat>, air: seq<AirFrame>, n: nat) {
    exists k | 0 <= k < |heard| :: heard[k] < |air| && air[heard[k]].num == n
  }

  /** Every heard packet is accepted exactly when it is not shadowed. */
  ghost predicate Verdicts(crc: Crc, acc: seq<Accepted>, sent: seq<Packet>, air: seq<AirFrame>, heard: seq<nat>) {
    forall n | 0 <= n < |sent| && HeardNum(heard, air, n) :: IsAccepted(acc, n) <==> !Shadowed(crc, acc, sent, n)
  }

  ghost predicate FilterMatches(filter: seq<Option<R.Seen>>, acc: seq<Accepted>, bound: nat) {
    && |filter| == R.NUM_PIPES
    && forall q | 0 <= q < R.NUM_PIPES ::
         filter[q] == (match LastBelow(acc, q, bound) case None => None case Some(a) => Some(a.seen))
  }

  ghost predicate AcceptInv(crc: Crc, sent: seq<Packet>, air: seq<AirFrame>, heard: seq<nat>,
                            acc: seq<Accepted>, filter: seq<Option<R.Seen>>) {
    && AirInv(sent, air)
    && HeardWf(heard, air)
    && AccWf(crc, acc, sent)
    && (forall k | 0 <= k < |acc| :: HeardNum(heard, air, acc[k].num))
    && Verdicts(crc, acc, sent, air, heard)
    && FilterMatches(filter, acc, |sent|)
  }

  lemma {:induction false} AirMonotone(sent: seq<Packet>, air: seq<AirFrame>, i: nat, j: nat)
    requires AirInv(sent, air) && i <= j < |air|
    ensures air[i].num <= air[j].num
    decreases j - i
  {
    if i < j {
      AirMonotone(sent, air, i, j - 1);
    }
  }

  /** When all acceptances on `pipe` lie below both bounds, the bounds do not matter. */
  lemma {:induction false} LastBelowBound(acc: seq<Accepted>, pipe: nat, m: nat, n: nat)
    requires forall k | 0 <= k < |acc| && acc[k].pipe == pipe :: acc[k].num < m <==> acc[k].num < n
    ensures LastBelow(acc, pipe, m) == LastBelow(acc, pipe, n)
  {
    if acc != [] {
      LastBelowBound(acc[..|acc| - 1], pipe, m, n);
    }
  }

  /** `LastBelow` is the greatest acceptance on the pipe below the bound. */
  lemma {:induction false} LastBelowIsGreatest(acc: seq<Accepted>, pipe: nat, n: nat, k: nat)
    requires forall i, j | 0 <= i < j < |acc| :: acc[i].num < acc[j].num
    requires k < |acc| && acc[k].pipe == pipe && acc[k].num < n
    ensures LastBelow(acc, pipe, n).Some? && acc[k].num <= LastBelow(acc, pipe, n).value.num
  {
    var last := acc[|acc| - 1];
    if !(last.pipe == pipe && last.num < n) {
      LastBelowIsGreatest(acc[..|acc| - 1], pipe, n, k);
    }
  }

  lemma LastBelowAppend(acc: seq<Accepted>, a: Accepted, pipe: nat, n: nat)
    ensures LastBelow(acc + [a], pipe, n) ==
            if a.pipe == pipe && a.num < n then Some(a) else LastBelow(acc, pipe, n)
  {
    assert (acc + [a])[..|acc|] == acc;
  }

  lemma ShadowedAppend(crc: Crc, acc: seq<Accepted>, a: Accepted, sent: seq<Packet>, n: nat)
    requires n < |sent| && n <= a.num
    ensures Shadowed(crc, acc + [a], sent, n) == Shadowed(crc, acc, sent, n)
  {
    LastBelowAppend(acc, a, sent[n].pipe, n);
  }

  lemma HeardAppend(heard: seq<nat>, air: seq<AirFrame>, s: nat, n: nat)
    requires s < |air|
    ensures HeardNum(heard + [s], air, n) <==> HeardNum(heard, air, n) || air[s].num == n
  {
    var h := heard + [s];
    if HeardNum(heard, air, n) {
      var k :| 0 <= k < |heard| && heard[k] < |air| && air[heard[k]].num == n;
      assert h[k] == heard[k];
    }
    assert h[|heard|] == s;
  }

  lemma AcceptedAppend(acc: seq<Accepted>, a: Accepted, n: nat)
    ensures IsAccepted(acc + [a], n) <==> IsAccepted(acc, n) || a.num == n
  {
    var b := acc + [a];
    if IsAccepted(acc, n) {
      var k :| 0 <= k < |acc| && acc[k].num == n;
      assert b[k] == acc[k];
    }
    assert b[|acc|] == a;
  }

  lemma NumsInRange(sent: seq<Packet>, air: seq<AirFrame>, heard: seq<nat>, n: nat)
    requires AirInv(sent, air) && HeardNum(heard, air, n)
    ensures n < |sent|
  {
  }

  lemma HeardGrows(sent: seq<Packet>, air: seq<AirFrame>, air': seq<AirFrame>, heard: seq<nat>, n: nat)
    requires HeardWf(heard, air) && air <= air'
    ensures HeardNum(heard, air', n) <==> HeardNum(heard, air, n)
  {
    forall k | 0 <= k < |heard|
      ensures air'[heard[k]] == air[heard[k]]
    {
    }
  }

  /** More packets and more transmissions leave every verdict as it was. */
  lemma AcceptGrows(crc: Crc, sent: seq<Packet>, air: seq<AirFrame>, heard: seq<nat>,
                    acc: seq<Accepted>, filter: seq<Option<R.Seen>>, sent': seq<Packet>, air': seq<AirFrame>)
    requires AcceptInv(crc, sent, air, heard, acc, filter)
    requires sent <= sent' && air <= air' && AirInv(sent', air')
    ensures AcceptInv(crc, sent', air', heard, acc, filter)
  {
    hide AirInv;
    forall n: nat
      ensures HeardNum(heard, air', n) <==> HeardNum(heard, air, n)
    {
      HeardGrows(sent, air, air', heard, n);
    }
    assert Verdicts(crc, acc, sent', air', heard) by {
      forall n: nat | n < |sent'| && HeardNum(heard, air', n)
        ensures n < |sent|
      {
        NumsInRange(sent, air, heard, n);
      }
    }
    forall q: nat | q < R.NUM_PIPES
      ensures LastBelow(acc, q, |sent|) == LastBelow(acc, q, |sent'|)
    {
      LastBelowBound(acc, q, |sent|, |sent'|);
    }
  }

  /** The last acceptance and everything heard are numbered no higher than a later transmission. */
  lemma HeardBounds(crc: Crc, sent: seq<Packet>, air: seq<AirFrame>, heard: seq<nat>,
                    acc: seq<Accepted>, filter: seq<Option<R.Seen>>, s: nat)
    requires AcceptInv(crc, sent, air, heard, acc, filter)
    requires s < |air| && forall k | 0 <= k < |heard| :: heard[k] < s
    ensures forall n: nat | HeardNum(heard, air, n) :: n <= air[s].num
    ensures forall k | 0 <= k < |acc| :: acc[k].num <= air[s].num
  {
    forall n: nat | HeardNum(heard, air, n)
      ensures n <= air[s].num
    {
      var k :| 0 <= k < |heard| && heard[k] < |air| && air[heard[k]].num == n;
      AirMonotone(sent, air, heard[k], s);
    }
  }

  /** The filter calls a later transmission a duplicate exactly when its packet was accepted or is shadowed. */
  lemma DuplicateMeans(crc: Crc, sent: seq<Packet>, air: seq<AirFrame>, heard: seq<nat>,
                       acc: seq<Accepted>, filter: seq<Option<R.Seen>>, s: nat)
    requires AcceptInv(crc, sent, air, heard, acc, filter)
    requires s < |air| && forall k | 0 <= k < |heard| :: heard[k] < s
    ensures var n := air[s].num;
            var dup := R.CheckDuplicate(filter, sent[n].pipe, sent[n].pid, crc(OnAir(sent[n])));
            && (dup <==> IsAccepted(acc, n) || Shadowed(crc, acc, sent, n))
            && (HeardNum(heard, air, n) ==> dup)
  {
    HeardBounds(crc, sent, air, heard, acc, filter, s);
    var n := air[s].num;
    var q := sent[n].pipe;
    if IsAccepted(acc, n) {
      var k :| 0 <= k < |acc| && acc[k].num == n;
      LastBelowIsGreatest(acc, q, |sent|, k);
      var last := LastBelow(acc, q, |sent|).value;
      var j :| 0 <= j < |acc| && acc[j] == last;
      assert j == k;
    } else {
      LastBelowBound(acc, q, n, |sent|);
    }
  }

  /** Hearing one more transmission keeps the invariant, whichever way the filter decides. */
  lemma AcceptHears(crc: Crc, sent: seq<Packet>, air: seq<AirFrame>, heard: seq<nat>,
                    acc: seq<Accepted>, filter: seq<Option<R.Seen>>, s: nat)
    requires AcceptInv(crc, sent, air, heard, acc, filter)
    requires s < |air| && forall k | 0 <= k < |heard| :: heard[k] < s
    ensures var n := air[s].num;
            var pkt := sent[n];
            if R.CheckDuplicate(filter, pkt.pipe, pkt.pid, crc(OnAir(pkt))) then
              AcceptInv(crc, sent, air, heard + [s], acc, filter)
            else
              !IsAccepted(acc, n) &&
              AcceptInv(crc, sent, air, heard + [s], acc + [Accepted(n, pkt.pipe, SeenOf(crc, pkt))],
                        filter[pkt.pipe := Some(SeenOf(crc, pkt))])
  {
    HeardBounds(crc, sent, air, heard, acc, filter, s);
    DuplicateMeans(crc, sent, air, heard, acc, filter, s);
    var n := air[s].num;
    var pkt := sent[n];
    forall m: nat
      ensures HeardNum(heard + [s], air, m) <==> HeardNum(heard, air, m) || n == m
    {
      HeardAppend(heard, air, s, m);
    }
    if R.CheckDuplicate(filter, pkt.pipe, pkt.pid, crc(OnAir(pkt))) {
      if !HeardNum(heard, air, n) {
        assert !IsAccepted(acc, n);
      }
    } else {
      var a := Accepted(n, pkt.pipe, SeenOf(crc, pkt));
      NewAcceptance(crc, sent, air, heard, acc, filter, s);
    }
  }

  lemma NewVerdicts(crc: Crc, sent: seq<Packet>, air: seq<AirFrame>, heard: seq<nat>, acc: seq<Accepted>,
                    s: nat, a: Accepted)
    requires s < |air| && air[s].num < |sent|
    requires Verdicts(crc, acc, sent, air, heard)
    requires forall m: nat | HeardNum(heard, air, m) :: m < a.num
    requires a.num == air[s].num && !Shadowed(crc, acc, sent, a.num)
    ensures Verdicts(crc, acc + [a], sent, air, heard + [s])
  {
    hide HeardNum, Shadowed, IsAccepted;
    forall m: nat | m < |sent| && HeardNum(heard + [s], air, m)
      ensures IsAccepted(acc + [a], m) <==> !Shadowed(crc, acc + [a], sent, m)
    {
      HeardAppend(heard, air, s, m);
      AcceptedAppend(acc, a, m);
      ShadowedAppend(crc, acc, a, sent, m);
    }
  }

  lemma NewFilter(filter: seq<Option<R.Seen>>, acc: seq<Accepted>, bound: nat, a: Accepted)
    requires FilterMatches(filter, acc, bound) && a.num < bound
    ensures FilterMatches(filter[a.pipe := Some(a.seen)], acc + [a], bound)
  {
    hide LastBelow;
    forall q: nat | q < R.NUM_PIPES
      ensures LastBelow(acc + [a], q, bound) == if q == a.pipe then Some(a) else LastBelow(acc, q, bound)
    {
      LastBelowAppend(acc, a, q, bound);
    }
  }

  lemma NewAcceptance(crc: Crc, sent: seq<Packet>, air: seq<AirFrame>, heard: seq<nat>,
                      acc: seq<Accepted>, filter: seq<Option<R.Seen>>, s: nat)
    requires AcceptInv(crc, sent, air, heard, acc, filter)
    requires s < |air| && forall k | 0 <= k < |heard| :: heard[k] < s
    requires var n := air[s].num;
             !IsAccepted(acc, n) && !Shadowed(crc, acc, sent, n) && !HeardNum(heard, air, n)
    ensures var n := air[s].num;
            var pkt := sent[n];
            AcceptInv(crc, sent, air, heard + [s], acc + [Accepted(n, pkt.pipe, SeenOf(crc, pkt))],
                      filter[pkt.pipe := Some(SeenOf(crc, pkt))])
  {
    HeardBounds(crc, sent, air, heard, acc, filter, s);
    var n := air[s].num;
    assert n < |sent|;
    forall k | 0 <= k < |acc|
      ensures acc[k].num < n
    {
      assert acc[k].num != n;
    }
    hide AirInv, LastBelow, Shadowed, HeardNum, IsAccepted;
    var pkt := sent[n];
    var a := Accepted(n, pkt.pipe, SeenOf(crc, pkt));
    NewVerdicts(crc, sent, air, heard, acc, s, a);
    NewFilter(filter, acc, |sent|, a);
    forall k | 0 <= k < |acc + [a]|
      ensures HeardNum(heard + [s], air, (acc + [a])[k].num)
    {
      HeardAppend(heard, air, s, (acc + [a])[k].num);
    }
  }
}
