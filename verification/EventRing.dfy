/** The 32-slot event ring of the PRX (src/mpsl_timeslot.rs) in place. */
module EventRings {
  import opened Wrappers
  import opened CodecModel
  import opened SnapshotLink

  /** The slot `i` places after `head`. */
  function Slot(head: nat, i: nat): (s: nat)
    requires head < RING_CAP && i <= RING_CAP
    ensures s == (head + i) % RING_CAP
  {
    if head + i < RING_CAP then head + i else head + i - RING_CAP
  }

  class EventRing {
    const slots: array<Event>
    var head: nat
    var tail: nat
    var len: nat
    var dropped: nat

    ghost predicate Valid()
      reads this, slots
    {
      slots.Length == RING_CAP && head < RING_CAP && len <= RING_CAP && tail == Slot(head, len)
    }

    /** The queued events, oldest first. */
    ghost function Contents(): (s: seq<Event>)
      reads this, slots
      requires Valid()
      ensures |s| == len
    {
      seq(len, i requires 0 <= i < len && Valid() reads this, slots => slots[Slot(head, i)])
    }

    constructor ()
      ensures Valid() && fresh(slots) && Contents() == [] && dropped == 0
    {
      slots := new Event[RING_CAP](i => Event(0, []));
      head, tail, len, dropped := 0, 0, 0, 0;
    }

    /** Refuses, and counts, a payload that is too long or finds the ring full. */
    method PushEvent(pipe: nat, payload: seq<Byte>) returns (ok: bool)
      requires Valid()
      modifies this, slots
      ensures Valid()
      ensures (Contents(), ok) == Push(old(Contents()), pipe, payload)
      ensures dropped == old(dropped) + if ok then 0 else 1
    {
      if |payload| > EVENT_MAX {
        dropped := dropped + 1;
        assert Contents() == old(Contents());
        return false;
      }
      if len == RING_CAP {
        dropped := dropped + 1;
        assert Contents() == old(Contents());
        return false;
      }
      ghost var was := Contents();
      slots[tail] := Event(pipe, payload);
      tail := (tail + 1) % RING_CAP;
      len := len + 1;
      forall i | 0 <= i < len
        ensures Contents()[i] == (was + [Event(pipe, payload)])[i]
      {
        if i < len - 1 {
          assert Slot(head, i) != Slot(head, len - 1);
          assert was[i] == old(slots[Slot(head, i)]);
        }
      }
      assert Contents() == was + [Event(pipe, payload)];
      ok := true;
    }

    method PopEvent() returns (event: Option<Event>)
      requires Valid()
      modifies this
      ensures Valid()
      ensures (Contents(), event) == Pop(old(Contents()))
      ensures dropped == old(dropped)
    {
      if len == 0 {
        return None;
      }
      ghost var was := Contents();
      event := Some(slots[head]);
      head := (head + 1) % RING_CAP;
      len := len - 1;
      forall i | 0 <= i < len
        ensures Contents()[i] == was[i + 1]
      {
        assert Slot(head, i) == Slot(old(head), i + 1);
      }
      assert Contents() == was[1..];
    }
  }
}
