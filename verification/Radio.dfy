/** The duplicate-detection arrays of the radio layer (src/radio.rs), updated in place. */
module Radios {
  import opened Wrappers
  import opened Spec = PrxModel

  /** The filter that three arrays describe: an entry exists once its valid bit is set. */
  function Described(crc: seq<nat>, pid: seq<nat>, valid: seq<bool>): (f: seq<Option<Seen>>)
    requires |crc| == |pid| == |valid|
    ensures |f| == |crc|
    ensures forall i | 0 <= i < |f| :: f[i] == if valid[i] then Some(Seen(pid[i], crc[i])) else None
  {
    seq(|crc|, i requires 0 <= i < |crc| => if valid[i] then Some(Seen(pid[i], crc[i])) else None)
  }

  class DuplicateFilter {
    const lastCrc: array<nat>
    const lastPid: array<nat>
    const lastValid: array<bool>

    ghost predicate Valid()
      reads this
    {
      && lastCrc.Length == lastPid.Length == lastValid.Length == NUM_PIPES
      && lastCrc != lastPid
    }

    /** Stale PID and CRC bytes mean nothing before the valid bit is set. */
    ghost function View(): (f: seq<Option<Seen>>)
      reads this, lastCrc, lastPid, lastValid
      requires Valid()
      ensures |f| == NUM_PIPES
    {
      Described(lastCrc[..], lastPid[..], lastValid[..])
    }

    constructor ()
      ensures Valid() && fresh(lastCrc) && fresh(lastPid) && fresh(lastValid)
      ensures View() == INITIAL_PRX.filter
    {
      lastCrc := new nat[8](i => 0);
      lastPid := new nat[8](i => 0);
      lastValid := new bool[8](i => false);
    }

    method CheckDuplicate(pipe: nat, pid: nat, crc: nat) returns (dup: bool)
      requires Valid()
      ensures dup == Spec.CheckDuplicate(View(), pipe, pid, crc)
    {
      dup := pipe < NUM_PIPES && lastValid[pipe] && lastCrc[pipe] == crc && lastPid[pipe] == pid;
    }

    method UpdateDetection(pipe: nat, pid: nat, crc: nat)
      requires Valid()
      modifies lastCrc, lastPid, lastValid
      ensures Valid() && View() == Spec.UpdateDetection(old(View()), pipe, pid, crc)
    {
      if pipe < NUM_PIPES {
        lastCrc[pipe] := crc;
        lastPid[pipe] := pid;
        lastValid[pipe] := true;
      }
    }

    /** `save_*_state` copies the arrays; the copy describes the filter and survives later updates. */
    method Save() returns (crc: seq<nat>, pid: seq<nat>, valid: seq<bool>)
      requires Valid()
      ensures |crc| == |pid| == |valid| == NUM_PIPES
      ensures crc == lastCrc[..] && pid == lastPid[..] && valid == lastValid[..]
      ensures Described(crc, pid, valid) == View()
    {
      crc, pid, valid := lastCrc[..], lastPid[..], lastValid[..];
    }

    /** `restore_*_state` after a power cycle: with what `Save` returned, `View` is what it was then. */
    method Restore(crc: seq<nat>, pid: seq<nat>, valid: seq<bool>)
      requires Valid() && |crc| == |pid| == |valid| == NUM_PIPES
      modifies lastCrc, lastPid, lastValid
      ensures Valid() && View() == Described(crc, pid, valid)
    {
      for k := 0 to NUM_PIPES
        invariant forall i | 0 <= i < k :: lastCrc[i] == crc[i] && lastPid[i] == pid[i] && lastValid[i] == valid[i]
      {
        lastCrc[k], lastPid[k], lastValid[k] := crc[k], pid[k], valid[k];
      }
    }
  }
}
