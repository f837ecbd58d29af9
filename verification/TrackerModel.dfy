/** The passive account of received and missed windows (`ScheduleTracker` in src/mpsl_schedule.rs). */
module TrackerModel {
  import opened Wrappers

  datatype Tracker = Tracker(
    seenHint: bool, validHints: nat, badHints: nat, repeats: nat, jumps: nat, missedWindows: nat,
    regresses: nat, missStreak: nat, maxMissStreak: nat, lastWindowId: nat)

  const NEW := Tracker(false, 0, 0, 0, 0, 0, 0, 0, 0, 0)

  datatype Observation = Hint(windowId: nat) | BadHint | Miss

  function ObserveHint(t: Tracker, id: nat): Tracker {
    var a :=
      if !t.seenHint then t.(seenHint := true)
      else if id == t.lastWindowId then t.(repeats := t.repeats + 1)
      else if id > t.lastWindowId then
        if id - t.lastWindowId > 1
        then t.(jumps := t.jumps + 1, missedWindows := t.missedWindows + (id - t.lastWindowId - 1)) else t
      else t.(regresses := t.regresses + 1);
    a.(validHints := a.validHints + 1, missStreak := 0, lastWindowId := id)
  }

  function ObserveMiss(t: Tracker): Tracker {
    t.(missStreak := t.missStreak + 1, maxMissStreak := Max(t.maxMissStreak, t.missStreak + 1))
  }

  function ObserveBadHint(t: Tracker): Tracker {
    ObserveMiss(t.(badHints := t.badHints + 1))
  }

  function Observe(t: Tracker, o: Observation): Tracker {
    match o
    case Hint(id) => ObserveHint(t, id)
    case BadHint => ObserveBadHint(t)
    case Miss => ObserveMiss(t)
  }

  function After(history: seq<Observation>): Tracker {
    if history == [] then NEW else Observe(After(history[..|history| - 1]), history[|history| - 1])
  }

  /** The first valid hint of a history. */
  function FirstId(history: seq<Observation>): Option<nat> {
    if history == [] then None
    else if history[0].Hint? then Some(history[0].windowId) else FirstId(history[1..])
  }

  lemma {:induction false} FirstIdAppend(history: seq<Observation>, o: Observation)
    ensures FirstId(history + [o]) ==
            if FirstId(history).Some? then FirstId(history) else if o.Hint? then Some(o.windowId) else None
  {
    if history != [] {
      assert (history + [o])[1..] == history[1..] + [o];
      FirstIdAppend(history[1..], o);
    }
  }

  /** Every window since the first was seen, and not as a repeat, or counted as missed. */
  ghost predicate Account(t: Tracker, first: Option<nat>) {
    && t.seenHint == first.Some? == (t.validHints > 0)
    && (!t.seenHint ==> t.repeats == 0 && t.missedWindows == 0)
    && (t.seenHint ==> t.lastWindowId + 1 + t.repeats == first.value + t.validHints + t.missedWindows)
  }

  lemma NextWindowAccount(t: Tracker, first: Option<nat>, id: nat)
    requires Account(t, first) && ObserveHint(t, id).regresses == 0
    ensures t.regresses == 0 && Account(ObserveHint(t, id), if first.Some? then first else Some(id))
  {
  }

  lemma OtherAccount(t: Tracker, first: Option<nat>, o: Observation)
    requires Account(t, first) && !o.Hint?
    ensures Observe(t, o).regresses == t.regresses && Account(Observe(t, o), first)
  {
  }

  lemma RegressionsStay(t: Tracker, o: Observation)
    ensures t.regresses <= Observe(t, o).regresses
  {
  }

  /**
   Without regressions every window since the first is accounted for: it was seen, and not
   as a repeat, or counted as missed.
   */
  lemma {:induction false} WindowsAddUp(history: seq<Observation>)
    requires After(history).regresses == 0
    ensures var t := After(history);
            && t.seenHint == FirstId(history).Some? == (t.validHints > 0)
            && (!t.seenHint ==> t.repeats == 0 && t.missedWindows == 0)
            && (t.seenHint ==>
                  t.lastWindowId + 1 + t.repeats == FirstId(history).value + t.validHints + t.missedWindows)
  {
    HistoryAccount(history);
  }

  lemma {:induction false} HistoryAccount(history: seq<Observation>)
    requires After(history).regresses == 0
    ensures Account(After(history), FirstId(history))
  {
    if history != [] {
      var n := |history| - 1;
      var o := history[n];
      var t := After(history[..n]);
      assert history == history[..n] + [o];
      FirstIdAppend(history[..n], o);
      RegressionsStay(t, o);
      HistoryAccount(history[..n]);
      hide Account, FirstId, ObserveHint, ObserveMiss, ObserveBadHint;
      if o.Hint? {
        NextWindowAccount(t, FirstId(history[..n]), o.windowId);
      } else {
        OtherAccount(t, FirstId(history[..n]), o);
      }
    }
  }

  predicate IsMiss(o: Observation) {
    !o.Hint?
  }

  /** `history[i..j]` is an unbroken run of misses. */
  ghost predicate MissRun(history: seq<Observation>, i: nat, j: nat) {
    i <= j <= |history| && forall k | i <= k < j :: IsMiss(history[k])
  }

  lemma StreakStep(history: seq<Observation>)
    requires history != []
    ensures var n := |history| - 1;
            var p, t := After(history[..n]), After(history);
            if IsMiss(history[n])
            then t.missStreak == p.missStreak + 1 && t.maxMissStreak == Max(p.maxMissStreak, t.missStreak)
            else t.missStreak == 0 && t.maxMissStreak == p.maxMissStreak
  {
  }

  /** The current streak is the run of misses the history ends with. */
  lemma {:induction false} CurrentMissRun(history: seq<Observation>)
    ensures var s := After(history).missStreak;
            && s <= |history| && MissRun(history, |history| - s, |history|)
            && (s < |history| ==> !IsMiss(history[|history| - s - 1]))
  {
    if history != [] {
      StreakStep(history);
      CurrentMissRun(history[..|history| - 1]);
      hide After;
      assert history == history[..|history| - 1] + [history[|history| - 1]];
    }
  }

  /** A run of misses is no longer than the maximum. */
  lemma {:induction false} RunsAreBounded(history: seq<Observation>, i: nat, j: nat)
    requires MissRun(history, i, j)
    ensures j - i <= After(history).maxMissStreak
  {
    if history != [] {
      var n := |history| - 1;
      StreakStep(history);
      CurrentMissRun(history);
      hide After;
      if j <= n {
        RunsAreBounded(history[..n], i, j);
      } else {
        var s := |history| - After(history).missStreak;
        assert s > 0 ==> !IsMiss(history[s - 1]);
      }
    }
  }

  /** The maximum is the longest unbroken run of misses. */
  lemma {:induction false} LongestMissRun(history: seq<Observation>) returns (i: nat, j: nat)
    ensures MissRun(history, i, j) && j - i == After(history).maxMissStreak
    ensures forall a: nat, b: nat | MissRun(history, a, b) :: b - a <= j - i
  {
    if history == [] {
      i, j := 0, 0;
    } else {
      var n := |history| - 1;
      StreakStep(history);
      CurrentMissRun(history);
      i, j := LongestMissRun(history[..n]);
      hide After;
      if After(history).maxMissStreak > After(history[..n]).maxMissStreak {
        i, j := |history| - After(history).missStreak, |history|;
      }
    }
    forall a: nat, b: nat | MissRun(history, a, b)
      ensures b - a <= j - i
    {
      RunsAreBounded(history, a, b);
    }
  }

  // ---- What each counter counts ----

  /** The window numbers of the valid hints, in order. */
  function Ids(history: seq<Observation>): seq<nat> {
    if history == [] then []
    else
      var o := history[|history| - 1];
      Ids(history[..|history| - 1]) + (if o.Hint? then [o.windowId] else [])
  }

  datatype Relation = Again | Next | Ahead | Back

  /** How a window number follows the one before it. */
  function Follows(before: nat, id: nat): Relation {
    if id == before then Again else if id == before + 1 then Next else if id > before then Ahead else Back
  }

  function CountOf(ids: seq<nat>, r: Relation): nat {
    if |ids| < 2 then 0
    else CountOf(ids[..|ids| - 1], r) + (if Follows(ids[|ids| - 2], ids[|ids| - 1]) == r then 1 else 0)
  }

  /** The windows skipped by all jumps. */
  function Skipped(ids: seq<nat>): int {
    if |ids| < 2 then 0
    else
      Skipped(ids[..|ids| - 1]) +
      if Follows(ids[|ids| - 2], ids[|ids| - 1]) == Ahead then ids[|ids| - 1] - ids[|ids| - 2] - 1 else 0
  }

  function BadHints(history: seq<Observation>): nat {
    if history == [] then 0
    else BadHints(history[..|history| - 1]) + (if history[|history| - 1].BadHint? then 1 else 0)
  }

  lemma CountAppend(ids: seq<nat>, id: nat, r: Relation)
    requires ids != []
    ensures CountOf(ids + [id], r) == CountOf(ids, r) + (if Follows(ids[|ids| - 1], id) == r then 1 else 0)
    ensures Skipped(ids + [id]) ==
            Skipped(ids) + if Follows(ids[|ids| - 1], id) == Ahead then id - ids[|ids| - 1] - 1 else 0
  {
    assert (ids + [id])[..|ids|] == ids;
  }

  /** The tracker after a history, counter by counter. */
  ghost predicate Counts(t: Tracker, ids: seq<nat>, bad: nat) {
    && (t.seenHint <==> ids != []) && t.validHints == |ids| && t.badHints == bad
    && (ids != [] ==> t.lastWindowId == ids[|ids| - 1])
    && t.repeats == CountOf(ids, Again) && t.jumps == CountOf(ids, Ahead) && t.regresses == CountOf(ids, Back)
    && t.missedWindows == Skipped(ids)
  }

  lemma HintCounts(t: Tracker, ids: seq<nat>, bad: nat, id: nat)
    requires Counts(t, ids, bad)
    ensures Counts(ObserveHint(t, id), ids + [id], bad)
  {
    if ids != [] {
      CountAppend(ids, id, Again);
      CountAppend(ids, id, Ahead);
      CountAppend(ids, id, Back);
    }
    hide CountOf, Skipped;
    if ids == [] {
      OneId(id);
    }
  }

  lemma OneId(id: nat)
    ensures forall r :: CountOf([id], r) == CountOf([], r) == 0
    ensures Skipped([id]) == Skipped([]) == 0
  {
  }

  /** Every counter counts what its name says, in every history. */
  lemma {:induction false} CountersMean(history: seq<Observation>)
    ensures Counts(After(history), Ids(history), BadHints(history))
  {
    if history != [] {
      var n := |history| - 1;
      CountersMean(history[..n]);
      hide ObserveHint, CountOf, Skipped;
      if history[n].Hint? {
        HintCounts(After(history[..n]), Ids(history[..n]), BadHints(history[..n]), history[n].windowId);
      } else {
        assert Ids(history[..n]) + [] == Ids(history[..n]);
      }
    }
  }
}
