/**
 The run directories under validate-out: one per run, two pointers, and the
 pruning that follows each report.
 */
module RunArchive {
  import opened Text
  import opened Bags

  const RUNS_RETAINED: nat := 20

  datatype Pointer = Unset | At(name: string)

  /** The directory listing and what `latest` and `latest-complete` name. */
  datatype Tree = Tree(runs: seq<string>, latest: Pointer, complete: Pointer) {
    ghost predicate Valid() {
      && NoRepeats(runs)
      && (latest.At? ==> latest.name in runs)
      && (complete.At? ==> complete.name in runs)
    }

    function Kept(): set<string> {
      (if latest.At? then {latest.name} else {}) + (if complete.At? then {complete.name} else {})
    }
  }

  /** The runs old enough to go: all but the last RUNS_RETAINED by name. */
  function Old(runs: seq<string>): seq<string> {
    var names := Sort(runs);
    if |names| <= RUNS_RETAINED then [] else names[..|names| - RUNS_RETAINED]
  }

  /** The listing without the old names that nothing points at. */
  function Survivors(runs: seq<string>, aged: seq<string>, keep: set<string>): (r: seq<string>)
    ensures forall x :: x in r <==> x in runs && (x in keep || x !in aged)
  {
    if runs == [] then []
    else if runs[0] in aged && runs[0] !in keep then Survivors(runs[1..], aged, keep)
    else [runs[0]] + Survivors(runs[1..], aged, keep)
  }

  function Pruned(t: Tree): Tree {
    t.(runs := Survivors(t.runs, Old(t.runs), t.Kept()))
  }

  function Begun(t: Tree, name: string): Tree {
    t.(runs := if name in t.runs then t.runs else t.runs + [name], latest := At(name))
  }

  function Reported(t: Tree, name: string, complete: bool): Tree {
    Pruned(if complete then t.(complete := At(name)) else t)
  }

  /** A run is stopped before its report, or reports and prunes. */
  datatype Run = Stopped(name: string) | Finished(name: string, complete: bool)

  function After(t: Tree, run: Run): Tree {
    var begun := Begun(t, run.name);
    if run.Stopped? then begun else Reported(begun, run.name, run.complete)
  }

  function AfterAll(t: Tree, runs: seq<Run>): Tree {
    if runs == [] then t else After(AfterAll(t, runs[..|runs| - 1]), runs[|runs| - 1])
  }

  class Archive {
    var runs: seq<string>
    var latest: Pointer
    var complete: Pointer

    function State(): Tree
      reads this
    {
      Tree(runs, latest, complete)
    }

    method Begin(name: string)
      modifies this
      ensures State() == Begun(old(State()), name)
    {
      if name !in runs {
        runs := runs + [name];
      }
      latest := At(name);
    }

    method Remove(name: string)
      modifies this`runs
      ensures runs == Survivors(old(runs), [name], {})
    {
      var left: seq<string> := [];
      var i := |runs|;
      while i > 0
        invariant 0 <= i <= |runs|
        invariant left == Survivors(runs[i..], [name], {})
      {
        i := i - 1;
        assert runs[i..][1..] == runs[i + 1..];
        if runs[i] != name {
          left := [runs[i]] + left;
        }
      }
      assert runs[0..] == runs;
      runs := left;
    }

    /** `pruneOldRuns`: the old names one by one, skipping the pointed-at. */
    method Prune()
      modifies this
      ensures State() == Pruned(old(State()))
    {
      var keep := State().Kept();
      var aged := Old(runs);
      ghost var before := runs;
      SurvivorsOfNothing(runs, keep);
      for i := 0 to |aged|
        invariant runs == Survivors(before, aged[..i], keep)
        invariant latest == old(latest) && complete == old(complete)
      {
        PruneNext(before, aged, i, keep);
        if aged[i] !in keep {
          Remove(aged[i]);
        }
      }
      assert aged[..|aged|] == aged;
    }

    method Report(name: string, whole: bool)
      modifies this
      ensures State() == Reported(old(State()), name, whole)
    {
      if whole {
        complete := At(name);
      }
      Prune();
    }
  }

  lemma {:induction false} SurvivorsOfNothing(runs: seq<string>, keep: set<string>)
    ensures Survivors(runs, [], keep) == runs
  {
    if runs == [] {
    } else {
      SurvivorsOfNothing(runs[1..], keep);
    }
  }

  lemma SurvivorsCons(x: string, rest: seq<string>, name: string)
    ensures Survivors([x] + rest, [name], {}) ==
            if x == name then Survivors(rest, [name], {}) else [x] + Survivors(rest, [name], {})
  {
    assert ([x] + rest)[1..] == rest;
  }

  lemma {:induction false} SurvivorsOneMore(runs: seq<string>, aged: seq<string>, name: string, keep: set<string>)
    ensures name in keep ==> Survivors(runs, aged + [name], keep) == Survivors(runs, aged, keep)
    ensures name !in keep ==>
              Survivors(runs, aged + [name], keep) == Survivors(Survivors(runs, aged, keep), [name], {})
  {
    if runs == [] {
    } else {
      var x := runs[0];
      SurvivorsOneMore(runs[1..], aged, name, keep);
      SurvivorsCons(x, Survivors(runs[1..], aged, keep), name);
      assert x in aged + [name] <==> x in aged || x == name;
    }
  }

  lemma PruneNext(runs: seq<string>, aged: seq<string>, i: nat, keep: set<string>)
    requires i < |aged|
    ensures Survivors(runs, aged[..i + 1], keep) ==
            if aged[i] in keep then Survivors(runs, aged[..i], keep)
            else Survivors(Survivors(runs, aged[..i], keep), [aged[i]], {})
  {
    assert aged[..i + 1] == aged[..i] + [aged[i]];
    SurvivorsOneMore(runs, aged[..i], aged[i], keep);
  }

  lemma {:induction false} SurvivorsNoDuplicates(runs: seq<string>, aged: seq<string>, keep: set<string>)
    requires NoRepeats(runs)
    ensures NoRepeats(Survivors(runs, aged, keep))
  {
    if runs == [] {
    } else {
      SurvivorsNoDuplicates(runs[1..], aged, keep);
      assert forall x :: x in runs[1..] ==> x != runs[0];
    }
  }

  lemma {:induction false} Size(s: seq<string>, within: set<string>)
    requires NoRepeats(s) && forall x :: x in s ==> x in within
    ensures |s| <= |within|
  {
    if s == [] {
    } else {
      assert forall x :: x in s[1..] ==> x != s[0];
      Size(s[1..], within - {s[0]});
    }
  }

  lemma {:induction false} SetSize(s: seq<string>)
    ensures |set x | x in s| <= |s|
  {
    if s == [] {
    } else {
      SetSize(s[1..]);
      assert (set x | x in s) == {s[0]} + set x | x in s[1..];
    }
  }

  lemma YoungOrKept(t: Tree, x: string)
    requires x in Pruned(t).runs
    ensures x in Sort(t.runs)[|Old(t.runs)|..] || x in t.Kept()
  {
    var names := Sort(t.runs);
    assert x in names by {
      SortBag(t.runs);
      assert x in multiset(t.runs);
      assert x in multiset(names);
    }
    assert names == names[..|Old(t.runs)|] + names[|Old(t.runs)|..];
  }

  /** Pruning leaves at most the retained runs and the two pointed-at ones, and
      those it does leave. */
  lemma PruneBounds(t: Tree)
    requires NoRepeats(t.runs)
    ensures |Pruned(t).runs| <= RUNS_RETAINED + 2
    ensures t.latest.At? && t.latest.name in t.runs ==> t.latest.name in Pruned(t).runs
    ensures t.complete.At? && t.complete.name in t.runs ==> t.complete.name in Pruned(t).runs
  {
    var young := Sort(t.runs)[|Old(t.runs)|..];
    var left := (set y | y in young) + t.Kept();
    SetSize(young);
    SurvivorsNoDuplicates(t.runs, Old(t.runs), t.Kept());
    forall x | x in Pruned(t).runs
      ensures x in left
    {
      YoungOrKept(t, x);
    }
    Size(Pruned(t).runs, left);
  }

  /** The runs named after `x` in name order. */
  function Newer(runs: seq<string>, x: string): set<string> {
    set y | y in runs && y != x && Le(x, y)
  }

  lemma {:induction false} DistinctSize(s: seq<string>)
    requires NoRepeats(s)
    ensures |set x | x in s| == |s|
  {
    if s == [] {
    } else {
      DistinctSize(s[1..]);
      assert (set x | x in s) == {s[0]} + set x | x in s[1..];
      assert forall x :: x in s[1..] ==> x != s[0];
    }
  }

  lemma SortDistinct(runs: seq<string>)
    requires NoRepeats(runs)
    ensures NoRepeats(Sort(runs)) && |Sort(runs)| == |runs|
    ensures forall x :: x in Sort(runs) <==> x in runs
  {
    SortBag(runs);
    var names := Sort(runs);
    assert |multiset(names)| == |multiset(runs)|;
    assert forall x :: x in names <==> x in multiset(names);
    assert forall x :: x in runs <==> x in multiset(runs);
    forall x: string
      ensures multiset(names)[x] <= 1
    {
      DistinctBag(runs, x);
    }
    BagDistinct(names);
  }

  /** As many names come after one as stand after it in sorted order. */
  lemma NewerStandAfter(names: seq<string>, runs: seq<string>, i: nat)
    requires NoRepeats(names) && Sorted(names) && i < |names| && forall x :: x in names <==> x in runs
    ensures |Newer(runs, names[i])| == |names| - 1 - i
  {
    var later := names[i + 1..];
    forall y: string
      ensures y in Newer(runs, names[i]) <==> y in later
    {
      if y in Newer(runs, names[i]) {
        var j :| 0 <= j < |names| && names[j] == y;
        if j < i {
          LeAntisymmetric(names[i], y);
        }
        assert j > i && later[j - i - 1] == y;
      }
      if y in later {
        var k :| 0 <= k < |later| && later[k] == y;
        assert names[i + 1 + k] == y;
      }
    }
    assert Newer(runs, names[i]) == set y | y in later;
    DistinctSize(later);
  }

  /** Pruning keeps a run exactly when a pointer names it or fewer than
      RUNS_RETAINED runs are newer. */
  lemma PrunedIff(t: Tree, x: string)
    requires NoRepeats(t.runs) && x in t.runs
    ensures x in Pruned(t).runs <==>
      t.latest == At(x) || t.complete == At(x) || |Newer(t.runs, x)| < RUNS_RETAINED
  {
    var names, aged := Sort(t.runs), Old(t.runs);
    SortDistinct(t.runs);
    SortSorted(t.runs);
    var i :| 0 <= i < |names| && names[i] == x;
    NewerStandAfter(names, t.runs, i);
    assert x in aged <==> i < |aged| by {
      if x in aged {
        var j :| 0 <= j < |aged| && aged[j] == x;
        assert names[j] == names[i];
      }
    }
  }

  lemma ReportKeeps(t: Tree, name: string, whole: bool)
    requires t.Valid() && name in t.runs
    ensures Reported(t, name, whole).Valid()
    ensures whole ==> Reported(t, name, whole).complete == At(name)
    ensures |Reported(t, name, whole).runs| <= RUNS_RETAINED + 2
  {
    var pointed := if whole then t.(complete := At(name)) else t;
    SurvivorsNoDuplicates(pointed.runs, Old(pointed.runs), pointed.Kept());
    PruneBounds(pointed);
  }

  /** Over any sequence of runs, stopped or finished, complete or not: the
      last run and the newest complete run are pointed at and on disk, and
      whenever a run reports at most RUNS_RETAINED + 2 directories remain. */
  lemma {:induction false} ArchiveHolds(runs: seq<Run>)
    ensures var t := AfterAll(Tree([], Unset, Unset), runs);
            && t.Valid()
            && t.latest == (if runs == [] then Unset else At(runs[|runs| - 1].name))
            && t.complete == NewestComplete(runs)
            && (t.complete.At? ==> t.complete.name in t.runs)
            && (runs != [] && runs[|runs| - 1].Finished? ==> |t.runs| <= RUNS_RETAINED + 2)
  {
    if runs == [] {
    } else {
      var last := runs[|runs| - 1];
      ArchiveHolds(runs[..|runs| - 1]);
      var t := AfterAll(Tree([], Unset, Unset), runs[..|runs| - 1]);
      var begun := Begun(t, last.name);
      assert begun.Valid();
      if last.Finished? {
        ReportKeeps(begun, last.name, last.complete);
      }
    }
  }

  /** The last run of the sequence that finished a whole profile. */
  function NewestComplete(runs: seq<Run>): Pointer {
    if runs == [] then Unset
    else
      var last := runs[|runs| - 1];
      if last.Finished? && last.complete then At(last.name) else NewestComplete(runs[..|runs| - 1])
  }
}
