/**
 What a finished validation run comes to, told from its log: which stages ran,
 the rows of the report, the exit code and the oracle's gate. Which stages run
 depends on the verdicts alone and not on how the lanes interleaved.
 */
module LaneOutcome {
  import opened StageTable
  import opened StagePlan
  import opened Bags
  import opened Lanes
  import opened LaneVerdict
  import opened LaneReport
  import opened LaneLog

  ghost predicate PassedAll(rows: seq<Row>, stages: seq<Stage>) {
    forall x :: x in stages ==> Row(x.name, Pass) in rows
  }

  /** A group with a stage that runs alone. */
  ghost predicate Alone(group: Group) {
    exists x :: x in group && x.exclusive
  }

  /** A group that runs the oracle. */
  ghost predicate RunsOracle(group: Group) {
    exists x :: x in group && x.name == Oracle
  }

  lemma AloneIff(group: Group)
    ensures HasExclusive(group) <==> Alone(group)
    ensures HasOracle(group) <==> RunsOracle(group)
  {
  }

  /** By the time the first host reaches group `a` with every group before it
      passed, the second sequence has been started. */
  ghost predicate StartsBefore(plan: Plan, a: nat)
    requires a <= |plan.first|
  {
    plan.second != [] && (RunsOracle(Flatten(plan.first)) ==> RunsOracle(Flatten(plan.first[..a])))
  }

  /** How many groups the first host has entered. */
  ghost function Entered(s: State, log: Log): nat {
    |s.first.done| + if s.first.busy || |log.first| > |Flatten(s.first.done)| then 1 else 0
  }

  /** An exclusive group was entered only after a started second sequence had
      passed to its end. */
  ghost predicate WaitedInv(s: State, log: Log) {
    && Entered(s, log) <= |s.plan.first|
    && forall a :: 0 <= a < Entered(s, log) && Alone(s.plan.first[a]) && StartsBefore(s.plan, a) ==>
         s.second.Over() && AllPass(log.second)
  }

  lemma StartedByNow(s: State)
    requires StartInv(s) && s.first.done <= s.plan.first
    ensures StartsBefore(s.plan, |s.first.done|) <==> s.second.started
  {
    assert s.plan.first[..|s.first.done|] == s.first.done;
    AloneIff(Flatten(s.plan.first));
    AloneIff(Flatten(s.first.done));
  }

  lemma EntersNext(s: State, log: Log, n: Name)
    requires Enabled(s, EnterGroup) && FirstInv(s, log, n) && TellInv(s, log) && StartInv(s)
    ensures Entered(s, log) == |s.first.done| < |s.plan.first|
    ensures s.second.started ==> (SecondFailed(s) <==> !AllPass(log.second))
    ensures HasExclusive(s.first.rest[0]) <==> Alone(s.plan.first[|s.first.done|])
  {
    var d := |Flatten(s.first.done)|;
    var past, rows := log.first[..d], log.first[d..];
    PassedSoFar(s, past, rows, log.second, n);
    assert log.first == past + rows;
    if s.second.started {
      SecondFailedIff(s, log);
    }
  }

  lemma WaitedAfterEnter(s: State, log: Log, n: Name)
    requires Enabled(s, EnterGroup) && LogInv(s, log, n) && WaitedInv(s, log)
    ensures WaitedInv(EnterGroupOf(s), log)
  {
    var t, b := EnterGroupOf(s), |s.first.done|;
    EntersNext(s, log, n);
    StartedByNow(s);
    assert t.first.done == s.first.done && t.second == s.second && t.plan == s.plan;
    if t.first.busy && Alone(s.plan.first[b]) && s.second.started {
      assert s.second.Over() && AllPass(log.second);
    }
    NextWaits(s, t, log);
  }

  lemma NextWaits(s: State, t: State, log: Log)
    requires WaitedInv(s, log) && t.plan == s.plan && t.second == s.second
    requires Entered(t, log) <= Entered(s, log) + 1 && Entered(t, log) <= |s.plan.first|
    requires Entered(t, log) == Entered(s, log) + 1 ==>
      var a := Entered(s, log);
      Alone(s.plan.first[a]) && StartsBefore(s.plan, a) ==> s.second.Over() && AllPass(log.second)
    ensures WaitedInv(t, log)
  {
  }

  lemma WaitedAfterFirst(s: State, step: Step, log: Log, n: Name)
    requires Enabled(s, step) && FirstInv(s, log, n) && (step.EndFirst? || step.LeaveGroup?)
    ensures Entered(Apply(s, step), Logged(s, step, log)) <= Entered(s, log)
  {
    if step.LeaveGroup? && LeaveGroupOf(s).first.done != s.first.done {
      LeaveEmpties(s, log, n);
    }
  }

  lemma LeaveEmpties(s: State, log: Log, n: Name)
    requires Enabled(s, LeaveGroup) && FirstInv(s, log, n)
    requires LeaveGroupOf(s).first.done != s.first.done
    ensures |log.first| == |Flatten(LeaveGroupOf(s).first.done)|
  {
    FlatPush(s.first.done, s.first.group);
  }

  /** Waiting was not in vain: a second sequence that is over stays so. */
  lemma StillWaited(s: State, t: State, log: Log, log': Log)
    requires WaitedInv(s, log) && t.plan == s.plan && Entered(t, log') <= Entered(s, log)
    requires s.second.Over() ==> t.second.Over() && log'.second == log.second
    ensures WaitedInv(t, log')
  {
  }

  lemma WaitedKept(s: State, step: Step, log: Log, n: Name)
    requires Enabled(s, step) && LogInv(s, log, n) && WaitedInv(s, log)
    ensures WaitedInv(Apply(s, step), Logged(s, step, log))
  {
    if step.EnterGroup? {
      WaitedAfterEnter(s, log, n);
    } else {
      if step.EndFirst? || step.LeaveGroup? {
        WaitedAfterFirst(s, step, log, n);
      } else {
        EnteredStays(s, step, log);
      }
      OverStays(s, step, log);
      StillWaited(s, Apply(s, step), log, Logged(s, step, log));
    }
  }

  lemma OverStays(s: State, step: Step, log: Log)
    requires Enabled(s, step)
    ensures var t, log' := Apply(s, step), Logged(s, step, log);
      t.plan == s.plan && (s.second.Over() ==> t.second.Over() && log'.second == log.second)
  {
  }

  lemma EnteredStays(s: State, step: Step, log: Log)
    requires Enabled(s, step) && !step.EnterGroup? && !step.EndFirst? && !step.LeaveGroup?
    ensures Entered(Apply(s, step), Logged(s, step, log)) == Entered(s, log)
  {
  }

  /** Every run logs, and waits before exclusive groups. */
  lemma {:induction false} EveryRunWaits(s: State, steps: seq<Step>, log: Log, n: Name)
    requires LogInv(s, log, n) && WaitedInv(s, log) && CanRun(s, steps)
    ensures LogInv(RunFrom(s, steps), LogFrom(s, steps, log), n)
    ensures WaitedInv(RunFrom(s, steps), LogFrom(s, steps, log))
    decreases |steps|
  {
    if steps == [] {
    } else {
      LogKept(s, steps[0], log, n);
      WaitedKept(s, steps[0], log, n);
      EveryRunWaits(Apply(s, steps[0]), steps[1..], Logged(s, steps[0], log), n);
    }
  }

  // ---------------------------------------------------------------------
  // Which groups ran
  // ---------------------------------------------------------------------

  /** The rows of a first host at rest are those of the groups it entered. */
  lemma CountsAtRest(s: State, past: seq<Row>, rows: seq<Row>, second: seq<Row>, n: Name, entered: nat)
    requires PastRows(s, past, n) && RestingRows(s, rows, second, n)
    requires entered == |s.first.done| + if rows == [] then 0 else 1
    ensures entered <= |s.plan.first| && Rows(past + rows, n) == Stages(Flatten(s.plan.first[..entered]), n)
  {
    var b := |s.first.done|;
    RowsConcat(past, rows, n);
    StagesNone(n);
    assert s.plan.first[..b] == s.first.done;
    if rows != [] {
      assert s.plan.first[..b + 1] == s.first.done + [s.plan.first[b]];
      FlatPush(s.first.done, s.plan.first[b]);
      StagesConcat(Flatten(s.first.done), s.plan.first[b], n);
    }
  }

  lemma FirstCounts(s: State, log: Log, n: Name)
    requires FirstInv(s, log, n) && !s.first.busy
    ensures Entered(s, log) <= |s.plan.first|
    ensures Rows(log.first, n) == Stages(Flatten(s.plan.first[..Entered(s, log)]), n)
  {
    var d := |Flatten(s.first.done)|;
    assert log.first == log.first[..d] + log.first[d..];
    CountsAtRest(s, log.first[..d], log.first[d..], log.second, n, Entered(s, log));
  }

  lemma {:induction false} FlatSplit(groups: seq<Group>, m: nat)
    requires m <= |groups|
    ensures Flatten(groups) == Flatten(groups[..m]) + Flatten(groups[m..])
  {
    if m == |groups| {
      assert groups[..m] == groups;
    } else {
      var k := |groups| - 1;
      FlatSplit(groups[..k], m);
      assert groups[..k][..m] == groups[..m] && groups[..k][m..] == groups[m..][..k - m];
      assert groups[m..][k - m] == groups[k];
    }
  }

  lemma InOnePart(groups: seq<Group>, m: nat, a: nat, x: Stage)
    requires m <= |groups| && a < |groups| && x in groups[a]
    ensures if a < m then x in Flatten(groups[..m]) else x in Flatten(groups[m..])
  {
    if a < m {
      assert groups[..m][a] == groups[a];
      InFlat(groups[..m], x);
    } else {
      assert groups[m..][a - m] == groups[a];
      InFlat(groups[m..], x);
    }
  }

  /** A stage of group `a` is once among the first `m` groups if it is there at all. */
  lemma StageOnce(plan: Plan, requested: set<Name>, m: nat, a: nat, x: Stage)
    requires Sound(plan, requested) && m <= |plan.first| && a < |plan.first| && x in plan.first[a]
    ensures Stages(Flatten(plan.first[..m]), x.name) == if a < m then 1 else 0
  {
    FlatSplit(plan.first, m);
    StagesConcat(Flatten(plan.first[..m]), Flatten(plan.first[m..]), x.name);
    EverythingCounts(plan, x.name);
    InOnePart(plan.first, m, a, x);
    var part := if a < m then Flatten(plan.first[..m]) else Flatten(plan.first[m..]);
    NameOf(part, x);
    StagesIn(part, x.name);
  }

  /** The log of a run that has come to rest. */
  ghost predicate Rested(s: State, log: Log, requested: set<Name>) {
    && Done(s) && Sound(s.plan, requested) && WaitedInv(s, log)
    && forall n :: LogInv(s, log, n)
  }

  lemma GroupRan(s: State, log: Log, requested: set<Name>, a: nat, x: Stage)
    requires Rested(s, log, requested) && a < |s.plan.first| && x in s.plan.first[a]
    ensures Rows(log.first, x.name) == if a < Entered(s, log) then 1 else 0
    ensures Has(log.first, x.name) <==> a < Entered(s, log)
  {
    assert LogInv(s, log, x.name);
    FirstCounts(s, log, x.name);
    StageOnce(s.plan, requested, Entered(s, log), a, x);
    RowsIn(log.first, x.name);
  }

  lemma PastHas(past: seq<Row>, n: Name)
    requires AllPass(past) && Rows(past, n) > 0
    ensures Row(n, Pass) in past
  {
    RowsIn(past, n);
    var r :| r in past && r.name == n;
    assert r == Row(n, Pass);
  }

  lemma LeftBehindPassed(s: State, log: Log, requested: set<Name>, a: nat, x: Stage)
    requires Rested(s, log, requested) && a < |s.first.done| && a < |s.plan.first| && x in s.plan.first[a]
    ensures Row(x.name, Pass) in log.first
  {
    assert LogInv(s, log, x.name);
    var past := PastOf(s, log, x.name);
    PassedInPast(s, past, requested, a, x);
  }

  lemma PastOf(s: State, log: Log, n: Name) returns (past: seq<Row>)
    requires FirstInv(s, log, n)
    ensures past <= log.first && PastRows(s, past, n)
  {
    past := log.first[..|Flatten(s.first.done)|];
  }

  lemma PassedInPast(s: State, past: seq<Row>, requested: set<Name>, a: nat, x: Stage)
    requires Sound(s.plan, requested) && PastRows(s, past, x.name)
    requires a < |s.first.done| && x in s.plan.first[a]
    ensures Row(x.name, Pass) in past
  {
    StageOnce(s.plan, requested, |s.first.done|, a, x);
    assert s.plan.first[..|s.first.done|] == s.first.done;
    PastHas(past, x.name);
  }

  /** The group a first host stopped at, if it was entered, did not pass. */
  lemma StoppedFailed(s: State, log: Log, requested: set<Name>)
    requires Rested(s, log, requested) && Entered(s, log) > |s.first.done|
    ensures |s.first.done| < |s.plan.first| && !PassedAll(log.first, s.plan.first[|s.first.done|])
  {
    var d, b := |Flatten(s.first.done)|, |s.first.done|;
    var rows := log.first[d..];
    assert LogInv(s, log, Oracle);
    assert !AllPass(rows);
    var r :| r in rows && !r.verdict.Pass?;
    assert LogInv(s, log, r.name);
    RowsIn(rows, r.name);
    StagesIn(s.plan.first[b], r.name);
    var k :| 0 <= k < |s.plan.first[b]| && Names(s.plan.first[b])[k] == r.name;
    var x := s.plan.first[b][k];
    GroupRan(s, log, requested, b, x);
    if Row(x.name, Pass) in log.first {
      assert r in log.first;
      OneRow(log.first, r, Row(x.name, Pass));
    }
  }

  lemma GroupPassed(s: State, log: Log, requested: set<Name>, a: nat)
    requires Rested(s, log, requested) && a < |s.plan.first|
    ensures PassedAll(log.first, s.plan.first[a]) <==> a < |s.first.done|
  {
    if a < |s.first.done| {
      forall x | x in s.plan.first[a]
        ensures Row(x.name, Pass) in log.first
      {
        LeftBehindPassed(s, log, requested, a, x);
      }
    } else if a < Entered(s, log) {
      StoppedFailed(s, log, requested);
    } else {
      var x := s.plan.first[a][0];
      GroupRan(s, log, requested, a, x);
      assert x in s.plan.first[a];
      assert Row(x.name, Pass).name == x.name;
    }
  }

  lemma ChainsDistinct(plan: Plan, requested: set<Name>)
    requires Sound(plan, requested)
    ensures NoRepeats(Names(plan.local)) && NoRepeats(Names(plan.second))
  {
    forall n: Name
      ensures multiset(Names(plan.local))[n] <= 1 && multiset(Names(plan.second))[n] <= 1
    {
      EverythingCounts(plan, n);
      assert Stages(Everything(plan), n) <= 1;
    }
    BagDistinct(Names(plan.local));
    BagDistinct(Names(plan.second));
  }

  /** A chain that is over passed if and only if each of its stages did. */
  lemma ChainPassed(stages: seq<Stage>, lane: Lane, rows: seq<Row>)
    requires ChainInv(stages, lane, rows) && lane.running.None? && lane.todo == [] && NoRepeats(Names(stages))
    ensures AllPass(rows) <==> PassedAll(rows, stages)
  {
    var k := |rows|;
    if AllPass(rows) {
      assert stages[k..] == [];
      forall x | x in stages
        ensures Row(x.name, Pass) in rows
      {
        var j :| 0 <= j < |stages| && stages[j] == x;
        assert rows[j] == Row(x.name, Pass);
      }
    } else {
      var r :| r in rows && !r.verdict.Pass?;
      var j :| 0 <= j < k && rows[j] == r;
      forall i | 0 <= i < k
        ensures rows[i] != Row(stages[j].name, Pass)
      {
        assert i != j ==> Names(stages)[i] != Names(stages)[j];
      }
      assert stages[j] in stages;
    }
  }

  // ---------------------------------------------------------------------
  // Which stages ran
  // ---------------------------------------------------------------------

  /** The oracle's group passed, or the first host has no oracle. */
  ghost predicate OracleLetsGo(plan: Plan, first: seq<Row>) {
    RunsOracle(Flatten(plan.first)) ==>
      exists a :: 0 <= a < |plan.first| && RunsOracle(plan.first[a]) && PassedAll(first, plan.first[a])
  }

  lemma OracleAmong(groups: seq<Group>)
    ensures RunsOracle(Flatten(groups)) <==> exists a :: 0 <= a < |groups| && RunsOracle(groups[a])
  {
    if RunsOracle(Flatten(groups)) {
      var x :| x in Flatten(groups) && x.name.Oracle?;
      InFlat(groups, x);
    }
    if a :| 0 <= a < |groups| && RunsOracle(groups[a]) {
      var x :| x in groups[a] && x.name.Oracle?;
      InFlat(groups, x);
    }
  }

  /** A run at rest has started the second sequence exactly when it has stages
      and the oracle's group passed, or the first host has no oracle. */
  lemma SecondStartedIff(s: State, log: Log, requested: set<Name>)
    requires Rested(s, log, requested)
    ensures s.second.started <==> s.plan.second != [] && OracleLetsGo(s.plan, log.first)
  {
    assert StartInv(s) && s.first.done <= s.plan.first by {
      assert LogInv(s, log, Oracle);
    }
    AloneIff(Flatten(s.plan.first));
    AloneIff(Flatten(s.first.done));
    forall a | 0 <= a < |s.plan.first|
      ensures PassedAll(log.first, s.plan.first[a]) <==> a < |s.first.done|
    {
      GroupPassed(s, log, requested, a);
    }
    OracleLeftBehind(s.plan, s.first.done, log.first);
  }

  lemma OracleLeftBehind(plan: Plan, done: seq<Group>, first: seq<Row>)
    requires done <= plan.first
    requires forall a :: 0 <= a < |plan.first| ==> (PassedAll(first, plan.first[a]) <==> a < |done|)
    ensures OracleLetsGo(plan, first) <==> (RunsOracle(Flatten(plan.first)) ==> RunsOracle(Flatten(done)))
  {
    OracleAmong(done);
    assert forall a :: 0 <= a < |done| ==> done[a] == plan.first[a];
  }

  /** A local stage ran exactly when every local stage before it passed. */
  lemma LocalRanIff(s: State, log: Log, requested: set<Name>, j: nat)
    requires Rested(s, log, requested) && j < |s.plan.local|
    ensures Has(log.local, s.plan.local[j].name) <==> PassedAll(log.local, s.plan.local[..j])
  {
    assert LogInv(s, log, Oracle);
    ChainsDistinct(s.plan, requested);
    ChainRan(s.plan.local, s.local, log.local, j);
    PassedBefore(log.local, s.plan.local, j);
  }

  lemma PassedBefore(rows: seq<Row>, stages: seq<Stage>, j: nat)
    requires j <= |stages|
    ensures PassedAll(rows, stages[..j]) <==> forall i :: 0 <= i < j ==> Row(stages[i].name, Pass) in rows
  {
    if PassedAll(rows, stages[..j]) {
      forall i | 0 <= i < j
        ensures Row(stages[i].name, Pass) in rows
      {
        assert stages[..j][i] == stages[i];
      }
    }
  }

  /** A stage of the second sequence ran exactly when the oracle let it start
      and every stage before it passed. */
  lemma SecondRanIff(s: State, log: Log, requested: set<Name>, j: nat)
    requires Rested(s, log, requested) && j < |s.plan.second|
    ensures Has(log.second, s.plan.second[j].name) <==>
      OracleLetsGo(s.plan, log.first) && PassedAll(log.second, s.plan.second[..j])
  {
    assert LogInv(s, log, Oracle);
    SecondStartedIff(s, log, requested);
    ChainsDistinct(s.plan, requested);
    if s.second.started {
      ChainRan(s.plan.second, s.second, log.second, j);
      PassedBefore(log.second, s.plan.second, j);
    }
  }

  lemma EarlierPassedIff(s: State, log: Log, requested: set<Name>, a: nat)
    requires Rested(s, log, requested) && a < |s.plan.first|
    ensures (forall b :: 0 <= b < a ==> PassedAll(log.first, s.plan.first[b])) <==> a <= |s.first.done|
  {
    forall b | 0 <= b < |s.plan.first|
      ensures PassedAll(log.first, s.plan.first[b]) <==> b < |s.first.done|
    {
      GroupPassed(s, log, requested, b);
    }
    assert a > |s.first.done| ==> !PassedAll(log.first, s.plan.first[|s.first.done|]);
  }

  /** The group a first host at rest stopped short of is exclusive, and the
      second sequence it waited for failed. */
  lemma StoppedShort(s: State, log: Log, requested: set<Name>, a: nat)
    requires Rested(s, log, requested) && a == Entered(s, log) == |s.first.done| < |s.plan.first|
    ensures Alone(s.plan.first[a]) && StartsBefore(s.plan, a) && !PassedAll(log.second, s.plan.second)
  {
    assert LogInv(s, log, Oracle);
    StartedByNow(s);
    ChainsDistinct(s.plan, requested);
    assert s.plan.first[a..] != [];
    ChainPassed(s.plan.second, s.second, log.second);
  }

  /** A stage of the first host ran exactly when every group before its own
      passed and, if its group is exclusive and a second sequence had been
      started by then, all of that sequence passed. */
  lemma FirstRanIff(s: State, log: Log, requested: set<Name>, a: nat, x: Stage)
    requires Rested(s, log, requested) && a < |s.plan.first| && x in s.plan.first[a]
    ensures Has(log.first, x.name) <==>
      && (forall b :: 0 <= b < a ==> PassedAll(log.first, s.plan.first[b]))
      && (Alone(s.plan.first[a]) && StartsBefore(s.plan, a) ==> PassedAll(log.second, s.plan.second))
  {
    GroupRan(s, log, requested, a, x);
    EarlierPassedIff(s, log, requested, a);
    if a < Entered(s, log) {
      if Alone(s.plan.first[a]) && StartsBefore(s.plan, a) {
        assert LogInv(s, log, Oracle);
        ChainsDistinct(s.plan, requested);
        ChainPassed(s.plan.second, s.second, log.second);
      }
    } else if a == |s.first.done| {
      StoppedShort(s, log, requested, a);
    }
  }
}
