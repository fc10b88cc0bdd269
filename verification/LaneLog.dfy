/**
 What a validation run did, read off its End steps: which stage each step ended
 and with which verdict, lane by lane. The report, the exit code, the oracle's
 gate and which stages ran at all are told from this log.
 */
module LaneLog {
  import opened StageTable
  import opened StagePlan
  import opened Bags
  import opened Lanes
  import opened LaneVerdict
  import opened LaneReport

  /** The stages ended so far, in the order each lane ended them. */
  datatype Log = Log(local: seq<Row>, first: seq<Row>, second: seq<Row>) {
    function All(): seq<Row> { local + first + second }
  }

  const NoLog := Log([], [], [])

  /** The log after a step: an End step adds the stage it ends. */
  function Logged(s: State, step: Step, log: Log): Log
    requires Enabled(s, step)
  {
    match step
    case EndLocal(v) => log.(local := log.local + [Row(s.local.running.value.name, v)])
    case EndFirst(i, v) => log.(first := log.first + [Row(s.first.pending[i].name, v)])
    case EndSecond(v) => log.(second := log.second + [Row(s.second.running.value.name, v)])
    case _ => log
  }

  ghost function LogFrom(s: State, steps: seq<Step>, log: Log): Log
    requires CanRun(s, steps)
    decreases |steps|
  {
    if steps == [] then log else LogFrom(Apply(s, steps[0]), steps[1..], Logged(s, steps[0], log))
  }

  /** The log of a run of a plan. */
  ghost function LogOf(plan: Plan, steps: seq<Step>): Log
    requires CanRun(Init(plan), steps)
  {
    LogFrom(Init(plan), steps, NoLog)
  }

  // ---------------------------------------------------------------------
  // A chain of stages
  // ---------------------------------------------------------------------

  /** A chain has ended its first stages in order. It goes on with the others
      unless the last one ended did not pass. */
  ghost predicate ChainInv(stages: seq<Stage>, lane: Lane, rows: seq<Row>) {
    var k := |rows|;
    && k <= |stages|
    && (forall j :: 0 <= j < k ==> rows[j].name == stages[j].name)
    && (forall j :: 0 <= j < k - 1 ==> rows[j].verdict.Pass?)
    && lane.Active() + lane.todo == if k > 0 && !rows[k - 1].verdict.Pass? then [] else stages[k..]
  }

  lemma ChainBegins(stages: seq<Stage>, lane: Lane, rows: seq<Row>)
    requires ChainInv(stages, lane, rows) && lane.running.None? && lane.todo != []
    ensures ChainInv(stages, Begun(lane), rows)
  {
    assert Begun(lane).Active() + Begun(lane).todo == lane.todo;
    assert lane.Active() + lane.todo == lane.todo;
  }

  lemma ChainEnds(stages: seq<Stage>, lane: Lane, rows: seq<Row>, v: Verdict)
    requires ChainInv(stages, lane, rows) && lane.running.Some?
    ensures ChainInv(stages, Ended(lane, v), rows + [Row(lane.running.value.name, v)])
  {
    var k := |rows|;
    var left := lane.Active() + lane.todo;
    assert left[0] == lane.running.value && left[1..] == lane.todo;
    assert left == stages[k..];
    assert stages[k..][1..] == stages[k + 1..];
    var ended := Ended(lane, v);
    assert ended.Active() + ended.todo == if v.Pass? then lane.todo else [];
  }

  /** A chain that is over ran a stage exactly when every stage before it passed. */
  lemma ChainRan(stages: seq<Stage>, lane: Lane, rows: seq<Row>, j: nat)
    requires ChainInv(stages, lane, rows) && lane.running.None? && lane.todo == [] && j < |stages|
    requires NoRepeats(Names(stages))
    ensures Has(rows, stages[j].name) <==> forall i :: 0 <= i < j ==> Row(stages[i].name, Pass) in rows
  {
    var k := |rows|;
    if j < k {
      assert rows[j] in rows;
      forall i | 0 <= i < j
        ensures Row(stages[i].name, Pass) in rows
      {
        assert rows[i] == Row(stages[i].name, Pass);
      }
    } else {
      assert stages[k..] != [];
      assert k > 0 && !rows[k - 1].verdict.Pass?;
      ChainRow(stages, rows, stages[j].name, j);
      forall r | r in rows
        ensures r != Row(stages[k - 1].name, Pass)
      {
        var i :| 0 <= i < |rows| && rows[i] == r;
        assert i < k - 1 ==> Names(stages)[i] != Names(stages)[k - 1];
      }
    }
  }

  lemma ChainRow(stages: seq<Stage>, rows: seq<Row>, n: Name, j: nat)
    requires |rows| <= j < |stages| && NoRepeats(Names(stages)) && n == stages[j].name
    requires forall i :: 0 <= i < |rows| ==> rows[i].name == stages[i].name
    ensures !Has(rows, n)
  {
    forall r | r in rows
      ensures r.name != n
    {
      var i :| 0 <= i < |rows| && rows[i] == r;
      assert Names(stages)[i] != Names(stages)[j];
    }
  }

  // ---------------------------------------------------------------------
  // The first host's groups
  // ---------------------------------------------------------------------

  /** The rows that are not aborts. */
  function Verdicts(rows: seq<Row>): seq<Row> {
    if rows == [] then [] else
      var n := |rows| - 1;
      Verdicts(rows[..n]) + if rows[n].verdict.Aborted? then [] else [rows[n]]
  }

  lemma VerdictsPush(rows: seq<Row>, r: Row)
    ensures Verdicts(rows + [r]) == Verdicts(rows) + if r.verdict.Aborted? then [] else [r]
  {
    assert (rows + [r])[..|rows|] == rows;
  }

  lemma {:induction false} AllVerdicts(rows: seq<Row>)
    ensures |Verdicts(rows)| <= |rows|
    ensures |Verdicts(rows)| == |rows| && AllPass(Verdicts(rows)) <==> AllPass(rows)
  {
    if rows == [] {
    } else {
      var init, last := rows[..|rows| - 1], rows[|rows| - 1];
      AllVerdicts(init);
      assert rows == init + [last];
      Joined(init, [last]);
      Joined(Verdicts(init), [last]);
    }
  }

  /** `past` are the rows of the groups left behind: all passed. */
  ghost predicate PastRows(s: State, past: seq<Row>, n: Name) {
    && s.first.done <= s.plan.first
    && |past| == |Flatten(s.first.done)|
    && AllPass(past)
    && Rows(past, n) == Stages(Flatten(s.first.done), n)
  }

  /** The rows of the current group: one for each stage that is no longer running. */
  ghost predicate GroupRows(s: State, rows: seq<Row>, n: Name) {
    && |s.first.done| < |s.plan.first|
    && s.first.group == s.plan.first[|s.first.done|] && s.first.rest == s.plan.first[|s.first.done| + 1..]
    && s.first.outcomes == Verdicts(rows)
    && |rows| + |s.first.pending| == |s.first.group|
    && Rows(rows, n) + Stages(s.first.pending, n) == Stages(s.first.group, n)
  }

  /** The sequence of groups stopped: its last group has a row that did not
      pass, or an exclusive group found the second sequence failed. */
  ghost predicate StoppedRows(s: State, rows: seq<Row>, second: seq<Row>, n: Name) {
    && s.first.rest == [] && |s.first.done| < |s.plan.first|
    && var group := s.plan.first[|s.first.done|];
       if rows == [] then HasExclusive(group) && s.second.started && s.second.Over() && !AllPass(second)
       else !AllPass(rows) && Rows(rows, n) == Stages(group, n)
  }

  ghost predicate RestingRows(s: State, rows: seq<Row>, second: seq<Row>, n: Name) {
    && s.first.pending == [] && s.first.outcomes == [] && |s.first.done| <= |s.plan.first|
    && ((rows == [] && s.first.rest == s.plan.first[|s.first.done|..]) || StoppedRows(s, rows, second, n))
  }

  ghost predicate FirstRows(s: State, past: seq<Row>, rows: seq<Row>, second: seq<Row>, n: Name) {
    && PastRows(s, past, n)
    && if s.first.busy then GroupRows(s, rows, n) else RestingRows(s, rows, second, n)
  }

  ghost predicate FirstInv(s: State, log: Log, n: Name) {
    var d := |Flatten(s.first.done)|;
    d <= |log.first| && FirstRows(s, log.first[..d], log.first[d..], log.second, n)
  }

  /** The second sequence is started exactly when it has stages and the oracle
      is not among the first host's, or its group was left behind. */
  ghost predicate StartInv(s: State) {
    s.second.started <==>
      s.plan.second != [] && (HasOracle(Flatten(s.plan.first)) ==> HasOracle(Flatten(s.first.done)))
  }

  /** Every row stands where the driver's report will find it. */
  ghost predicate TellInv(s: State, log: Log) {
    && log.local == s.localResults
    && (forall r :: r in log.second ==> if r.verdict.Aborted? then r in s.results else r in s.secondResults)
    && (forall r :: r in s.secondResults ==> r in log.second)
    && (forall r :: r in s.results ==> r in log.first || r in log.second)
    && (forall r :: r in log.first ==> r in s.results || r in s.first.outcomes)
    && (forall r :: r in s.first.outcomes ==> r in log.first)
  }

  ghost predicate LogInv(s: State, log: Log, n: Name) {
    && ChainInv(s.plan.local, s.local, log.local)
    && ChainInv(s.plan.second, s.second, log.second)
    && (s.second.running.Some? ==> s.second.started) && s.local.started
    && (!s.second.started ==> log.second == [])
    && FirstInv(s, log, n) && StartInv(s) && TellInv(s, log)
  }

  // Steps of the two chains leave the groups alone.

  lemma FirstUntouched(s: State, t: State, log: Log, log': Log, n: Name)
    requires FirstInv(s, log, n)
    requires t.plan == s.plan && t.first == s.first && log'.first == log.first
    requires s.second.Over() ==> t.second == s.second && log'.second == log.second
    ensures FirstInv(t, log', n)
  {
  }

  lemma TellKept(s: State, step: Step, log: Log)
    requires Enabled(s, step) && TellInv(s, log) && (step.EnterGroup? ==> s.first.outcomes == [])
    ensures TellInv(Apply(s, step), Logged(s, step, log))
  {
  }

  lemma LocalKept(s: State, step: Step, log: Log, n: Name)
    requires Enabled(s, step) && LogInv(s, log, n) && (step.StartLocal? || step.EndLocal?)
    ensures LogInv(Apply(s, step), Logged(s, step, log), n)
  {
    TellKept(s, step, log);
    FirstUntouched(s, Apply(s, step), log, Logged(s, step, log), n);
    if step.StartLocal? {
      ChainBegins(s.plan.local, s.local, log.local);
    } else {
      ChainEnds(s.plan.local, s.local, log.local, step.verdict);
    }
  }

  lemma SecondKept(s: State, step: Step, log: Log, n: Name)
    requires Enabled(s, step) && LogInv(s, log, n) && (step.StartSecond? || step.EndSecond?)
    ensures LogInv(Apply(s, step), Logged(s, step, log), n)
  {
    TellKept(s, step, log);
    FirstUntouched(s, Apply(s, step), log, Logged(s, step, log), n);
    if step.StartSecond? {
      ChainBegins(s.plan.second, s.second, log.second);
    } else {
      ChainEnds(s.plan.second, s.second, log.second, step.verdict);
    }
  }

  /** With every row of the first host passing, `secondFailed` is about the second. */
  lemma SecondFailedIff(s: State, log: Log)
    requires TellInv(s, log) && AllPass(log.first) && s.plan.second != []
    ensures SecondFailed(s) <==> !AllPass(log.second)
  {
  }

  lemma Enters(s: State, past: seq<Row>, rows: seq<Row>, second: seq<Row>, n: Name)
    requires Enabled(s, EnterGroup) && FirstRows(s, past, rows, second, n)
    requires s.second.started ==> (SecondFailed(s) <==> !AllPass(second))
    ensures FirstRows(EnterGroupOf(s), past, rows, second, n)
  {
    StagesNone(n);
  }

  lemma PassedSoFar(s: State, past: seq<Row>, rows: seq<Row>, second: seq<Row>, n: Name)
    requires Enabled(s, EnterGroup) && FirstRows(s, past, rows, second, n)
    ensures AllPass(past + rows)
  {
  }

  lemma EnterKept(s: State, log: Log, n: Name)
    requires Enabled(s, EnterGroup) && FirstInv(s, log, n) && TellInv(s, log)
    requires s.second.started ==> s.plan.second != []
    ensures FirstInv(EnterGroupOf(s), log, n)
  {
    var d := |Flatten(s.first.done)|;
    var past, rows := log.first[..d], log.first[d..];
    PassedSoFar(s, past, rows, log.second, n);
    assert log.first == past + rows;
    if s.second.started {
      SecondFailedIff(s, log);
    }
    Enters(s, past, rows, log.second, n);
    assert EnterGroupOf(s).first.done == s.first.done;
  }

  lemma Ends(s: State, i: nat, v: Verdict, past: seq<Row>, rows: seq<Row>, second: seq<Row>, n: Name)
    requires Enabled(s, EndFirst(i, v)) && FirstRows(s, past, rows, second, n)
    ensures FirstRows(EndFirstOf(s, i, v), past, rows + [Row(s.first.pending[i].name, v)], second, n)
  {
    var row := Row(s.first.pending[i].name, v);
    VerdictsPush(rows, row);
    RowsPush(rows, row, n);
    StagesWithout(s.first.pending, i, n);
  }

  lemma EndFirstKept(s: State, i: nat, v: Verdict, log: Log, n: Name)
    requires Enabled(s, EndFirst(i, v)) && FirstInv(s, log, n)
    ensures FirstInv(EndFirstOf(s, i, v), Logged(s, EndFirst(i, v), log), n)
  {
    var row := Row(s.first.pending[i].name, v);
    var d := |Flatten(s.first.done)|;
    assert (log.first + [row])[d..] == log.first[d..] + [row];
    assert (log.first + [row])[..d] == log.first[..d];
    Ends(s, i, v, log.first[..d], log.first[d..], log.second, n);
  }

  /** The current group becomes one of those left behind. */
  lemma Leaves(s: State, t: State, past: seq<Row>, rows: seq<Row>, n: Name)
    requires PastRows(s, past, n) && GroupRows(s, rows, n) && s.first.pending == [] && AllPass(rows)
    requires t.plan == s.plan && t.first.done == s.first.done + [s.first.group]
    ensures PastRows(t, past + rows, n) && |Flatten(t.first.done)| == |past + rows|
  {
    FlatPush(s.first.done, s.first.group);
    Joined(past, rows);
    RowsConcat(past, rows, n);
    StagesConcat(Flatten(s.first.done), s.first.group, n);
    StagesNone(n);
  }

  lemma Stops(s: State, t: State, rows: seq<Row>, second: seq<Row>, n: Name)
    requires GroupRows(s, rows, n) && s.first.pending == [] && !AllPass(rows)
    requires t.plan == s.plan && t.first == First(false, [], [], [], [], s.first.done)
    ensures RestingRows(t, rows, second, n)
  {
    StagesNone(n);
  }

  lemma LeaveKept(s: State, log: Log, n: Name)
    requires Enabled(s, LeaveGroup) && FirstInv(s, log, n)
    ensures FirstInv(LeaveGroupOf(s), log, n)
  {
    var d := |Flatten(s.first.done)|;
    var past, rows := log.first[..d], log.first[d..];
    var t := LeaveGroupOf(s);
    assert log.first == past + rows;
    AllVerdicts(rows);
    if AllPass(rows) {
      Leaves(s, t, past, rows, n);
      assert log.first[..|past + rows|] == past + rows && log.first[|past + rows|..] == [];
    } else {
      Stops(s, t, rows, log.second, n);
    }
  }

  lemma LeaveStarts(s: State, log: Log, n: Name)
    requires Enabled(s, LeaveGroup) && StartInv(s)
    requires s.first.done + [s.first.group] <= s.plan.first
    ensures StartInv(LeaveGroupOf(s))
  {
    OracleIn(s.first.done, s.first.group);
    FlatPrefix(s.plan.first, |s.first.done| + 1);
    assert s.plan.first[..|s.first.done| + 1] == s.first.done + [s.first.group];
  }

  /** A stage of the first groups is a stage of all. */
  lemma {:induction false} FlatPrefix(groups: seq<Group>, k: nat)
    requires k <= |groups|
    ensures Flatten(groups[..k]) <= Flatten(groups)
  {
    if k == |groups| {
      assert groups[..k] == groups;
    } else {
      FlatPrefix(groups[..|groups| - 1], k);
      assert groups[..|groups| - 1][..k] == groups[..k];
    }
  }

  lemma OracleIn(done: seq<Group>, group: Group)
    ensures HasOracle(Flatten(done + [group])) <==> HasOracle(Flatten(done)) || HasOracle(group)
  {
    FlatPush(done, group);
  }

  /** Steps of the first host's groups leave the chains alone. */
  lemma ChainsUntouched(s: State, t: State, log: Log, log': Log, n: Name)
    requires LogInv(s, log, n) && FirstInv(t, log', n) && StartInv(t) && TellInv(t, log')
    requires t.plan == s.plan && t.local == s.local && log'.local == log.local && log'.second == log.second
    requires t.second == s.second || t.second == s.second.(started := true)
    ensures LogInv(t, log', n)
  {
  }

  lemma FirstKept(s: State, step: Step, log: Log, n: Name)
    requires Enabled(s, step) && LogInv(s, log, n) && (step.EnterGroup? || step.EndFirst? || step.LeaveGroup?)
    ensures FirstInv(Apply(s, step), Logged(s, step, log), n)
  {
    match step
    case EnterGroup => EnterKept(s, log, n);
    case EndFirst(i, v) => EndFirstKept(s, i, v, log, n);
    case LeaveGroup => LeaveKept(s, log, n);
  }

  lemma StartKept(s: State, step: Step, log: Log, n: Name)
    requires Enabled(s, step) && FirstInv(s, log, n) && StartInv(s)
    ensures StartInv(Apply(s, step))
  {
    if step.LeaveGroup? {
      LeaveStarts(s, log, n);
    }
  }

  lemma GroupsKept(s: State, step: Step, log: Log, n: Name)
    requires Enabled(s, step) && LogInv(s, log, n) && (step.EnterGroup? || step.EndFirst? || step.LeaveGroup?)
    ensures LogInv(Apply(s, step), Logged(s, step, log), n)
  {
    var t, log' := Apply(s, step), Logged(s, step, log);
    FirstKept(s, step, log, n);
    assert StartInv(t) && TellInv(t, log') by {
      StartKept(s, step, log, n);
      TellKept(s, step, log);
    }
    GroupStep(s, step, log);
    ChainsUntouched(s, t, log, log', n);
  }

  lemma GroupStep(s: State, step: Step, log: Log)
    requires Enabled(s, step) && (step.EnterGroup? || step.EndFirst? || step.LeaveGroup?)
    ensures var t, log' := Apply(s, step), Logged(s, step, log);
      && t.plan == s.plan && t.local == s.local && log'.local == log.local && log'.second == log.second
      && (t.second == s.second || t.second == s.second.(started := true))
  {
  }

  lemma LogKept(s: State, step: Step, log: Log, n: Name)
    requires Enabled(s, step) && LogInv(s, log, n)
    ensures LogInv(Apply(s, step), Logged(s, step, log), n)
  {
    if step.StartLocal? || step.EndLocal? {
      LocalKept(s, step, log, n);
    } else if step.StartSecond? || step.EndSecond? {
      SecondKept(s, step, log, n);
    } else {
      GroupsKept(s, step, log, n);
    }
  }

  lemma {:induction false} EveryRunLogs(s: State, steps: seq<Step>, log: Log, n: Name)
    requires LogInv(s, log, n) && CanRun(s, steps)
    ensures LogInv(RunFrom(s, steps), LogFrom(s, steps, log), n)
    decreases |steps|
  {
    if steps == [] {
    } else {
      LogKept(s, steps[0], log, n);
      EveryRunLogs(Apply(s, steps[0]), steps[1..], Logged(s, steps[0], log), n);
    }
  }

  lemma InitLogs(plan: Plan, n: Name)
    ensures LogInv(Init(plan), NoLog, n)
  {
    StagesNone(n);
  }
}
