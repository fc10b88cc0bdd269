/**
 The validation driver's scheduler as a step system: the local chain, the
 first host's groups and the second host's sequence, interleaved in any order,
 with every stage free to pass, fail or abort before it starts.
 */
module Lanes {
  import opened StageTable
  import opened StagePlan
  import opened Options
  import opened Bags

  datatype Verdict = Pass | Fail | Aborted

  datatype Row = Row(name: Name, verdict: Verdict)

  /** A chain of stages run one at a time. A stage that does not pass ends it. */
  datatype Lane = Lane(started: bool, running: Option<Stage>, todo: seq<Stage>) {
    predicate Over() {
      started && running.None? && todo == []
    }

    function Active(): seq<Stage> {
      if running.Some? then [running.value] else []
    }
  }

  /** The first host's sequence of groups. `pending` are the stages of the
      current group still running, `outcomes` the rows of those that ran. */
  datatype First = First(
    busy: bool,
    group: Group,
    pending: seq<Stage>,
    outcomes: seq<Row>,
    rest: seq<Group>,
    done: seq<Group>)

  datatype State = State(
    plan: Plan,
    local: Lane,
    first: First,
    second: Lane,
    results: seq<Row>,
    localResults: seq<Row>,
    secondResults: seq<Row>)

  datatype Step =
    | StartLocal
    | EndLocal(verdict: Verdict)
    | StartSecond
    | EndSecond(verdict: Verdict)
    | EnterGroup
    | EndFirst(i: nat, verdict: Verdict)
    | LeaveGroup

  function HasOracle(stages: seq<Stage>): bool {
    exists s :: s in stages && s.name.Oracle?
  }

  function HasExclusive(stages: seq<Stage>): bool {
    exists s :: s in stages && s.exclusive
  }

  function AllPass(rows: seq<Row>): bool {
    forall r :: r in rows ==> r.verdict.Pass?
  }

  /** The second sequence starts at once unless the oracle runs on the first host. */
  function Init(plan: Plan): State {
    State(plan,
          Lane(true, None, plan.local),
          First(false, [], [], [], plan.first, []),
          Lane(plan.second != [] && !HasOracle(Flatten(plan.first)), None, plan.second),
          [], [], [])
  }

  /** What `secondFailed` asks once the second sequence is over. */
  function SecondFailed(s: State): bool {
    || !AllPass(s.secondResults)
    || (s.plan.second != [] && exists r :: r in s.results && r.verdict.Aborted?)
  }

  ghost predicate Enabled(s: State, step: Step) {
    match step
    case StartLocal => s.local.running.None? && s.local.todo != []
    case EndLocal(v) => s.local.running.Some? && !v.Aborted?
    case StartSecond => s.second.started && s.second.running.None? && s.second.todo != []
    case EndSecond(v) => s.second.running.Some?
    case EnterGroup => !s.first.busy && s.first.rest != []
                       && (HasExclusive(s.first.rest[0]) && s.second.started ==> s.second.Over())
    case EndFirst(i, v) => s.first.busy && i < |s.first.pending| && (v.Aborted? ==> s.first.pending[i].remote)
    case LeaveGroup => s.first.busy && s.first.pending == []
  }

  function Begun(lane: Lane): Lane
    requires lane.todo != []
  {
    lane.(running := Some(lane.todo[0]), todo := lane.todo[1..])
  }

  function Ended(lane: Lane, v: Verdict): Lane {
    lane.(running := None, todo := if v.Pass? then lane.todo else [])
  }

  function EnterGroupOf(s: State): State
    requires Enabled(s, EnterGroup)
  {
    var group := s.first.rest[0];
    if HasExclusive(group) && s.second.started && SecondFailed(s)
    then s.(first := s.first.(rest := []))
    else s.(first := First(true, group, group, [], s.first.rest[1..], s.first.done))
  }

  /** An abort is recorded in `results` at once; a verdict waits for the group. */
  function EndFirstOf(s: State, i: nat, v: Verdict): State
    requires Enabled(s, EndFirst(i, v))
  {
    var row := Row(s.first.pending[i].name, v);
    var first := s.first.(pending := Without(s.first.pending, i));
    if v.Aborted? then s.(first := first, results := s.results + [row])
    else s.(first := first.(outcomes := s.first.outcomes + [row]))
  }

  function LeaveGroupOf(s: State): State
    requires Enabled(s, LeaveGroup)
  {
    var f := s.first;
    var results := s.results + f.outcomes;
    if |f.outcomes| != |f.group| || !AllPass(f.outcomes)
    then s.(results := results, first := First(false, [], [], [], [], f.done))
    else s.(results := results,
            first := First(false, [], [], [], f.rest, f.done + [f.group]),
            second := s.second.(started := s.second.started || (HasOracle(f.group) && s.plan.second != [])))
  }

  function Apply(s: State, step: Step): State
    requires Enabled(s, step)
  {
    match step
    case StartLocal => s.(local := Begun(s.local))
    case EndLocal(v) =>
      s.(local := Ended(s.local, v), localResults := s.localResults + [Row(s.local.running.value.name, v)])
    case StartSecond => s.(second := Begun(s.second))
    case EndSecond(v) =>
      var row := Row(s.second.running.value.name, v);
      if v.Aborted? then s.(second := Ended(s.second, v), results := s.results + [row])
      else s.(second := Ended(s.second, v), secondResults := s.secondResults + [row])
    case EnterGroup => EnterGroupOf(s)
    case EndFirst(i, v) => EndFirstOf(s, i, v)
    case LeaveGroup => LeaveGroupOf(s)
  }

  ghost predicate CanRun(s: State, steps: seq<Step>)
    decreases |steps|
  {
    steps == [] || (Enabled(s, steps[0]) && CanRun(Apply(s, steps[0]), steps[1..]))
  }

  ghost function RunFrom(s: State, steps: seq<Step>): State
    requires CanRun(s, steps)
    decreases |steps|
  {
    if steps == [] then s else RunFrom(Apply(s, steps[0]), steps[1..])
  }

  /** The stages running at this moment. */
  function Running(s: State): (running: seq<Stage>)
    ensures forall x :: x in running <==>
      s.local.running == Some(x) || x in s.first.pending || s.second.running == Some(x)
  {
    s.local.Active() + s.first.pending + s.second.Active()
  }

  // ---------------------------------------------------------------------
  // Exclusivity and the oracle gate
  // ---------------------------------------------------------------------

  ghost predicate GroupInv(s: State) {
    var f := s.first;
    && f.done <= s.plan.first
    && (f.busy ==>
      |f.done| < |s.plan.first| && f.group == s.plan.first[|f.done|] && f.rest == s.plan.first[|f.done| + 1..])
    && (!f.busy ==> f.pending == [] && f.outcomes == [] && (f.rest == s.plan.first[|f.done|..] || f.rest == []))
    && (forall x :: x in f.pending ==> x in f.group)
  }

  ghost predicate LaneInv(s: State) {
    && (forall x :: x in s.local.Active() + s.local.todo ==> x in s.plan.local)
    && (forall x :: x in s.second.Active() + s.second.todo ==> x in s.plan.second)
    && (forall r :: r in s.localResults ==> r.name in Names(s.plan.local))
    && s.local.started
    && (s.second.running.Some? ==> s.second.started)
    && (!s.second.started ==> s.second.todo == s.plan.second)
  }

  /** While an exclusive group runs, the second sequence is not. */
  ghost predicate ExclusiveInv(s: State) {
    s.first.busy && HasExclusive(s.first.group) ==> !s.second.started || s.second.Over()
  }

  /** Every group left behind passed, and the second sequence started only
      after the oracle passed, if the first host runs it. */
  ghost predicate PassedInv(s: State) {
    && (forall a, x :: 0 <= a < |s.first.done| && x in s.first.done[a] ==> Row(x.name, Pass) in s.results)
    && (s.second.started && HasOracle(Flatten(s.plan.first)) ==> Row(Oracle, Pass) in s.results)
  }

  /** Unless a stage of the current group aborted, each is running or has an outcome. */
  ghost predicate CoverInv(s: State) {
    var f := s.first;
    f.busy ==>
      || |f.outcomes| + |f.pending| < |f.group|
      || (|f.outcomes| + |f.pending| == |f.group|
          && forall x :: x in f.group ==> x in f.pending || exists r :: r in f.outcomes && r.name == x.name)
  }

  ghost predicate GateInv(s: State) {
    GroupInv(s) && LaneInv(s) && ExclusiveInv(s) && PassedInv(s) && CoverInv(s)
  }

  lemma GroupKept(s: State, step: Step)
    requires Enabled(s, step) && GroupInv(s)
    ensures GroupInv(Apply(s, step))
  {
  }

  lemma LaneKept(s: State, step: Step)
    requires Enabled(s, step) && LaneInv(s)
    ensures LaneInv(Apply(s, step))
  {
    if step.EndLocal? {
      NameOf(s.plan.local, s.local.running.value);
    }
  }

  lemma NameOf(stages: seq<Stage>, x: Stage)
    requires x in stages
    ensures x.name in Names(stages)
  {
    var i :| 0 <= i < |stages| && stages[i] == x;
    assert Names(stages)[i] == x.name;
  }

  lemma ExclusiveKept(s: State, step: Step)
    requires Enabled(s, step) && LaneInv(s) && ExclusiveInv(s)
    ensures ExclusiveInv(Apply(s, step))
  {
  }

  lemma CoverAfterEndFirst(s: State, i: nat, v: Verdict)
    requires Enabled(s, EndFirst(i, v)) && CoverInv(s)
    ensures CoverInv(EndFirstOf(s, i, v))
  {
    var t := EndFirstOf(s, i, v);
    if !v.Aborted? && |s.first.outcomes| + |s.first.pending| == |s.first.group| {
      forall x | x in t.first.group
        ensures x in t.first.pending || exists r :: r in t.first.outcomes && r.name == x.name
      {
        if x in s.first.pending {
          var k :| 0 <= k < |s.first.pending| && s.first.pending[k] == x;
          if k == i {
            assert t.first.outcomes[|s.first.outcomes|] == Row(x.name, v);
          } else {
            assert t.first.pending[if k < i then k else k - 1] == x;
          }
        } else {
          var r :| r in s.first.outcomes && r.name == x.name;
          assert r in t.first.outcomes;
        }
      }
    }
  }

  lemma CoverKept(s: State, step: Step)
    requires Enabled(s, step) && CoverInv(s)
    ensures CoverInv(Apply(s, step))
  {
    if step.EndFirst? {
      CoverAfterEndFirst(s, step.i, step.verdict);
    }
  }

  lemma PassedAfterLeave(s: State)
    requires Enabled(s, LeaveGroup) && GateInv(s)
    ensures PassedInv(LeaveGroupOf(s))
  {
    var f, t := s.first, LeaveGroupOf(s);
    if |f.outcomes| == |f.group| && AllPass(f.outcomes) {
      forall x | x in f.group
        ensures Row(x.name, Pass) in f.outcomes
      {
        var r :| r in f.outcomes && r.name == x.name;
        assert r == Row(x.name, Pass);
      }
      if HasOracle(f.group) {
        var x :| x in f.group && x.name.Oracle?;
        assert Row(Oracle, Pass) in f.outcomes;
      }
    }
  }

  lemma PassedKept(s: State, step: Step)
    requires Enabled(s, step) && GateInv(s)
    ensures PassedInv(Apply(s, step))
  {
    if step.LeaveGroup? {
      PassedAfterLeave(s);
    }
  }

  lemma GateKept(s: State, step: Step)
    requires Enabled(s, step) && GateInv(s)
    ensures GateInv(Apply(s, step))
  {
    GroupKept(s, step);
    LaneKept(s, step);
    ExclusiveKept(s, step);
    PassedKept(s, step);
    CoverKept(s, step);
  }

  lemma {:induction false} EveryRunGated(s: State, steps: seq<Step>)
    requires GateInv(s) && CanRun(s, steps)
    ensures GateInv(RunFrom(s, steps)) && RunFrom(s, steps).plan == s.plan
    decreases |steps|
  {
    if steps == [] {
    } else {
      GateKept(s, steps[0]);
      EveryRunGated(Apply(s, steps[0]), steps[1..]);
    }
  }

  lemma InitGated(plan: Plan)
    ensures GateInv(Init(plan))
  {
  }

  lemma {:induction false} InFlat(groups: seq<Group>, x: Stage)
    ensures x in Flatten(groups) <==> exists a :: 0 <= a < |groups| && x in groups[a]
  {
    if groups == [] {
    } else {
      var n := |groups| - 1;
      InFlat(groups[..n], x);
      if x in Flatten(groups[..n]) {
        var a :| 0 <= a < |groups[..n]| && x in groups[..n][a];
        assert x in groups[a];
      }
      if a :| 0 <= a < |groups| && x in groups[a] {
        assert a == n || x in groups[..n][a];
      }
    }
  }

  lemma AloneInState(s: State, requested: set<Name>, x: Stage, y: Stage)
    requires GateInv(s) && Sound(s.plan, requested)
    requires x in Running(s) && y in Running(s) && x.exclusive
    ensures !y.secondHost
  {
    assert x in s.first.pending && x in s.first.group;
    assert s.first.group == s.plan.first[|s.first.done|];
    assert |s.first.group| == 1;
    assert y in s.first.group ==> y == x;
  }

  /** At no moment of any run does an exclusive stage share the tree with a
      second-host stage. */
  lemma ExclusiveStagesRunAlone(
      table: seq<Stage>, requested: set<Name>, overlap: bool, second: bool, steps: seq<Step>, x: Stage, y: Stage)
    requires WellDeclared(table) && forall n :: n in requested ==> n in Names(table)
    requires CanRun(Init(Split(table, requested, overlap, second)), steps)
    requires var t := RunFrom(Init(Split(table, requested, overlap, second)), steps);
             x in Running(t) && y in Running(t)
    ensures !(x.exclusive && y.secondHost)
  {
    var plan := Split(table, requested, overlap, second);
    SplitIsSound(table, requested, overlap, second);
    InitGated(plan);
    EveryRunGated(Init(plan), steps);
    if x.exclusive {
      AloneInState(RunFrom(Init(plan), steps), requested, x, y);
    }
  }

  lemma GatedInState(s: State, requested: set<Name>, y: Stage)
    requires GateInv(s) && Sound(s.plan, requested)
    requires Oracle in requested && y in Running(s) && y.secondHost
    ensures Row(Oracle, Pass) in s.results
  {
    var o := OracleGroup(s.plan, requested);
    if y in s.second.Active() {
      assert s.second.started;
      InFlat(s.plan.first, s.plan.first[o.0][o.1]);
      assert HasOracle(Flatten(s.plan.first));
    } else {
      assert y in s.first.group && s.first.group == s.plan.first[|s.first.done|];
      assert o.0 < |s.first.done|;
      assert s.first.done[o.0] == s.plan.first[o.0];
    }
  }

  /** Where the requested oracle stands among the first host's groups. */
  lemma OracleGroup(plan: Plan, requested: set<Name>) returns (at: (nat, nat))
    requires Sound(plan, requested) && Oracle in requested
    ensures at.0 < |plan.first| && at.1 < |plan.first[at.0]| && plan.first[at.0][at.1].name.Oracle?
  {
    var all := Everything(plan);
    var k :| 0 <= k < |Names(all)| && Names(all)[k] == Oracle;
    var x := all[k];
    assert x in all;
    InFlat(plan.first, x);
    assert x in Flatten(plan.first);
    var a :| 0 <= a < |plan.first| && x in plan.first[a];
    var b :| 0 <= b < |plan.first[a]| && plan.first[a][b] == x;
    at := (a, b);
  }

  /** No second-host stage, on either host, runs before a requested oracle has passed. */
  lemma OracleGatesSecondHostStages(
      table: seq<Stage>, requested: set<Name>, overlap: bool, second: bool, steps: seq<Step>, y: Stage)
    requires WellDeclared(table) && forall n :: n in requested ==> n in Names(table)
    requires CanRun(Init(Split(table, requested, overlap, second)), steps)
    requires y in Running(RunFrom(Init(Split(table, requested, overlap, second)), steps))
    requires Oracle in requested && y.secondHost
    ensures Row(Oracle, Pass) in RunFrom(Init(Split(table, requested, overlap, second)), steps).results
  {
    var plan := Split(table, requested, overlap, second);
    SplitIsSound(table, requested, overlap, second);
    InitGated(plan);
    EveryRunGated(Init(plan), steps);
    GatedInState(RunFrom(Init(plan), steps), requested, y);
  }
}
