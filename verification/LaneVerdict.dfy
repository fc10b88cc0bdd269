/**
 The rows a validation run reports and the exit code it earns: one row at
 most per stage, and success exactly when every requested stage passed.
 */
module LaneVerdict {
  import opened StageTable
  import opened StagePlan
  import opened Lanes
  import opened Bags

  function RowNames(rows: seq<Row>): (names: seq<Name>)
    ensures |names| == |rows|
    ensures forall i :: 0 <= i < |rows| ==> names[i] == rows[i].name
  {
    seq(|rows|, i requires 0 <= i < |rows| => rows[i].name)
  }

  /** How many of the stages have the name. */
  function Stages(stages: seq<Stage>, n: Name): nat {
    multiset(Names(stages))[n]
  }

  /** How many of the rows have the name. */
  function Rows(rows: seq<Row>, n: Name): nat {
    multiset(RowNames(rows))[n]
  }

  function One(a: Name, n: Name): nat {
    if a == n then 1 else 0
  }

  /** How often a stage has a row so far. */
  function Recorded(s: State, n: Name): nat {
    Rows(s.results, n) + Rows(s.localResults, n) + Rows(s.secondResults, n) + Rows(s.first.outcomes, n)
  }

  /** How often a stage is running or waiting its turn. */
  function Left(s: State, n: Name): nat {
    Stages(s.local.Active(), n) + Stages(s.local.todo, n)
    + Stages(s.first.pending, n) + Stages(Flatten(s.first.rest), n)
    + Stages(s.second.Active(), n) + Stages(s.second.todo, n)
  }

  ghost predicate Bad(s: State) {
    !AllPass(s.results) || !AllPass(s.localResults) || !AllPass(s.secondResults) || !AllPass(s.first.outcomes)
  }

  function Total(s: State, n: Name): nat {
    Recorded(s, n) + Left(s, n)
  }

  /** No stage is recorded twice, and none is forgotten unless something did
      not pass. */
  ghost predicate OnceInv(s: State) {
    && (forall n :: Total(s, n) <= Stages(Everything(s.plan), n))
    && (Bad(s) || forall n :: Total(s, n) == Stages(Everything(s.plan), n))
  }

  lemma StagesConcat(a: seq<Stage>, b: seq<Stage>, n: Name)
    ensures Stages(a + b, n) == Stages(a, n) + Stages(b, n)
  {
    NamesConcat(a, b);
  }

  lemma StagesOne(x: Stage, n: Name)
    ensures Stages([x], n) == One(x.name, n)
    ensures Stages([], n) == 0
  {
    assert Names([x]) == [x.name];
    assert Names([]) == [];
  }

  lemma StagesWithout(stages: seq<Stage>, i: nat, n: Name)
    requires i < |stages|
    ensures Stages(stages, n) == Stages(Without(stages, i), n) + One(stages[i].name, n)
  {
    assert stages == stages[..i] + [stages[i]] + stages[i + 1..];
    StagesConcat(stages[..i] + [stages[i]], stages[i + 1..], n);
    StagesConcat(stages[..i], [stages[i]], n);
    StagesConcat(stages[..i], stages[i + 1..], n);
    StagesOne(stages[i], n);
  }

  lemma RowsConcat(a: seq<Row>, b: seq<Row>, n: Name)
    ensures Rows(a + b, n) == Rows(a, n) + Rows(b, n)
  {
    assert RowNames(a + b) == RowNames(a) + RowNames(b);
  }

  lemma RowsPush(rows: seq<Row>, r: Row, n: Name)
    ensures Rows(rows + [r], n) == Rows(rows, n) + One(r.name, n)
    ensures AllPass(rows + [r]) <==> AllPass(rows) && r.verdict.Pass?
  {
    RowsConcat(rows, [r], n);
    assert RowNames([r]) == [r.name];
  }

  lemma LaneBegun(lane: Lane, n: Name)
    requires lane.running.None? && lane.todo != []
    ensures Stages(Begun(lane).Active(), n) + Stages(Begun(lane).todo, n) ==
      Stages(lane.Active(), n) + Stages(lane.todo, n)
  {
    assert lane.todo == [lane.todo[0]] + lane.todo[1..];
    StagesConcat([lane.todo[0]], lane.todo[1..], n);
    StagesOne(lane.todo[0], n);
  }

  lemma LaneEnded(lane: Lane, v: Verdict, n: Name)
    requires lane.running.Some?
    ensures Stages(lane.Active(), n) == One(lane.running.value.name, n)
    ensures Stages(Ended(lane, v).Active(), n) == 0
    ensures Stages(Ended(lane, v).todo, n) == if v.Pass? then Stages(lane.todo, n) else 0
  {
    StagesOne(lane.running.value, n);
  }

  lemma KeptByStart(s: State, step: Step, n: Name)
    requires Enabled(s, step) && (step.StartLocal? || step.StartSecond?)
    ensures Total(Apply(s, step), n) == Total(s, n)
  {
    if step.StartLocal? {
      LaneBegun(s.local, n);
    } else {
      LaneBegun(s.second, n);
    }
  }

  lemma KeptByEndLocal(s: State, v: Verdict, n: Name)
    requires Enabled(s, EndLocal(v))
    ensures Total(Apply(s, EndLocal(v)), n) <= Total(s, n)
    ensures v.Pass? ==> Total(Apply(s, EndLocal(v)), n) == Total(s, n)
  {
    LaneEnded(s.local, v, n);
    RowsPush(s.localResults, Row(s.local.running.value.name, v), n);
  }

  lemma KeptByEndSecond(s: State, v: Verdict, n: Name)
    requires Enabled(s, EndSecond(v))
    ensures Total(Apply(s, EndSecond(v)), n) <= Total(s, n)
    ensures v.Pass? ==> Total(Apply(s, EndSecond(v)), n) == Total(s, n)
  {
    RecordedByEndSecond(s, v, n);
    LeftByEndSecond(s, v, n);
  }

  lemma LeftByEndSecond(s: State, v: Verdict, n: Name)
    requires Enabled(s, EndSecond(v))
    ensures var left := Left(Apply(s, EndSecond(v)), n) + One(s.second.running.value.name, n);
            left <= Left(s, n) && (v.Pass? ==> left == Left(s, n))
  {
    var t := Apply(s, EndSecond(v));
    assert t.local == s.local && t.first == s.first && t.second == Ended(s.second, v);
    LaneEnded(s.second, v, n);
    LeftOfSecond(s, t, n);
  }

  lemma LeftOfSecond(s: State, t: State, n: Name)
    requires t.local == s.local && t.first == s.first
    ensures Left(s, n) - Stages(s.second.Active(), n) - Stages(s.second.todo, n)
         == Left(t, n) - Stages(t.second.Active(), n) - Stages(t.second.todo, n)
  {
  }

  lemma RecordedByEndSecond(s: State, v: Verdict, n: Name)
    requires Enabled(s, EndSecond(v))
    ensures Recorded(Apply(s, EndSecond(v)), n) == Recorded(s, n) + One(s.second.running.value.name, n)
  {
    var row := Row(s.second.running.value.name, v);
    if v.Aborted? {
      RowsPush(s.results, row, n);
    } else {
      RowsPush(s.secondResults, row, n);
    }
  }

  lemma {:induction false} FlatFront(groups: seq<Group>)
    requires groups != []
    ensures Flatten(groups) == groups[0] + Flatten(groups[1..])
  {
    var n := |groups| - 1;
    if n > 0 {
      FlatFront(groups[..n]);
      assert groups[..n][1..] == groups[1..][..n - 1];
      assert groups[..n][0] == groups[0];
    } else {
      assert groups[..n] == [] && groups[1..] == [];
    }
  }

  lemma KeptByGo(s: State, n: Name)
    requires s.first.rest != [] && s.first.pending == [] && s.first.outcomes == []
    ensures Total(s.(first := First(true, s.first.rest[0], s.first.rest[0], [], s.first.rest[1..], s.first.done)), n)
            == Total(s, n)
  {
    FlatFront(s.first.rest);
    StagesConcat(s.first.rest[0], Flatten(s.first.rest[1..]), n);
    StagesNone(n);
  }

  lemma KeptByStop(s: State, n: Name)
    ensures Total(s.(first := s.first.(rest := [])), n) <= Total(s, n)
  {
    StagesNone(n);
  }

  lemma KeptByEnter(s: State, n: Name)
    requires Enabled(s, EnterGroup) && GroupInv(s)
    ensures Total(EnterGroupOf(s), n) <= Total(s, n)
    ensures EnterGroupOf(s).first.busy ==> Total(EnterGroupOf(s), n) == Total(s, n)
  {
    KeptByGo(s, n);
    KeptByStop(s, n);
  }

  lemma StagesNone(n: Name)
    ensures Stages([], n) == 0 && Rows([], n) == 0 && Flatten<Stage>([]) == []
  {
    assert Names([]) == [];
    assert RowNames([]) == [];
  }

  lemma KeptByEndFirst(s: State, i: nat, v: Verdict, n: Name)
    requires Enabled(s, EndFirst(i, v))
    ensures Total(EndFirstOf(s, i, v), n) == Total(s, n)
  {
    var row := Row(s.first.pending[i].name, v);
    StagesWithout(s.first.pending, i, n);
    RowsPush(if v.Aborted? then s.results else s.first.outcomes, row, n);
  }

  lemma KeptByLeave(s: State, n: Name)
    requires Enabled(s, LeaveGroup)
    ensures Total(LeaveGroupOf(s), n) <= Total(s, n)
    ensures |s.first.outcomes| == |s.first.group| && AllPass(s.first.outcomes) ==>
      Total(LeaveGroupOf(s), n) == Total(s, n)
  {
    RowsConcat(s.results, s.first.outcomes, n);
    StagesNone(n);
  }

  /** A step that forgets a stage. */
  ghost predicate Forgets(s: State, step: Step)
    requires Enabled(s, step)
  {
    match step
    case EndLocal(v) => !v.Pass?
    case EndSecond(v) => !v.Pass?
    case EnterGroup => !EnterGroupOf(s).first.busy
    case LeaveGroup => |s.first.outcomes| != |s.first.group| || !AllPass(s.first.outcomes)
    case _ => false
  }

  lemma TotalKept(s: State, step: Step, n: Name)
    requires Enabled(s, step) && GroupInv(s)
    ensures Total(Apply(s, step), n) <= Total(s, n)
    ensures !Forgets(s, step) ==> Total(Apply(s, step), n) == Total(s, n)
  {
    match step
    case StartLocal => KeptByStart(s, step, n);
    case StartSecond => KeptByStart(s, step, n);
    case EndLocal(v) => KeptByEndLocal(s, v, n);
    case EndSecond(v) => KeptByEndSecond(s, v, n);
    case EnterGroup => KeptByEnter(s, n);
    case EndFirst(i, v) => KeptByEndFirst(s, i, v, n);
    case LeaveGroup => KeptByLeave(s, n);
  }

  lemma Joined(a: seq<Row>, b: seq<Row>)
    ensures AllPass(a + b) <==> AllPass(a) && AllPass(b)
  {
  }

  /** A group short of a stage has a row saying why. */
  ghost predicate ShortInv(s: State) {
    s.first.busy && |s.first.outcomes| + |s.first.pending| < |s.first.group| ==> Bad(s)
  }

  /** Nothing un-happens: a row that did not pass stays, and a stage is
      forgotten only because of one. */
  lemma BadKept(s: State, step: Step)
    requires Enabled(s, step) && GroupInv(s) && CoverInv(s) && ShortInv(s)
    ensures Bad(s) || Forgets(s, step) ==> Bad(Apply(s, step))
  {
    match step
    case StartLocal =>
    case StartSecond =>
    case EndLocal(v) => Joined(s.localResults, [Row(s.local.running.value.name, v)]);
    case EndSecond(v) =>
      Joined(s.secondResults, [Row(s.second.running.value.name, v)]);
      Joined(s.results, [Row(s.second.running.value.name, v)]);
    case EnterGroup =>
    case EndFirst(i, v) =>
      Joined(s.first.outcomes, [Row(s.first.pending[i].name, v)]);
      Joined(s.results, [Row(s.first.pending[i].name, v)]);
    case LeaveGroup => Joined(s.results, s.first.outcomes);
  }

  lemma ShortKept(s: State, step: Step)
    requires Enabled(s, step) && GroupInv(s) && CoverInv(s) && ShortInv(s)
    ensures ShortInv(Apply(s, step))
  {
    BadKept(s, step);
    if step.EndFirst? && step.verdict.Aborted? {
      Joined(s.results, [Row(s.first.pending[step.i].name, step.verdict)]);
      assert Bad(Apply(s, step));
    }
  }

  lemma OnceKept(s: State, step: Step)
    requires Enabled(s, step) && GateInv(s) && ShortInv(s) && OnceInv(s)
    ensures OnceInv(Apply(s, step))
  {
    var t := Apply(s, step);
    BadKept(s, step);
    forall n: Name
      ensures Total(t, n) <= Total(s, n) && (!Forgets(s, step) ==> Total(t, n) == Total(s, n))
    {
      TotalKept(s, step, n);
    }
    SamePlan(s, step);
  }

  lemma SamePlan(s: State, step: Step)
    requires Enabled(s, step)
    ensures Apply(s, step).plan == s.plan
  {
  }

  ghost predicate Inv(s: State) {
    GateInv(s) && ShortInv(s) && OnceInv(s)
  }

  lemma InitHolds(plan: Plan)
    ensures Inv(Init(plan))
  {
    InitGated(plan);
    forall n: Name
      ensures Total(Init(plan), n) == Stages(Everything(plan), n)
    {
      StagesConcat(plan.local + Flatten(plan.first), plan.second, n);
      StagesConcat(plan.local, Flatten(plan.first), n);
      StagesNone(n);
    }
  }

  lemma {:induction false} EveryRunKeeps(s: State, steps: seq<Step>)
    requires Inv(s) && CanRun(s, steps)
    ensures Inv(RunFrom(s, steps)) && RunFrom(s, steps).plan == s.plan
    decreases |steps|
  {
    if steps == [] {
    } else {
      GateKept(s, steps[0]);
      ShortKept(s, steps[0]);
      OnceKept(s, steps[0]);
      SamePlan(s, steps[0]);
      EveryRunKeeps(Apply(s, steps[0]), steps[1..]);
    }
  }
}
