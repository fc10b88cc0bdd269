/**
 The end of a validation run: the report's rows, its exit code, and that every
 run gets there.
 */
module LaneReport {
  import opened StageTable
  import opened StagePlan
  import opened Lanes
  import opened LaneVerdict
  import opened Bags

  /** Every lane has come to rest. A second sequence never started stays so. */
  ghost predicate Done(s: State) {
    !s.first.busy && s.first.rest == [] && s.local.Over() && (s.second.Over() || !s.second.started)
  }

  function Has(rows: seq<Row>, n: Name): bool {
    exists r :: r in rows && r.name == n
  }

  /** A row saying a stage did not run, for each one without a row. */
  function AddMissing(stages: seq<Stage>, rows: seq<Row>): seq<Row> {
    if stages == [] then rows
    else AddMissing(stages[1..], if Has(rows, stages[0].name) then rows else rows + [Row(stages[0].name, Aborted)])
  }

  function IndexOf(table: seq<Stage>, n: Name): nat {
    if table == [] || table[0].name == n then 0 else 1 + IndexOf(table[1..], n)
  }

  function Insert(table: seq<Stage>, rows: seq<Row>, r: Row): seq<Row> {
    if rows == [] || IndexOf(table, r.name) < IndexOf(table, rows[0].name) then [r] + rows
    else [rows[0]] + Insert(table, rows[1..], r)
  }

  /** Rows in the declared order of their stages. */
  function InDeclaredOrder(table: seq<Stage>, rows: seq<Row>): seq<Row> {
    if rows == [] then []
    else Insert(table, InDeclaredOrder(table, rows[..|rows| - 1]), rows[|rows| - 1])
  }

  /** The rows the run reports. */
  function Report(table: seq<Stage>, s: State): seq<Row> {
    var remote := AddMissing(s.plan.second, s.results + s.secondResults);
    var ordered := InDeclaredOrder(table, s.localResults + remote);
    if s.plan.local != [] && |s.localResults| != |s.plan.local| then AddMissing(s.plan.local, ordered) else ordered
  }

  /** What the process exits 0 for. */
  function AllPassed(rows: seq<Row>): bool {
    rows != [] && AllPass(rows)
  }

  // Counting rows.

  lemma RowsIn(rows: seq<Row>, n: Name)
    ensures Rows(rows, n) > 0 <==> Has(rows, n)
  {
    if Has(rows, n) {
      var r :| r in rows && r.name == n;
      var i :| 0 <= i < |rows| && rows[i] == r;
      assert RowNames(rows)[i] == n;
      assert n in multiset(RowNames(rows));
    }
    if Rows(rows, n) > 0 {
      assert n in multiset(RowNames(rows));
      var i :| 0 <= i < |rows| && RowNames(rows)[i] == n;
      assert rows[i] in rows;
    }
  }

  lemma StagesIn(stages: seq<Stage>, n: Name)
    ensures Stages(stages, n) > 0 <==> n in Names(stages)
  {
    assert n in Names(stages) <==> n in multiset(Names(stages));
  }

  lemma {:induction false} OneRow(rows: seq<Row>, a: Row, b: Row)
    requires a in rows && b in rows && a.name == b.name && Rows(rows, a.name) <= 1
    ensures a == b
  {
    var i :| 0 <= i < |rows| && rows[i] == a;
    var j :| 0 <= j < |rows| && rows[j] == b;
    if i != j {
      var lo, hi := if i < j then i else j, if i < j then j else i;
      var n := a.name;
      assert rows == rows[..hi] + rows[hi..];
      RowsConcat(rows[..hi], rows[hi..], n);
      assert rows[..hi][lo] in rows[..hi] && rows[hi..][0] in rows[hi..];
      RowsIn(rows[..hi], n);
      RowsIn(rows[hi..], n);
      assert false;
    }
  }

  lemma {:induction false} InsertKeeps(table: seq<Stage>, rows: seq<Row>, r: Row)
    ensures multiset(Insert(table, rows, r)) == multiset(rows) + multiset{r}
  {
    if !(rows == [] || IndexOf(table, r.name) < IndexOf(table, rows[0].name)) {
      InsertKeeps(table, rows[1..], r);
      assert rows == [rows[0]] + rows[1..];
    }
  }

  lemma {:induction false} OrderKeeps(table: seq<Stage>, rows: seq<Row>)
    ensures multiset(InDeclaredOrder(table, rows)) == multiset(rows)
  {
    if rows == [] {
    } else {
      var k := |rows| - 1;
      OrderKeeps(table, rows[..k]);
      InsertKeeps(table, InDeclaredOrder(table, rows[..k]), rows[k]);
      assert rows == rows[..k] + [rows[k]];
    }
  }

  lemma RowsCons(r: Row, rows: seq<Row>, n: Name)
    ensures Rows([r] + rows, n) == One(r.name, n) + Rows(rows, n)
  {
    assert RowNames([r] + rows) == [r.name] + RowNames(rows);
  }

  lemma {:induction false} InsertCounts(table: seq<Stage>, rows: seq<Row>, r: Row, n: Name)
    ensures Rows(Insert(table, rows, r), n) == Rows(rows, n) + One(r.name, n)
  {
    if rows == [] || IndexOf(table, r.name) < IndexOf(table, rows[0].name) {
      RowsCons(r, rows, n);
    } else {
      InsertCounts(table, rows[1..], r, n);
      RowsCons(rows[0], Insert(table, rows[1..], r), n);
      RowsCons(rows[0], rows[1..], n);
      assert rows == [rows[0]] + rows[1..];
    }
  }

  lemma {:induction false} OrderCounts(table: seq<Stage>, rows: seq<Row>, n: Name)
    ensures Rows(InDeclaredOrder(table, rows), n) == Rows(rows, n)
  {
    if rows == [] {
    } else {
      var k := |rows| - 1;
      OrderCounts(table, rows[..k], n);
      InsertCounts(table, InDeclaredOrder(table, rows[..k]), rows[k], n);
      RowsPush(rows[..k], rows[k], n);
      assert rows == rows[..k] + [rows[k]];
    }
  }

  lemma {:induction false} MissingCounts(stages: seq<Stage>, rows: seq<Row>, n: Name)
    ensures Rows(AddMissing(stages, rows), n) ==
            if n in Names(stages) && Rows(rows, n) == 0 then 1 else Rows(rows, n)
    decreases |stages|
  {
    if stages == [] {
    } else {
      var x := stages[0].name;
      var more := if Has(rows, x) then rows else rows + [Row(x, Aborted)];
      OneMissing(rows, more, x, n);
      FirstName(stages, n);
      MissingCounts(stages[1..], more, n);
    }
  }

  lemma OneMissing(rows: seq<Row>, more: seq<Row>, x: Name, n: Name)
    requires more == if Has(rows, x) then rows else rows + [Row(x, Aborted)]
    ensures Rows(more, n) == if n == x && Rows(rows, n) == 0 then 1 else Rows(rows, n)
  {
    RowsIn(rows, x);
    RowsPush(rows, Row(x, Aborted), n);
  }

  lemma FirstName(stages: seq<Stage>, n: Name)
    requires stages != []
    ensures n in Names(stages) <==> n == stages[0].name || n in Names(stages[1..])
  {
    assert Names(stages) == [stages[0].name] + Names(stages[1..]);
  }

  lemma {:induction false} MissingPasses(stages: seq<Stage>, rows: seq<Row>)
    requires AllPass(AddMissing(stages, rows))
    ensures AddMissing(stages, rows) == rows
    decreases |stages|
  {
    if stages == [] {
    } else {
      var x := stages[0].name;
      var more := if Has(rows, x) then rows else rows + [Row(x, Aborted)];
      MissingPasses(stages[1..], more);
      assert !Has(rows, x) ==> Row(x, Aborted) in more;
    }
  }

  // ---------------------------------------------------------------------
  // The report
  // ---------------------------------------------------------------------

  /** How often a stage appears in the parts of the report. */
  lemma ReportCounts(table: seq<Stage>, s: State, n: Name)
    ensures var remote := Rows(s.results, n) + Rows(s.secondResults, n);
            var ran := Rows(s.localResults, n) + if n in Names(s.plan.second) && remote == 0 then 1 else remote;
            Rows(Report(table, s), n) == ran || (n in Names(s.plan.local) && ran == 0 && Rows(Report(table, s), n) == 1)
  {
    var remote := AddMissing(s.plan.second, s.results + s.secondResults);
    var ordered := InDeclaredOrder(table, s.localResults + remote);
    RowsConcat(s.results, s.secondResults, n);
    MissingCounts(s.plan.second, s.results + s.secondResults, n);
    RowsConcat(s.localResults, remote, n);
    OrderCounts(table, s.localResults + remote, n);
    MissingCounts(s.plan.local, ordered, n);
  }

  lemma EverythingCounts(plan: Plan, n: Name)
    ensures Stages(Everything(plan), n) ==
      Stages(plan.local, n) + Stages(Flatten(plan.first), n) + Stages(plan.second, n)
  {
    StagesConcat(plan.local + Flatten(plan.first), plan.second, n);
    StagesConcat(plan.local, Flatten(plan.first), n);
  }

  lemma LocalRowsAreLocal(s: State, n: Name)
    requires LaneInv(s) && Rows(s.localResults, n) > 0
    ensures n in Names(s.plan.local)
  {
    RowsIn(s.localResults, n);
  }

  /** No stage gets two rows, and none that was not requested gets one. */
  lemma OneRowPerStage(table: seq<Stage>, s: State, requested: set<Name>, n: Name)
    requires Inv(s) && Done(s) && Sound(s.plan, requested)
    ensures Rows(Report(table, s), n) <= (if n in requested then 1 else 0)
  {
    ReportCounts(table, s, n);
    EverythingCounts(s.plan, n);
    StagesIn(Everything(s.plan), n);
    StagesIn(s.plan.local, n);
    StagesIn(s.plan.second, n);
    StagesNone(n);
    assert Total(s, n) <= Stages(Everything(s.plan), n) <= 1;
    if Rows(s.localResults, n) > 0 {
      LocalRowsAreLocal(s, n);
    }
  }

  /** A run whose report has only passes recorded every requested stage. */
  lemma PassesAreComplete(table: seq<Stage>, s: State, requested: set<Name>, n: Name)
    requires Inv(s) && Done(s) && Sound(s.plan, requested)
    requires AllPass(Report(table, s)) && n in requested
    ensures Row(n, Pass) in Report(table, s)
  {
    var remote := AddMissing(s.plan.second, s.results + s.secondResults);
    var ordered := InDeclaredOrder(table, s.localResults + remote);
    var report := Report(table, s);
    PassesAddNothing(table, s);
    StagesIn(Everything(s.plan), n);
    MissingCounts(s.plan.second, s.results + s.secondResults, n);
    RowsConcat(s.results, s.secondResults, n);
    RowsConcat(s.localResults, remote, n);
    OrderCounts(table, s.localResults + remote, n);
    StagesIn(s.plan.second, n);
    StagesNone(n);
    assert Total(s, n) == Stages(Everything(s.plan), n) == 1;
    RowsIn(report, n);
    var r :| r in report && r.name == n;
    assert r == Row(n, Pass);
  }

  /** Passing rows leave nothing to add. */
  lemma PassesAddNothing(table: seq<Stage>, s: State)
    requires AllPass(Report(table, s)) && s.first.outcomes == []
    ensures !Bad(s)
    ensures AddMissing(s.plan.second, s.results + s.secondResults) == s.results + s.secondResults
    ensures Report(table, s) == InDeclaredOrder(table, s.localResults + (s.results + s.secondResults))
  {
    var remote := AddMissing(s.plan.second, s.results + s.secondResults);
    var ordered := InDeclaredOrder(table, s.localResults + remote);
    if Report(table, s) != ordered {
      MissingPasses(s.plan.local, ordered);
    }
    OrderKeeps(table, s.localResults + remote);
    SamePasses(s.localResults + remote, ordered);
    Joined(s.localResults, remote);
    MissingPasses(s.plan.second, s.results + s.secondResults);
    Joined(s.results, s.secondResults);
  }

  lemma SamePasses(a: seq<Row>, b: seq<Row>)
    requires multiset(a) == multiset(b)
    ensures AllPass(a) <==> AllPass(b)
  {
    assert forall r :: r in a <==> r in multiset(a);
    assert forall r :: r in b <==> r in multiset(b);
  }

  /** A finished run exits 0 if and only if every requested stage has a
      passing row. */
  lemma ExitsZeroIffAllPassed(table: seq<Stage>, s: State, requested: set<Name>)
    requires Inv(s) && Done(s) && Sound(s.plan, requested) && requested != {}
    ensures AllPassed(Report(table, s)) <==> forall n :: n in requested ==> Row(n, Pass) in Report(table, s)
  {
    var report := Report(table, s);
    if AllPassed(report) {
      forall n | n in requested
        ensures Row(n, Pass) in report
      {
        PassesAreComplete(table, s, requested, n);
      }
    }
    if forall n :: n in requested ==> Row(n, Pass) in report {
      var some :| some in requested;
      forall r | r in report
        ensures r.verdict.Pass?
      {
        OneRowPerStage(table, s, requested, r.name);
        RowsIn(report, r.name);
        OneRow(report, r, Row(r.name, Pass));
      }
    }
  }

  // ---------------------------------------------------------------------
  // Every run ends
  // ---------------------------------------------------------------------

  /** Until every lane has come to rest some lane can move: in particular an
      exclusive group waits only for a second sequence that is still going. */
  lemma NeverStuck(s: State) returns (step: Step)
    requires Inv(s) && !Done(s)
    ensures Enabled(s, step)
  {
    if s.local.running.Some? {
      step := EndLocal(Pass);
    } else if s.local.todo != [] {
      step := StartLocal;
    } else if s.second.running.Some? {
      step := EndSecond(Pass);
    } else if s.second.started && s.second.todo != [] {
      step := StartSecond;
    } else if s.first.busy && s.first.pending != [] {
      step := EndFirst(0, Pass);
    } else if s.first.busy {
      step := LeaveGroup;
    } else {
      step := EnterGroup;
    }
  }

  function LaneSteps(lane: Lane): nat {
    2 * |lane.todo| + |lane.Active()|
  }

  function GroupSteps(groups: seq<Group>): nat {
    if groups == [] then 0 else |groups[0]| + 2 + GroupSteps(groups[1..])
  }

  /** A bound on the steps a run can still take. */
  function StepsLeft(s: State): nat {
    LaneSteps(s.local) + LaneSteps(s.second)
    + |s.first.pending| + (if s.first.busy then 1 else 0) + GroupSteps(s.first.rest)
  }

  lemma StepsFall(s: State, step: Step)
    requires Enabled(s, step) && GroupInv(s)
    ensures StepsLeft(Apply(s, step)) < StepsLeft(s)
  {
  }

  lemma {:induction false} EveryRunEnds(s: State, steps: seq<Step>)
    requires Inv(s) && CanRun(s, steps)
    ensures |steps| + StepsLeft(RunFrom(s, steps)) <= StepsLeft(s)
    decreases |steps|
  {
    if steps == [] {
    } else {
      StepsFall(s, steps[0]);
      GateKept(s, steps[0]);
      ShortKept(s, steps[0]);
      OnceKept(s, steps[0]);
      EveryRunEnds(Apply(s, steps[0]), steps[1..]);
    }
  }

  /** The driver's promise: whatever the stages do and however the lanes
      interleave, a run that can go no further has one row at most per stage
      and exits 0 if and only if every requested stage passed. */
  lemma DriverKeepsItsPromise(
      table: seq<Stage>, requested: set<Name>, overlap: bool, second: bool, steps: seq<Step>)
    requires WellDeclared(table) && requested != {} && forall n :: n in requested ==> n in Names(table)
    requires CanRun(Init(Split(table, requested, overlap, second)), steps)
    requires forall step :: !Enabled(RunFrom(Init(Split(table, requested, overlap, second)), steps), step)
    ensures var t := RunFrom(Init(Split(table, requested, overlap, second)), steps);
            && Done(t)
            && (forall n :: Rows(Report(table, t), n) <= (if n in requested then 1 else 0))
            && (AllPassed(Report(table, t)) <==> forall n :: n in requested ==> Row(n, Pass) in Report(table, t))
  {
    var plan := Split(table, requested, overlap, second);
    var t := RunFrom(Init(plan), steps);
    SplitIsSound(table, requested, overlap, second);
    InitHolds(plan);
    EveryRunKeeps(Init(plan), steps);
    if !Done(t) {
      var step := NeverStuck(t);
    }
    forall n: Name
      ensures Rows(Report(table, t), n) <= (if n in requested then 1 else 0)
    {
      OneRowPerStage(table, t, requested, n);
    }
    ExitsZeroIffAllPassed(table, t, requested);
  }
}
