/**
 The validation driver's promise, told from the End steps of a run: the rows it
 reports and their order, the code it exits with, and what the oracle gates.
 */
module LanePromise {
  import opened StageTable
  import opened StagePlan
  import opened Bags
  import opened Lanes
  import opened LaneVerdict
  import opened LaneReport
  import opened LaneLog
  import opened LaneOutcome

  // ---------------------------------------------------------------------
  // The rows of the report
  // ---------------------------------------------------------------------

  lemma {:induction false} MissingIn(stages: seq<Stage>, rows: seq<Row>, r: Row)
    ensures r in AddMissing(stages, rows) <==>
      r in rows || (r.verdict.Aborted? && r.name in Names(stages) && !Has(rows, r.name))
    decreases |stages|
  {
    if stages == [] {
    } else {
      var x := stages[0].name;
      var more := if Has(rows, x) then rows else rows + [Row(x, Aborted)];
      FirstName(stages, r.name);
      MissingIn(stages[1..], more, r);
      assert Has(more, r.name) <==> Has(rows, r.name) || r.name == x by {
        assert !Has(rows, x) ==> Row(x, Aborted) in more;
      }
    }
  }

  lemma OrderIn(table: seq<Stage>, rows: seq<Row>, r: Row)
    ensures r in InDeclaredOrder(table, rows) <==> r in rows
  {
    OrderKeeps(table, rows);
    assert r in rows <==> r in multiset(rows);
    assert r in InDeclaredOrder(table, rows) <==> r in multiset(InDeclaredOrder(table, rows));
  }

  lemma HasOrder(table: seq<Stage>, rows: seq<Row>, n: Name)
    ensures Has(InDeclaredOrder(table, rows), n) <==> Has(rows, n)
  {
    OrderCounts(table, rows, n);
    RowsIn(rows, n);
    RowsIn(InDeclaredOrder(table, rows), n);
  }

  /** A stage the second sequence or the local chain was to run, and did not. */
  ghost predicate NeverRan(plan: Plan, log: Log, n: Name) {
    (n in Names(plan.local) || n in Names(plan.second)) && !Has(log.All(), n)
  }

  /** The rows before the missing local ones are added. */
  function Early(s: State): seq<Row> {
    s.localResults + AddMissing(s.plan.second, s.results + s.secondResults)
  }

  lemma HasJoined(a: seq<Row>, b: seq<Row>, n: Name)
    ensures Has(a + b, n) <==> Has(a, n) || Has(b, n)
  {
    RowsConcat(a, b, n);
    RowsIn(a, n);
    RowsIn(b, n);
    RowsIn(a + b, n);
  }

  /** No name of the local chain is one of the second sequence. */
  lemma ChainsApart(plan: Plan, requested: set<Name>, n: Name)
    requires Sound(plan, requested) && n in Names(plan.second)
    ensures n !in Names(plan.local)
  {
    EverythingCounts(plan, n);
    StagesIn(plan.local, n);
    StagesIn(plan.second, n);
    assert Stages(Everything(plan), n) <= 1;
  }

  lemma LocalRowsNamed(s: State, log: Log, requested: set<Name>, n: Name)
    requires Rested(s, log, requested) && Has(log.local, n)
    ensures n in Names(s.plan.local)
  {
    assert LogInv(s, log, n);
    var r :| r in log.local && r.name == n;
    var j :| 0 <= j < |log.local| && log.local[j] == r;
    assert Names(s.plan.local)[j] == n;
  }

  /** The rows a resting run left, apart from the local ones. */
  lemma RemoteRows(s: State, log: Log, requested: set<Name>, r: Row)
    requires Rested(s, log, requested)
    ensures r in s.results + s.secondResults <==> r in log.first || r in log.second
  {
    assert LogInv(s, log, r.name);
  }

  lemma HasRemote(s: State, log: Log, requested: set<Name>, n: Name)
    requires Rested(s, log, requested)
    ensures Has(s.results + s.secondResults, n) <==> Has(log.first, n) || Has(log.second, n)
  {
    forall r: Row
      ensures r in s.results + s.secondResults <==> r in log.first || r in log.second
    {
      RemoteRows(s, log, requested, r);
    }
  }

  lemma HasAll(log: Log, n: Name)
    ensures Has(log.All(), n) <==> Has(log.local, n) || Has(log.first, n) || Has(log.second, n)
  {
    HasJoined(log.local + log.first, log.second, n);
    HasJoined(log.local, log.first, n);
  }

  /** Before local rows are added: the log, and the second stages that never ran. */
  lemma EarlyHas(s: State, log: Log, requested: set<Name>, r: Row)
    requires Rested(s, log, requested)
    ensures r in Early(s) <==>
      r in log.All() || (r.verdict.Aborted? && r.name in Names(s.plan.second) && NeverRan(s.plan, log, r.name))
  {
    assert LogInv(s, log, r.name);
    MissingIn(s.plan.second, s.results + s.secondResults, r);
    RemoteRows(s, log, requested, r);
    HasRemote(s, log, requested, r.name);
    HasAll(log, r.name);
    if r.name in Names(s.plan.second) {
      ChainsApart(s.plan, requested, r.name);
      if Has(log.local, r.name) {
        LocalRowsNamed(s, log, requested, r.name);
      }
    }
  }

  lemma HasEarly(s: State, log: Log, requested: set<Name>, n: Name)
    requires Rested(s, log, requested) && n in Names(s.plan.local)
    ensures Has(Early(s), n) <==> Has(log.All(), n)
  {
    if n in Names(s.plan.second) {
      ChainsApart(s.plan, requested, n);
    }
    forall r: Row | r.name == n
      ensures r in Early(s) <==> r in log.All()
    {
      EarlyHas(s, log, requested, r);
    }
  }

  /** A local chain with as many rows as stages ran them all. */
  lemma FullChainRan(s: State, log: Log, requested: set<Name>, n: Name)
    requires Rested(s, log, requested) && |s.localResults| == |s.plan.local| && n in Names(s.plan.local)
    ensures Has(log.All(), n)
  {
    assert LogInv(s, log, n);
    var j :| 0 <= j < |s.plan.local| && Names(s.plan.local)[j] == n;
    assert log.local[j] in log.local;
    HasAll(log, n);
  }

  /** The report of a run at rest has a row exactly when the run ended that
      stage with that verdict, or the row says that a stage of the local chain
      or of the second sequence never ran. */
  lemma ReportHas(table: seq<Stage>, s: State, log: Log, requested: set<Name>, r: Row)
    requires Rested(s, log, requested)
    ensures r in Report(table, s) <==> r in log.All() || (r.verdict.Aborted? && NeverRan(s.plan, log, r.name))
  {
    var ordered := InDeclaredOrder(table, Early(s));
    EarlyHas(s, log, requested, r);
    OrderIn(table, Early(s), r);
    HasOrder(table, Early(s), r.name);
    MissingIn(s.plan.local, ordered, r);
    if r.name in Names(s.plan.local) {
      HasEarly(s, log, requested, r.name);
      if |s.localResults| == |s.plan.local| {
        FullChainRan(s, log, requested, r.name);
      }
    }
  }

  // ---------------------------------------------------------------------
  // The order of the report
  // ---------------------------------------------------------------------

  /** Rows in the order the table declares their stages. */
  ghost predicate Declared(table: seq<Stage>, rows: seq<Row>) {
    forall i, j :: 0 <= i < j < |rows| ==> IndexOf(table, rows[i].name) <= IndexOf(table, rows[j].name)
  }

  lemma {:induction false} IndexIs(table: seq<Stage>, a: nat)
    requires a < |table| && NoRepeats(Names(table))
    ensures IndexOf(table, table[a].name) == a
  {
    if a == 0 {
    } else {
      assert Names(table)[0] != Names(table)[a];
      assert Names(table[1..]) == Names(table)[1..];
      IndexIs(table[1..], a - 1);
    }
  }

  lemma DeclaredCons(table: seq<Stage>, r: Row, rows: seq<Row>)
    requires Declared(table, rows)
    requires forall x :: x in rows ==> IndexOf(table, r.name) <= IndexOf(table, x.name)
    ensures Declared(table, [r] + rows)
  {
  }

  lemma {:induction false} InsertDeclared(table: seq<Stage>, rows: seq<Row>, r: Row)
    requires Declared(table, rows)
    ensures Declared(table, Insert(table, rows, r))
  {
    if rows == [] {
    } else if IndexOf(table, r.name) < IndexOf(table, rows[0].name) {
      DeclaredCons(table, r, rows);
    } else {
      InsertDeclared(table, rows[1..], r);
      var more := Insert(table, rows[1..], r);
      forall x | x in more
        ensures IndexOf(table, rows[0].name) <= IndexOf(table, x.name)
      {
        InsertKeeps(table, rows[1..], r);
        assert x in multiset(more);
        if x != r {
          var j :| 0 <= j < |rows[1..]| && rows[1..][j] == x;
          assert rows[j + 1] == x;
        }
      }
      DeclaredCons(table, rows[0], more);
    }
  }

  lemma {:induction false} OrderDeclares(table: seq<Stage>, rows: seq<Row>)
    ensures Declared(table, InDeclaredOrder(table, rows))
  {
    if rows == [] {
    } else {
      var k := |rows| - 1;
      OrderDeclares(table, rows[..k]);
      InsertDeclared(table, InDeclaredOrder(table, rows[..k]), rows[k]);
    }
  }

  lemma {:induction false} MissingAppends(stages: seq<Stage>, rows: seq<Row>)
    ensures rows <= AddMissing(stages, rows)
    decreases |stages|
  {
    if stages == [] {
    } else {
      MissingAppends(stages[1..], if Has(rows, stages[0].name) then rows else rows + [Row(stages[0].name, Aborted)]);
    }
  }

  /** The report's rows stand in the order their stages are declared, up to the
      rows for local stages that never ran, which come last. */
  lemma ReportIsInOrder(table: seq<Stage>, s: State, i: nat, j: nat, a: nat, b: nat)
    requires NoRepeats(Names(table)) && a < |table| && b < |table|
    requires i < j < (if |s.localResults| == |s.plan.local| then |Report(table, s)| else |Early(s)|)
    ensures j < |Report(table, s)|
    ensures Report(table, s)[i].name == table[a].name && Report(table, s)[j].name == table[b].name ==> a <= b
  {
    var ordered := InDeclaredOrder(table, Early(s));
    OrderDeclares(table, Early(s));
    OrderKeeps(table, Early(s));
    assert |multiset(ordered)| == |multiset(Early(s))|;
    MissingAppends(s.plan.local, ordered);
    assert ordered <= Report(table, s) && |ordered| == |Early(s)|;
    IndexIs(table, a);
    IndexIs(table, b);
  }

  // ---------------------------------------------------------------------
  // Whole runs
  // ---------------------------------------------------------------------

  lemma {:induction false} LogOfRun(plan: Plan, steps: seq<Step>, n: Name)
    requires CanRun(Init(plan), steps)
    ensures LogInv(RunFrom(Init(plan), steps), LogOf(plan, steps), n)
    ensures WaitedInv(RunFrom(Init(plan), steps), LogOf(plan, steps))
  {
    InitLogs(plan, n);
    EveryRunWaits(Init(plan), steps, NoLog, n);
  }

  /** A run that can go no further has come to rest with its log. */
  lemma RunRests(plan: Plan, requested: set<Name>, steps: seq<Step>)
    requires Sound(plan, requested) && CanRun(Init(plan), steps)
    requires forall step :: !Enabled(RunFrom(Init(plan), steps), step)
    ensures Rested(RunFrom(Init(plan), steps), LogOf(plan, steps), requested)
    ensures Inv(RunFrom(Init(plan), steps)) && RunFrom(Init(plan), steps).plan == plan
  {
    var t := RunFrom(Init(plan), steps);
    InitHolds(plan);
    EveryRunKeeps(Init(plan), steps);
    if !Done(t) {
      var step := NeverStuck(t);
    }
    forall n: Name
      ensures LogInv(t, LogOf(plan, steps), n)
    {
      LogOfRun(plan, steps, n);
    }
    LogOfRun(plan, steps, Oracle);
  }

  /** The driver's promise: whatever the stages do and however the lanes
      interleave, a run that can go no further reports exactly the stages it
      ended, each with the verdict it ended with, and the stages that never ran;
      and it exits 0 exactly when every requested stage ended with a pass. */
  lemma ReportTellsTheRun(
      table: seq<Stage>, requested: set<Name>, overlap: bool, second: bool, steps: seq<Step>)
    requires WellDeclared(table) && requested != {} && forall n :: n in requested ==> n in Names(table)
    requires CanRun(Init(Split(table, requested, overlap, second)), steps)
    requires forall step :: !Enabled(RunFrom(Init(Split(table, requested, overlap, second)), steps), step)
    ensures var plan := Split(table, requested, overlap, second);
      var report, log := Report(table, RunFrom(Init(plan), steps)), LogOf(plan, steps);
      && (forall r :: r in report <==> r in log.All() || (r.verdict.Aborted? && NeverRan(plan, log, r.name)))
      && (AllPassed(report) <==> forall n :: n in requested ==> Row(n, Pass) in log.All())
  {
    var plan := Split(table, requested, overlap, second);
    var t, log := RunFrom(Init(plan), steps), LogOf(plan, steps);
    SplitIsSound(table, requested, overlap, second);
    RunRests(plan, requested, steps);
    forall r: Row
      ensures r in Report(table, t) <==> r in log.All() || (r.verdict.Aborted? && NeverRan(plan, log, r.name))
    {
      ReportHas(table, t, log, requested, r);
    }
    ExitsZeroIffAllPassed(table, t, requested);
  }

  /** No second-host stage, on either host, runs before the run has ended a
      requested oracle with a pass. */
  lemma OracleEndsFirst(
      table: seq<Stage>, requested: set<Name>, overlap: bool, second: bool, steps: seq<Step>, y: Stage)
    requires WellDeclared(table) && forall n :: n in requested ==> n in Names(table)
    requires CanRun(Init(Split(table, requested, overlap, second)), steps)
    requires y in Running(RunFrom(Init(Split(table, requested, overlap, second)), steps))
    requires Oracle in requested && y.secondHost
    ensures Row(Oracle, Pass) in LogOf(Split(table, requested, overlap, second), steps).All()
  {
    var plan := Split(table, requested, overlap, second);
    OracleGatesSecondHostStages(table, requested, overlap, second, steps, y);
    LogOfRun(plan, steps, Oracle);
  }
}
