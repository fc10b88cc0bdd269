/**
 What the split of a request guarantees the scheduler: every requested stage
 runs in exactly one place, exclusive stages run alone on the first host, and
 the oracle's group comes before any group with a second-host stage.
 */
module StagePlan {
  import opened StageTable
  import opened Bags

  /** All the stages of a plan. */
  function Everything(plan: Plan): seq<Stage> {
    plan.local + Flatten(plan.first) + plan.second
  }

  ghost predicate Sound(plan: Plan, requested: set<Name>) {
    && (forall n :: multiset(Names(Everything(plan)))[n] <= 1)
    && (forall n :: n in Names(Everything(plan)) <==> n in requested)
    && (forall s :: s in plan.local ==> !s.remote && !s.exclusive && !s.secondHost && !s.name.Oracle?)
    && (forall s :: s in plan.second ==> s.secondHost && !s.exclusive && !s.name.Oracle?)
    && (forall i :: 0 <= i < |plan.first| ==> plan.first[i] != [])
    && (forall i, s :: 0 <= i < |plan.first| && s in plan.first[i] && s.exclusive ==>
          |plan.first[i]| == 1 && !s.secondHost)
    && OracleFirst(plan.first)
  }

  ghost predicate OracleFirst(groups: seq<Group>) {
    forall a, b, x, y | 0 <= a < |groups| && 0 <= b < |groups| && x in groups[a] && y in groups[b] ::
      x.name.Oracle? && y.secondHost ==> a < b
  }

  lemma {:induction false} NamesConcat(a: seq<Stage>, b: seq<Stage>)
    ensures Names(a + b) == Names(a) + Names(b)
  {
  }

  lemma {:induction false} KeepConcat(a: seq<Stage>, b: seq<Stage>, side: Side)
    ensures Keep(a + b, side) == Keep(a, side) + Keep(b, side)
  {
    if b == [] {
      assert a + b == a;
    } else {
      var n := |b| - 1;
      KeepConcat(a, b[..n], side);
      assert (a + b)[..|a + b| - 1] == a + b[..n];
    }
  }

  lemma {:induction false} FlatOfGroups(stages: seq<Stage>)
    ensures Flatten(Groups(stages)) == stages
  {
    if stages == [] {
    } else {
      var n := |stages| - 1;
      FlatOfGroups(stages[..n]);
      FlatOfExtend(Groups(stages[..n]), stages[n]);
      assert stages == stages[..n] + [stages[n]];
    }
  }

  lemma FlatOfExtend(groups: seq<Group>, s: Stage)
    requires forall i :: 0 <= i < |groups| ==> groups[i] != []
    ensures Flatten(Extend(groups, s)) == Flatten(groups) + [s]
  {
    if groups != [] {
      FlatWider(groups, s);
    }
    FlatPush(groups, [s]);
  }

  lemma FlatWider(groups: seq<Group>, s: Stage)
    requires groups != []
    ensures Flatten(groups[..|groups| - 1] + [groups[|groups| - 1] + [s]]) == Flatten(groups) + [s]
  {
    var init, last := groups[..|groups| - 1], groups[|groups| - 1];
    FlatPush(init, last + [s]);
    FlatPush(init, last);
    assert groups == init + [last];
    Regroup(Flatten(init), last, [s]);
  }

  lemma FlatPush(groups: seq<Group>, g: Group)
    ensures Flatten(groups + [g]) == Flatten(groups) + g
  {
    assert (groups + [g])[..|groups|] == groups;
  }

  lemma {:induction false} FlatOfKeep(groups: seq<Group>, side: Side)
    ensures Flatten(KeepGroups(groups, side)) == Keep(Flatten(groups), side)
  {
    if groups == [] {
    } else {
      var n := |groups| - 1;
      FlatOfKeep(groups[..n], side);
      KeepConcat(Flatten(groups[..n]), groups[n], side);
      var rest := KeepGroups(groups[..n], side);
      var last := Keep(groups[n], side);
      if last != [] {
        assert (rest + [last])[..|rest|] == rest;
      }
    }
  }

  lemma BagPush(stages: seq<Stage>, s: Stage)
    ensures multiset(Names(stages + [s])) == multiset(Names(stages)) + multiset{s.name}
  {
    NamesConcat(stages, [s]);
    assert Names([s]) == [s.name];
  }

  lemma KeepPush(stages: seq<Stage>, s: Stage, side: Side)
    ensures Keep(stages + [s], side) == if side.Keeps(s) then Keep(stages, side) + [s] else Keep(stages, side)
    ensures multiset(Names(Keep(stages + [s], side)))
            == multiset(Names(Keep(stages, side))) + if side.Keeps(s) then multiset{s.name} else multiset{}
  {
    assert (stages + [s])[..|stages|] == stages;
    BagPush(Keep(stages, side), s);
  }

  /** Two filters that never agree split the names between them. */
  lemma {:induction false} KeepSplits(stages: seq<Stage>, a: Side, b: Side)
    requires forall s :: s in stages ==> a.Keeps(s) != b.Keeps(s)
    ensures multiset(Names(Keep(stages, a))) + multiset(Names(Keep(stages, b))) == multiset(Names(stages))
  {
    if stages == [] {
    } else {
      var rest, last := stages[..|stages| - 1], stages[|stages| - 1];
      assert stages == rest + [last];
      KeepSplits(rest, a, b);
      KeepPush(rest, last, a);
      KeepPush(rest, last, b);
      BagPush(rest, last);
    }
  }

  lemma {:induction false} KeepShrinks(stages: seq<Stage>, side: Side)
    ensures multiset(Names(Keep(stages, side))) <= multiset(Names(stages))
  {
    if stages == [] {
    } else {
      var rest, last := stages[..|stages| - 1], stages[|stages| - 1];
      assert stages == rest + [last];
      KeepShrinks(rest, side);
      KeepPush(rest, last, side);
      BagPush(rest, last);
    }
  }

  lemma SameName(table: seq<Stage>, x: Stage, y: Stage)
    requires NoRepeats(Names(table)) && x in table && y in table && x.name == y.name
    ensures x == y
  {
    var i :| 0 <= i < |table| && table[i] == x;
    var j :| 0 <= j < |table| && table[j] == y;
    assert Names(table)[i] == Names(table)[j];
  }

  /** The stages left for the two hosts, in declared order. */
  function Hosted(table: seq<Stage>, requested: set<Name>, overlap: bool): seq<Stage> {
    if overlap then Keep(Keep(table, Asked(requested)), Remote) else Keep(table, Asked(requested))
  }

  function NameSet(stages: seq<Stage>): set<Name> {
    set s | s in stages :: s.name
  }

  /** The plan with its groups flattened. */
  lemma SplitForms(table: seq<Stage>, requested: set<Name>, overlap: bool, second: bool)
    ensures var plan := Split(table, requested, overlap, second);
            var hosted := Hosted(table, requested, overlap);
            && plan.local == (if overlap then Keep(Keep(table, Asked(requested)), Local) else [])
            && plan.second == (if second then Keep(hosted, Moving) else [])
            && Flatten(plan.first) == Keep(hosted, Staying(NameSet(plan.second)))
  {
    var groups := Groups(Keep(table, Asked(requested)));
    var remote := if overlap then KeepGroups(groups, Remote) else groups;
    FlatOfGroups(Keep(table, Asked(requested)));
    FlatOfKeep(groups, Remote);
    FlatOfKeep(remote, Staying(NameSet(Split(table, requested, overlap, second).second)));
  }

  /** A stage moves to the second host or stays on the first. */
  lemma MovedOrStaying(table: seq<Stage>, hosted: seq<Stage>, moved: seq<Stage>, second: bool)
    requires NoRepeats(Names(table)) && (forall s :: s in hosted ==> s in table)
    requires moved == if second then Keep(hosted, Moving) else []
    ensures multiset(Names(Keep(hosted, Staying(NameSet(moved))))) + multiset(Names(moved)) == multiset(Names(hosted))
  {
    if second {
      forall s | s in hosted
        ensures Staying(NameSet(moved)).Keeps(s) != Moving.Keeps(s)
      {
        if s.name in NameSet(moved) {
          var m :| m in moved && m.name == s.name;
          SameName(table, s, m);
        }
      }
      KeepSplits(hosted, Staying(NameSet(moved)), Moving);
    } else {
      KeepAll(hosted, Staying(NameSet(moved)));
    }
  }

  lemma EverythingBag(plan: Plan)
    ensures multiset(Names(Everything(plan)))
            == multiset(Names(plan.local)) + multiset(Names(Flatten(plan.first))) + multiset(Names(plan.second))
  {
    NamesConcat(plan.local + Flatten(plan.first), plan.second);
    NamesConcat(plan.local, Flatten(plan.first));
  }

  /** Every requested stage runs in exactly one place. */
  lemma FormsPartition(table: seq<Stage>, asked: seq<Stage>, hosted: seq<Stage>, plan: Plan, overlap: bool,
                       second: bool)
    requires NoRepeats(Names(table)) && (forall s :: s in asked ==> s in table)
    requires hosted == if overlap then Keep(asked, Remote) else asked
    requires plan.local == if overlap then Keep(asked, Local) else []
    requires plan.second == if second then Keep(hosted, Moving) else []
    requires Flatten(plan.first) == Keep(hosted, Staying(NameSet(plan.second)))
    ensures multiset(Names(Everything(plan))) == multiset(Names(asked))
  {
    LocalOrHosted(asked, plan.local, hosted, overlap);
    MovedOrStaying(table, hosted, plan.second, second);
    AddUp(multiset(Names(plan.local)), multiset(Names(Flatten(plan.first))), multiset(Names(plan.second)),
          multiset(Names(hosted)), multiset(Names(asked)));
    EverythingBag(plan);
  }

  /** A stage is in the local chain or on a host. */
  lemma LocalOrHosted(asked: seq<Stage>, local: seq<Stage>, hosted: seq<Stage>, overlap: bool)
    requires hosted == if overlap then Keep(asked, Remote) else asked
    requires local == if overlap then Keep(asked, Local) else []
    ensures multiset(Names(local)) + multiset(Names(hosted)) == multiset(Names(asked))
  {
    if overlap {
      KeepSplits(asked, Local, Remote);
    } else {
      assert Names(local) == [];
    }
  }

  lemma AddUp<T>(a: multiset<T>, b: multiset<T>, c: multiset<T>, d: multiset<T>, e: multiset<T>)
    requires b + c == d && a + d == e
    ensures a + b + c == e
  {
  }

  lemma {:induction false} KeepAll(stages: seq<Stage>, side: Side)
    requires forall s :: s in stages ==> side.Keeps(s)
    ensures Keep(stages, side) == stages
  {
    if stages == [] {
    } else {
      assert stages[|stages| - 1] in stages;
      KeepAll(stages[..|stages| - 1], side);
    }
  }

  // ---------------------------------------------------------------------
  // Order and solitude of groups
  // ---------------------------------------------------------------------

  /** Stages appear in the order the table declares them. */
  ghost predicate InOrder(table: seq<Stage>, stages: seq<Stage>) {
    forall i, j :: 0 <= i < j < |stages| ==> Before(table, stages[i], stages[j])
  }

  ghost predicate Before(table: seq<Stage>, x: Stage, y: Stage) {
    exists i, j :: 0 <= i < j < |table| && table[i] == x && table[j] == y
  }

  /** Every stage of an earlier group is declared before every stage of a later one. */
  ghost predicate GroupsInOrder(table: seq<Stage>, groups: seq<Group>) {
    forall a, b, x, y :: 0 <= a < b < |groups| && x in groups[a] && y in groups[b] ==> Before(table, x, y)
  }

  /** A stage in no lane has its group to itself. */
  ghost predicate Solitary(groups: seq<Group>) {
    forall a, x :: 0 <= a < |groups| && x in groups[a] && x.lane.None? ==> |groups[a]| == 1
  }

  lemma {:induction false} KeepInOrder(table: seq<Stage>, stages: seq<Stage>, side: Side)
    requires InOrder(table, stages)
    ensures InOrder(table, Keep(stages, side))
  {
    if stages == [] {
    } else {
      var rest, last := stages[..|stages| - 1], stages[|stages| - 1];
      KeepInOrder(table, rest, side);
      forall x | x in Keep(rest, side)
        ensures Before(table, x, last)
      {
        var i :| 0 <= i < |rest| && rest[i] == x;
        assert stages[i] == x;
      }
    }
  }

  lemma TableInOrder(table: seq<Stage>)
    ensures InOrder(table, table)
  {
  }

  lemma {:induction false} GroupsFacts(table: seq<Stage>, stages: seq<Stage>)
    requires InOrder(table, stages)
    ensures GroupsInOrder(table, Groups(stages)) && Solitary(Groups(stages))
    ensures forall a, x :: 0 <= a < |Groups(stages)| && x in Groups(stages)[a] ==> x in stages
  {
    if stages == [] {
    } else {
      var rest, last := stages[..|stages| - 1], stages[|stages| - 1];
      GroupsFacts(table, rest);
      forall x | x in rest
        ensures Before(table, x, last)
      {
        var i :| 0 <= i < |rest| && rest[i] == x;
        assert stages[i] == x;
      }
      ExtendFacts(table, Groups(rest), last);
      assert forall x :: x in rest ==> x in stages;
      assert Groups(stages) == Extend(Groups(rest), last);
    }
  }

  lemma ExtendFacts(table: seq<Stage>, groups: seq<Group>, s: Stage)
    requires forall i :: 0 <= i < |groups| ==> groups[i] != []
    requires GroupsInOrder(table, groups) && Solitary(groups)
    requires forall a, x :: 0 <= a < |groups| && x in groups[a] ==> Before(table, x, s)
    ensures GroupsInOrder(table, Extend(groups, s)) && Solitary(Extend(groups, s))
    ensures forall a, x :: 0 <= a < |Extend(groups, s)| && x in Extend(groups, s)[a] ==>
              x == s || (a < |groups| && x in groups[a])
  {
    var n := |groups|;
    if n > 0 && Last(groups[n - 1]).lane.Some? && s.lane.Some? {
      assert forall x :: x in groups[n - 1] ==> x.lane.Some? by {
        forall x | x in groups[n - 1]
          ensures x.lane.Some?
        {
          if x.lane.None? {
            assert |groups[n - 1]| == 1;
          }
        }
      }
    }
  }

  /** Every stage of a group of `kept` is in a group of `groups`. */
  ghost predicate Among(kept: seq<Group>, groups: seq<Group>) {
    forall a, x :: 0 <= a < |kept| && x in kept[a] ==> InSome(groups, x)
  }

  ghost predicate InSome(groups: seq<Group>, x: Stage) {
    exists b :: 0 <= b < |groups| && x in groups[b]
  }

  lemma AmongMore(kept: seq<Group>, rest: seq<Group>, g: Group)
    requires Among(kept, rest)
    ensures Among(kept, rest + [g])
  {
    forall a, x | 0 <= a < |kept| && x in kept[a] ensures InSome(rest + [g], x) {
      assert InSome(rest, x);
      var b :| 0 <= b < |rest| && x in rest[b];
      assert x in (rest + [g])[b];
    }
  }

  /** A part of the last group, after what was kept of the others. */
  lemma KeepOneGroup(table: seq<Stage>, rest: seq<Group>, kept: seq<Group>, g: Group, part: Group)
    requires GroupsInOrder(table, rest + [g]) && Solitary(rest + [g])
    requires GroupsInOrder(table, kept) && Solitary(kept) && Among(kept, rest)
    requires part != [] && |part| <= |g| && forall x :: x in part ==> x in g
    ensures GroupsInOrder(table, kept + [part]) && Solitary(kept + [part]) && Among(kept + [part], rest + [g])
  {
    var groups, all := rest + [g], kept + [part];
    AmongMore(kept, rest, g);
    assert groups[|rest|] == g;
    forall a, x, y | 0 <= a < |kept| && x in kept[a] && y in part ensures Before(table, x, y) {
      assert InSome(rest, x);
      var b :| 0 <= b < |rest| && x in rest[b];
      assert x in groups[b] && y in groups[|rest|];
    }
    forall x | x in part ensures InSome(groups, x) && (x.lane.None? ==> |part| == 1) {
      assert x in groups[|rest|];
    }
  }

  lemma {:induction false} KeepGroupsFacts(table: seq<Stage>, groups: seq<Group>, side: Side)
    requires GroupsInOrder(table, groups) && Solitary(groups)
    ensures GroupsInOrder(table, KeepGroups(groups, side)) && Solitary(KeepGroups(groups, side))
    ensures Among(KeepGroups(groups, side), groups)
  {
    if groups == [] {
    } else {
      var n := |groups| - 1;
      var rest, g := groups[..n], groups[n];
      var kept, part := KeepGroups(rest, side), Keep(g, side);
      assert groups == rest + [g];
      assert GroupsInOrder(table, rest) && Solitary(rest);
      KeepGroupsFacts(table, rest, side);
      KeepLength(g, side);
      if part == [] {
        AmongMore(kept, rest, g);
      } else {
        KeepOneGroup(table, rest, kept, g, part);
      }
    }
  }

  lemma {:induction false} KeepLength(stages: seq<Stage>, side: Side)
    ensures |Keep(stages, side)| <= |stages|
  {
    if stages == [] {
    } else {
      KeepLength(stages[..|stages| - 1], side);
    }
  }

  lemma AskedOnce(table: seq<Stage>, requested: set<Name>, n: Name)
    requires NoRepeats(Names(table)) && (n in requested ==> n in Names(table))
    ensures multiset(Names(Keep(table, Asked(requested))))[n] <= 1
    ensures n in Names(Keep(table, Asked(requested))) <==> n in requested
  {
    var asked := Keep(table, Asked(requested));
    KeepShrinks(table, Asked(requested));
    DistinctBag(Names(table), n);
    if n in requested {
      var i :| 0 <= i < |Names(table)| && Names(table)[i] == n;
      assert table[i] in asked;
      var k :| 0 <= k < |asked| && asked[k] == table[i];
      assert Names(asked)[k] == n;
    }
    if n in Names(asked) {
      var k :| 0 <= k < |Names(asked)| && Names(asked)[k] == n;
      assert asked[k] in asked;
    }
  }

  lemma SplitNames(table: seq<Stage>, requested: set<Name>, plan: Plan)
    requires NoRepeats(Names(table)) && (forall n :: n in requested ==> n in Names(table))
    requires multiset(Names(Everything(plan))) == multiset(Names(Keep(table, Asked(requested))))
    ensures forall n :: multiset(Names(Everything(plan)))[n] <= 1
    ensures forall n :: n in Names(Everything(plan)) <==> n in requested
  {
    var all := Names(Everything(plan));
    var asked := Names(Keep(table, Asked(requested)));
    forall n: Name
      ensures multiset(all)[n] <= 1 && (n in all <==> n in requested)
    {
      AskedOnce(table, requested, n);
      assert n in all <==> n in multiset(all);
      assert n in asked <==> n in multiset(asked);
    }
  }

  /** The stages off the first host are as the table declares them. */
  lemma SplitSides(table: seq<Stage>, requested: set<Name>, overlap: bool, second: bool)
    requires WellDeclared(table)
    ensures var plan := Split(table, requested, overlap, second);
            && (forall s :: s in plan.local ==> !s.remote && !s.exclusive && !s.secondHost && !s.name.Oracle?)
            && (forall s :: s in plan.second ==> s.secondHost && !s.exclusive && !s.name.Oracle?)
            && (forall i :: 0 <= i < |plan.first| ==> plan.first[i] != [])
  {
    SplitLocal(table, requested, overlap, second);
    SplitSecond(table, requested, overlap, second);
    SplitFirst(table, requested, overlap, second);
  }

  lemma SplitLocal(table: seq<Stage>, requested: set<Name>, overlap: bool, second: bool)
    requires WellDeclared(table)
    ensures forall s :: s in Split(table, requested, overlap, second).local ==>
      !s.remote && !s.exclusive && !s.secondHost && !s.name.Oracle?
  {
    SplitForms(table, requested, overlap, second);
  }

  lemma SplitSecond(table: seq<Stage>, requested: set<Name>, overlap: bool, second: bool)
    requires WellDeclared(table)
    ensures forall s :: s in Split(table, requested, overlap, second).second ==>
      s.secondHost && !s.exclusive && !s.name.Oracle?
  {
    SplitForms(table, requested, overlap, second);
  }

  lemma SplitFirst(table: seq<Stage>, requested: set<Name>, overlap: bool, second: bool)
    requires WellDeclared(table)
    ensures var first := Split(table, requested, overlap, second).first;
            forall i :: 0 <= i < |first| ==> first[i] != []
  {
    SplitForms(table, requested, overlap, second);
  }

  /** What a request's split guarantees the scheduler, whatever is requested
      and whether or not the lanes overlap or a second host is configured. */
  lemma SplitIsSound(table: seq<Stage>, requested: set<Name>, overlap: bool, second: bool)
    requires WellDeclared(table)
    requires forall n :: n in requested ==> n in Names(table)
    ensures Sound(Split(table, requested, overlap, second), requested)
  {
    var plan := Split(table, requested, overlap, second);
    assert multiset(Names(Everything(plan))) == multiset(Names(Keep(table, Asked(requested)))) by {
      SplitForms(table, requested, overlap, second);
      FormsPartition(table, Keep(table, Asked(requested)), Hosted(table, requested, overlap), plan, overlap, second);
    }
    SplitNames(table, requested, plan);
    SplitSides(table, requested, overlap, second);
    SplitGroups(table, requested, overlap, second);
  }

  lemma SplitGroups(table: seq<Stage>, requested: set<Name>, overlap: bool, second: bool)
    requires WellDeclared(table)
    ensures var plan := Split(table, requested, overlap, second);
            && (forall i, s :: 0 <= i < |plan.first| && s in plan.first[i] && s.exclusive ==>
          |plan.first[i]| == 1 && !s.secondHost)
            && OracleFirst(plan.first)
            && forall i, s :: 0 <= i < |plan.first| && s in plan.first[i] ==> s in table
  {
    var asked := Keep(table, Asked(requested));
    var groups := Groups(asked);
    assert Declared(table, groups) by {
      TableInOrder(table);
      KeepInOrder(table, table, Asked(requested));
      GroupsFacts(table, asked);
    }
    KeepDeclared(table, groups, Remote);
    var remote := if overlap then KeepGroups(groups, Remote) else groups;
    var plan := Split(table, requested, overlap, second);
    KeepDeclared(table, remote, Staying(NameSet(plan.second)));
    DeclaredGroups(table, plan.first);
  }

  /** Groups of declared stages, in declared order, each stage in no lane alone. */
  ghost predicate Declared(table: seq<Stage>, groups: seq<Group>) {
    GroupsInOrder(table, groups) && Solitary(groups) && FromTable(table, groups)
  }

  ghost predicate FromTable(table: seq<Stage>, groups: seq<Group>) {
    forall i, s :: 0 <= i < |groups| && s in groups[i] ==> s in table
  }

  lemma KeepDeclared(table: seq<Stage>, groups: seq<Group>, side: Side)
    requires Declared(table, groups)
    ensures Declared(table, KeepGroups(groups, side))
  {
    var kept := KeepGroups(groups, side);
    KeepGroupsFacts(table, groups, side);
    forall i, s | 0 <= i < |kept| && s in kept[i] ensures s in table {
      assert InSome(groups, s);
    }
  }

  lemma DeclaredGroups(table: seq<Stage>, groups: seq<Group>)
    requires WellDeclared(table) && Declared(table, groups)
    ensures forall i, s :: 0 <= i < |groups| && s in groups[i] && s.exclusive ==> |groups[i]| == 1 && !s.secondHost
    ensures OracleFirst(groups) && FromTable(table, groups)
  {
    OrderGivesOracleFirst(table, groups);
  }

  lemma OrderGivesOracleFirst(table: seq<Stage>, groups: seq<Group>)
    requires WellDeclared(table) && GroupsInOrder(table, groups) && Solitary(groups)
    requires forall i, s :: 0 <= i < |groups| && s in groups[i] ==> s in table
    ensures OracleFirst(groups)
  {
    forall a, b, x, y | 0 <= a < |groups| && 0 <= b < |groups| && x in groups[a] && y in groups[b]
                        && x.name.Oracle? && y.secondHost
      ensures a < b
    {
      assert |groups[a]| == 1;
      assert b < a ==> Before(table, y, x);
    }
  }

  // ---------------------------------------------------------------------
  // Which stages share a group, and where each one goes
  // ---------------------------------------------------------------------

  /** Two stages that share a lane. */
  predicate Together(x: Stage, y: Stage) {
    x.lane.Some? && x.lane == y.lane
  }

  /** Neighbours share a group exactly when they share a lane. */
  ghost predicate LaneRuns(groups: seq<Group>) {
    && (forall i :: 0 <= i < |groups| ==> groups[i] != [])
    && (forall i, k :: 0 <= i < |groups| && 0 <= k < |groups[i]| - 1 ==> Together(groups[i][k], groups[i][k + 1]))
    && (forall i :: 0 <= i < |groups| - 1 ==> !Together(Last(groups[i]), groups[i + 1][0]))
  }

  lemma ExtendRuns(groups: seq<Group>, s: Stage)
    requires LaneRuns(groups)
    ensures LaneRuns(Extend(groups, s))
  {
  }

  /** The requested stages are grouped in order, neighbours together exactly
      when they share a lane. */
  lemma {:induction false} GroupsAreLaneRuns(stages: seq<Stage>)
    ensures LaneRuns(Groups(stages)) && Flatten(Groups(stages)) == stages
  {
    FlatOfGroups(stages);
    if stages == [] {
    } else {
      GroupsAreLaneRuns(stages[..|stages| - 1]);
      ExtendRuns(Groups(stages[..|stages| - 1]), stages[|stages| - 1]);
    }
  }

  /** Where a requested stage goes: into the local chain if it needs no host and
      the lanes overlap, to the second host if there is one and the stage is
      marked for it, and to the first host otherwise. */
  lemma SplitPlaces(table: seq<Stage>, requested: set<Name>, overlap: bool, second: bool, x: Stage)
    requires WellDeclared(table) && x in table && x.name in requested
    ensures var plan := Split(table, requested, overlap, second);
      && (x in plan.local <==> overlap && !x.remote)
      && (x in plan.second <==> second && x.secondHost)
      && (x in Flatten(plan.first) <==> !(overlap && !x.remote) && !(second && x.secondHost))
  {
    SplitForms(table, requested, overlap, second);
    FormsPlace(table, Keep(table, Asked(requested)), Hosted(table, requested, overlap),
               Split(table, requested, overlap, second), overlap, second, x);
  }

  lemma FormsPlace(table: seq<Stage>, asked: seq<Stage>, hosted: seq<Stage>, plan: Plan, overlap: bool,
                   second: bool, x: Stage)
    requires NoRepeats(Names(table)) && (x.secondHost ==> x.remote)
    requires x in table && x in asked && (forall s :: s in asked ==> s in table)
    requires hosted == if overlap then Keep(asked, Remote) else asked
    requires plan.local == if overlap then Keep(asked, Local) else []
    requires plan.second == if second then Keep(hosted, Moving) else []
    requires Flatten(plan.first) == Keep(hosted, Staying(NameSet(plan.second)))
    ensures x in plan.local <==> overlap && !x.remote
    ensures x in plan.second <==> second && x.secondHost
    ensures x in Flatten(plan.first) <==> !(overlap && !x.remote) && !(second && x.secondHost)
  {
    HostedIff(asked, hosted, overlap, x);
    KeptIff(asked, Local, x);
    KeptIff(hosted, Moving, x);
    StaysIff(table, asked, hosted, plan.second, overlap, second, x);
  }

  lemma KeptIff(stages: seq<Stage>, side: Side, x: Stage)
    ensures x in Keep(stages, side) <==> x in stages && side.Keeps(x)
  {
  }

  lemma HostedIff(asked: seq<Stage>, hosted: seq<Stage>, overlap: bool, x: Stage)
    requires x in asked && hosted == if overlap then Keep(asked, Remote) else asked
    ensures x in hosted <==> !overlap || x.remote
  {
  }

  lemma StaysIff(table: seq<Stage>, asked: seq<Stage>, hosted: seq<Stage>, moved: seq<Stage>, overlap: bool,
                 second: bool, x: Stage)
    requires NoRepeats(Names(table)) && x in table && (forall s :: s in asked ==> s in table)
    requires hosted == if overlap then Keep(asked, Remote) else asked
    requires moved == if second then Keep(hosted, Moving) else []
    ensures x in Keep(hosted, Staying(NameSet(moved))) <==> x in hosted && x !in moved
  {
    MovedByName(table, asked, hosted, moved, overlap, second, x);
    KeptIff(hosted, Staying(NameSet(moved)), x);
  }

  /** A stage's name moved exactly when the stage did. */
  lemma MovedByName(table: seq<Stage>, asked: seq<Stage>, hosted: seq<Stage>, moved: seq<Stage>, overlap: bool,
                    second: bool, x: Stage)
    requires NoRepeats(Names(table)) && x in table && (forall s :: s in asked ==> s in table)
    requires hosted == if overlap then Keep(asked, Remote) else asked
    requires moved == if second then Keep(hosted, Moving) else []
    ensures x.name in NameSet(moved) <==> x in moved
  {
    if x.name in NameSet(moved) {
      var m :| m in moved && m.name == x.name;
      assert m in hosted && m in asked;
      SameName(table, x, m);
    }
  }

  /** Each part runs its stages in the order the table declares them. */
  lemma SplitInOrder(table: seq<Stage>, requested: set<Name>, overlap: bool, second: bool)
    ensures var plan := Split(table, requested, overlap, second);
      InOrder(table, plan.local) && InOrder(table, Flatten(plan.first)) && InOrder(table, plan.second)
  {
    SplitForms(table, requested, overlap, second);
    var plan := Split(table, requested, overlap, second);
    var asked, hosted := Keep(table, Asked(requested)), Hosted(table, requested, overlap);
    TableInOrder(table);
    KeepInOrder(table, table, Asked(requested));
    KeepInOrder(table, asked, Local);
    KeepInOrder(table, asked, Remote);
    KeepInOrder(table, hosted, Moving);
    KeepInOrder(table, hosted, Staying(NameSet(plan.second)));
  }
}
