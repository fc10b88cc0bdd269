/**
 The validation driver's stage table, and how a request is split into the
 local chain, the first host's groups and the second host's sequence.
 */
module StageTable {
  import opened Options
  import opened Bags

  datatype Name =
    | Fmt | Freshness | Typecheck | Unit | ParserCorpus | Oracle | Mtr | MtrReplica | E2e | Migrations
    | E2eMysql80 | Recovery | Soak | Memsoak | Browser | Compose | BiClients | Bench | Accept

  /** A stage as the scheduler sees it. Stages sharing a lane run together. */
  datatype Stage = Stage(name: Name, remote: bool, lane: Option<string>, secondHost: bool, exclusive: bool)

  type Group = seq<Stage>

  /** The declared stages, in order. */
  const STAGES: seq<Stage> := [
    Stage(Fmt, false, None, false, false),
    Stage(Freshness, false, None, false, false),
    Stage(Typecheck, false, None, false, false),
    Stage(Unit, false, None, false, false),
    Stage(ParserCorpus, false, None, false, false),
    Stage(Oracle, true, None, false, false),
    Stage(Mtr, true, None, true, false),
    Stage(MtrReplica, true, None, true, false),
    Stage(E2e, true, None, false, false),
    Stage(Migrations, true, None, true, false),
    Stage(E2eMysql80, true, None, true, false),
    Stage(Recovery, true, None, false, true),
    Stage(Soak, true, None, false, true),
    Stage(Memsoak, true, None, false, true),
    Stage(Browser, true, None, false, false),
    Stage(Compose, true, None, false, false),
    Stage(BiClients, true, None, false, false),
    Stage(Bench, true, None, false, true),
    Stage(Accept, true, None, false, true)
  ]

  function Names(stages: seq<Stage>): (names: seq<Name>)
    ensures |names| == |stages|
    ensures forall i :: 0 <= i < |stages| ==> names[i] == stages[i].name
  {
    seq(|stages|, i requires 0 <= i < |stages| => stages[i].name)
  }

  /** What the scheduler's promises rest on: names are distinct; an exclusive
      stage is remote, runs in no lane and never moves to the second host; a
      second-host stage is remote; and the oracle is an ordinary remote stage
      declared before every second-host one. */
  ghost predicate WellDeclared(table: seq<Stage>) {
    && NoRepeats(Names(table))
    && (forall s :: s in table && s.exclusive ==> s.remote && s.lane.None? && !s.secondHost)
    && (forall s :: s in table && s.secondHost ==> s.remote)
    && (forall s :: s in table && s.name.Oracle? ==> s.remote && !s.secondHost && s.lane.None?)
    && (forall i, j :: 0 <= i < |table| && 0 <= j < |table| && table[i].name.Oracle? && table[j].secondHost ==> i < j)
  }

  function Position(name: Name): nat {
    match name
    case Fmt => 0 case Freshness => 1 case Typecheck => 2 case Unit => 3 case ParserCorpus => 4
    case Oracle => 5 case Mtr => 6 case MtrReplica => 7 case E2e => 8 case Migrations => 9
    case E2eMysql80 => 10 case Recovery => 11 case Soak => 12 case Memsoak => 13 case Browser => 14
    case Compose => 15 case BiClients => 16 case Bench => 17 case Accept => 18
  }

  /** What the table says of the stage at position i. */
  ghost predicate Slot(s: Stage, i: nat) {
    && Position(s.name) == i && s.lane.None?
    && (s.remote <==> i >= 5)
    && (s.exclusive <==> i in {11, 12, 13, 17, 18})
    && (s.secondHost <==> i in {6, 7, 9, 10})
  }

  lemma SlotsSuffice(table: seq<Stage>)
    requires forall i :: 0 <= i < |table| ==> Slot(table[i], i)
    ensures WellDeclared(table)
  {
    forall i, j | 0 <= i < j < |Names(table)|
      ensures Names(table)[i] != Names(table)[j]
    {
      assert Slot(table[i], i) && Slot(table[j], j);
    }
  }

  lemma StagesWellDeclared()
    ensures WellDeclared(STAGES)
  {
    forall i | 0 <= i < |STAGES|
      ensures Slot(STAGES[i], i)
    {
      assert i == 0 || i == 1 || i == 2 || i == 3 || i == 4 || i == 5 || i == 6 || i == 7 || i == 8 || i == 9
          || i == 10 || i == 11 || i == 12 || i == 13 || i == 14 || i == 15 || i == 16 || i == 17 || i == 18;
    }
    SlotsSuffice(STAGES);
  }

  // ---------------------------------------------------------------------
  // Grouping
  // ---------------------------------------------------------------------

  /** Which stages a filter keeps. */
  datatype Side = Asked(names: set<Name>) | Local | Remote | Moving | Staying(moved: set<Name>) {
    predicate Keeps(s: Stage) {
      match this
      case Asked(names) => s.name in names
      case Local => !s.remote
      case Remote => s.remote
      case Moving => s.secondHost
      case Staying(moved) => s.name !in moved
    }
  }

  function Keep(stages: seq<Stage>, side: Side): (kept: seq<Stage>)
    ensures forall s :: s in kept <==> s in stages && side.Keeps(s)
  {
    if stages == [] then []
    else
      var last := stages[|stages| - 1];
      var rest := Keep(stages[..|stages| - 1], side);
      if side.Keeps(last) then rest + [last] else rest
  }

  function KeepGroups(groups: seq<Group>, side: Side): (kept: seq<Group>)
    ensures forall i :: 0 <= i < |kept| ==> kept[i] != []
  {
    if groups == [] then []
    else
      var last := Keep(groups[|groups| - 1], side);
      var rest := KeepGroups(groups[..|groups| - 1], side);
      if last == [] then rest else rest + [last]
  }

  /** Consecutive stages sharing a lane form a group; every other stage is a
      group of its own. */
  function Groups(stages: seq<Stage>): (groups: seq<Group>)
    ensures forall i :: 0 <= i < |groups| ==> groups[i] != []
  {
    if stages == [] then []
    else Extend(Groups(stages[..|stages| - 1]), stages[|stages| - 1])
  }

  function Extend(groups: seq<Group>, s: Stage): (r: seq<Group>)
    requires forall i :: 0 <= i < |groups| ==> groups[i] != []
    ensures forall i :: 0 <= i < |r| ==> r[i] != []
  {
    var n := |groups|;
    if s.lane.Some? && n > 0 && Last(groups[n - 1]).lane == s.lane
    then groups[..n - 1] + [groups[n - 1] + [s]]
    else groups + [[s]]
  }

  function Last(g: Group): Stage
    requires g != []
  {
    g[|g| - 1]
  }

  lemma KeepOneMore(table: seq<Stage>, i: nat, side: Side)
    requires i < |table|
    ensures Keep(table[..i + 1], side) ==
            if side.Keeps(table[i]) then Keep(table[..i], side) + [table[i]] else Keep(table[..i], side)
  {
    assert table[..i + 1][..i] == table[..i];
  }

  lemma GroupsOneMore(stages: seq<Stage>, s: Stage)
    ensures Groups(stages + [s]) == Extend(Groups(stages), s)
  {
    assert (stages + [s])[..|stages|] == stages;
  }

  /** The grouping loop over the declared stages. */
  method GroupRequested(table: seq<Stage>, requested: set<Name>) returns (groups: seq<Group>)
    ensures groups == Groups(Keep(table, Asked(requested)))
  {
    groups := [];
    for i := 0 to |table|
      invariant groups == Groups(Keep(table[..i], Asked(requested)))
    {
      var stage := table[i];
      KeepOneMore(table, i, Asked(requested));
      if stage.name in requested {
        GroupsOneMore(Keep(table[..i], Asked(requested)), stage);
        groups := Extend(groups, stage);
      }
    }
    assert table[..|table|] == table;
  }

  /** Where each requested stage runs. */
  datatype Plan = Plan(local: seq<Stage>, first: seq<Group>, second: seq<Stage>)

  function Split(table: seq<Stage>, requested: set<Name>, overlap: bool, second: bool): Plan {
    var groups := Groups(Keep(table, Asked(requested)));
    var remote := if overlap then KeepGroups(groups, Remote) else groups;
    var moving := if second then Keep(Flatten(remote), Moving) else [];
    Plan(if overlap then Keep(Flatten(groups), Local) else [],
         KeepGroups(remote, Staying(set s | s in moving :: s.name)),
         moving)
  }
}
