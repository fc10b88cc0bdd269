/**
 Which runs count as a whole profile, and which run directories survive:
 the policy lists, the completeness verdict and the pruning of old runs.
 */
module Runs {
  import opened StageTable
  import opened StagePlan
  import opened Lanes
  import opened LaneVerdict
  import opened LaneReport
  import opened Options
  import opened Bags

  datatype Profile = Development | Rc | Stable

  function ProfileStages(p: Profile): seq<Name> {
    match p
    case Development => [Fmt, Typecheck, Unit, ParserCorpus]
    case Rc =>
      [Fmt, Typecheck, Unit, ParserCorpus, Oracle, Mtr, E2e, E2eMysql80, Migrations, Browser, Compose, BiClients]
    case Stable => [Fmt, Typecheck, Unit, ParserCorpus, Oracle, Mtr, E2e, E2eMysql80, Recovery, Browser, Compose,
                    BiClients, Bench, Accept]
  }

  /** A run names a profile or spells out its stages. */
  datatype Request = Claim(profile: Profile) | List(stages: seq<Name>)

  function Requested(r: Request): seq<Name> {
    if r.Claim? then ProfileStages(r.profile) else r.stages
  }

  predicate Spells(stages: seq<Name>, p: Profile) {
    |ProfileStages(p)| == |stages| && forall n :: n in ProfileStages(p) ==> n in stages
  }

  /** The profile a run satisfies: the one it claims, or the first whose
      stages its list spells out. */
  function Matched(r: Request): Option<Profile> {
    if r.Claim? then Some(r.profile) else FirstSpelled(r.stages, [Development, Rc, Stable])
  }

  function FirstSpelled(stages: seq<Name>, profiles: seq<Profile>): (p: Option<Profile>)
    ensures p.Some? ==> Spells(stages, p.value)
    ensures p.None? ==> forall q :: q in profiles ==> !Spells(stages, q)
  {
    if profiles == [] then None
    else if Spells(stages, profiles[0]) then Some(profiles[0])
    else FirstSpelled(stages, profiles[1..])
  }

  function NameSetOf(names: seq<Name>): set<Name> {
    set n | n in names
  }

  /** The verdict's three parts: everything passed, a profile is matched, and
      no requested stage is missing from the rows. */
  ghost predicate Complete(r: Request, rows: seq<Row>) {
    AllPassed(rows) && Matched(r).Some? && forall n :: n in Requested(r) ==> Has(rows, n)
  }

  lemma ProfileDistinct(p: Profile)
    ensures NoRepeats(ProfileStages(p))
  {
    var s := ProfileStages(p);
    forall i, j | 0 <= i < j < |s|
      ensures s[i] != s[j]
    {
      InPosition(p, i);
      InPosition(p, j);
    }
  }

  /** The profiles, position by position. */
  lemma InPosition(p: Profile, i: nat)
    requires i < |ProfileStages(p)|
    ensures var n := ProfileStages(p)[i];
            n == if i == 0 then Fmt else if i == 1 then Typecheck else if i == 2 then Unit
                 else if i == 3 then ParserCorpus else if i == 4 then Oracle else if i == 5 then Mtr
                 else if i == 6 then E2e else if i == 7 then E2eMysql80
                 else if p.Rc? then
                   (if i == 8 then Migrations else if i == 9 then Browser else if i == 10 then Compose else BiClients)
                 else (if i == 8 then Recovery else if i == 9 then Browser else if i == 10 then Compose
                       else if i == 11 then BiClients else if i == 12 then Bench else Accept)
  {
  }

  /** A list as long as a duplicate-free one that contains all of it is a
      rearrangement of it. */
  lemma {:induction false} Pigeonhole<T>(p: seq<T>, q: seq<T>)
    requires NoRepeats(p) && |p| == |q| && forall x :: x in p ==> x in q
    ensures multiset(p) == multiset(q)
  {
    if p == [] {
    } else {
      var x := p[0];
      assert x in q;
      var i :| 0 <= i < |q| && q[i] == x;
      var rest := q[..i] + q[i + 1..];
      assert q == q[..i] + [x] + q[i + 1..];
      assert p == [x] + p[1..];
      forall y | y in p[1..]
        ensures y in rest
      {
        var j :| 0 <= j < |p[1..]| && p[1..][j] == y;
        assert p[0] != p[j + 1] && p[j + 1] in p;
        var k :| 0 <= k < |q| && q[k] == y;
        assert k != i;
        assert rest[if k < i then k else k - 1] == y;
      }
      Pigeonhole(p[1..], rest);
      assert multiset(q) == multiset(rest) + multiset{x};
    }
  }

  /** A list spells a profile exactly when it rearranges its stages. */
  lemma SpellsIsRearranging(stages: seq<Name>, p: Profile)
    ensures Spells(stages, p) <==> multiset(stages) == multiset(ProfileStages(p))
  {
    var q := ProfileStages(p);
    if Spells(stages, p) {
      ProfileDistinct(p);
      Pigeonhole(q, stages);
    }
    if multiset(stages) == multiset(q) {
      assert |multiset(stages)| == |multiset(q)|;
      forall n | n in q
        ensures n in stages
      {
        assert n in multiset(q);
      }
    }
  }

  /** A run satisfies a profile exactly when it claims it or lists its stages in
      some order. */
  lemma MatchedIff(r: Request, p: Profile)
    ensures Matched(r) == Some(p) <==>
      match r
      case Claim(q) => q == p
      case List(stages) => multiset(stages) == multiset(ProfileStages(p))
  {
    if r.List? {
      SpellsIsRearranging(r.stages, p);
      SpelledOnce(r.stages, p, Matched(r));
    }
  }

  /** No two profiles have as many stages. */
  lemma SizesDiffer(p: Profile, q: Profile)
    requires |ProfileStages(p)| == |ProfileStages(q)|
    ensures p == q
  {
  }

  lemma SpelledOnce(stages: seq<Name>, p: Profile, found: Option<Profile>)
    requires found == FirstSpelled(stages, [Development, Rc, Stable])
    ensures found == Some(p) <==> Spells(stages, p)
  {
    assert p in [Development, Rc, Stable];
    if Spells(stages, p) {
      SizesDiffer(p, found.value);
    }
  }

  lemma MatchedIsRearranged(r: Request)
    requires Matched(r).Some?
    ensures multiset(Requested(r)) == multiset(ProfileStages(Matched(r).value))
  {
    if r.List? {
      SpellsIsRearranging(r.stages, Matched(r).value);
    }
  }

  /** A finished run is reported complete exactly when its rows are the stages
      of the profile it matches, once each and all passed. */
  lemma CompleteMeansAWholeProfile(table: seq<Stage>, s: State, r: Request)
    requires Inv(s) && Done(s) && Sound(s.plan, NameSetOf(Requested(r))) && Requested(r) != []
    ensures Complete(r, Report(table, s)) <==>
              Matched(r).Some?
              && multiset(RowNames(Report(table, s))) == multiset(ProfileStages(Matched(r).value))
              && AllPass(Report(table, s))
  {
    var rows := Report(table, s);
    var asked := NameSetOf(Requested(r));
    assert Requested(r)[0] in asked;
    if Matched(r).Some? {
      var p := Matched(r).value;
      MatchedIsRearranged(r);
      forall n: Name
        ensures n in asked <==> n in ProfileStages(p)
      {
        assert n in Requested(r) <==> n in multiset(Requested(r));
        assert n in ProfileStages(p) <==> n in multiset(ProfileStages(p));
      }
      if Complete(r, rows) {
        forall n: Name
          ensures multiset(RowNames(rows))[n] == multiset(ProfileStages(p))[n]
        {
          CompleteCounts(table, s, r, p, n);
        }
      }
      if multiset(RowNames(rows)) == multiset(ProfileStages(p)) && AllPass(rows) {
        assert |multiset(RowNames(rows))| == |multiset(ProfileStages(p))|;
        forall n | n in Requested(r)
          ensures Has(rows, n)
        {
          assert n in asked;
          RowsIn(rows, n);
          assert n in multiset(ProfileStages(p));
        }
      }
    }
  }

  lemma CompleteCounts(table: seq<Stage>, s: State, r: Request, p: Profile, n: Name)
    requires Inv(s) && Done(s) && Sound(s.plan, NameSetOf(Requested(r)))
    requires Complete(r, Report(table, s))
    requires n in NameSetOf(Requested(r)) <==> n in ProfileStages(p)
    ensures multiset(RowNames(Report(table, s)))[n] == multiset(ProfileStages(p))[n]
  {
    var rows := Report(table, s);
    OneRowPerStage(table, s, NameSetOf(Requested(r)), n);
    RowsIn(rows, n);
    assert Has(rows, n) <==> n in NameSetOf(Requested(r));
    ProfileDistinct(p);
    SameCount(rows, ProfileStages(p), n);
  }

  lemma SameCount(rows: seq<Row>, stages: seq<Name>, n: Name)
    requires NoRepeats(stages) && Rows(rows, n) <= 1 && (Has(rows, n) <==> n in stages)
    ensures multiset(RowNames(rows))[n] == multiset(stages)[n]
  {
    DistinctBag(stages, n);
    RowsIn(rows, n);
    assert n in stages <==> n in multiset(stages);
  }
}
