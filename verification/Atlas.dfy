/**
 The fold of fix commits into bugs, and the tally of bugs per class.
 */
module Atlas {
  import opened Options

  /** What a commit says of the bugs it names. */
  datatype Commit = Commit(ids: seq<string>, year: nat, classes: set<string>, tested: bool)

  datatype Bug = Bug(year: nat, classes: set<string>, tested: bool)

  type Bugs = map<string, Bug>

  // ---------------------------------------------------------------------
  // Bugs
  // ---------------------------------------------------------------------

  function Get(bugs: Bugs, id: string): Option<Bug> { if id in bugs then Some(bugs[id]) else None }

  function Merge(bug: Option<Bug>, r: Commit): Bug {
    if bug.None? then Bug(r.year, r.classes, r.tested)
    else
      var year := if bug.value.year < r.year then bug.value.year else r.year;
      Bug(year, bug.value.classes + r.classes, bug.value.tested || r.tested)
  }

  /** Some commit of these that names the bug says this of it. */
  ghost predicate Names(records: set<Commit>, id: string, r: Commit) { r in records && id in r.ids }

  /** A bug, from every commit that names it: its earliest year, every class of
      any, and tested if any is. */
  ghost predicate Gathers(bug: Bug, records: set<Commit>, id: string) {
    && (exists r :: Names(records, id, r) && r.year == bug.year)
    && (forall r :: Names(records, id, r) ==>
      bug.year <= r.year && r.classes <= bug.classes && (r.tested ==> bug.tested))
    && (forall c :: c in bug.classes ==> exists r :: Names(records, id, r) && c in r.classes)
    && (bug.tested ==> exists r :: Names(records, id, r) && r.tested)
  }

  /** The bugs of a set of commits. */
  ghost predicate BugsOf(bugs: Bugs, records: set<Commit>) {
    && (forall id :: id in bugs ==> Gathers(bugs[id], records, id))
    && (forall id, r :: Names(records, id, r) ==> id in bugs)
  }

  /** A set of commits has one set of bugs, so neither their order nor a repeat
      matters. */
  lemma BugsAreUnique(a: Bugs, b: Bugs, records: set<Commit>)
    requires BugsOf(a, records) && BugsOf(b, records)
    ensures a == b
  {
    forall id | id in a || id in b ensures id in a && id in b && a[id] == b[id] {
      if id in a {
        assert Gathers(a[id], records, id);
      }
      if id in b {
        assert Gathers(b[id], records, id);
      }
      OneBug(a[id], b[id], records, id);
    }
  }

  lemma OneBug(a: Bug, b: Bug, records: set<Commit>, id: string)
    requires Gathers(a, records, id) && Gathers(b, records, id)
    ensures a == b
  {
  }

  /** One commit's part of the fold. */
  method AddCommit(bugs: Bugs, r: Commit) returns (after: Bugs)
    ensures forall id :: id in after <==> id in bugs || id in r.ids
    ensures forall id :: id in after ==> after[id] == if id in r.ids then Merge(Get(bugs, id), r) else bugs[id]
  {
    after := bugs;
    for k := 0 to |r.ids|
      invariant forall id :: id in after <==> id in bugs || id in r.ids[..k]
      invariant forall id :: id in after ==> after[id] == if id in r.ids[..k] then Merge(Get(bugs, id), r) else bugs[id]
    {
      var id := r.ids[k];
      after := after[id := Merge(Get(after, id), r)];
    }
  }

  lemma MergeGathers(bug: Option<Bug>, records: set<Commit>, id: string, r: Commit)
    requires bug.Some? ==> Gathers(bug.value, records, id)
    requires bug.None? ==> forall s :: !Names(records, id, s)
    requires id in r.ids
    ensures Gathers(Merge(bug, r), records + {r}, id)
  {
    var all := records + {r};
    assert Names(all, id, r);
    assert forall s :: Names(all, id, s) <==> Names(records, id, s) || s == r;
  }

  lemma OtherGathers(bug: Bug, records: set<Commit>, id: string, r: Commit)
    requires Gathers(bug, records, id) && id !in r.ids
    ensures Gathers(bug, records + {r}, id)
  {
  }

  lemma AddKeeps(bugs: Bugs, records: set<Commit>, r: Commit, after: Bugs)
    requires BugsOf(bugs, records)
    requires forall id :: id in after <==> id in bugs || id in r.ids
    requires forall id :: id in after ==> after[id] == if id in r.ids then Merge(Get(bugs, id), r) else bugs[id]
    ensures BugsOf(after, records + {r})
  {
    forall id | id in after ensures Gathers(after[id], records + {r}, id) {
      if id in r.ids {
        MergeGathers(Get(bugs, id), records, id, r);
      } else {
        OtherGathers(bugs[id], records, id, r);
      }
    }
    forall id, s | Names(records + {r}, id, s) ensures id in after {
      assert s != r ==> Names(records, id, s);
    }
  }

  function SetOf(records: seq<Commit>): set<Commit> { set r | r in records }

  /** The fold over every commit. */
  method Fold(records: seq<Commit>) returns (bugs: Bugs)
    ensures BugsOf(bugs, SetOf(records))
  {
    bugs := map[];
    for k := 0 to |records|
      invariant BugsOf(bugs, SetOf(records[..k]))
    {
      var after := AddCommit(bugs, records[k]);
      AddKeeps(bugs, SetOf(records[..k]), records[k], after);
      assert SetOf(records[..k + 1]) == SetOf(records[..k]) + {records[k]};
      bugs := after;
    }
    assert records[..|records|] == records;
  }

  // ---------------------------------------------------------------------
  // Classes
  // ---------------------------------------------------------------------

  /** The five years a bug's year is in. */
  function Era(bug: Bug): (era: nat)
    ensures era <= bug.year < era + 5 && era % 5 == 0
  {
    bug.year / 5 * 5
  }

  /** A class's row; `byEra` holds an era as often as bugs of it are counted. */
  datatype Row = Row(bugs: nat, tested: nat, byEra: multiset<nat>)

  type Rows = map<string, Row>

  const EMPTY := Row(0, 0, multiset{})

  function RowOf(rows: Rows, c: string): Row { if c in rows then rows[c] else EMPTY }

  function Counted(row: Row, bug: Bug): Row {
    Row(row.bugs + 1, if bug.tested then row.tested + 1 else row.tested, row.byEra + multiset{Era(bug)})
  }

  /** A bug counts once under each of its classes. */
  method AddBug(rows: Rows, bug: Bug) returns (after: Rows)
    ensures forall c :: c in after <==> c in rows || c in bug.classes
    ensures forall c :: c in after ==> after[c] == if c in bug.classes then Counted(RowOf(rows, c), bug) else rows[c]
  {
    after := rows;
    var left, done := bug.classes, {};
    while left != {}
      invariant left + done == bug.classes && left !! done
      invariant forall c :: c in after <==> c in rows || c in done
      invariant forall c :: c in after ==> after[c] == if c in done then Counted(RowOf(rows, c), bug) else rows[c]
      decreases left
    {
      var c :| c in left;
      after := after[c := Counted(RowOf(after, c), bug)];
      left, done := left - {c}, done + {c};
    }
  }

  /** The bugs among `ids` with the class. */
  function With(bugs: Bugs, ids: set<string>, c: string): set<string> {
    set id | id in ids && id in bugs && c in bugs[id].classes
  }

  function TestedOf(bugs: Bugs, ids: set<string>): set<string> { set id | id in ids && id in bugs && bugs[id].tested }

  function InEra(bugs: Bugs, ids: set<string>, era: nat): set<string> {
    set id | id in ids && id in bugs && Era(bugs[id]) == era
  }

  function Unclassed(bugs: Bugs, ids: set<string>): set<string> {
    set id | id in ids && id in bugs && bugs[id].classes == {}
  }

  /** A row counts the bugs of its class: all of them, the tested ones, and those
      of each era. */
  ghost predicate Counts(row: Row, bugs: Bugs, ids: set<string>) {
    && row.bugs == |ids| == |row.byEra|
    && row.tested == |TestedOf(bugs, ids)|
    && forall era :: row.byEra[era] == |InEra(bugs, ids, era)|
  }

  ghost predicate Tallied(rows: Rows, bugs: Bugs, ids: set<string>) {
    forall c :: Right(rows, bugs, ids, c)
  }

  ghost predicate Right(rows: Rows, bugs: Bugs, ids: set<string>, c: string) {
    (c in rows <==> With(bugs, ids, c) != {}) && Counts(RowOf(rows, c), bugs, With(bugs, ids, c))
  }

  lemma TestedMore(bugs: Bugs, ids: set<string>, id: string)
    requires id !in ids && id in bugs
    ensures |TestedOf(bugs, ids + {id})| == |TestedOf(bugs, ids)| + if bugs[id].tested then 1 else 0
  {
    assert TestedOf(bugs, ids + {id}) == if bugs[id].tested then TestedOf(bugs, ids) + {id} else TestedOf(bugs, ids);
  }

  lemma EraMore(bugs: Bugs, ids: set<string>, id: string, era: nat)
    requires id !in ids && id in bugs
    ensures |InEra(bugs, ids + {id}, era)| == |InEra(bugs, ids, era)| + if Era(bugs[id]) == era then 1 else 0
  {
    assert InEra(bugs, ids + {id}, era) ==
      if Era(bugs[id]) == era then InEra(bugs, ids, era) + {id} else InEra(bugs, ids, era);
  }

  lemma UnclassedMore(bugs: Bugs, ids: set<string>, id: string)
    requires id !in ids && id in bugs
    ensures |Unclassed(bugs, ids + {id})| == |Unclassed(bugs, ids)| + if bugs[id].classes == {} then 1 else 0
  {
    assert Unclassed(bugs, ids + {id}) ==
      if bugs[id].classes == {} then Unclassed(bugs, ids) + {id} else Unclassed(bugs, ids);
  }

  lemma CountsMore(row: Row, bugs: Bugs, ids: set<string>, id: string)
    requires Counts(row, bugs, ids) && id !in ids && id in bugs
    ensures Counts(Counted(row, bugs[id]), bugs, ids + {id})
  {
    TestedMore(bugs, ids, id);
    forall era ensures (row.byEra + multiset{Era(bugs[id])})[era] == |InEra(bugs, ids + {id}, era)| {
      EraMore(bugs, ids, id, era);
    }
  }

  lemma NoneTallied(rows: Rows, bugs: Bugs, ids: set<string>)
    requires rows == map[] && ids == {}
    ensures Tallied(rows, bugs, ids) && Unclassed(bugs, ids) == {}
  {
    forall c ensures Right(rows, bugs, ids, c) {
      assert With(bugs, ids, c) == {};
      assert TestedOf(bugs, ids) == {};
      assert forall era :: InEra(bugs, ids, era) == {};
    }
  }

  lemma TallyMore(rows: Rows, bugs: Bugs, ids: set<string>, id: string, after: Rows)
    requires Tallied(rows, bugs, ids) && id !in ids && id in bugs
    requires forall c :: c in after <==> c in rows || c in bugs[id].classes
    requires forall c :: c in after ==>
      after[c] == if c in bugs[id].classes then Counted(RowOf(rows, c), bugs[id]) else rows[c]
    ensures Tallied(after, bugs, ids + {id})
  {
    forall c
      ensures Right(after, bugs, ids + {id}, c)
    {
      assert Right(rows, bugs, ids, c);
      if c in bugs[id].classes {
        assert With(bugs, ids + {id}, c) == With(bugs, ids, c) + {id};
        CountsMore(RowOf(rows, c), bugs, With(bugs, ids, c), id);
      } else {
        assert With(bugs, ids + {id}, c) == With(bugs, ids, c);
      }
    }
  }

  /** One bug's part of the tally. */
  method CountBug(rows: Rows, unclassified: nat, bugs: Bugs, id: string, ghost done: set<string>)
    returns (rows': Rows, unclassified': nat)
    requires Tallied(rows, bugs, done) && unclassified == |Unclassed(bugs, done)| && id !in done && id in bugs
    ensures Tallied(rows', bugs, done + {id}) && unclassified' == |Unclassed(bugs, done + {id})|
  {
    UnclassedMore(bugs, done, id);
    if bugs[id].classes == {} {
      TallyMore(rows, bugs, done, id, rows);
      return rows, unclassified + 1;
    }
    rows' := AddBug(rows, bugs[id]);
    unclassified' := unclassified;
    TallyMore(rows, bugs, done, id, rows');
  }

  /** The tally, in whatever order the bugs come. */
  method Tally(bugs: Bugs) returns (unclassified: nat, rows: Rows)
    ensures unclassified == |Unclassed(bugs, bugs.Keys)| && Tallied(rows, bugs, bugs.Keys)
  {
    rows, unclassified := map[], 0;
    var left := bugs.Keys;
    ghost var done := {};
    NoneTallied(rows, bugs, done);
    while left != {}
      invariant left + done == bugs.Keys && left !! done
      invariant Tallied(rows, bugs, done) && unclassified == |Unclassed(bugs, done)|
      decreases left
    {
      var id :| id in left;
      rows, unclassified := CountBug(rows, unclassified, bugs, id, done);
      left, done := left - {id}, done + {id};
    }
    assert done == bugs.Keys;
  }

  /** `summarize`: what it says is settled by the set of commits, whatever their
      order and however often each is repeated. */
  method Summarize(records: seq<Commit>) returns (total: nat, unclassified: nat, rows: Rows, bugs: Bugs)
    ensures BugsOf(bugs, SetOf(records))
    ensures total == |bugs| && unclassified == |Unclassed(bugs, bugs.Keys)|
    ensures Tallied(rows, bugs, bugs.Keys)
  {
    bugs := Fold(records);
    unclassified, rows := Tally(bugs);
    total := |bugs|;
  }

  /** Two tallies of the same bugs are the same. */
  lemma TallyIsUnique(a: Rows, b: Rows, bugs: Bugs, ids: set<string>)
    requires Tallied(a, bugs, ids) && Tallied(b, bugs, ids)
    ensures a == b
  {
    forall c | c in a ensures c in b && a[c] == b[c] {
      assert Right(a, bugs, ids, c) && Right(b, bugs, ids, c);
      assert a[c].byEra == b[c].byEra;
    }
    forall c | c in b ensures c in a {
      assert Right(a, bugs, ids, c) && Right(b, bugs, ids, c);
    }
  }

  /** So two lists of the same commits, in any order and with any repeats, are
      summarised alike. */
  lemma SummaryIsOfTheSet(records: seq<Commit>, others: seq<Commit>, bugs: Bugs, bugs': Bugs, rows: Rows, rows': Rows)
    requires SetOf(records) == SetOf(others)
    requires BugsOf(bugs, SetOf(records)) && BugsOf(bugs', SetOf(others))
    requires Tallied(rows, bugs, bugs.Keys) && Tallied(rows', bugs', bugs'.Keys)
    ensures bugs == bugs' && rows == rows'
  {
    BugsAreUnique(bugs, bugs', SetOf(records));
    TallyIsUnique(rows, rows', bugs, bugs.Keys);
  }

  /** Bugs are unclassified or have a class; no class has more tested bugs than
      bugs, and its eras' counts add up to its bugs. */
  lemma TallyAddsUp(rows: Rows, bugs: Bugs, c: string)
    requires Tallied(rows, bugs, bugs.Keys)
    ensures |bugs| == |Unclassed(bugs, bugs.Keys)| + |set id | id in bugs && bugs[id].classes != {}|
    ensures RowOf(rows, c).tested <= RowOf(rows, c).bugs == |RowOf(rows, c).byEra|
  {
    var with := set id | id in bugs && bugs[id].classes != {};
    var without := Unclassed(bugs, bugs.Keys);
    assert bugs.Keys == with + without && with !! without;
    assert |bugs| == |bugs.Keys|;
    assert Right(rows, bugs, bugs.Keys, c);
    Fewer(TestedOf(bugs, With(bugs, bugs.Keys, c)), With(bugs, bugs.Keys, c));
  }

  lemma Fewer(a: set<string>, b: set<string>)
    requires a <= b
    ensures |a| <= |b|
  {
    assert b == a + (b - a);
  }
}
