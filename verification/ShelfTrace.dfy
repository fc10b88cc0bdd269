/**
 What a ledger holds after a whole run of writes and shelvings, path by path,
 and exactly when the evidence written last is what remains.
 */
module ShelfTrace {
  import opened Shelf
  import opened Options
  import opened Bags

  datatype Event = Write(path: string, content: string) | Delete(path: string) | Shelving(checkout: bool)

  ghost function Apply(committed: Files, prefixes: seq<string>, d: Disk, e: Event): Disk {
    match e
    case Write(path, content) => d.(tree := d.tree[path := content])
    case Delete(path) => d.(tree := d.tree - {path})
    case Shelving(checkout) => Shelved(committed, prefixes, d, checkout)
  }

  ghost function AfterAll(committed: Files, prefixes: seq<string>, d: Disk, events: seq<Event>): Disk {
    if events == [] then d
    else Apply(committed, prefixes, AfterAll(committed, prefixes, d, events[..|events| - 1]), events[|events| - 1])
  }

  /** One path: its content in the tree, its copy on the shelf, and whether
      this run shelved it. */
  datatype Cell = Cell(now: Option<string>, copy: Option<string>, touched: bool)

  function CellOf(d: Disk, p: string): Cell {
    Cell(Content(d.tree, p), Content(d.shelf, p), p in d.shelved)
  }

  /** What happens to one path: it is written or deleted, or a shelving takes
      place, which restores its committed content or fails to. */
  datatype Mark = Put(content: Option<string>) | Checkpoint(restored: bool)

  function Marked(c: Option<string>, cell: Cell, m: Mark): Cell {
    match m
    case Put(content) => cell.(now := content)
    case Checkpoint(restored) =>
      if cell.now == c then cell
      else Cell(if restored then c else cell.now, if cell.now.Some? then cell.now else cell.copy, true)
  }

  function MarkedAll(c: Option<string>, cell: Cell, marks: seq<Mark>): Cell {
    if marks == [] then cell else Marked(c, MarkedAll(c, cell, marks[..|marks| - 1]), marks[|marks| - 1])
  }

  /** What the final unshelving leaves at the path. */
  function Left(c: Option<string>, cell: Cell): Option<string> {
    if cell.now == c && cell.touched && cell.copy.Some? then cell.copy else cell.now
  }

  ghost function MarkOf(committed: Files, prefixes: seq<string>, d: Disk, e: Event, p: string): seq<Mark> {
    match e
    case Write(path, content) => if path == p then [Put(Some(content))] else []
    case Delete(path) => if path == p then [Put(None)] else []
    case Shelving(checkout) =>
      if Shelves(committed, prefixes, d.tree) then [Checkpoint(checkout || p !in committed)] else []
  }

  ghost function Marks(committed: Files, prefixes: seq<string>, d: Disk, events: seq<Event>, p: string): seq<Mark> {
    if events == [] then []
    else
      var front := events[..|events| - 1];
      Marks(committed, prefixes, d, front, p)
      + MarkOf(committed, prefixes, AfterAll(committed, prefixes, d, front), events[|events| - 1], p)
  }

  // ---------------------------------------------------------------------
  // A run seen from one path
  // ---------------------------------------------------------------------

  lemma ShelvingSeenFrom(committed: Files, prefixes: seq<string>, d: Disk, checkout: bool, p: string)
    requires Shelves(committed, prefixes, d.tree)
    ensures CellOf(Shelved(committed, prefixes, d, checkout), p)
            == Marked(Content(committed, p), CellOf(d, p), Checkpoint(checkout || p !in committed))
  {
    var dirty := Dirty(committed, d.tree);
    assert p in dirty <==> Content(d.tree, p) != Content(committed, p);
  }

  lemma StepSeenFrom(committed: Files, prefixes: seq<string>, d: Disk, e: Event, p: string)
    ensures CellOf(Apply(committed, prefixes, d, e), p)
            == MarkedAll(Content(committed, p), CellOf(d, p), MarkOf(committed, prefixes, d, e, p))
  {
    var marks := MarkOf(committed, prefixes, d, e, p);
    if marks != [] {
      assert marks[..|marks| - 1] == [];
    }
    if e.Shelving? && Shelves(committed, prefixes, d.tree) {
      ShelvingSeenFrom(committed, prefixes, d, e.checkout, p);
    }
  }

  lemma {:induction false} MarkedConcat(c: Option<string>, cell: Cell, a: seq<Mark>, b: seq<Mark>)
    ensures MarkedAll(c, cell, a + b) == MarkedAll(c, MarkedAll(c, cell, a), b)
  {
    if b == [] {
      assert a + b == a;
    } else {
      var n := |b| - 1;
      MarkedConcat(c, cell, a, b[..n]);
      assert (a + b)[..|a + b| - 1] == a + b[..n];
    }
  }

  /** The whole run, projected on a path, is a run of that path's marks. */
  lemma {:induction false} RunSeenFrom(committed: Files, prefixes: seq<string>, d: Disk, events: seq<Event>, p: string)
    ensures CellOf(AfterAll(committed, prefixes, d, events), p)
            == MarkedAll(Content(committed, p), CellOf(d, p), Marks(committed, prefixes, d, events, p))
  {
    if events == [] {
    } else {
      var front, last := events[..|events| - 1], events[|events| - 1];
      var mid := AfterAll(committed, prefixes, d, front);
      RunSeenFrom(committed, prefixes, d, front, p);
      StepSeenFrom(committed, prefixes, mid, last, p);
      MarkedConcat(Content(committed, p), CellOf(d, p), Marks(committed, prefixes, d, front, p),
                   MarkOf(committed, prefixes, mid, last, p));
    }
  }

  lemma UnshelvingSeenFrom(committed: Files, d: Disk, p: string)
    ensures Content(Unshelved(committed, d).tree, p) == Left(Content(committed, p), CellOf(d, p))
  {
    assert p in Dirty(committed, d.tree) <==> Content(d.tree, p) != Content(committed, p);
  }

  // ---------------------------------------------------------------------
  // What remains
  // ---------------------------------------------------------------------

  /** The content of the path itself, shelf aside. */
  function Now(c: Option<string>, start: Option<string>, marks: seq<Mark>): Option<string> {
    if marks == [] then start
    else
      var before := Now(c, start, marks[..|marks| - 1]);
      match marks[|marks| - 1]
      case Put(content) => content
      case Checkpoint(restored) => if restored then c else before
  }

  /** The contents the shelvings found. */
  function Seen(c: Option<string>, start: Option<string>, marks: seq<Mark>): seq<Option<string>> {
    if marks == [] then []
    else
      var front := marks[..|marks| - 1];
      if marks[|marks| - 1].Checkpoint? then Seen(c, start, front) + [Now(c, start, front)] else Seen(c, start, front)
  }

  /** The last content that differs from the committed one. */
  function LastFresh(c: Option<string>, contents: seq<Option<string>>): Option<string> {
    if contents == [] then c
    else if contents[|contents| - 1] != c then contents[|contents| - 1]
    else LastFresh(c, contents[..|contents| - 1])
  }

  /** The last of them that was a file with content of its own; the leftover
      copy if there is none. */
  function LastCopy(c: Option<string>, leftover: Option<string>, contents: seq<Option<string>>): Option<string> {
    if contents == [] then leftover
    else
      var last := contents[|contents| - 1];
      if last.Some? && last != c then last else LastCopy(c, leftover, contents[..|contents| - 1])
  }

  /** The shelf holds the last file found with content of its own, and the run
      has touched the path exactly when some shelving found it changed. */
  lemma {:induction false} CellTracks(c: Option<string>, cell: Cell, marks: seq<Mark>)
    requires !cell.touched
    ensures var end, seen := MarkedAll(c, cell, marks), Seen(c, cell.now, marks);
            && end.now == Now(c, cell.now, marks)
            && (end.touched <==> LastFresh(c, seen) != c)
            && end.copy == LastCopy(c, cell.copy, seen)
  {
    if marks == [] {
    } else {
      var front, last := marks[..|marks| - 1], marks[|marks| - 1];
      var seen := Seen(c, cell.now, front);
      CellTracks(c, cell, front);
      if last.Checkpoint? {
        assert (seen + [Now(c, cell.now, front)])[..|seen|] == seen;
      }
    }
  }

  /** The copy is the last change found, unless that was a deletion. */
  lemma {:induction false} CopyIsLastFresh(c: Option<string>, leftover: Option<string>, contents: seq<Option<string>>)
    ensures var last := LastFresh(c, contents);
            last != c && last.Some? ==> LastCopy(c, leftover, contents) == last
  {
    if contents == [] {
    } else {
      CopyIsLastFresh(c, leftover, contents[..|contents| - 1]);
    }
  }

  /** What the final unshelving leaves: what the path holds if it differs from
      the committed content, and otherwise the shelf's copy if a shelving found
      the path changed and there is a copy. */
  function Remains(c: Option<string>, leftover: Option<string>, start: Option<string>, marks: seq<Mark>)
    : Option<string>
  {
    var now, seen := Now(c, start, marks), Seen(c, start, marks);
    var copy := LastCopy(c, leftover, seen);
    if now == c && LastFresh(c, seen) != c && copy.Some? then copy else now
  }

  lemma WhatRemains(c: Option<string>, cell: Cell, marks: seq<Mark>)
    requires !cell.touched
    ensures Left(c, MarkedAll(c, cell, marks)) == Remains(c, cell.copy, cell.now, marks)
  {
    CellTracks(c, cell, marks);
  }

  /** The path is at its committed content again, and the last change a shelving
      found was that it had been deleted. */
  predicate DeletionForgotten(c: Option<string>, start: Option<string>, marks: seq<Mark>) {
    Now(c, start, marks) == c && LastFresh(c, Seen(c, start, marks)) == None && c.Some?
  }

  /** What remains is the last content differing from the committed one among
      those a shelving or the end of the run found, if and only if that content
      is not a deletion since undone. */
  lemma LastStandingEvidenceRemainsIff(c: Option<string>, leftover: Option<string>, start: Option<string>,
                                       marks: seq<Mark>)
    ensures Remains(c, leftover, start, marks) == LastFresh(c, Seen(c, start, marks) + [Now(c, start, marks)])
            <==> !DeletionForgotten(c, start, marks)
  {
    var seen, now := Seen(c, start, marks), Now(c, start, marks);
    assert (seen + [now])[..|seen|] == seen;
    CopyIsLastFresh(c, leftover, seen);
  }

  // ---------------------------------------------------------------------
  // The evidence written last
  // ---------------------------------------------------------------------

  /** The evidence is still in place when the next shelving, or the end, comes. */
  predicate Stands(after: seq<Mark>) {
    after == [] || after[0].Checkpoint?
  }

  /** No other evidence is written: the path is put back or deleted. */
  ghost predicate OnlyUndoes(c: Option<string>, marks: seq<Mark>) {
    forall m :: m in marks && m.Put? ==> m.content == c || m.content == None
  }

  /** What is found once `v` was the last evidence written. */
  ghost predicate Follows(c: Option<string>, leftover: Option<string>, start: Option<string>,
                          before: seq<Mark>, v: string, after: seq<Mark>) {
    var marks := before + [Put(Some(v))] + after;
    var now, seen := Now(c, start, marks), Seen(c, start, marks);
    && (now == c || now == None || (now == Some(v) && Stands(after)))
    && (after == [] ==> now == Some(v))
    && (Stands(after) && after != [] ==> LastCopy(c, leftover, seen) == Some(v) && LastFresh(c, seen) != c)
    && (after == [] || !Stands(after) ==> LastCopy(c, leftover, seen) == LastCopy(c, leftover, Seen(c, start, before)))
  }

  lemma FollowsNothing(c: Option<string>, leftover: Option<string>, start: Option<string>, before: seq<Mark>, v: string)
    ensures Follows(c, leftover, start, before, v, [])
  {
    var marks := before + [Put(Some(v))] + [];
    assert marks[..|marks| - 1] == before;
  }

  lemma FollowsOneMore(c: Option<string>, leftover: Option<string>, start: Option<string>,
                       before: seq<Mark>, v: string, front: seq<Mark>, last: Mark)
    requires Some(v) != c && Follows(c, leftover, start, before, v, front)
    requires last.Put? ==> last.content == c || last.content == None
    ensures Follows(c, leftover, start, before, v, front + [last])
  {
    var lead := before + [Put(Some(v))] + front;
    var marks := before + [Put(Some(v))] + (front + [last]);
    assert marks[..|marks| - 1] == lead && marks[|marks| - 1] == last;
    var seen := Seen(c, start, lead);
    assert (seen + [Now(c, start, lead)])[..|seen|] == seen;
    assert Stands(front + [last]) <==> if front == [] then last.Checkpoint? else Stands(front);
  }

  lemma {:induction false} AfterLastEvidence(c: Option<string>, leftover: Option<string>, start: Option<string>,
                                             before: seq<Mark>, v: string, after: seq<Mark>)
    requires Some(v) != c && OnlyUndoes(c, after)
    ensures Follows(c, leftover, start, before, v, after)
  {
    if after == [] {
      FollowsNothing(c, leftover, start, before, v);
    } else {
      var front, last := after[..|after| - 1], after[|after| - 1];
      assert after == front + [last];
      assert last in after && OnlyUndoes(c, front);
      AfterLastEvidence(c, leftover, start, before, v, front);
      FollowsOneMore(c, leftover, start, before, v, front, last);
    }
  }

  /** The shelf held the same content already, and a shelving has found, or
      finds, the path changed. */
  ghost predicate HeldAlready(c: Option<string>, leftover: Option<string>, start: Option<string>,
                              before: seq<Mark>, v: string, after: seq<Mark>) {
    && LastCopy(c, leftover, Seen(c, start, before)) == Some(v)
    && LastFresh(c, Seen(c, start, before + [Put(Some(v))] + after)) != c
  }

  /** The evidence written last remains if and only if the path is not left
      deleted and the evidence still stood when the next shelving or the end of
      the run came, or the shelf held the same content already. Otherwise a
      deletion, an older copy or the committed content wins. */
  lemma LastWrittenRemainsIff(c: Option<string>, leftover: Option<string>, start: Option<string>,
                              before: seq<Mark>, v: string, after: seq<Mark>)
    requires Some(v) != c && OnlyUndoes(c, after)
    ensures var marks := before + [Put(Some(v))] + after;
            Remains(c, leftover, start, marks) == Some(v) <==>
            && (Now(c, start, marks) == None ==> c == None)
            && (Stands(after) || HeldAlready(c, leftover, start, before, v, after))
  {
    AfterLastEvidence(c, leftover, start, before, v, after);
  }

  // ---------------------------------------------------------------------
  // Whole runs
  // ---------------------------------------------------------------------

  /** The disk a run starts on: any tree, any copies left on the shelf. */
  function Fresh(tree: Files, shelf: Files): Disk { Disk(tree, shelf, {}) }

  /** What a path holds once a run has ended and the ledgers are back. */
  ghost function Ledger(committed: Files, prefixes: seq<string>, d: Disk, events: seq<Event>, p: string)
    : Option<string>
  {
    Content(Unshelved(committed, AfterAll(committed, prefixes, d, events)).tree, p)
  }

  /** Every path of every run, over any tree and any leftover shelf, deletions
      included. */
  lemma LedgersAfterARun(committed: Files, prefixes: seq<string>, tree: Files, shelf: Files, events: seq<Event>,
                         p: string)
    ensures var d, c := Fresh(tree, shelf), Content(committed, p);
            Ledger(committed, prefixes, d, events, p)
            == Remains(c, Content(shelf, p), Content(tree, p), Marks(committed, prefixes, d, events, p))
  {
    var d := Fresh(tree, shelf);
    RunSeenFrom(committed, prefixes, d, events, p);
    UnshelvingSeenFrom(committed, AfterAll(committed, prefixes, d, events), p);
    WhatRemains(Content(committed, p), CellOf(d, p), Marks(committed, prefixes, d, events, p));
  }

  /** A run leaves at a path the last content differing from the committed one
      that a shelving or the end found, if and only if that was not a deletion
      since undone. */
  lemma RunKeepsLastEvidenceIff(committed: Files, prefixes: seq<string>, tree: Files, shelf: Files,
                                events: seq<Event>, p: string)
    ensures var d := Fresh(tree, shelf);
            var c, start := Content(committed, p), Content(tree, p);
            var marks := Marks(committed, prefixes, d, events, p);
            Ledger(committed, prefixes, d, events, p) == LastFresh(c, Seen(c, start, marks) + [Now(c, start, marks)])
            <==> !DeletionForgotten(c, start, marks)
  {
    var d := Fresh(tree, shelf);
    LedgersAfterARun(committed, prefixes, tree, shelf, events, p);
    LastStandingEvidenceRemainsIff(Content(committed, p), Content(shelf, p), Content(tree, p),
                                   Marks(committed, prefixes, d, events, p));
  }

  lemma {:induction false} AfterConcat(committed: Files, prefixes: seq<string>, d: Disk, a: seq<Event>, b: seq<Event>)
    ensures AfterAll(committed, prefixes, d, a + b)
            == AfterAll(committed, prefixes, AfterAll(committed, prefixes, d, a), b)
  {
    if b == [] {
      assert a + b == a;
    } else {
      var n := |b| - 1;
      AfterConcat(committed, prefixes, d, a, b[..n]);
      assert (a + b)[..|a + b| - 1] == a + b[..n];
    }
  }

  lemma {:induction false} MarksConcat(committed: Files, prefixes: seq<string>, d: Disk,
                                       a: seq<Event>, b: seq<Event>, p: string)
    ensures Marks(committed, prefixes, d, a + b, p)
            == Marks(committed, prefixes, d, a, p)
               + Marks(committed, prefixes, AfterAll(committed, prefixes, d, a), b, p)
  {
    if b == [] {
      assert a + b == a;
    } else {
      var front, last := b[..|b| - 1], b[|b| - 1];
      var mid := AfterAll(committed, prefixes, d, a);
      MarksConcat(committed, prefixes, d, a, front, p);
      AfterConcat(committed, prefixes, d, a, front);
      MarksNext(committed, prefixes, d, a + front, last, p);
      MarksNext(committed, prefixes, mid, front, last, p);
      assert a + b == (a + front) + [last] && b == front + [last];
      Regroup(Marks(committed, prefixes, d, a, p), Marks(committed, prefixes, mid, front, p),
              MarkOf(committed, prefixes, AfterAll(committed, prefixes, mid, front), last, p));
    }
  }

  /** No event writes evidence to the path. */
  ghost predicate WritesNoMore(committed: Files, events: seq<Event>, p: string) {
    forall e :: e in events && e.Write? && e.path == p ==> Some(e.content) == Content(committed, p)
  }

  lemma {:induction false} WritesNoMoreOnlyUndoes(committed: Files, prefixes: seq<string>, d: Disk,
                                                  events: seq<Event>, p: string)
    requires WritesNoMore(committed, events, p)
    ensures OnlyUndoes(Content(committed, p), Marks(committed, prefixes, d, events, p))
  {
    if events == [] {
    } else {
      var front, last := events[..|events| - 1], events[|events| - 1];
      assert last in events && WritesNoMore(committed, front, p);
      WritesNoMoreOnlyUndoes(committed, prefixes, d, front, p);
    }
  }

  lemma MarksAround(committed: Files, prefixes: seq<string>, d: Disk, before: seq<Event>, v: string,
                    after: seq<Event>, p: string)
    ensures var written := AfterAll(committed, prefixes, d, before + [Write(p, v)]);
            Marks(committed, prefixes, d, before + [Write(p, v)] + after, p)
            == Marks(committed, prefixes, d, before, p) + [Put(Some(v))] + Marks(committed, prefixes, written, after, p)
  {
    var lead := before + [Write(p, v)];
    MarksConcat(committed, prefixes, d, lead, after, p);
    assert lead[..|lead| - 1] == before;
  }

  /** The evidence a run writes last to a path is there at the end if and only
      if the path is not left deleted and the evidence still stood at the next
      shelving or the end, or the shelf held the same content already. */
  lemma RunKeepsLastWrittenIff(committed: Files, prefixes: seq<string>, tree: Files, shelf: Files,
                               before: seq<Event>, v: string, after: seq<Event>, p: string)
    requires Some(v) != Content(committed, p) && WritesNoMore(committed, after, p)
    ensures var d := Fresh(tree, shelf);
            var c, start, leftover := Content(committed, p), Content(tree, p), Content(shelf, p);
            var events := before + [Write(p, v)] + after;
            var marks := Marks(committed, prefixes, d, events, p);
            var first := Marks(committed, prefixes, d, before, p);
            var later := Marks(committed, prefixes, AfterAll(committed, prefixes, d, before + [Write(p, v)]), after, p);
            Ledger(committed, prefixes, d, events, p) == Some(v) <==>
            && (Now(c, start, marks) == None ==> c == None)
            && (Stands(later) || HeldAlready(c, leftover, start, first, v, later))
  {
    var d := Fresh(tree, shelf);
    var lead := AfterAll(committed, prefixes, d, before + [Write(p, v)]);
    LedgersAfterARun(committed, prefixes, tree, shelf, before + [Write(p, v)] + after, p);
    MarksAround(committed, prefixes, d, before, v, after, p);
    WritesNoMoreOnlyUndoes(committed, prefixes, lead, after, p);
    LastWrittenRemainsIff(Content(committed, p), Content(shelf, p), Content(tree, p),
                          Marks(committed, prefixes, d, before, p), v, Marks(committed, prefixes, lead, after, p));
  }

  // ---------------------------------------------------------------------
  // Two runs that end with a stale ledger
  // ---------------------------------------------------------------------

  /** A tree of one ledger, changed or deleted, is shelved. */
  lemma OneLedgerShelves(p: string, c: string, tree: Files)
    requires tree.Keys <= {p} && (p in tree ==> tree[p] != c)
    ensures Shelves(map[p := c], [p], tree)
  {
    var dirty := Dirty(map[p := c], tree);
    assert p in dirty;
    assert IsArtifact(p, [p]) by {
      assert [p][0] <= p;
    }
    assert forall q :: q in dirty ==> q == p;
  }

  /** The marks of a run, one event more. */
  lemma MarksNext(committed: Files, prefixes: seq<string>, d: Disk, events: seq<Event>, e: Event, p: string)
    ensures AfterAll(committed, prefixes, d, events + [e])
            == Apply(committed, prefixes, AfterAll(committed, prefixes, d, events), e)
    ensures Marks(committed, prefixes, d, events + [e], p)
            == Marks(committed, prefixes, d, events, p)
               + MarkOf(committed, prefixes, AfterAll(committed, prefixes, d, events), e, p)
  {
    assert (events + [e])[..|events|] == events;
  }

  lemma WrittenAndShelved(committed: Files, prefixes: seq<string>, d: Disk, p: string, c: string, v: string)
    requires committed == map[p := c] && prefixes == [p] && d == Fresh(committed, map[]) && c != v
    ensures Marks(committed, prefixes, d, [Write(p, v), Shelving(true)], p) == [Put(Some(v)), Checkpoint(true)]
  {
    var first := AfterAll(committed, prefixes, d, [Write(p, v)]);
    MarksNext(committed, prefixes, d, [], Write(p, v), p);
    assert [] + [Write(p, v)] == [Write(p, v)];
    assert first.tree == map[p := v];
    OneLedgerShelves(p, c, first.tree);
    MarksNext(committed, prefixes, d, [Write(p, v)], Shelving(true), p);
    assert [Write(p, v)] + [Shelving(true)] == [Write(p, v), Shelving(true)];
  }

  /** Fresh evidence replaced by an older copy: a ledger shelved with older
      evidence, rewritten and then put back to its committed content ends with
      the older evidence. */
  lemma FreshEvidenceCanBeLost(p: string, c: string, older: string, newer: string)
    requires c != older && c != newer && older != newer
    ensures Ledger(map[p := c], [p], Fresh(map[p := c], map[]),
                   [Write(p, older), Shelving(true), Write(p, newer), Write(p, c)], p) == Some(older)
  {
    var committed, prefixes, d := map[p := c], [p], Fresh(map[p := c], map[]);
    var before, after := [Write(p, older), Shelving(true)], [Write(p, c)];
    WrittenAndShelved(committed, prefixes, d, p, c, older);
    MarksAround(committed, prefixes, d, before, newer, after, p);
    assert before + [Write(p, newer)] + after == [Write(p, older), Shelving(true), Write(p, newer), Write(p, c)];
    MarksNext(committed, prefixes, AfterAll(committed, prefixes, d, before + [Write(p, newer)]), [], Write(p, c), p);
    assert [] + [Write(p, c)] == after;
    LedgersAfterARun(committed, prefixes, d.tree, d.shelf, before + [Write(p, newer)] + after, p);
    RewrittenThenUndone(Some(c), older, newer);
  }

  lemma SeenNext(c: Option<string>, start: Option<string>, marks: seq<Mark>, m: Mark)
    ensures Now(c, start, marks + [m])
            == if m.Put? then m.content else if m.restored then c else Now(c, start, marks)
    ensures Seen(c, start, marks + [m])
            == if m.Checkpoint? then Seen(c, start, marks) + [Now(c, start, marks)] else Seen(c, start, marks)
  {
    assert (marks + [m])[..|marks|] == marks;
  }

  lemma RewrittenThenUndone(c: Option<string>, older: string, newer: string)
    requires c != Some(older) && c != Some(newer)
    ensures Remains(c, None, c, [Put(Some(older)), Checkpoint(true)] + [Put(Some(newer))] + [Put(c)]) == Some(older)
  {
    var first, before := [Put(Some(older))], [Put(Some(older)), Checkpoint(true)];
    SeenNext(c, c, [], Put(Some(older)));
    assert [] + [Put(Some(older))] == first;
    SeenNext(c, c, first, Checkpoint(true));
    assert first + [Checkpoint(true)] == before;
    SeenNext(c, c, before, Put(Some(newer)));
    SeenNext(c, c, before + [Put(Some(newer))], Put(c));
    assert Seen(c, c, before) == [Some(older)];
  }

  /** A committed ledger that a stage deletes comes back with whatever an
      earlier run left on the shelf. */
  lemma DeletedLedgerReturnsStale(p: string, c: string, stale: string)
    ensures Ledger(map[p := c], [p], Fresh(map[p := c], map[p := stale]), [Delete(p), Shelving(true)], p) == Some(stale)
  {
    var committed, prefixes, d := map[p := c], [p], Fresh(map[p := c], map[p := stale]);
    var first := AfterAll(committed, prefixes, d, [Delete(p)]);
    MarksNext(committed, prefixes, d, [], Delete(p), p);
    assert [] + [Delete(p)] == [Delete(p)];
    assert first.tree == map[];
    OneLedgerShelves(p, c, first.tree);
    MarksNext(committed, prefixes, d, [Delete(p)], Shelving(true), p);
    assert [Delete(p)] + [Shelving(true)] == [Delete(p), Shelving(true)];
    LedgersAfterARun(committed, prefixes, d.tree, d.shelf, [Delete(p), Shelving(true)], p);
    DeletedThenRestored(Some(c), Some(stale));
  }

  lemma DeletedThenRestored(c: Option<string>, leftover: Option<string>)
    requires c.Some? && leftover.Some?
    ensures Remains(c, leftover, c, [Put(None)] + [Checkpoint(true)]) == leftover
  {
    SeenNext(c, c, [], Put(None));
    assert [] + [Put(None)] == [Put(None)];
    SeenNext(c, c, [Put(None)], Checkpoint(true));
    var seen := Seen(c, c, [Put(None)] + [Checkpoint(true)]);
    assert seen == [None] && seen[..0] == [];
    assert LastFresh(c, seen) == None && LastCopy(c, leftover, seen) == LastCopy(c, leftover, seen[..0]);
  }
}
