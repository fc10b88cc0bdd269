/**
 The shelf for result ledgers: before a remote stage the driver copies every
 rewritten ledger aside and restores the committed one; at the end of the run
 it puts the copies back, except over paths written since.
 */
module Shelf {
  import opened Options

  type Files = map<string, string>

  function Content(f: Files, path: string): Option<string> {
    if path in f then Some(f[path]) else None
  }

  /** What `git status` lists. */
  function Dirty(committed: Files, tree: Files): set<string> {
    (set p | p in tree && Content(tree, p) != Content(committed, p))
    + (set p | p in committed && Content(tree, p) != Content(committed, p))
  }

  /** The working tree, the shelf directory, which outlives a run, and the
      paths this run has shelved. */
  datatype Disk = Disk(tree: Files, shelf: Files, shelved: set<string>)

  ghost predicate AllArtifacts(paths: set<string>, prefixes: seq<string>) {
    forall p :: p in paths ==> IsArtifact(p, prefixes)
  }

  predicate IsArtifact(path: string, prefixes: seq<string>) {
    exists i :: 0 <= i < |prefixes| && prefixes[i] <= path
  }

  /** Some path starts with none of the prefixes. */
  ghost predicate StrayAmong(paths: set<string>, prefixes: seq<string>) {
    exists p :: p in paths && forall prefix :: prefix in prefixes ==> !(prefix <= p)
  }

  /** Copies of the dirty files that exist go to the shelf. */
  function Copied(shelf: Files, tree: Files, dirty: set<string>): Files {
    shelf + map p | p in dirty && p in tree :: tree[p]
  }

  /** Untracked paths are removed; tracked ones return to their committed
      content if the checkout succeeds. */
  function Restored(committed: Files, tree: Files, dirty: set<string>, checkout: bool): Files {
    var kept := tree - Untracked(committed, dirty);
    if checkout then kept + Tracked(committed, dirty) else kept
  }

  function Untracked(committed: Files, dirty: set<string>): set<string> {
    set p | p in dirty && p !in committed
  }

  function Tracked(committed: Files, dirty: set<string>): Files {
    map p | p in dirty && p in committed :: committed[p]
  }

  ghost predicate Shelves(committed: Files, prefixes: seq<string>, tree: Files) {
    Dirty(committed, tree) != {} && AllArtifacts(Dirty(committed, tree), prefixes)
  }

  ghost function Shelved(committed: Files, prefixes: seq<string>, d: Disk, checkout: bool): Disk {
    var dirty := Dirty(committed, d.tree);
    if !Shelves(committed, prefixes, d.tree) then d
    else Disk(Restored(committed, d.tree, dirty, checkout), Copied(d.shelf, d.tree, dirty), d.shelved + dirty)
  }

  /** The copies of some paths over the tree. */
  function PutBack(tree: Files, shelf: Files, paths: set<string>): Files {
    tree + map p | p in paths && p in shelf :: shelf[p]
  }

  function Unshelved(committed: Files, d: Disk): Disk {
    Disk(PutBack(d.tree, d.shelf, d.shelved - Dirty(committed, d.tree)), d.shelf, {})
  }

  class Driver {
    const committed: Files
    const prefixes: seq<string>
    var tree: Files
    var shelf: Files
    var shelved: set<string>

    function State(): Disk
      reads this
    {
      Disk(tree, shelf, shelved)
    }

    constructor (committed: Files, prefixes: seq<string>, tree: Files, shelf: Files)
      ensures this.committed == committed && this.prefixes == prefixes && State() == Disk(tree, shelf, {})
    {
      this.committed := committed;
      this.prefixes := prefixes;
      this.tree := tree;
      this.shelf := shelf;
      shelved := {};
    }

    /** Copies the dirty files that exist and remembers every dirty path. */
    method CopyAside(dirty: set<string>)
      modifies this`shelf, this`shelved
      ensures shelf == Copied(old(shelf), tree, dirty) && shelved == old(shelved) + dirty
    {
      var left := dirty;
      ghost var done := {};
      CopiedNothing(shelf, tree);
      while left != {}
        invariant left <= dirty && done == (dirty - left) - {}
        invariant shelf == Copied(old(shelf), tree, done) && shelved == old(shelved) + done
        decreases left
      {
        var p :| p in left;
        Moved(dirty, left, p, {});
        CopiedOneMore(old(shelf), tree, done, p);
        left := left - {p};
        done := done + {p};
        if p in tree {
          shelf := shelf[p := tree[p]];
        }
        shelved := shelved + {p};
      }
      assert done == dirty;
    }

    /** Removes the untracked ledgers and checks the tracked ones out. */
    method Restore(dirty: set<string>, checkout: bool) returns (clean: bool)
      requires dirty == Dirty(committed, tree)
      modifies this`tree
      ensures tree == Restored(committed, old(tree), dirty, checkout)
      ensures clean <==> tree == committed
    {
      RestoredAll(committed, tree);
      tree := tree - Untracked(committed, dirty);
      var tracked := Tracked(committed, dirty);
      if tracked == map[] {
        PlusNothing(tree);
        return true;
      }
      if checkout {
        tree := tree + tracked;
      }
      return checkout;
    }

    /** `shelveHarnessArtifacts`; `checkout` is whether git restores the
        tracked ledgers. */
    method Shelve(checkout: bool) returns (clean: bool)
      modifies this
      ensures State() == Shelved(committed, prefixes, old(State()), checkout)
      ensures clean <==> tree == committed
    {
      var dirty := Dirty(committed, tree);
      if dirty == {} {
        CleanIsCommitted(committed, tree);
        return true;
      }
      if exists p :: p in dirty && !IsArtifact(p, prefixes) {
        return false;
      }
      CopyAside(dirty);
      clean := Restore(dirty, checkout);
    }

    /** `unshelveHarnessArtifacts`. */
    method Unshelve()
      modifies this
      ensures State() == Unshelved(committed, old(State()))
    {
      var rewritten := Dirty(committed, tree);
      var left := shelved;
      ghost var before, back := tree, {};
      PutBackNothing(tree, shelf);
      while left != {}
        invariant left <= shelved && back == (shelved - left) - rewritten
        invariant tree == PutBack(before, shelf, back)
        invariant shelved == old(shelved) && shelf == old(shelf)
        decreases left
      {
        var p :| p in left;
        Moved(shelved, left, p, rewritten);
        left := left - {p};
        if p !in rewritten {
          PutBackOneMore(before, shelf, back, p);
          back := back + {p};
          if p in shelf {
            tree := tree[p := shelf[p]];
          }
        }
      }
      assert back == shelved - rewritten;
      shelved := {};
    }
  }

  lemma Moved(all: set<string>, left: set<string>, p: string, except: set<string>)
    requires p in left && left <= all
    ensures left - {p} < left
    ensures (all - (left - {p})) - except == ((all - left) - except) + (if p in except then {} else {p})
  {
    assert p !in left - {p};
  }

  lemma PlusNothing(f: Files)
    ensures f + map[] == f
  {
  }

  lemma CopiedNothing(shelf: Files, tree: Files)
    ensures Copied(shelf, tree, {}) == shelf
  {
  }

  lemma CopiedOneMore(shelf: Files, tree: Files, done: set<string>, p: string)
    ensures Copied(shelf, tree, done + {p}) ==
            if p in tree then Copied(shelf, tree, done)[p := tree[p]] else Copied(shelf, tree, done)
  {
  }

  lemma PutBackNothing(tree: Files, shelf: Files)
    ensures PutBack(tree, shelf, {}) == tree
  {
  }

  lemma PutBackOneMore(tree: Files, shelf: Files, done: set<string>, p: string)
    ensures PutBack(tree, shelf, done + {p}) ==
            if p in shelf then PutBack(tree, shelf, done)[p := shelf[p]] else PutBack(tree, shelf, done)
  {
  }

  lemma CleanIsCommitted(committed: Files, tree: Files)
    requires Dirty(committed, tree) == {}
    ensures tree == committed
  {
    forall p: string
      ensures Content(tree, p) == Content(committed, p)
    {
      assert p !in Dirty(committed, tree);
    }
    assert forall p :: p in tree <==> p in committed by {
      forall p: string
        ensures p in tree <==> p in committed
      {
        assert Content(tree, p) == Content(committed, p);
      }
    }
  }

  /** A dirty path that starts with no prefix stops a shelving: nothing changes,
      and the tree is not the committed one. Without such a path a shelving whose
      checkout succeeds leaves the committed tree. */
  lemma StrayStops(committed: Files, prefixes: seq<string>, d: Disk, checkout: bool)
    ensures StrayAmong(Dirty(committed, d.tree), prefixes) ==>
      Shelved(committed, prefixes, d, checkout) == d && d.tree != committed
    ensures !StrayAmong(Dirty(committed, d.tree), prefixes) && checkout ==>
      Shelved(committed, prefixes, d, checkout).tree == committed
  {
    var dirty := Dirty(committed, d.tree);
    StrayIsNoArtifact(dirty, prefixes);
    if dirty == {} {
      CleanIsCommitted(committed, d.tree);
    } else {
      RestoredAll(committed, d.tree);
    }
  }

  lemma StrayIsNoArtifact(paths: set<string>, prefixes: seq<string>)
    ensures StrayAmong(paths, prefixes) <==> !AllArtifacts(paths, prefixes)
  {
    forall p: string
      ensures IsArtifact(p, prefixes) <==> exists prefix :: prefix in prefixes && prefix <= p
    {
      if IsArtifact(p, prefixes) {
        var i :| 0 <= i < |prefixes| && prefixes[i] <= p;
        assert prefixes[i] in prefixes;
      }
      if prefix :| prefix in prefixes && prefix <= p {
        var i :| 0 <= i < |prefixes| && prefixes[i] == prefix;
      }
    }
  }

  /** A shelving whose checkout succeeds leaves the committed tree. */
  lemma RestoredAll(committed: Files, tree: Files)
    ensures Restored(committed, tree, Dirty(committed, tree), true) == committed
  {
    var dirty := Dirty(committed, tree);
    var r := Restored(committed, tree, dirty, true);
    forall p: string
      ensures Content(r, p) == Content(committed, p)
    {
      assert p !in dirty ==> Content(tree, p) == Content(committed, p);
    }
    assert forall p :: p in r <==> p in committed by {
      forall p: string
        ensures p in r <==> p in committed
      {
        assert Content(r, p) == Content(committed, p);
      }
    }
    forall p | p in committed
      ensures r[p] == committed[p]
    {
      assert Content(r, p) == Content(committed, p);
    }
  }
}
