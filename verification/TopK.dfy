/**
 The answer comparator: whether an answer is a legal reading of
 `ORDER BY ... LIMIT` when sort keys tie, and how two answers that differ are
 judged.

 A row is its comparable key. A row of the ranked full answer also carries the
 number of the tie group its sort keys put it in.
 */
module TopK {
  import opened Bags
  import opened Text
  import opened Options

  type Key = string

  datatype Ranked = Ranked(group: int, key: Key)

  /** The statement's LIMIT; `All` when it has none. */
  datatype Limit = All | AtMost(rows: nat)

  datatype Shape = Shape(offset: nat, limit: Limit)

  /** How many rows `validTopK` expects of `total`. */
  function Length(shape: Shape, total: nat): nat {
    var rest := if total < shape.offset then 0 else total - shape.offset;
    if shape.limit.AtMost? && shape.limit.rows < rest then shape.limit.rows else rest
  }

  function Keys(rows: seq<Ranked>): (keys: seq<Key>)
    ensures |keys| == |rows| && forall i :: 0 <= i < |rows| ==> keys[i] == rows[i].key
  {
    seq(|rows|, i requires 0 <= i < |rows| => rows[i].key)
  }

  /** Another order of the full answer the ORDER BY allows: the same rows, each
      position holding a row of its own tie group. */
  ghost predicate Reading(reading: seq<Ranked>, full: seq<Ranked>) {
    && multiset(reading) == multiset(full)
    && |reading| == |full|
    && forall i :: 0 <= i < |full| ==> reading[i].group == full[i].group
  }

  function Min(a: nat, b: nat): nat { if a < b then a else b }

  /** The rows the LIMIT leaves: those from the offset on, as many as it says
      or as there are. */
  function Window(rows: seq<Ranked>, shape: Shape): seq<Ranked> {
    match shape.limit
    case All => rows[Min(shape.offset, |rows|)..]
    case AtMost(n) => rows[Min(shape.offset, |rows|)..Min(shape.offset + n, |rows|)]
  }

  lemma WindowIs(rows: seq<Ranked>, shape: Shape)
    ensures |Window(rows, shape)| == Length(shape, |rows|)
    ensures Window(rows, shape) ==
      if shape.offset > |rows| then [] else rows[shape.offset..shape.offset + Length(shape, |rows|)]
  {
  }

  /** What the LIMIT may return. */
  ghost predicate Legal(answer: seq<Key>, full: seq<Ranked>, shape: Shape) {
    exists reading :: Reading(reading, full) && answer == Keys(Window(reading, shape))
  }

  /** The answer's rows with the tie groups of their positions. */
  function Drawn(answer: seq<Key>, full: seq<Ranked>, offset: nat): (rows: seq<Ranked>)
    requires |answer| == 0 || offset + |answer| <= |full|
    ensures |rows| == |answer|
    ensures forall i :: 0 <= i < |answer| ==> rows[i] == Ranked(full[offset + i].group, answer[i])
  {
    seq(|answer|, i requires 0 <= i < |answer| => Ranked(full[offset + i].group, answer[i]))
  }

  function Count<T(==)>(pool: map<T, int>, x: T): int {
    if x in pool then pool[x] else 0
  }

  /** The pool of counts over a list of rows. */
  method Tally<T(==)>(rows: seq<T>) returns (pool: map<T, int>)
    ensures forall x :: Count(pool, x) == multiset(rows)[x]
  {
    pool := map[];
    for i := 0 to |rows|
      invariant forall x :: Count(pool, x) == multiset(rows[..i])[x]
    {
      assert rows[..i + 1] == rows[..i] + [rows[i]];
      pool := pool[rows[i] := Count(pool, rows[i]) + 1];
    }
    assert rows[..|rows|] == rows;
  }

  /** Draws rows from a pool until one is not there. */
  method DrawAll<T(==)>(rows: seq<T>, full: seq<T>) returns (ok: bool)
    ensures ok <==> multiset(rows) <= multiset(full)
  {
    var pool := Tally(full);
    for i := 0 to |rows|
      invariant forall x :: Count(pool, x) + multiset(rows[..i])[x] == multiset(full)[x]
      invariant multiset(rows[..i]) <= multiset(full)
    {
      assert rows[..i + 1] == rows[..i] + [rows[i]];
      assert rows == rows[..i + 1] + rows[i + 1..];
      var left := Count(pool, rows[i]);
      pool := pool[rows[i] := left - 1];
      if left <= 0 {
        assert multiset(rows[..i + 1])[rows[i]] > multiset(full)[rows[i]];
        return false;
      }
    }
    assert rows[..|rows|] == rows;
    return true;
  }

  /** `validTopK`: as many rows as the LIMIT leaves, each drawn from the pool
      under the tie group of its position. True exactly of the legal answers. */
  method ValidTopK(answer: seq<Key>, full: seq<Ranked>, shape: Shape) returns (valid: bool)
    ensures valid <==> Legal(answer, full, shape)
  {
    if |answer| != Length(shape, |full|) {
      LegalLength(answer, full, shape);
      return false;
    }
    valid := DrawAll(Drawn(answer, full, shape.offset), full);
    LegalIsDrawable(answer, full, shape);
  }

  lemma LegalLength(answer: seq<Key>, full: seq<Ranked>, shape: Shape)
    ensures Legal(answer, full, shape) ==> |answer| == Length(shape, |full|)
  {
    if Legal(answer, full, shape) {
      var reading :| Reading(reading, full) && answer == Keys(Window(reading, shape));
      WindowIs(reading, shape);
    }
  }

  /** A legal answer has no more rows than the LIMIT says, and fewer only where
      the full answer runs out. */
  lemma LegalFillsTheLimit(answer: seq<Key>, full: seq<Ranked>, shape: Shape)
    requires Legal(answer, full, shape)
    ensures shape.limit.AtMost? ==> |answer| <= shape.limit.rows
    ensures shape.limit.All? || |answer| < shape.limit.rows ==> |answer| == |full| - Min(shape.offset, |full|)
  {
    LegalLength(answer, full, shape);
  }

  /** Swapping two rows of the same tie group leaves a reading a reading. */
  lemma Swap(reading: seq<Ranked>, full: seq<Ranked>, i: nat, j: nat)
    requires Reading(reading, full) && i < |full| && j < |full| && reading[i].group == reading[j].group
    ensures Reading(reading[i := reading[j]][j := reading[i]], full)
  {
    SwapBag(reading, i, j);
  }

  lemma SwapBag<T>(s: seq<T>, i: nat, j: nat)
    requires i < |s| && j < |s|
    ensures multiset(s[i := s[j]][j := s[i]]) == multiset(s)
  {
  }

  /** A row left in the pool stands outside the part of the window already built. */
  lemma StillThere(reading: seq<Ranked>, lo: nat, hi: nat, d: Ranked) returns (j: nat)
    requires lo <= hi <= |reading|
    requires multiset(reading)[d] > multiset(reading[lo..hi])[d]
    ensures j < |reading| && !(lo <= j < hi) && reading[j] == d
  {
    ThreeParts(reading, lo, hi, d);
    if multiset(reading[..lo])[d] > 0 {
      j := Where(reading[..lo], d);
    } else {
      var k := Where(reading[hi..], d);
      j := hi + k;
    }
  }

  lemma StillDrawable(drawn: seq<Ranked>, full: seq<Ranked>, n: nat)
    requires n < |drawn| && multiset(drawn) <= multiset(full)
    ensures multiset(full)[drawn[n]] > multiset(drawn[..n])[drawn[n]]
  {
    assert drawn == drawn[..n] + [drawn[n]] + drawn[n + 1..];
  }

  /** The rows drawn can stand at the positions they were drawn for. */
  ghost predicate Drawable(drawn: seq<Ranked>, full: seq<Ranked>, offset: nat) {
    && offset + |drawn| <= |full|
    && multiset(drawn) <= multiset(full)
    && forall i :: 0 <= i < |drawn| ==> drawn[i].group == full[offset + i].group
  }

  ghost predicate Placed(reading: seq<Ranked>, offset: nat, drawn: seq<Ranked>, n: nat) {
    && n <= |drawn| && offset + n <= |reading|
    && forall i :: 0 <= i < n ==> reading[offset + i] == drawn[i]
  }

  /** One swap brings the next drawn row to its place. */
  lemma PlaceNext(before: seq<Ranked>, full: seq<Ranked>, offset: nat, drawn: seq<Ranked>, n: nat)
    returns (after: seq<Ranked>)
    requires Drawable(drawn, full, offset) && n < |drawn|
    requires Reading(before, full) && Placed(before, offset, drawn, n)
    ensures Reading(after, full) && Placed(after, offset, drawn, n + 1)
  {
    var at := offset + n;
    assert before[offset..at] == drawn[..n];
    StillDrawable(drawn, full, n);
    var j := StillThere(before, offset, at, drawn[n]);
    Swap(before, full, at, j);
    after := before[at := before[j]][j := before[at]];
  }

  /** Any rows that can be drawn can be brought, one swap at a time, to the
      front of the window. */
  lemma {:induction false} Arrange(full: seq<Ranked>, offset: nat, drawn: seq<Ranked>, n: nat)
    returns (reading: seq<Ranked>)
    requires Drawable(drawn, full, offset) && n <= |drawn|
    ensures Reading(reading, full) && Placed(reading, offset, drawn, n)
  {
    if n == 0 {
      reading := full;
    } else {
      var before := Arrange(full, offset, drawn, n - 1);
      reading := PlaceNext(before, full, offset, drawn, n - 1);
    }
  }

  lemma LegalIsDrawable(answer: seq<Key>, full: seq<Ranked>, shape: Shape)
    requires |answer| == Length(shape, |full|)
    ensures Legal(answer, full, shape) <==> multiset(Drawn(answer, full, shape.offset)) <= multiset(full)
  {
    if multiset(Drawn(answer, full, shape.offset)) <= multiset(full) {
      DrawnIsLegal(answer, full, shape);
    }
    if Legal(answer, full, shape) {
      LegalIsDrawn(answer, full, shape);
    }
  }

  lemma DrawnIsLegal(answer: seq<Key>, full: seq<Ranked>, shape: Shape)
    requires |answer| == Length(shape, |full|) && multiset(Drawn(answer, full, shape.offset)) <= multiset(full)
    ensures Legal(answer, full, shape)
  {
    var drawn := Drawn(answer, full, shape.offset);
    var reading := full;
    if shape.offset <= |full| {
      reading := Arrange(full, shape.offset, drawn, |drawn|);
    }
    WindowIs(reading, shape);
    assert Window(reading, shape) == drawn;
    assert answer == Keys(Window(reading, shape));
  }

  lemma LegalIsDrawn(answer: seq<Key>, full: seq<Ranked>, shape: Shape)
    requires |answer| == Length(shape, |full|) && Legal(answer, full, shape)
    ensures multiset(Drawn(answer, full, shape.offset)) <= multiset(full)
  {
    var reading :| Reading(reading, full) && answer == Keys(Window(reading, shape));
    WindowIs(reading, shape);
    assert Drawn(answer, full, shape.offset) == Window(reading, shape);
    WindowWithin(reading, shape);
  }

  lemma WindowWithin(rows: seq<Ranked>, shape: Shape)
    ensures multiset(Window(rows, shape)) <= multiset(rows)
  {
    WindowIs(rows, shape);
    if shape.offset <= |rows| {
      SliceWithin(rows, shape.offset, shape.offset + Length(shape, |rows|));
    }
  }

  /** `bagEqual`: both sorted, and compared key by key. */
  function BagEqual(left: seq<Key>, right: seq<Key>): (same: bool)
    ensures same <==> multiset(left) == multiset(right)
  {
    SortBag(left);
    SortBag(right);
    SortSorted(left);
    SortSorted(right);
    assert |left| != |right| ==> multiset(left) != multiset(right) by {
      assert |multiset(left)| == |left| && |multiset(right)| == |right|;
    }
    assert multiset(left) == multiset(right) ==> Sort(left) == Sort(right) by {
      if multiset(left) == multiset(right) {
        SortedUnique(Sort(left), Sort(right));
      }
    }
    |left| == |right| && Sort(left) == Sort(right)
  }

  datatype Kind = Order | CutShort | Other

  /** `classify`: the same rows in another order, rows all drawn from the answer
      without its LIMIT, or neither. */
  method Classify(mysql: seq<Key>, pintail: seq<Key>, full: Option<seq<Key>>) returns (kind: Kind)
    ensures kind == Order <==> multiset(mysql) == multiset(pintail)
    ensures kind == CutShort <==>
      && multiset(mysql) != multiset(pintail)
      && full.Some? && |mysql| == |pintail| && multiset(pintail) <= multiset(full.value)
  {
    if BagEqual(mysql, pintail) {
      return Order;
    }
    if full.Some? && |mysql| == |pintail| {
      var drawn := DrawAll(pintail, full.value);
      if drawn {
        return CutShort;
      }
    }
    return Other;
  }

  /** A legal answer draws no row more often than the full answer holds it, so
      an answer that is as long and legal is never classified as `Other`. */
  lemma LegalIsWithin(answer: seq<Key>, full: seq<Ranked>, shape: Shape)
    requires Legal(answer, full, shape)
    ensures multiset(answer) <= multiset(Keys(full))
  {
    var reading :| Reading(reading, full) && answer == Keys(Window(reading, shape));
    KeysOfReading(reading, full);
    WindowKeysWithin(reading, shape);
  }

  lemma WindowKeysWithin(rows: seq<Ranked>, shape: Shape)
    ensures multiset(Keys(Window(rows, shape))) <= multiset(Keys(rows))
  {
    WindowIs(rows, shape);
    if shape.offset <= |rows| {
      var end := shape.offset + Length(shape, |rows|);
      assert Keys(Window(rows, shape)) == Keys(rows)[shape.offset..end];
      SliceWithin(Keys(rows), shape.offset, end);
    } else {
      assert Keys(Window(rows, shape)) == [];
    }
  }

  lemma KeysOfRest(rows: seq<Ranked>, i: nat)
    requires i < |rows|
    ensures multiset(Keys(rows)) == multiset(Keys(Without(rows, i))) + multiset{rows[i].key}
  {
    WithoutBag(Keys(rows), i);
    assert Keys(Without(rows, i)) == Without(Keys(rows), i);
  }

  /** Forgetting tie groups keeps two orders of the same rows the same bag. */
  lemma {:induction false} KeysOfReading(rows: seq<Ranked>, all: seq<Ranked>)
    requires multiset(rows) == multiset(all)
    ensures multiset(Keys(rows)) == multiset(Keys(all))
    decreases |rows|
  {
    if rows == [] {
      assert |multiset(all)| == 0;
      assert Keys(rows) == Keys(all);
    } else {
      assert rows[0] in multiset(all);
      var i :| 0 <= i < |all| && all[i] == rows[0];
      WithoutBag(rows, 0);
      WithoutBag(all, i);
      Cancel(multiset(Without(rows, 0)), multiset(Without(all, i)), rows[0]);
      KeysOfReading(Without(rows, 0), Without(all, i));
      KeysOfRest(rows, 0);
      KeysOfRest(all, i);
    }
  }

  datatype Ordering = Checked | Differs | Unchecked

  /** `orderOf`: the ranked answer is absent when the statement states no order
      or the engine refuses the rewrite. */
  method OrderOf(shape: Option<Shape>, full: Option<seq<Ranked>>, mysql: seq<Key>, pintail: seq<Key>)
    returns (ordering: Ordering)
    ensures ordering == Checked <==>
      shape.Some? && full.Some? && Legal(mysql, full.value, shape.value) && Legal(pintail, full.value, shape.value)
    ensures ordering == Differs <==>
      shape.Some? && full.Some? && Legal(mysql, full.value, shape.value) && !Legal(pintail, full.value, shape.value)
  {
    if shape.None? || full.None? {
      return Unchecked;
    }
    var theirs := ValidTopK(mysql, full.value, shape.value);
    if !theirs {
      return Unchecked;
    }
    var ours := ValidTopK(pintail, full.value, shape.value);
    return if ours then Checked else Differs;
  }

  /** Two answers to one statement. */
  datatype Pair = Pair(mysql: seq<Key>, pintail: seq<Key>) {
    ghost predicate Same() { multiset(mysql) == multiset(pintail) }

    /** As many rows on both sides, Pintail's all taken from these. */
    ghost predicate DrawnFrom(rows: Option<seq<Key>>) {
      rows.Some? && |mysql| == |pintail| && multiset(pintail) <= multiset(rows.value)
    }
  }

  /** What the engines answered to the statements `explain` may put to them;
      `None` where the statement has no such form or an engine refuses it. */
  datatype Evidence = Evidence(
    members: Pair,
    uncut: Option<Pair>,
    shape: Option<Shape>,
    full: Option<seq<Ranked>>,
    tiebroken: Option<Pair>,
    folded: Option<Pair>,
    unlimited: Option<seq<Key>>)

  datatype Reason = MembersUnordered | MembersCut | LimitTies | WindowTies | Spelling

  datatype Verdict = NotComparable(reason: Reason) | Different(kind: Kind)

  ghost predicate SomeSame(pair: Option<Pair>) { pair.Some? && pair.value.Same() }

  ghost predicate BothLegal(answers: Pair, seen: Evidence) {
    && seen.shape.Some? && seen.full.Some?
    && Legal(answers.mysql, seen.full.value, seen.shape.value)
    && Legal(answers.pintail, seen.full.value, seen.shape.value)
  }

  /** No check accounts for the difference. */
  ghost predicate Unexplained(answers: Pair, seen: Evidence) {
    && !seen.members.Same() && !SomeSame(seen.uncut) && !BothLegal(answers, seen)
    && !SomeSame(seen.tiebroken) && !SomeSame(seen.folded)
  }

  /** `explain`: two answers are called different exactly when every check
      fails, and a reason is given exactly when its check is the first to hold;
      the LIMIT is blamed only when both are legal readings of it. */
  method Explain(answers: Pair, seen: Evidence) returns (verdict: Verdict)
    ensures verdict.Different? <==> Unexplained(answers, seen)
    ensures verdict == Different(Order) <==> Unexplained(answers, seen) && answers.Same()
    ensures verdict == Different(CutShort) <==>
      Unexplained(answers, seen) && !answers.Same() && answers.DrawnFrom(seen.unlimited)
    ensures verdict == NotComparable(MembersUnordered) <==> seen.members.Same()
    ensures verdict == NotComparable(MembersCut) <==> !seen.members.Same() && SomeSame(seen.uncut)
    ensures verdict == NotComparable(LimitTies) <==>
      !seen.members.Same() && !SomeSame(seen.uncut) && BothLegal(answers, seen)
    ensures verdict == NotComparable(WindowTies) <==>
      !seen.members.Same() && !SomeSame(seen.uncut) && !BothLegal(answers, seen) && SomeSame(seen.tiebroken)
    ensures verdict == NotComparable(Spelling) <==>
      && !seen.members.Same() && !SomeSame(seen.uncut) && !BothLegal(answers, seen)
      && !SomeSame(seen.tiebroken) && SomeSame(seen.folded)
  {
    if BagEqual(seen.members.mysql, seen.members.pintail) {
      return NotComparable(MembersUnordered);
    }
    if seen.uncut.Some? && BagEqual(seen.uncut.value.mysql, seen.uncut.value.pintail) {
      return NotComparable(MembersCut);
    }
    var ordering := OrderOf(seen.shape, seen.full, answers.mysql, answers.pintail);
    if ordering == Checked {
      return NotComparable(LimitTies);
    }
    if seen.tiebroken.Some? && BagEqual(seen.tiebroken.value.mysql, seen.tiebroken.value.pintail) {
      return NotComparable(WindowTies);
    }
    if seen.folded.Some? && BagEqual(seen.folded.value.mysql, seen.folded.value.pintail) {
      return NotComparable(Spelling);
    }
    var kind := Classify(answers.mysql, answers.pintail, seen.unlimited);
    return Different(kind);
  }
}
