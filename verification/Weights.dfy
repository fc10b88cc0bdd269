/**
 The collation weight tables. Every code point of the basic plane weighs a
 sequence of weights; the extractor splits that map into four tables, and the
 collation looks a code point up in them.
 */
module Weights {
  import opened Options

  datatype Result<+T> = Ok(value: T) | Missing(point: nat)

  type Parts = seq<nat>

  datatype Single = Single(point: nat, weight: nat)
  datatype Several = Several(point: nat, offset: nat, count: nat)
  datatype Span = Span(first: nat, last: nat, base: int)
  datatype Tables = Tables(singles: seq<Single>, several: seq<Several>, arena: seq<nat>, implicit: seq<Span>)

  const POINTS := 0x10000

  predicate Surrogate(point: nat) { 0xd800 <= point <= 0xdfff }

  /** The second weight the implicit rule derives from a code point. */
  function Low(point: nat): nat { point % 0x8000 + 0x8000 }

  /** The base of a code point that weighs by the implicit rule. */
  function ImplicitBase(point: nat, parts: Parts): Option<int> {
    if |parts| == 2 && parts[1] == Low(point) then Some(parts[0] - point / 0x8000) else None
  }

  /** What the implicit rule makes of a base. */
  function Derived(point: nat, base: int): seq<int> { [base + point / 0x8000, Low(point)] }

  /** The implicit rule spells the code point: its bits above the fifteenth
      beside the base, and the low fifteen under a set top bit. The base is
      read off exactly the weights the rule makes of it. */
  lemma DerivedSpells(point: nat, base: int, parts: Parts)
    ensures var d := Derived(point, base);
      && 0x8000 * (d[0] - base) + (d[1] - 0x8000) == point && 0x8000 <= d[1] < 0x10000
      && (ImplicitBase(point, parts) == Some(base) <==> |parts| == 2 && parts[0] == d[0] && parts[1] == d[1])
  {
  }

  // ---------------------------------------------------------------------
  // What the tables hold
  // ---------------------------------------------------------------------

  type Map = map<nat, Parts>

  /** Every code point below `n` has a weight. */
  predicate Defined(weights: Map, n: nat) {
    forall p {:trigger p in weights} :: 0 <= p < n && !Surrogate(p) ==> p in weights
  }

  /** A code point below `n` and its own weight. */
  predicate SingleOk(s: Single, weights: Map, n: nat) {
    s.point < n && !Surrogate(s.point) && s.point in weights && weights[s.point] == [s.weight]
  }

  ghost predicate SinglesOk(singles: seq<Single>, weights: Map, n: nat) {
    && (forall i :: 0 <= i < |singles| ==> SingleOk(singles[i], weights, n))
    && (forall i, j :: 0 <= i < j < |singles| ==> singles[i].point < singles[j].point)
  }

  /** A code point below `n`, of none or several weights and no implicit ones,
      with the slice of the arena that holds them. */
  predicate SeveralOk(s: Several, arena: seq<nat>, weights: Map, n: nat) {
    && s.point < n && !Surrogate(s.point) && s.point in weights
    && |weights[s.point]| != 1 && ImplicitBase(s.point, weights[s.point]).None?
    && s.offset + s.count <= |arena| && arena[s.offset..s.offset + s.count] == weights[s.point]
  }

  ghost predicate SeveralAllOk(several: seq<Several>, arena: seq<nat>, weights: Map, n: nat) {
    && (forall i :: 0 <= i < |several| ==> SeveralOk(several[i], arena, weights, n))
    && (forall i, j :: 0 <= i < j < |several| ==> several[i].point < several[j].point)
  }

  /** Where a slice starts, and for the one past the last, where they end. */
  function Start(several: seq<Several>, end: nat, i: nat): nat {
    if i < |several| then several[i].offset else end
  }

  /** The slices lie back to back and fill the arena. */
  ghost predicate Tiles(several: seq<Several>, end: nat) {
    Start(several, end, 0) == 0 && forall i :: 0 <= i < |several| ==> Meets(several, end, i)
  }

  /** A slice ends where the next one starts. */
  ghost predicate Meets(several: seq<Several>, end: nat, i: nat)
    requires i < |several|
  {
    several[i].offset + several[i].count == Start(several, end, i + 1)
  }

  predicate PointImplied(point: nat, base: int, weights: Map) {
    !Surrogate(point) && point in weights && ImplicitBase(point, weights[point]) == Some(base)
  }

  ghost predicate SpanOk(s: Span, weights: Map, n: nat) {
    s.first <= s.last < n && forall p :: s.first <= p <= s.last ==> PointImplied(p, s.base, weights)
  }

  /** Ranges in order, apart, and no two that could be one. */
  ghost predicate SpansOk(spans: seq<Span>, weights: Map, n: nat) {
    && (forall i :: 0 <= i < |spans| ==> SpanOk(spans[i], weights, n))
    && (forall i, j :: 0 <= i < j < |spans| ==> spans[i].last < spans[j].first)
    && (forall i :: 0 < i < |spans| ==> spans[i - 1].last + 1 == spans[i].first ==> spans[i - 1].base != spans[i].base)
  }

  /** The code point is in one of the tables. */
  ghost predicate Held(t: Tables, point: nat) {
    || (exists i :: 0 <= i < |t.singles| && t.singles[i].point == point)
    || (exists i :: 0 <= i < |t.several| && t.several[i].point == point)
    || (exists i :: 0 <= i < |t.implicit| && t.implicit[i].first <= point <= t.implicit[i].last)
  }

  ghost predicate Built(t: Tables, weights: Map, n: nat) {
    && SinglesOk(t.singles, weights, n)
    && SeveralAllOk(t.several, t.arena, weights, n) && Tiles(t.several, |t.arena|)
    && SpansOk(t.implicit, weights, n)
    && AllHeld(t, n)
    && Offsets(t.several, |t.arena|, weights, n)
  }

  predicate IsSeveral(weights: Map, point: nat) {
    !Surrogate(point) && point in weights && |weights[point]| != 1 && ImplicitBase(point, weights[point]).None?
  }

  /** How many weights the code points below `n` put in the arena. */
  function LengthBefore(weights: Map, n: nat): nat
  {
    if n == 0 then 0
    else if IsSeveral(weights, n - 1) then LengthBefore(weights, n - 1) + |weights[n - 1]|
    else LengthBefore(weights, n - 1)
  }

  ghost predicate Offsets(several: seq<Several>, end: nat, weights: Map, n: nat) {
    && end == LengthBefore(weights, n)
    && forall i :: 0 <= i < |several| ==> several[i].offset == LengthBefore(weights, several[i].point)
  }

  ghost predicate AllHeld(t: Tables, n: nat) {
    forall p {:trigger Held(t, p)} :: 0 <= p < n && !Surrogate(p) ==> Held(t, p)
  }

  // ---------------------------------------------------------------------
  // Building them
  // ---------------------------------------------------------------------

  function AddSingle(t: Tables, point: nat, weight: nat): Tables {
    t.(singles := t.singles + [Single(point, weight)])
  }

  function AddSeveral(t: Tables, point: nat, parts: Parts): Tables {
    t.(several := t.several + [Several(point, |t.arena|, |parts|)], arena := t.arena + parts)
  }

  function AddImplicit(t: Tables, point: nat, base: int): Tables {
    var n := |t.implicit|;
    if n > 0 && t.implicit[n - 1].base == base && t.implicit[n - 1].last == point - 1
    then t.(implicit := t.implicit[n - 1 := Span(t.implicit[n - 1].first, point, base)])
    else t.(implicit := t.implicit + [Span(point, point, base)])
  }

  function AddPoint(t: Tables, point: nat, parts: Parts): Tables {
    var base := ImplicitBase(point, parts);
    if base.Some? then AddImplicit(t, point, base.value)
    else if |parts| == 1 then AddSingle(t, point, parts[0])
    else AddSeveral(t, point, parts)
  }

  // What one table keeps, and what adding to it does.

  lemma SinglesStay(singles: seq<Single>, weights: Map, n: nat)
    requires SinglesOk(singles, weights, n)
    ensures SinglesOk(singles, weights, n + 1)
  {
    forall i | 0 <= i < |singles| ensures SingleOk(singles[i], weights, n + 1) {
      assert SingleOk(singles[i], weights, n);
    }
  }

  lemma SinglesGrow(singles: seq<Single>, weights: Map, n: nat, s: Single)
    requires SinglesOk(singles, weights, n) && s.point == n && SingleOk(s, weights, n + 1)
    ensures SinglesOk(singles + [s], weights, n + 1)
  {
    SinglesStay(singles, weights, n);
    forall i | 0 <= i < |singles| ensures singles[i].point < n {
      assert SingleOk(singles[i], weights, n);
    }
  }

  lemma SeveralStay(several: seq<Several>, arena: seq<nat>, more: seq<nat>, weights: Map, n: nat)
    requires SeveralAllOk(several, arena, weights, n)
    ensures SeveralAllOk(several, arena + more, weights, n + 1)
  {
    forall i | 0 <= i < |several| ensures SeveralOk(several[i], arena + more, weights, n + 1) {
      var s := several[i];
      assert SeveralOk(s, arena, weights, n);
      assert (arena + more)[s.offset..s.offset + s.count] == arena[s.offset..s.offset + s.count];
    }
  }

  lemma SeveralGrow(several: seq<Several>, arena: seq<nat>, weights: Map, n: nat, s: Several)
    requires SeveralAllOk(several, arena, weights, n) && !Surrogate(n) && n in weights
    requires |weights[n]| != 1 && ImplicitBase(n, weights[n]).None?
    requires s == Several(n, |arena|, |weights[n]|)
    ensures SeveralAllOk(several + [s], arena + weights[n], weights, n + 1)
  {
    SeveralStay(several, arena, weights[n], weights, n);
    assert SeveralOk(s, arena + weights[n], weights, n + 1);
    forall i | 0 <= i < |several| ensures several[i].point < n {
      assert SeveralOk(several[i], arena, weights, n);
    }
  }

  lemma TilesGrow(several: seq<Several>, end: nat, s: Several)
    requires Tiles(several, end) && s.offset == end
    ensures Tiles(several + [s], end + s.count)
  {
    var all, total := several + [s], end + s.count;
    forall i | 0 <= i < |all| ensures Meets(all, total, i) {
      assert i < |several| ==> Meets(several, end, i);
    }
  }

  lemma SpansStay(spans: seq<Span>, weights: Map, n: nat)
    requires SpansOk(spans, weights, n)
    ensures SpansOk(spans, weights, n + 1)
  {
    forall i | 0 <= i < |spans| ensures SpanOk(spans[i], weights, n + 1) {
      assert SpanOk(spans[i], weights, n);
    }
  }

  /** Another code point of the last range. */
  lemma SpansExtend(spans: seq<Span>, weights: Map, n: nat, base: int)
    requires SpansOk(spans, weights, n) && PointImplied(n, base, weights)
    requires spans != [] && spans[|spans| - 1].base == base && spans[|spans| - 1].last == n - 1
    ensures SpansOk(spans[|spans| - 1 := Span(spans[|spans| - 1].first, n, base)], weights, n + 1)
  {
    SpansStay(spans, weights, n);
    var k := |spans| - 1;
    var s := Span(spans[k].first, n, base);
    assert SpanOk(spans[k], weights, n);
    assert SpanOk(s, weights, n + 1);
  }

  /** A range of its own, which the last one could not take in. */
  lemma SpansGrow(spans: seq<Span>, weights: Map, n: nat, base: int)
    requires SpansOk(spans, weights, n) && PointImplied(n, base, weights)
    requires spans == [] || spans[|spans| - 1].base != base || spans[|spans| - 1].last != n - 1
    ensures SpansOk(spans + [Span(n, n, base)], weights, n + 1)
  {
    SpansStay(spans, weights, n);
    assert SpanOk(Span(n, n, base), weights, n + 1);
    forall i | 0 <= i < |spans| ensures spans[i].last < n {
      assert SpanOk(spans[i], weights, n);
    }
  }

  /** What was held still is. */
  lemma HeldStays(t: Tables, t': Tables, n: nat)
    requires t.singles <= t'.singles && t.several <= t'.several && t.implicit <= t'.implicit
    requires AllHeld(t, n) && (Surrogate(n) || Held(t', n))
    ensures AllHeld(t', n + 1)
  {
    forall p | 0 <= p < n && !Surrogate(p) ensures Held(t', p) {
      assert Held(t, p);
    }
  }

  lemma HeldByMore(t: Tables, t': Tables, n: nat, base: int)
    requires t.singles == t'.singles && t.several == t'.several && t.implicit != []
    requires var k := |t.implicit| - 1;
      && t.implicit[k].first <= t.implicit[k].last == n - 1
      && t'.implicit == t.implicit[k := Span(t.implicit[k].first, n, base)]
    requires AllHeld(t, n)
    ensures AllHeld(t', n + 1)
  {
    var k := |t.implicit| - 1;
    forall p | 0 <= p < n && !Surrogate(p) ensures Held(t', p) {
      assert Held(t, p);
      if i :| 0 <= i < |t.implicit| && t.implicit[i].first <= p <= t.implicit[i].last {
        assert t'.implicit[i].first <= p <= t'.implicit[i].last;
      }
    }
    assert t'.implicit[k].first <= n <= t'.implicit[k].last;
  }

  lemma AddSingleKeeps(t: Tables, weights: Map, n: nat)
    requires Built(t, weights, n) && !Surrogate(n) && n in weights && |weights[n]| == 1
    ensures Built(AddSingle(t, n, weights[n][0]), weights, n + 1)
  {
    var t' := AddSingle(t, n, weights[n][0]);
    SinglesGrow(t.singles, weights, n, Single(n, weights[n][0]));
    OthersStay(t, weights, n);
    SpansStay(t.implicit, weights, n);
    assert t'.singles[|t.singles|].point == n;
    HeldStays(t, t', n);
  }

  lemma AddSeveralKeeps(t: Tables, weights: Map, n: nat)
    requires Built(t, weights, n) && !Surrogate(n) && n in weights
    requires |weights[n]| != 1 && ImplicitBase(n, weights[n]).None?
    ensures Built(AddSeveral(t, n, weights[n]), weights, n + 1)
  {
    var t' := AddSeveral(t, n, weights[n]);
    var s := Several(n, |t.arena|, |weights[n]|);
    SinglesStay(t.singles, weights, n);
    SeveralGrow(t.several, t.arena, weights, n, s);
    TilesGrow(t.several, |t.arena|, s);
    SpansStay(t.implicit, weights, n);
    assert t'.several[|t.several|].point == n;
    HeldStays(t, t', n);
  }

  lemma AddImplicitKeeps(t: Tables, weights: Map, n: nat, base: int)
    requires Built(t, weights, n) && PointImplied(n, base, weights)
    ensures Built(AddImplicit(t, n, base), weights, n + 1)
  {
    OthersStay(t, weights, n);
    ImplicitKeeps(t, weights, n, base);
  }

  lemma OthersStay(t: Tables, weights: Map, n: nat)
    requires SinglesOk(t.singles, weights, n) && SeveralAllOk(t.several, t.arena, weights, n)
    ensures SinglesOk(t.singles, weights, n + 1) && SeveralAllOk(t.several, t.arena, weights, n + 1)
  {
    SinglesStay(t.singles, weights, n);
    SeveralStay(t.several, t.arena, [], weights, n);
    assert t.arena + [] == t.arena;
  }

  lemma ImplicitKeeps(t: Tables, weights: Map, n: nat, base: int)
    requires SpansOk(t.implicit, weights, n) && AllHeld(t, n) && PointImplied(n, base, weights)
    ensures SpansOk(AddImplicit(t, n, base).implicit, weights, n + 1) && AllHeld(AddImplicit(t, n, base), n + 1)
  {
    var t', k := AddImplicit(t, n, base), |t.implicit| - 1;
    if k >= 0 && t.implicit[k].base == base && t.implicit[k].last == n - 1 {
      SpansExtend(t.implicit, weights, n, base);
      assert SpanOk(t.implicit[k], weights, n);
      HeldByMore(t, t', n, base);
    } else {
      SpansGrow(t.implicit, weights, n, base);
      assert t'.implicit[k + 1].first <= n <= t'.implicit[k + 1].last;
      HeldStays(t, t', n);
    }
  }

  lemma SurrogateKeeps(t: Tables, weights: Map, n: nat)
    requires Built(t, weights, n) && Surrogate(n)
    ensures Built(t, weights, n + 1)
  {
    OthersStay(t, weights, n);
    SpansStay(t.implicit, weights, n);
    HeldStays(t, t, n);
  }

  lemma AddPointKeeps(t: Tables, weights: Map, n: nat)
    requires Built(t, weights, n) && !Surrogate(n) && n in weights
    ensures Built(AddPoint(t, n, weights[n]), weights, n + 1)
  {
    var base := ImplicitBase(n, weights[n]);
    if base.Some? {
      AddImplicitKeeps(t, weights, n, base.value);
    } else if |weights[n]| == 1 {
      AddSingleKeeps(t, weights, n);
    } else {
      AddSeveralKeeps(t, weights, n);
    }
  }

  lemma DefinedNext(weights: Map, n: nat)
    requires Defined(weights, n) && (Surrogate(n) || n in weights)
    ensures Defined(weights, n + 1)
  {
  }

  /** The tables of the code points below `n`. */
  function TablesOf(weights: Map, n: nat): Tables {
    if n == 0 then Tables([], [], [], [])
    else if Surrogate(n - 1) || n - 1 !in weights then TablesOf(weights, n - 1)
    else AddPoint(TablesOf(weights, n - 1), n - 1, weights[n - 1])
  }

  lemma {:induction false} TablesAreBuilt(weights: Map, n: nat) returns (t: Tables)
    requires Defined(weights, n)
    ensures t == TablesOf(weights, n) && Built(t, weights, n)
  {
    if n == 0 {
      t := Tables([], [], [], []);
      NoneBuilt(t, weights, n);
    } else {
      assert Surrogate(n - 1) || n - 1 in weights;
      var before := TablesAreBuilt(weights, n - 1);
      t := if Surrogate(n - 1) then before else AddPoint(before, n - 1, weights[n - 1]);
      assert t == TablesOf(weights, n);
      assert Built(t, weights, n) by {
        NextBuilt(before, t, weights, n - 1);
      }
    }
  }

  lemma NextBuilt(t: Tables, t': Tables, weights: Map, n: nat)
    requires Built(t, weights, n) && (Surrogate(n) || n in weights)
    requires t' == if Surrogate(n) then t else AddPoint(t, n, weights[n])
    ensures Built(t', weights, n + 1)
  {
    if Surrogate(n) {
      SurrogateKeeps(t, weights, n);
    } else {
      AddPointKeeps(t, weights, n);
    }
  }

  lemma NoneBuilt(t: Tables, weights: Map, n: nat)
    requires t == Tables([], [], [], []) && n == 0
    ensures Built(t, weights, n)
  {
  }

  /** The extractor's loop: the tables of every code point, or the first one
      that has no weight. */
  method Build(weights: Map) returns (result: Result<Tables>)
    ensures result.Ok? <==> Defined(weights, POINTS)
    ensures result.Ok? ==> Built(result.value, weights, POINTS)
    ensures result.Missing? ==>
      && result.point < POINTS && !Surrogate(result.point) && result.point !in weights
      && Defined(weights, result.point)
  {
    var t := Tables([], [], [], []);
    for point := 0 to POINTS
      invariant t == TablesOf(weights, point)
      invariant Defined(weights, point)
    {
      if !Surrogate(point) && point !in weights {
        return Missing(point);
      }
      if !Surrogate(point) {
        t := AddPoint(t, point, weights[point]);
      }
      DefinedNext(weights, point);
    }
    ghost var built := TablesAreBuilt(weights, POINTS);
    return Ok(t);
  }

  // ---------------------------------------------------------------------
  // Looking a code point up
  // ---------------------------------------------------------------------

  /** Binary search of a table sorted by code point. */
  method FindKey(keys: seq<nat>, point: nat) returns (found: Option<nat>)
    requires forall i, j :: 0 <= i < j < |keys| ==> keys[i] < keys[j]
    ensures found.Some? ==> found.value < |keys| && keys[found.value] == point
    ensures found.None? ==> point !in keys
  {
    var lo, hi := 0, |keys|;
    while lo < hi
      invariant 0 <= lo <= hi <= |keys|
      invariant forall i :: 0 <= i < lo ==> keys[i] < point
      invariant forall i :: hi <= i < |keys| ==> point < keys[i]
    {
      var mid := (lo + hi) / 2;
      if keys[mid] == point {
        return Some(mid);
      } else if keys[mid] < point {
        lo := mid + 1;
      } else {
        hi := mid;
      }
    }
    return None;
  }

  /** Binary search of ranges in order. */
  method FindSpan(spans: seq<Span>, point: nat) returns (found: Option<nat>)
    requires forall i :: 0 <= i < |spans| ==> spans[i].first <= spans[i].last
    requires forall i, j :: 0 <= i < j < |spans| ==> spans[i].last < spans[j].first
    ensures found.Some? ==> found.value < |spans| && spans[found.value].first <= point <= spans[found.value].last
    ensures found.None? ==> forall i :: 0 <= i < |spans| ==> !(spans[i].first <= point <= spans[i].last)
  {
    var lo, hi := 0, |spans|;
    while lo < hi
      invariant 0 <= lo <= hi <= |spans|
      invariant forall i :: 0 <= i < lo ==> spans[i].last < point
      invariant forall i :: hi <= i < |spans| ==> point < spans[i].first
    {
      var mid := (lo + hi) / 2;
      if point < spans[mid].first {
        hi := mid;
      } else if point > spans[mid].last {
        lo := mid + 1;
      } else {
        return Some(mid);
      }
    }
    return None;
  }

  /** The implicit base of a code point in no range. */
  const UNASSIGNED := 0xfbc0

  function SinglePoints(singles: seq<Single>): (points: seq<nat>)
    ensures |points| == |singles| && forall i :: 0 <= i < |singles| ==> points[i] == singles[i].point
  {
    seq(|singles|, i requires 0 <= i < |singles| => singles[i].point)
  }

  function SeveralPoints(several: seq<Several>): (points: seq<nat>)
    ensures |points| == |several| && forall i :: 0 <= i < |several| ==> points[i] == several[i].point
  {
    seq(|several|, i requires 0 <= i < |several| => several[i].point)
  }

  /** Every code point that can be asked for is in one of the tables. */
  lemma OnlySurrogatesMiss(t: Tables, weights: Map, point: nat)
    requires Built(t, weights, POINTS) && point < POINTS
    requires point !in SinglePoints(t.singles) && point !in SeveralPoints(t.several)
    requires forall i :: 0 <= i < |t.implicit| ==> !(t.implicit[i].first <= point <= t.implicit[i].last)
    ensures Surrogate(point)
  {
    var singles, several := SinglePoints(t.singles), SeveralPoints(t.several);
    assert forall i :: 0 <= i < |t.singles| ==> singles[i] != point;
    assert forall i :: 0 <= i < |t.several| ==> several[i] != point;
    assert !Held(t, point);
  }

  lemma ImpliedIsDerived(point: nat, base: int, weights: Map)
    requires PointImplied(point, base, weights)
    ensures weights[point] == Derived(point, base)
  {
  }

  method LookupImplicit(t: Tables, ghost weights: Map, point: nat) returns (found: seq<int>)
    requires Built(t, weights, POINTS) && point < POINTS
    requires point !in SinglePoints(t.singles) && point !in SeveralPoints(t.several)
    ensures !Surrogate(point) ==> point in weights && found == weights[point]
    ensures Surrogate(point) ==> found == Derived(point, UNASSIGNED)
  {
    assert forall i :: 0 <= i < |t.implicit| ==> SpanOk(t.implicit[i], weights, POINTS);
    var span := FindSpan(t.implicit, point);
    if span.Some? {
      assert PointImplied(point, t.implicit[span.value].base, weights);
      ImpliedIsDerived(point, t.implicit[span.value].base, weights);
    } else {
      OnlySurrogatesMiss(t, weights, point);
    }
    return Derived(point, if span.Some? then t.implicit[span.value].base else UNASSIGNED);
  }

  method LookupSeveral(t: Tables, ghost weights: Map, point: nat) returns (found: Option<seq<int>>)
    requires Built(t, weights, POINTS)
    ensures found.None? ==> point !in SeveralPoints(t.several)
    ensures found.Some? ==> !Surrogate(point) && point in weights && found.value == weights[point]
  {
    var several := FindKey(SeveralPoints(t.several), point);
    if several.None? {
      return None;
    }
    var s := t.several[several.value];
    assert SeveralOk(s, t.arena, weights, POINTS);
    return Some(t.arena[s.offset..s.offset + s.count]);
  }

  method LookupSingle(t: Tables, ghost weights: Map, point: nat) returns (found: Option<seq<int>>)
    requires Built(t, weights, POINTS)
    ensures found.None? ==> point !in SinglePoints(t.singles)
    ensures found.Some? ==> !Surrogate(point) && point in weights && found.value == weights[point]
  {
    var single := FindKey(SinglePoints(t.singles), point);
    if single.None? {
      return None;
    }
    assert SingleOk(t.singles[single.value], weights, POINTS);
    return Some([t.singles[single.value].weight]);
  }

  /** The collation's lookup gives back the weights the tables were built from. */
  method Lookup(t: Tables, ghost weights: Map, point: nat) returns (found: seq<int>)
    requires Built(t, weights, POINTS)
    ensures point >= POINTS ==> found == [0xfffd]
    ensures point < POINTS && !Surrogate(point) ==> point in weights && found == weights[point]
    ensures Surrogate(point) ==> found == Derived(point, UNASSIGNED)
  {
    if point >= POINTS {
      return [0xfffd];
    }
    var tabulated := LookupSingle(t, weights, point);
    if tabulated.None? {
      tabulated := LookupSeveral(t, weights, point);
    }
    if tabulated.Some? {
      return tabulated.value;
    }
    found := LookupImplicit(t, weights, point);
  }

  // ---------------------------------------------------------------------
  // Sixteen bits
  // ---------------------------------------------------------------------

  predicate Short(n: int) { 0 <= n < 0x10000 }

  /** Every weight a server gives has sixteen bits. */
  ghost predicate ShortWeights(weights: Map) {
    forall p, i :: p in weights && 0 <= i < |weights[p]| ==> Short(weights[p][i])
  }

  /** Every number of the tables can be written in the sixteen bits they have. */
  ghost predicate Fits(t: Tables) {
    && (forall i :: 0 <= i < |t.singles| ==> Short(t.singles[i].point) && Short(t.singles[i].weight))
    && (forall i :: 0 <= i < |t.several| ==>
      Short(t.several[i].point) && Short(t.several[i].offset) && Short(t.several[i].count))
    && (forall i :: 0 <= i < |t.arena| ==> Short(t.arena[i]))
    && (forall i :: 0 <= i < |t.implicit| ==>
      Short(t.implicit[i].first) && Short(t.implicit[i].last) && Short(t.implicit[i].base))
  }

  /** A code point whose table entry can: no implicit base falls below zero, and
      where its weights start in the arena and how many they are have sixteen bits. */
  predicate PointFits(weights: Map, p: nat) {
    && (p in weights && !Surrogate(p) && ImplicitBase(p, weights[p]).Some? ==> weights[p][0] >= p / 0x8000)
    && (IsSeveral(weights, p) ==> Short(LengthBefore(weights, p)) && Short(|weights[p]|))
  }

  lemma EntryFits(t: Tables, weights: Map, p: nat)
    requires Built(t, weights, POINTS) && Fits(t) && p < POINTS && !Surrogate(p)
    ensures PointFits(weights, p)
  {
    assert Held(t, p);
    if i :| 0 <= i < |t.singles| && t.singles[i].point == p {
      assert SingleOk(t.singles[i], weights, POINTS);
    } else if i :| 0 <= i < |t.several| && t.several[i].point == p {
      assert SeveralOk(t.several[i], t.arena, weights, POINTS);
    } else {
      var i :| 0 <= i < |t.implicit| && t.implicit[i].first <= p <= t.implicit[i].last;
      assert SpanOk(t.implicit[i], weights, POINTS);
      assert PointImplied(p, t.implicit[i].base, weights);
    }
  }

  /** The slice of the arena that holds a weight. */
  lemma {:induction false} SliceOf(several: seq<Several>, end: nat, at: nat, n: nat) returns (i: nat)
    requires Tiles(several, end) && n <= |several| && at < Start(several, end, n)
    ensures i < |several| && several[i].offset <= at < several[i].offset + several[i].count
    decreases n
  {
    assert n > 0 && Meets(several, end, n - 1);
    if several[n - 1].offset <= at {
      i := n - 1;
    } else {
      i := SliceOf(several, end, at, n - 1);
    }
  }

  lemma ArenaFits(t: Tables, weights: Map, at: nat)
    requires Built(t, weights, POINTS) && ShortWeights(weights) && at < |t.arena|
    ensures Short(t.arena[at])
  {
    var i := SliceOf(t.several, |t.arena|, at, |t.several|);
    var s := t.several[i];
    assert SeveralOk(s, t.arena, weights, POINTS);
    assert t.arena[s.offset..s.offset + s.count][at - s.offset] == t.arena[at];
    assert Short(weights[s.point][at - s.offset]);
  }

  lemma PointsFit(t: Tables, weights: Map)
    requires Built(t, weights, POINTS) && ShortWeights(weights)
    requires forall p :: 0 <= p < POINTS && !Surrogate(p) ==> PointFits(weights, p)
    ensures Fits(t)
  {
    forall i | 0 <= i < |t.singles| ensures Short(t.singles[i].point) && Short(t.singles[i].weight) {
      assert SingleOk(t.singles[i], weights, POINTS);
      assert weights[t.singles[i].point][0] == t.singles[i].weight;
    }
    forall i | 0 <= i < |t.several|
      ensures Short(t.several[i].point) && Short(t.several[i].offset) && Short(t.several[i].count)
    {
      assert SeveralOk(t.several[i], t.arena, weights, POINTS);
      assert PointFits(weights, t.several[i].point);
    }
    forall i | 0 <= i < |t.arena| ensures Short(t.arena[i]) {
      ArenaFits(t, weights, i);
    }
    forall i | 0 <= i < |t.implicit|
      ensures Short(t.implicit[i].first) && Short(t.implicit[i].last) && Short(t.implicit[i].base)
    {
      assert SpanOk(t.implicit[i], weights, POINTS);
      var p := t.implicit[i].first;
      assert PointImplied(p, t.implicit[i].base, weights);
      assert PointFits(weights, p);
      assert Short(weights[p][0]);
    }
  }

  /** The tables can be written as they are declared if and only if every code
      point's entry can. */
  lemma TablesFitIff(t: Tables, weights: Map)
    requires Built(t, weights, POINTS) && ShortWeights(weights)
    ensures Fits(t) <==> forall p :: 0 <= p < POINTS && !Surrogate(p) ==> PointFits(weights, p)
  {
    if Fits(t) {
      forall p | 0 <= p < POINTS && !Surrogate(p) ensures PointFits(weights, p) {
        EntryFits(t, weights, p);
      }
    }
    if forall p :: 0 <= p < POINTS && !Surrogate(p) ==> PointFits(weights, p) {
      PointsFit(t, weights);
    }
  }

  /** One weight for every code point but U+8000, which weighs by the implicit
      rule from a first weight of zero. */
  function ZeroFirst(): Map {
    map p: nat | 0 <= p < POINTS && !Surrogate(p) :: if p == 0x8000 then [0, 0x8000] else [1]
  }

  /** Weights of sixteen bits whose tables do not fit them: U+8000 has the base -1. */
  lemma NegativeBase(weights: Map) returns (t: Tables)
    requires weights == ZeroFirst()
    ensures ShortWeights(weights) && Built(t, weights, POINTS) && !Fits(t)
  {
    t := TablesAreBuilt(weights, POINTS);
    assert 0x8000 in weights && ImplicitBase(0x8000, weights[0x8000]) == Some(-1);
    assert !PointFits(weights, 0x8000);
    TablesFitIff(t, weights);
  }

  /** Two weights for every code point, none of them implicit. */
  function TwoEach(): Map {
    map p: nat | 0 <= p < POINTS && !Surrogate(p) :: [1, 1]
  }

  lemma {:induction false} TwoEachLength(weights: Map, n: nat)
    requires weights == TwoEach() && n <= 0xd800
    ensures LengthBefore(weights, n) == 2 * n
  {
    if n == 0 {
    } else {
      TwoEachLength(weights, n - 1);
      assert n - 1 in weights && weights[n - 1] == [1, 1];
    }
  }

  /** Weights of sixteen bits whose arena outgrows its offsets: with two weights
      for every code point, those of U+8000 start at 0x10000. */
  lemma LongArena(weights: Map) returns (t: Tables)
    requires weights == TwoEach()
    ensures ShortWeights(weights) && Built(t, weights, POINTS) && !Fits(t)
  {
    t := TablesAreBuilt(weights, POINTS);
    TwoEachLength(weights, 0x8000);
    assert 0x8000 in weights && IsSeveral(weights, 0x8000);
    assert !PointFits(weights, 0x8000);
    TablesFitIff(t, weights);
  }

  // ---------------------------------------------------------------------
  // One table each
  // ---------------------------------------------------------------------

  /** The entries of the tables that take a code point: one of them, of one table. */
  lemma OneTable(t: Tables, weights: Map, p: nat, i: nat, j: nat, k: nat)
    requires Built(t, weights, POINTS)
    ensures i < |t.singles| && j < |t.several| && t.singles[i].point == p ==> t.several[j].point != p
    ensures i < |t.singles| && k < |t.implicit| && t.singles[i].point == p ==>
      !(t.implicit[k].first <= p <= t.implicit[k].last)
    ensures j < |t.several| && k < |t.implicit| && t.several[j].point == p ==>
      !(t.implicit[k].first <= p <= t.implicit[k].last)
  {
    assert i < |t.singles| ==> SingleOk(t.singles[i], weights, POINTS);
    assert j < |t.several| ==> SeveralOk(t.several[j], t.arena, weights, POINTS);
    assert k < |t.implicit| ==> SpanOk(t.implicit[k], weights, POINTS);
    assert k < |t.implicit| && t.implicit[k].first <= p <= t.implicit[k].last ==>
      PointImplied(p, t.implicit[k].base, weights);
  }

  /** No range spans the surrogates. */
  lemma NoRangeSpansTheGap(t: Tables, weights: Map, k: nat)
    requires Built(t, weights, POINTS) && k < |t.implicit|
    ensures t.implicit[k].last < 0xd800 || t.implicit[k].first > 0xdfff
  {
    var span := t.implicit[k];
    assert SpanOk(span, weights, POINTS);
    assert PointImplied(span.first, span.base, weights) && PointImplied(span.last, span.base, weights);
    assert span.first <= 0xd800 <= span.last ==> PointImplied(0xd800, span.base, weights);
  }
}
