/**
 Which windows the rewrite changes and what it writes, told by positions in the
 statement: a window changes exactly when it closes and has neither an order nor
 a frame, or has an order none of whose keys is `id`.
 */
module TiebreakWhich {
  import opened SqlScan
  import opened Tiebreak

  // ---------------------------------------------------------------------
  // Trimming
  // ---------------------------------------------------------------------

  ghost predicate Blank(text: string, from: nat, end: nat) {
    end <= |text| && forall k :: from <= k < end ==> Space(text[k])
  }

  lemma {:induction false} TrimStartAt(text: string, p: nat)
    requires p <= |text| && Blank(text, 0, p) && (p < |text| ==> !Space(text[p]))
    ensures TrimStart(text) == text[p..]
  {
    if p == 0 {
    } else {
      assert Blank(text[1..], 0, p - 1);
      TrimStartAt(text[1..], p - 1);
    }
  }

  lemma {:induction false} TrimEndAt(text: string, q: nat)
    requires q <= |text| && Blank(text, q, |text|) && (q > 0 ==> !Space(text[q - 1]))
    ensures TrimEnd(text) == text[..q]
  {
    if q == |text| {
    } else {
      var less := text[..|text| - 1];
      assert Blank(less, q, |less|);
      TrimEndAt(less, q);
      assert less[..q] == text[..q];
    }
  }

  lemma {:induction false} StartOf(text: string) returns (p: nat)
    ensures p <= |text| && Blank(text, 0, p) && (p < |text| ==> !Space(text[p]))
  {
    if text == [] || !Space(text[0]) {
      p := 0;
    } else {
      p := StartOf(text[1..]);
      p := p + 1;
      assert forall k :: 1 <= k < p ==> text[k] == text[1..][k - 1];
    }
  }

  lemma {:induction false} EndOf(text: string) returns (q: nat)
    ensures q <= |text| && Blank(text, q, |text|) && (q > 0 ==> !Space(text[q - 1]))
  {
    if text == [] || !Space(text[|text| - 1]) {
      q := |text|;
    } else {
      var less := text[..|text| - 1];
      q := EndOf(less);
      assert forall k :: q <= k < |less| ==> text[k] == less[k];
    }
  }

  // ---------------------------------------------------------------------
  // A sort key that is `id`
  // ---------------------------------------------------------------------

  /** The upper-case word, in any letter case, from `from` up to `end`. */
  ghost predicate Reads(text: string, from: nat, end: nat, upper: string) {
    from + |upper| == end <= |text| && forall i :: 0 <= i < |upper| ==> Spells(text[from + i], upper[i])
  }

  /** `id` at `p`, then a direction from `q` up to `e` or none, and only space
      around them. */
  ghost predicate IdAt(key: string, p: nat, q: nat, e: nat) {
    && p + 2 <= q <= e <= |key|
    && Blank(key, 0, p) && Reads(key, p, p + 2, "ID") && Blank(key, p + 2, q)
    && (e == q || Reads(key, q, e, "ASC") || Reads(key, q, e, "DESC"))
    && Blank(key, e, |key|)
  }

  ghost predicate IdText(key: string) {
    exists p: nat, q: nat, e: nat :: IdAt(key, p, q, e)
  }

  lemma IsReads(text: string, from: nat, end: nat, upper: string)
    requires from <= end <= |text|
    ensures Is(text[from..end], upper) <==> Reads(text, from, end, upper)
  {
    var word := text[from..end];
    assert forall k :: 0 <= k < |word| ==> word[k] == text[from + k];
    if Is(word, upper) {
      forall i | 0 <= i < |upper|
        ensures Spells(text[from + i], upper[i])
      {
        assert Spells(word[0 + i], upper[i]);
      }
    }
  }

  /** What is left of a key once `id` is found at `p` and the end at `end`. */
  lemma AfterId(key: string, p: nat, end: nat)
    requires p + 2 <= end <= |key| && Trim(key) == key[p..end] && Reads(key, p, p + 2, "ID")
    ensures IsId(key) <==>
      var rest := TrimStart(key[p + 2..end]); rest == [] || Is(rest, "ASC") || Is(rest, "DESC")
  {
    var text := key[p..end];
    assert text[0] == key[p + 0] && text[1] == key[p + 1];
    assert text[2..] == key[p + 2..end];
    assert "ID"[0] == 'I' && "ID"[1] == 'D';
  }

  lemma TrimIs(key: string, p: nat, end: nat)
    requires p < end <= |key| && Blank(key, 0, p) && Blank(key, end, |key|)
    requires !Space(key[p]) && !Space(key[end - 1])
    ensures Trim(key) == key[p..end]
  {
    TrimStartAt(key, p);
    var text := key[p..];
    assert Blank(text, end - p, |text|);
    TrimEndAt(text, end - p);
  }

  lemma LetterIsNoSpace(text: string, from: nat, end: nat, upper: string, i: nat)
    requires Reads(text, from, end, upper) && i < |upper| && 'A' <= upper[i] <= 'Z'
    ensures !Space(text[from + i])
  {
    assert Spells(text[from + i], upper[i]);
  }

  lemma IdAtIsId(key: string, p: nat, q: nat, e: nat)
    requires IdAt(key, p, q, e)
    ensures IsId(key)
  {
    LetterIsNoSpace(key, p, p + 2, "ID", 0);
    LetterIsNoSpace(key, p, p + 2, "ID", 1);
    if e == q {
      assert Blank(key, p + 2, |key|);
      TrimIs(key, p, p + 2);
      AfterId(key, p, p + 2);
      assert key[p + 2..p + 2] == [];
    } else {
      var word := if Reads(key, q, e, "ASC") then "ASC" else "DESC";
      LetterIsNoSpace(key, q, e, word, 0);
      LetterIsNoSpace(key, q, e, word, |word| - 1);
      TrimIs(key, p, e);
      AfterId(key, p, e);
      var rest := key[p + 2..e];
      assert Blank(rest, 0, q - p - 2);
      TrimStartAt(rest, q - p - 2);
      assert rest[q - p - 2..] == key[q..e];
      IsReads(key, q, e, word);
    }
  }

  lemma IsIdHasText(key: string)
    requires IsId(key)
    ensures IdText(key)
  {
    var p, end := Trimmed(key);
    var text := key[p..end];
    assert text == Trim(key);
    assert Reads(key, p, p + 2, "ID") by {
      assert key[p + 0] == text[0] && key[p + 1] == text[1];
    }
    AfterId(key, p, end);
    var q := RestStarts(key, p + 2, end);
    IsReads(key, q, end, "ASC");
    IsReads(key, q, end, "DESC");
    assert IdAt(key, p, q, end);
  }

  /** Where the text without its outer spaces lies. */
  lemma Trimmed(key: string) returns (p: nat, end: nat)
    ensures p <= end <= |key| && Blank(key, 0, p) && Blank(key, end, |key|) && Trim(key) == key[p..end]
  {
    p := StartOf(key);
    TrimStartAt(key, p);
    var tail := key[p..];
    var n := EndOf(tail);
    TrimEndAt(tail, n);
    end := p + n;
    assert forall k :: end <= k < |key| ==> key[k] == tail[k - p];
  }

  lemma RestStarts(key: string, from: nat, end: nat) returns (q: nat)
    requires from <= end <= |key|
    ensures from <= q <= end && Blank(key, from, q) && TrimStart(key[from..end]) == key[q..end]
  {
    var rest := key[from..end];
    var r := StartOf(rest);
    TrimStartAt(rest, r);
    q := from + r;
    assert rest[r..] == key[q..end];
    assert forall k :: from <= k < q ==> key[k] == rest[k - from];
  }

  lemma IsIdIff(key: string)
    ensures IsId(key) <==> IdText(key)
  {
    if IsId(key) {
      IsIdHasText(key);
    }
    if IdText(key) {
      var p: nat, q: nat, e: nat :| IdAt(key, p, q, e);
      IdAtIsId(key, p, q, e);
    }
  }

  // ---------------------------------------------------------------------
  // Sort keys one of which is `id`
  // ---------------------------------------------------------------------

  /** From `a` up to `b` lies one of the keys that commas separate between
      `from` and `end`. */
  ghost predicate KeyAt(text: string, from: nat, end: nat, a: nat, b: nat) {
    && from <= a <= b <= end <= |text|
    && (a == from || text[a - 1] == ',') && (b == end || text[b] == ',')
    && forall k :: a <= k < b ==> text[k] != ','
  }

  /** Some key between `from` and `end` is `id`. */
  ghost predicate SomeKeyIsId(text: string, from: nat, end: nat) {
    exists a: nat, b: nat :: KeyAt(text, from, end, a, b) && IdText(text[a..b])
  }

  lemma {:induction false} CommaIsFirst(keys: string)
    ensures var c := Comma(keys);
      && (c < |keys| ==> keys[c] == ',') && forall k :: 0 <= k < c ==> keys[k] != ','
  {
    if keys == [] || keys[0] == ',' {
    } else {
      CommaIsFirst(keys[1..]);
      assert forall k :: 1 <= k < |keys| ==> keys[k] == keys[1..][k - 1];
    }
  }

  /** The first key ends at the first comma. */
  lemma FirstKey(text: string, from: nat, end: nat, keys: string, c: nat)
    requires from <= end <= |text| && keys == text[from..end] && c == Comma(keys)
    ensures KeyAt(text, from, end, from, from + c)
    ensures keys[..c] == text[from..from + c]
    ensures c < |keys| ==> keys[c + 1..] == text[from + c + 1..end]
  {
    CommaIsFirst(keys);
    assert forall k :: from <= k < end ==> text[k] == keys[k - from];
  }

  /** The keys are the first one and those after its comma. */
  lemma LaterKeys(text: string, from: nat, b: nat, end: nat, a: nat, e: nat)
    requires KeyAt(text, from, end, from, b)
    ensures KeyAt(text, from, end, a, e) <==> (a == from && e == b) || (b < end && KeyAt(text, b + 1, end, a, e))
  {
    if KeyAt(text, from, end, a, e) {
      assert a != from ==> a > b;
    }
  }

  /** One of the keys, looked for from the front. */
  ghost predicate Among(key: string, keys: string) {
    var c := Comma(keys);
    key == keys[..c] || (c < |keys| && Among(key, keys[c + 1..]))
  }

  lemma {:induction false} AmongIff(key: string, keys: string)
    ensures Among(key, keys) <==> key in Keys(keys)
  {
    var c := Comma(keys);
    if c < |keys| {
      AmongIff(key, keys[c + 1..]);
    }
  }

  /** The keys are the stretches between commas. */
  lemma {:induction false} KeyIsStretch(text: string, from: nat, end: nat, keys: string, key: string)
    returns (a: nat, b: nat)
    requires from <= end <= |text| && keys == text[from..end] && Among(key, keys)
    ensures KeyAt(text, from, end, a, b) && key == text[a..b]
    decreases end - from
  {
    var c := Comma(keys);
    FirstKey(text, from, end, keys, c);
    if key == keys[..c] {
      a, b := from, from + c;
    } else {
      a, b := KeyIsStretch(text, from + c + 1, end, keys[c + 1..], key);
      LaterKeys(text, from, from + c, end, a, b);
    }
  }

  lemma {:induction false} StretchIsKey(text: string, from: nat, end: nat, keys: string, a: nat, b: nat, key: string)
    requires KeyAt(text, from, end, a, b) && keys == text[from..end] && key == text[a..b]
    ensures Among(key, keys)
    decreases end - from
  {
    var c := Comma(keys);
    FirstKey(text, from, end, keys, c);
    LaterKeys(text, from, from + c, end, a, b);
    if a != from || b != from + c {
      StretchIsKey(text, from + c + 1, end, keys[c + 1..], a, b, key);
    }
  }

  lemma NamesIdIff(text: string, from: nat, end: nat)
    requires from <= end <= |text|
    ensures NamesId(text[from..end]) <==> SomeKeyIsId(text, from, end)
  {
    if NamesId(text[from..end]) {
      var key :| key in Keys(text[from..end]) && IsId(key);
      AmongIff(key, text[from..end]);
      var a, b := KeyIsStretch(text, from, end, text[from..end], key);
      IsIdIff(key);
    }
    if SomeKeyIsId(text, from, end) {
      var a: nat, b: nat :| KeyAt(text, from, end, a, b) && IdText(text[a..b]);
      StretchIsKey(text, from, end, text[from..end], a, b, text[a..b]);
      AmongIff(text[a..b], text[from..end]);
      IsIdIff(text[a..b]);
    }
  }

  // ---------------------------------------------------------------------
  // Which OVERs are rewritten
  // ---------------------------------------------------------------------

  /** Mark `k` stands directly in the window of the OVER at `index`, which
      closes at `close`. */
  ghost predicate Directly(all: seq<Mark>, index: nat, close: int, k: nat) {
    index < k < |all| && all[k].at < close && all[k].depth == all[index].depth + 1
  }

  /** It is the first such mark to be one of these words. */
  ghost predicate First(all: seq<Mark>, index: nat, close: int, words: set<Word>, k: nat) {
    && Directly(all, index, close, k) && all[k].word in words
    && forall j: nat :: j < k && Directly(all, index, close, j) ==> all[j].word !in words
  }

  ghost predicate Holds(all: seq<Mark>, index: nat, close: int, words: set<Word>) {
    exists k: nat :: Directly(all, index, close, k) && all[k].word in words
  }

  lemma {:induction false} FoundFrom(all: seq<Mark>, index: nat, from: nat, close: int, words: set<Word>)
    returns (k: nat)
    requires index < from <= |all|
    ensures var found := FirstInside(all, from, close, all[index].depth + 1, words);
      && (found.Some? ==> from <= k < |all| && found.value == all[k] && Directly(all, index, close, k)
                          && all[k].word in words)
      && forall j: nat :: from <= j < (if found.Some? then k else |all|) && Directly(all, index, close, j) ==>
           all[j].word !in words
    decreases |all| - from
  {
    k := from;
    if from < |all| && !(Directly(all, index, close, from) && all[from].word in words) {
      k := FoundFrom(all, index, from + 1, close, words);
    }
  }

  lemma Found(all: seq<Mark>, index: nat, close: int, words: set<Word>) returns (k: nat)
    requires index < |all|
    ensures var found := FirstInside(all, index + 1, close, all[index].depth + 1, words);
      && (found.Some? <==> Holds(all, index, close, words))
      && (found.Some? ==> First(all, index, close, words, k) && found.value == all[k])
  {
    k := FoundFrom(all, index, index + 1, close, words);
  }

  lemma FirstIsOne(all: seq<Mark>, index: nat, close: int, words: set<Word>, j: nat, k: nat)
    requires First(all, index, close, words, j) && First(all, index, close, words, k)
    ensures j == k
  {
  }

  const FRAMES: set<Word> := {Rows, Range, Groups}

  /** Where the sort keys of a window end: at its frame, if it has one. */
  ghost predicate KeysEnd(all: seq<Mark>, index: nat, close: int, end: int) {
    if Holds(all, index, close, FRAMES)
    then exists f: nat :: First(all, index, close, FRAMES, f) && end == all[f].at
    else end == close
  }

  /** The window of the OVER at `index` opens at `open`: only space between. */
  ghost predicate Opens(sql: string, end: nat, open: nat) {
    end <= open < |sql| && sql[open] == '(' && Blank(sql, end, open)
  }

  lemma OpensThere(sql: string, end: nat, open: nat)
    requires Opens(sql, end, open)
    ensures OpenAfter(sql, end) == open
  {
    SpaceEndAt(sql, end, open);
  }

  lemma {:induction false} SpaceEndAt(sql: string, at: nat, open: nat)
    requires Opens(sql, at, open)
    ensures SpaceEnd(sql, at, |sql|) == open
    decreases open - at
  {
    if at == open {
    } else {
      SpaceEndAt(sql, at + 1, open);
    }
  }

  /** Without an order the window must have no frame; with one, none of the
      keys up to where they end may be `id`. */
  ghost predicate Changes(sql: string, all: seq<Mark>, index: nat, close: int) {
    if Holds(all, index, close, {OrderBy}) then
      forall o: nat, end ::
        First(all, index, close, {OrderBy}, o) && KeysEnd(all, index, close, end) ==>
        !(0 <= end && SomeKeyIsId(sql, all[o].end, end))
    else
      !Holds(all, index, close, FRAMES)
  }

  lemma KeysEndAt(all: seq<Mark>, index: nat, close: int, end: int)
    requires index < |all|
    ensures KeysEnd(all, index, close, end) <==>
      var frame := FrameIn(all, index, close); end == if frame.Some? then frame.value.at else close
  {
    var f := Found(all, index, close, FRAMES);
    if KeysEnd(all, index, close, end) && Holds(all, index, close, FRAMES) {
      var g: nat :| First(all, index, close, FRAMES, g) && end == all[g].at;
      FirstIsOne(all, index, close, FRAMES, f, g);
    }
  }

  lemma CutNames(sql: string, from: nat, end: nat)
    ensures NamesId(Cut(sql, from, end)) <==> SomeKeyIsId(sql, from, end)
  {
    if from <= end <= |sql| {
      NamesIdIff(sql, from, end);
    } else {
      assert Keys([]) == [[]] && !IsId([]);
    }
  }

  lemma ChangesIff(sql: string, all: seq<Mark>, index: nat, close: nat)
    requires index < |all|
    ensures var order, frame := OrderIn(all, index, close), FrameIn(all, index, close);
      var end: nat := if frame.Some? then frame.value.at else close;
      Changes(sql, all, index, close) <==>
        if order.None? then frame.None? else !NamesId(Cut(sql, order.value.end, end))
  {
    var order, frame := OrderIn(all, index, close), FrameIn(all, index, close);
    var end: nat := if frame.Some? then frame.value.at else close;
    var o := Found(all, index, close, {OrderBy});
    var f := Found(all, index, close, FRAMES);
    if order.Some? {
      CutNames(sql, all[o].end, end);
      KeysEndAt(all, index, close, end);
      forall k: nat, e | First(all, index, close, {OrderBy}, k) && KeysEnd(all, index, close, e)
        ensures k == o && e == end
      {
        FirstIsOne(all, index, close, {OrderBy}, k, o);
        KeysEndAt(all, index, close, e);
      }
    }
  }

  /** A window is rewritten exactly when it closes and is one that changes, and
      the rewrite gives up exactly when it does not close. */
  lemma RewrittenIff(sql: string, all: seq<Mark>, index: nat, open: nat)
    requires index < |all| && Opens(sql, all[index].end, open)
    ensures var step, close := StepAt(sql, all, index), ClosingFrom(sql, open, 0);
      && (step.Rewrite? <==> all[index].word == Over && close >= 0 && Changes(sql, all, index, close))
      && (step.Unclosed? <==> all[index].word == Over && close < 0)
  {
    OpensThere(sql, all[index].end, open);
    var close := ClosingFrom(sql, open, 0);
    if close >= 0 {
      ChangesIff(sql, all, index, close);
    }
  }

  /** What a rewritten window is taken for: it has sort keys if it has an order,
      and they end where its frame begins. */
  lemma RewrittenAs(sql: string, all: seq<Mark>, index: nat, open: nat)
    requires index < |all| && Opens(sql, all[index].end, open) && StepAt(sql, all, index).Rewrite?
    ensures var w, close := StepAt(sql, all, index).window, ClosingFrom(sql, open, 0);
      && w.open == open && w.close == close
      && (w.spec.Keyed? <==> Holds(all, index, close, {OrderBy}))
      && (w.spec.Keyed? ==>
            && KeysEnd(all, index, close, w.spec.end)
            && (w.spec.framed <==> Holds(all, index, close, FRAMES)))
  {
    OpensThere(sql, all[index].end, open);
    var close := ClosingFrom(sql, open, 0);
    var o := Found(all, index, close, {OrderBy});
    var f := Found(all, index, close, FRAMES);
    var spec := StepAt(sql, all, index).window.spec;
    if spec.Keyed? {
      KeysEndAt(all, index, close, spec.end);
    }
  }

  /** A mark without a window is passed over. */
  lemma UnopenedPasses(sql: string, all: seq<Mark>, index: nat)
    requires all == MarksFrom(sql, 0, 0) && index < |all|
    requires forall open :: !Opens(sql, all[index].end, open)
    ensures StepAt(sql, all, index).Pass?
  {
    var mark := all[index];
    MarksAreAll(sql, 0, 0, mark);
    KeywordIsInert(sql, mark.at);
    assert sql[mark.end - 1] != '(' by {
      assert mark.at < mark.end - 1 ==> Inert(sql, mark.end - 1);
    }
    assert OpenAfter(sql, mark.end) >= mark.end ==> !Opens(sql, mark.end, OpenAfter(sql, mark.end));
  }

  /** The windows rewritten are those of the marks that call for it. */
  lemma {:induction false} WindowsAreAll(sql: string, all: seq<Mark>, n: nat, w: Window)
    requires n <= |all|
    ensures w in Windows(sql, all, n) <==> Called(sql, all, n, w)
  {
    if n == 0 {
    } else {
      WindowsAreAll(sql, all, n - 1, w);
      WindowsNext(sql, all, n, StepAt(sql, all, n - 1), w);
      CalledNext(sql, all, n, w);
    }
  }

  /** One of the first `n` marks calls for the window to be rewritten so. */
  ghost predicate Called(sql: string, all: seq<Mark>, n: nat, w: Window)
    requires n <= |all|
  {
    exists i :: 0 <= i < n && StepAt(sql, all, i) == Rewrite(w)
  }

  lemma CalledNext(sql: string, all: seq<Mark>, n: nat, w: Window)
    requires 0 < n <= |all|
    ensures Called(sql, all, n, w) <==> Called(sql, all, n - 1, w) || StepAt(sql, all, n - 1) == Rewrite(w)
  {
    if Called(sql, all, n - 1, w) {
      var i :| 0 <= i < n - 1 && StepAt(sql, all, i) == Rewrite(w);
    }
  }

  lemma WindowsNext(sql: string, all: seq<Mark>, n: nat, step: Step, w: Window)
    requires 0 < n <= |all| && step == StepAt(sql, all, n - 1)
    ensures w in Windows(sql, all, n) <==> w in Windows(sql, all, n - 1) || step == Rewrite(w)
  {
  }

  /** Some OVER opens a parenthesis that never closes. */
  ghost predicate SomeStaysOpen(sql: string, all: seq<Mark>) {
    exists i: nat, open: nat ::
      i < |all| && all[i].word == Over && Opens(sql, all[i].end, open) && ClosingFrom(sql, open, 0) < 0
  }

  /** Some OVER's window closes and is one that changes. */
  ghost predicate SomeChanges(sql: string, all: seq<Mark>) {
    exists i: nat, open: nat ::
      && i < |all| && all[i].word == Over && Opens(sql, all[i].end, open)
      && ClosingFrom(sql, open, 0) >= 0 && Changes(sql, all, i, ClosingFrom(sql, open, 0))
  }

  lemma StepOpens(sql: string, all: seq<Mark>, index: nat) returns (open: nat)
    requires all == MarksFrom(sql, 0, 0) && index < |all| && !StepAt(sql, all, index).Pass?
    ensures Opens(sql, all[index].end, open)
  {
    if forall at: nat :: !Opens(sql, all[index].end, at) {
      UnopenedPasses(sql, all, index);
    }
    open :| Opens(sql, all[index].end, open);
  }

  /** There is nothing to rewrite exactly when some window stays open or none
      changes. */
  lemma NoRewriteIff(sql: string)
    ensures var all := MarksFrom(sql, 0, 0);
      && (Aborts(sql, all, |all|) <==> SomeStaysOpen(sql, all))
      && (Windows(sql, all, |all|) == [] <==> !SomeChanges(sql, all))
  {
    var all := MarksFrom(sql, 0, 0);
    StaysOpenIff(sql, all);
    ChangesSome(sql, all);
  }

  lemma StaysOpenIff(sql: string, all: seq<Mark>)
    requires all == MarksFrom(sql, 0, 0)
    ensures Aborts(sql, all, |all|) <==> SomeStaysOpen(sql, all)
  {
    if Aborts(sql, all, |all|) {
      var i :| 0 <= i < |all| && StepAt(sql, all, i).Unclosed?;
      var open := StepOpens(sql, all, i);
      RewrittenIff(sql, all, i, open);
    }
    if SomeStaysOpen(sql, all) {
      var i: nat, open: nat :|
        i < |all| && all[i].word == Over && Opens(sql, all[i].end, open) && ClosingFrom(sql, open, 0) < 0;
      RewrittenIff(sql, all, i, open);
    }
  }

  lemma ChangesSome(sql: string, all: seq<Mark>)
    requires all == MarksFrom(sql, 0, 0)
    ensures Windows(sql, all, |all|) == [] <==> !SomeChanges(sql, all)
  {
    var windows := Windows(sql, all, |all|);
    if windows != [] {
      WindowsAreAll(sql, all, |all|, windows[0]);
      var i :| 0 <= i < |all| && StepAt(sql, all, i) == Rewrite(windows[0]);
      var open := StepOpens(sql, all, i);
      RewrittenIff(sql, all, i, open);
    }
    if SomeChanges(sql, all) {
      var i: nat, open: nat :|
        && i < |all| && all[i].word == Over && Opens(sql, all[i].end, open)
        && ClosingFrom(sql, open, 0) >= 0 && Changes(sql, all, i, ClosingFrom(sql, open, 0));
      RewrittenIff(sql, all, i, open);
      WindowsAreAll(sql, all, |all|, StepAt(sql, all, i).window);
    }
  }

  // ---------------------------------------------------------------------
  // What is written
  // ---------------------------------------------------------------------

  /** Up to its outer spaces, the text between `from` and `end` is that between
      `p` and `q`. */
  ghost predicate Core(sql: string, from: nat, end: nat, p: nat, q: nat) {
    && from <= p <= q <= end <= |sql| && Blank(sql, from, p) && Blank(sql, q, end)
    && (p < q ==> !Space(sql[p]) && !Space(sql[q - 1]))
  }

  lemma {:induction false} TrimBlank(text: string)
    requires Blank(text, 0, |text|)
    ensures Trim(text) == []
  {
    TrimStartAt(text, |text|);
  }

  lemma CoreIsTrimmed(sql: string, from: nat, end: nat, p: nat, q: nat)
    requires Core(sql, from, end, p, q)
    ensures Trim(sql[from..end]) == sql[p..q]
  {
    var text := sql[from..end];
    assert forall k :: 0 <= k < |text| ==> text[k] == sql[from + k];
    if p == q {
      TrimBlank(text);
    } else {
      TrimIs(text, p - from, q - from);
      assert text[p - from..q - from] == sql[p..q];
    }
  }

  lemma CoreOf(sql: string, from: nat, end: nat) returns (p: nat, q: nat)
    requires from <= end <= |sql|
    ensures Core(sql, from, end, p, q)
  {
    var text := sql[from..end];
    var a := StartOf(text);
    var b := EndOf(text);
    p, q := from + a, if a < |text| then from + b else from + a;
    assert forall k :: from <= k < end ==> sql[k] == text[k - from];
  }

  /** An unordered window becomes its own text, one space and the ordering with
      its frame; a blank one only the latter. */
  lemma SpanningText(sql: string, w: Window) returns (p: nat, q: nat)
    requires w.spec.Spanning? && w.open < w.close <= |sql|
    ensures Core(sql, w.open + 1, w.close, p, q)
    ensures SpecText(sql, w) ==
      (if p == q then "" else sql[p..q] + " ")
      + ("ORDER BY id" + " ROWS BETWEEN UNBOUNDED PRECEDING AND UNBOUNDED FOLLOWING")
  {
    p, q := CoreOf(sql, w.open + 1, w.close);
    CoreIsTrimmed(sql, w.open + 1, w.close, p, q);
    FrameStays(sql[p..q]);
  }

  lemma FrameStays(inside: string)
    requires inside != [] ==> !Space(inside[0])
    ensures Trim(inside + " " + FRAME) == (if inside == [] then "" else inside + " ") + FRAME
  {
    var head := inside + " ";
    var text := head + FRAME;
    assert |FRAME| == 68 && FRAME[0] == "ORDER BY id"[0] == 'O' && FRAME[67] == 'G';
    assert text[|head| + 67] == FRAME[67];
    if inside == [] {
      assert text[0] == ' ' && text[1] == FRAME[0];
      TrimIs(text, 1, |text|);
    } else {
      assert text[0] == inside[0];
      TrimIs(text, 0, |text|);
    }
  }

  /** An ordered window keeps its text up to where its keys end, gains `id`
      there, and keeps its frame. */
  lemma KeyedText(sql: string, w: Window) returns (q: nat)
    requires w.spec.Keyed? && w.open < w.spec.end <= w.close <= |sql|
    ensures w.open < q <= w.spec.end && Blank(sql, q, w.spec.end) && (q == w.open + 1 || !Space(sql[q - 1]))
    ensures SpecText(sql, w) ==
      sql[w.open + 1..q] + ", id" + if w.spec.framed then " " + sql[w.spec.end..w.close] else ""
  {
    var head := sql[w.open + 1..w.spec.end];
    var n := EndOf(head);
    q := w.open + 1 + n;
    assert forall k :: w.open < k < w.spec.end ==> sql[k] == head[k - w.open - 1];
    TrimEndAt(head, n);
    assert head[..n] == sql[w.open + 1..q];
  }
}
