/**
 The two hand-written SQL scanners. `marks` lists a statement's clause keywords
 with their parenthesis depth; `closing` finds the parenthesis that closes one.
 Both step over quoted text, and the rewrites are well placed only if they step
 over the same text.
 */
module SqlScan {
  import opened Options

  // ---------------------------------------------------------------------
  // Characters
  // ---------------------------------------------------------------------

  predicate Quote(c: char) { c == '\'' || c == '"' || c == '`' }

  predicate Letter(c: char) { 'A' <= c <= 'Z' || 'a' <= c <= 'z' }

  /** What `\w` matches. */
  predicate Wordly(c: char) { Letter(c) || '0' <= c <= '9' || c == '_' }

  /** What `\s` matches. */
  predicate Space(c: char) {
    || '\t' <= c <= '\r' || c == ' ' || c == '\U{A0}' || c == '\U{1680}'
    || '\U{2000}' <= c <= '\U{200A}' || c == '\U{2028}' || c == '\U{2029}' || c == '\U{202F}'
    || c == '\U{205F}' || c == '\U{3000}' || c == '\U{FEFF}'
  }

  /** A letter of the text against an upper-case letter of a keyword. */
  predicate Spells(c: char, upper: char) {
    c == upper || ('a' <= c <= 'z' && c as int - 32 == upper as int)
  }

  // ---------------------------------------------------------------------
  // Keywords
  // ---------------------------------------------------------------------

  datatype Word = Select | Distinct | From | OrderBy | Limit | Union | Intersect | Except | Over | Rows | Range | Groups

  datatype Hit = Hit(word: Word, length: nat)

  /** A keyword is looked for in the next 16 characters only. */
  function Reading(sql: string, at: nat): (limit: nat)
    ensures limit <= |sql|
  {
    if at + 16 <= |sql| then at + 16 else |sql|
  }

  predicate Starts(sql: string, at: nat, limit: nat, upper: string)
    requires limit <= |sql|
  {
    at + |upper| <= limit && forall i :: 0 <= i < |upper| ==> Spells(sql[at + i], upper[i])
  }

  /** The word is here, and ends before the limit or at it. */
  predicate Whole(sql: string, at: nat, limit: nat, upper: string)
    requires limit <= |sql|
  {
    Starts(sql, at, limit, upper) && (at + |upper| == limit || !Wordly(sql[at + |upper|]))
  }

  function SpaceEnd(sql: string, at: nat, limit: nat): (end: nat)
    requires limit <= |sql|
    ensures at <= end && (at < end ==> end <= limit) && forall k :: at <= k < end ==> Space(sql[k])
    decreases limit - at
  {
    if at < limit && Space(sql[at]) then SpaceEnd(sql, at + 1, limit) else at
  }

  /** Two words with space between; the length of the match, or 0. */
  function OrderByLength(sql: string, at: nat): nat {
    var limit := Reading(sql, at);
    if !Starts(sql, at, limit, "ORDER") then 0 else
      var b := SpaceEnd(sql, at + 5, limit);
      if b > at + 5 && Whole(sql, b, limit, "BY") then b + 2 - at else 0
  }

  /** The keywords of one word. No text starts with two of them. */
  const WORDS: seq<(Word, string)> := [
    (Select, "SELECT"), (Distinct, "DISTINCT"), (From, "FROM"), (Limit, "LIMIT"), (Union, "UNION"),
    (Intersect, "INTERSECT"), (Except, "EXCEPT"), (Over, "OVER"), (Rows, "ROWS"), (Range, "RANGE"), (Groups, "GROUPS")]

  function KeywordIn(sql: string, at: nat, words: seq<(Word, string)>): Option<Hit> {
    if words == [] then None
    else if Whole(sql, at, Reading(sql, at), words[0].1) then Some(Hit(words[0].0, |words[0].1|))
    else KeywordIn(sql, at, words[1..])
  }

  /** The keyword the text at `at` starts with. */
  function Keyword(sql: string, at: nat): Option<Hit> {
    if OrderByLength(sql, at) > 0 then Some(Hit(OrderBy, OrderByLength(sql, at))) else KeywordIn(sql, at, WORDS)
  }

  // ---------------------------------------------------------------------
  // The unquoted characters of a statement
  // ---------------------------------------------------------------------

  /** Where quoted text that goes on at `at` ends: at its closing quote, or
      past the end of the statement. A backtick quote has no escapes. */
  function QuoteEnd(sql: string, at: nat, quote: char): (end: nat)
    ensures end >= at
    decreases |sql| - at
  {
    if at >= |sql| || sql[at] == quote then at
    else if sql[at] == '\\' && quote != '`' then QuoteEnd(sql, at + 2, quote)
    else QuoteEnd(sql, at + 1, quote)
  }

  /** The character after `at` that is not part of the text quoted there. */
  function Next(sql: string, at: nat): (next: nat)
    requires at < |sql|
    ensures next > at
  {
    if Quote(sql[at]) then QuoteEnd(sql, at + 1, sql[at]) + 1 else at + 1
  }

  function Sign(c: char): int {
    if c == '(' then 1 else if c == ')' then -1 else 0
  }

  /** `to` is an unquoted position, reading from `at`. */
  predicate Reach(sql: string, at: nat, to: nat)
    decreases |sql| - at
  {
    at == to || (at < |sql| && at < to && Reach(sql, Next(sql, at), to))
  }

  /** How much deeper `to` lies than `at`. */
  function Deeper(sql: string, at: nat, to: nat): int
    requires Reach(sql, at, to)
    decreases |sql| - at
  {
    if at == to then 0 else Sign(sql[at]) + Deeper(sql, Next(sql, at), to)
  }

  /** One reading of a statement: a position reached past another is reached
      from it, and depths add up. */
  lemma {:induction false} OnePath(sql: string, at: nat, mid: nat, to: nat)
    requires Reach(sql, at, mid) && Reach(sql, at, to) && mid <= to
    ensures Reach(sql, mid, to)
    ensures Deeper(sql, at, to) == Deeper(sql, at, mid) + Deeper(sql, mid, to)
    decreases |sql| - at
  {
    if at == mid {
    } else {
      OnePath(sql, Next(sql, at), mid, to);
    }
  }

  lemma {:induction false} PathsJoin(sql: string, at: nat, mid: nat, to: nat)
    requires Reach(sql, at, mid) && Reach(sql, mid, to)
    ensures Reach(sql, at, to)
    decreases |sql| - at
  {
    ReachOrder(sql, mid, to);
    if at == mid {
    } else {
      ReachOrder(sql, Next(sql, at), mid);
      PathsJoin(sql, Next(sql, at), mid, to);
    }
  }

  lemma ReachOrder(sql: string, at: nat, to: nat)
    requires Reach(sql, at, to)
    ensures at <= to
  {
  }

  // ---------------------------------------------------------------------
  // Finding the closing parenthesis
  // ---------------------------------------------------------------------

  /** The parenthesis at `to` closes what is open at `at`, under `depth` more. */
  predicate Closes(sql: string, at: nat, depth: int, to: nat) {
    && to < |sql| && Reach(sql, at, to)
    && sql[to] == ')' && depth + Deeper(sql, at, to) == 1
  }

  function ClosingFrom(sql: string, at: nat, depth: int): (close: int)
    ensures close == -1 || at <= close < |sql|
    decreases |sql| - at
  {
    if at >= |sql| then -1
    else if sql[at] == ')' && depth == 1 then at
    else ClosingFrom(sql, Next(sql, at), depth + Sign(sql[at]))
  }

  /** The first place where the parentheses balance, and -1 exactly when they
      never do. */
  lemma {:induction false} ClosingIsLeast(sql: string, at: nat, depth: int)
    ensures var close := ClosingFrom(sql, at, depth);
      && (close >= 0 ==> Closes(sql, at, depth, close))
      && forall q: nat :: Closes(sql, at, depth, q) ==> close >= 0 && close <= q
    decreases |sql| - at
  {
    var close := ClosingFrom(sql, at, depth);
    if at >= |sql| {
    } else {
      var next, deep := Next(sql, at), depth + Sign(sql[at]);
      ClosingIsLeast(sql, next, deep);
      forall q: nat | Closes(sql, at, depth, q)
        ensures close >= 0 && close <= q
      {
        ReachOrder(sql, at, q);
        if q != at {
          assert Closes(sql, next, deep, q);
        }
      }
    }
  }

  /** `closing`: the loop that finds it. */
  method Closing(sql: string, open: nat) returns (close: int)
    ensures close == ClosingFrom(sql, open, 0)
    ensures close >= 0 ==> Closes(sql, open, 0, close)
    ensures forall q: nat :: Closes(sql, open, 0, q) ==> close >= 0 && close <= q
  {
    ClosingIsLeast(sql, open, 0);
    var at, depth := open, 0;
    while at < |sql|
      invariant ClosingFrom(sql, at, depth) == ClosingFrom(sql, open, 0)
    {
      var c := sql[at];
      if Quote(c) {
        at := SkipQuoted(sql, at);
      } else if c == '(' {
        depth := depth + 1;
      } else if c == ')' {
        depth := depth - 1;
        if depth == 0 {
          return at;
        }
      }
      at := at + 1;
    }
    return -1;
  }

  /** The inner loop of both scanners, from an opening quote to where it closes. */
  method SkipQuoted(sql: string, open: nat) returns (end: nat)
    requires open < |sql| && Quote(sql[open])
    ensures end >= open && end + 1 == Next(sql, open)
  {
    end := open + 1;
    while end < |sql| && sql[end] != sql[open]
      invariant end > open && QuoteEnd(sql, end, sql[open]) == QuoteEnd(sql, open + 1, sql[open])
    {
      if sql[end] == '\\' && sql[open] != '`' {
        end := end + 1;
      }
      end := end + 1;
    }
  }

  /** Up to where it closes, everything lies deeper than an open parenthesis. */
  lemma {:induction false} StaysOpen(sql: string, at: nat, depth: int, to: nat)
    requires depth >= 1 && Reach(sql, at, to)
    requires var close := ClosingFrom(sql, at, depth); close == -1 || to <= close
    ensures depth + Deeper(sql, at, to) >= 1
    decreases |sql| - at
  {
    if at == to {
    } else {
      StaysOpen(sql, Next(sql, at), depth + Sign(sql[at]), to);
    }
  }

  // ---------------------------------------------------------------------
  // Listing the keywords
  // ---------------------------------------------------------------------

  datatype Mark = Mark(word: Word, at: nat, end: nat, depth: int)

  /** A word starts here. */
  predicate Fresh(sql: string, at: nat)
    requires at < |sql|
  {
    Letter(sql[at]) && (at == 0 || !(Wordly(sql[at - 1]) || sql[at - 1] == '$' || sql[at - 1] == '.'))
  }

  function KeywordAt(sql: string, at: nat): Option<Hit>
    requires at < |sql|
  {
    if Fresh(sql, at) then Keyword(sql, at) else None
  }

  /** Every keyword that starts a word outside quotes, with its depth. */
  function MarksFrom(sql: string, at: nat, depth: int): seq<Mark>
    decreases |sql| - at
  {
    if at >= |sql| then [] else
      var rest := MarksFrom(sql, Next(sql, at), depth + Sign(sql[at]));
      var hit := KeywordAt(sql, at);
      if hit.Some? then [Mark(hit.value.word, at, at + hit.value.length, depth)] + rest else rest
  }

  /** Nothing a scanner acts on. */
  predicate Inert(sql: string, at: nat)
    requires at < |sql|
  {
    !Quote(sql[at]) && Sign(sql[at]) == 0 && KeywordAt(sql, at).None?
  }

  lemma {:induction false} SkipInert(sql: string, at: nat, to: nat, depth: int)
    requires at <= to <= |sql| && forall k :: at <= k < to ==> Inert(sql, k)
    ensures MarksFrom(sql, at, depth) == MarksFrom(sql, to, depth)
    decreases |sql| - at
  {
    if at == to {
    } else {
      assert Inert(sql, at);
      SkipInert(sql, at + 1, to, depth);
    }
  }

  predicate Capitals(word: string) {
    word != [] && word[0] != 'B' && forall i :: 0 <= i < |word| ==> 'A' <= word[i] <= 'Z'
  }

  lemma WordsAreCapitals()
    ensures forall w :: w in WORDS ==> Capitals(w.1)
  {
    assert forall i :: 0 <= i < |WORDS| ==> Capitals(WORDS[i].1);
  }

  /** The letters of one word. */
  predicate Lettered(sql: string, at: nat, end: nat) {
    end <= |sql| && forall k :: at <= k < end ==> Letter(sql[k])
  }

  lemma {:induction false} KeywordInShape(sql: string, at: nat, words: seq<(Word, string)>)
    requires forall w :: w in words ==> Capitals(w.1)
    ensures var hit := KeywordIn(sql, at, words);
      hit.Some? ==> hit.value.length > 0 && Lettered(sql, at, at + hit.value.length) && !Spells(sql[at], 'B')
  {
    if words == [] {
    } else {
      var word := words[0].1;
      assert words[0] in words;
      if Whole(sql, at, Reading(sql, at), word) {
        assert forall k :: at <= k < at + |word| ==> Spells(sql[k], word[k - at]);
      } else {
        KeywordInShape(sql, at, words[1..]);
      }
    }
  }

  lemma OrderByShape(sql: string, at: nat)
    ensures OrderByLength(sql, at) > 0 ==>
      var end := at + OrderByLength(sql, at);
      && at + 7 < end <= |sql| && Lettered(sql, at, at + 5)
      && (forall k :: at + 5 <= k < end - 2 ==> Space(sql[k]))
      && Spells(sql[end - 2], 'B') && Spells(sql[end - 1], 'Y')
  {
    if OrderByLength(sql, at) > 0 {
      var b := SpaceEnd(sql, at + 5, Reading(sql, at));
      assert Starts(sql, b, Reading(sql, at), "BY");
      assert Spells(sql[b + 0], "BY"[0]) && Spells(sql[b + 1], "BY"[1]);
      forall k | at <= k < at + 5 ensures Letter(sql[k]) {
        assert Spells(sql[at + (k - at)], "ORDER"[k - at]);
      }
    }
  }

  /** What a keyword's letters are. */
  lemma KeywordShape(sql: string, at: nat, k: nat)
    requires at < |sql| && KeywordAt(sql, at).Some?
    ensures var end := at + KeywordAt(sql, at).value.length;
      && at < end <= |sql|
      && (at < k < end ==> Space(sql[k]) || (Letter(sql[k]) && (Letter(sql[k - 1]) || Spells(sql[k], 'B'))))
  {
    if OrderByLength(sql, at) > 0 {
      OrderByShape(sql, at);
    } else {
      KeywordInShape(sql, at, WORDS) by {
        WordsAreCapitals();
      }
    }
  }

  lemma NoKeywordOnB(sql: string, at: nat)
    requires at < |sql| && Spells(sql[at], 'B')
    ensures KeywordAt(sql, at).None?
  {
    KeywordInShape(sql, at, WORDS) by {
      WordsAreCapitals();
    }
    assert Starts(sql, at, Reading(sql, at), "ORDER") ==> Spells(sql[at + 0], "ORDER"[0]);
  }

  /** The rest of a matched keyword holds nothing either scanner acts on. */
  lemma KeywordIsInert(sql: string, at: nat)
    requires at < |sql| && KeywordAt(sql, at).Some?
    ensures var end := at + KeywordAt(sql, at).value.length;
      && at < end <= |sql|
      && forall k :: at < k < end ==> Inert(sql, k)
  {
    KeywordShape(sql, at, at);
    forall k | at < k < at + KeywordAt(sql, at).value.length
      ensures Inert(sql, k)
    {
      KeywordShape(sql, at, k);
      if Spells(sql[k], 'B') {
        NoKeywordOnB(sql, k);
      }
    }
  }

  lemma KeywordStep(sql: string, at: nat, depth: int)
    requires at < |sql| && KeywordAt(sql, at).Some?
    ensures var hit := KeywordAt(sql, at).value;
      && hit.length > 0
      && MarksFrom(sql, at, depth) ==
         [Mark(hit.word, at, at + hit.length, depth)] + MarksFrom(sql, at + hit.length, depth)
  {
    KeywordIsInert(sql, at);
    SkipInert(sql, at + 1, at + KeywordAt(sql, at).value.length, depth);
  }

  /** `marks`: the scanner that steps over words a whole one at a time finds
      what reading every character finds. */
  method Marks(sql: string) returns (found: seq<Mark>)
    ensures found == MarksFrom(sql, 0, 0)
  {
    found := [];
    var at, depth := 0, 0;
    while at < |sql|
      invariant found + MarksFrom(sql, at, depth) == MarksFrom(sql, 0, 0)
    {
      var c := sql[at];
      if Quote(c) {
        at := SkipQuoted(sql, at);
      } else if c == '(' {
        depth := depth + 1;
      } else if c == ')' {
        depth := depth - 1;
      } else if Fresh(sql, at) {
        var hit := Keyword(sql, at);
        if hit.Some? {
          KeywordStep(sql, at, depth);
          found := found + [Mark(hit.value.word, at, at + hit.value.length, depth)];
          at := at + hit.value.length - 1;
        } else {
          at := SkipWord(sql, at, depth);
        }
      }
      at := at + 1;
    }
  }

  /** Steps over the rest of a word. */
  method SkipWord(sql: string, start: nat, ghost depth: int) returns (at: nat)
    requires start < |sql| && Wordly(sql[start])
    ensures start <= at < |sql| && MarksFrom(sql, at + 1, depth) == MarksFrom(sql, start + 1, depth)
  {
    at := start;
    while at + 1 < |sql| && (Wordly(sql[at + 1]) || sql[at + 1] == '$')
      invariant start <= at < |sql| && (Wordly(sql[at]) || sql[at] == '$')
      invariant MarksFrom(sql, at + 1, depth) == MarksFrom(sql, start + 1, depth)
    {
      at := at + 1;
    }
  }

  /** What a mark says of its statement. */
  predicate Marked(sql: string, at: nat, depth: int, mark: Mark) {
    && mark.at < |sql| && Reach(sql, at, mark.at)
    && mark.depth == depth + Deeper(sql, at, mark.at)
    && mark.at <= mark.end && KeywordAt(sql, mark.at) == Some(Hit(mark.word, mark.end - mark.at))
  }

  /** The marks are exactly the keywords that start a word outside quotes. */
  lemma {:induction false} MarksAreAll(sql: string, at: nat, depth: int, mark: Mark)
    ensures mark in MarksFrom(sql, at, depth) <==> Marked(sql, at, depth, mark)
    decreases |sql| - at
  {
    if at >= |sql| {
    } else {
      MarksAreAll(sql, Next(sql, at), depth + Sign(sql[at]), mark);
    }
  }

  /** The two scanners agree: between an open parenthesis and the one `closing`
      finds for it, `marks` lists only deeper keywords, and it is back at the
      same depth right after. */
  lemma ScannersAgree(sql: string, open: nat, mark: Mark)
    requires open < |sql| && Reach(sql, 0, open) && sql[open] == '('
    requires mark in MarksFrom(sql, 0, 0)
    ensures var close := ClosingFrom(sql, open, 0);
      && (open < mark.at && (close == -1 || mark.at < close) ==> mark.depth > Deeper(sql, 0, open))
      && (close >= 0 ==> Reach(sql, 0, close + 1) && Deeper(sql, 0, close + 1) == Deeper(sql, 0, open))
  {
    MarksAreAll(sql, 0, 0, mark);
    var close := ClosingFrom(sql, open, 0);
    if open < mark.at && (close == -1 || mark.at < close) {
      OnePath(sql, 0, open, mark.at);
      StaysOpen(sql, open + 1, 1, mark.at);
    }
    if close >= 0 {
      BackAtDepth(sql, open);
    }
  }

  lemma BackAtDepth(sql: string, open: nat)
    requires open < |sql| && Reach(sql, 0, open) && ClosingFrom(sql, open, 0) >= 0
    ensures var close := ClosingFrom(sql, open, 0);
      Reach(sql, 0, close + 1) && Deeper(sql, 0, close + 1) == Deeper(sql, 0, open)
  {
    ClosingIsLeast(sql, open, 0);
    var close := ClosingFrom(sql, open, 0);
    PathsJoin(sql, 0, open, close);
    PathsJoin(sql, 0, close, close + 1);
    OnePath(sql, 0, open, close);
    OnePath(sql, 0, close, close + 1);
    assert Deeper(sql, close, close + 1) == -1;
  }
}
