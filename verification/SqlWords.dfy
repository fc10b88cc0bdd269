/**
 What the scanners take for quoted text and for a keyword, letter by letter: a
 quote closes at the first one that is not escaped, a clause keyword is met in
 any letter case, whole, and ORDER BY with space between its words.
 */
module SqlWords {
  import opened Options
  import opened SqlScan

  /** The code points of white space. */
  lemma SpaceIff(c: char)
    ensures Space(c) <==> c as int in {
      0x9, 0xA, 0xB, 0xC, 0xD, 0x20, 0xA0, 0x1680, 0x2000, 0x2001, 0x2002, 0x2003, 0x2004, 0x2005, 0x2006, 0x2007,
      0x2008, 0x2009, 0x200A, 0x2028, 0x2029, 0x202F, 0x205F, 0x3000, 0xFEFF}
  {
  }

  /** The three quotes, the characters of a word, and where a word may start: not
      after one of those, a dollar sign or a dot. */
  lemma CharactersIff(sql: string, at: nat)
    requires at < |sql|
    ensures Quote(sql[at]) <==> sql[at] as int in {0x22, 0x27, 0x60}
    ensures Letter(sql[at]) <==> 0x41 <= sql[at] as int <= 0x5A || 0x61 <= sql[at] as int <= 0x7A
    ensures Wordly(sql[at]) <==> Letter(sql[at]) || 0x30 <= sql[at] as int <= 0x39 || sql[at] as int == 0x5F
    ensures Fresh(sql, at) <==>
      Letter(sql[at]) && (at > 0 ==> !Wordly(sql[at - 1]) && sql[at - 1] as int !in {0x24, 0x2E})
  {
  }

  /** A keyword's letter is met by itself and by its lower-case form only. */
  lemma SpellsIff(c: char, upper: char)
    requires 'A' <= upper <= 'Z'
    ensures Spells(c, upper) <==> c as int == upper as int || c as int == upper as int + 32
  {
  }

  /** The text of a keyword of one word. */
  function Spelling(word: Word): string {
    match word
    case Select => "SELECT" case Distinct => "DISTINCT" case From => "FROM" case OrderBy => "ORDER BY"
    case Limit => "LIMIT" case Union => "UNION" case Intersect => "INTERSECT" case Except => "EXCEPT"
    case Over => "OVER" case Rows => "ROWS" case Range => "RANGE" case Groups => "GROUPS"
  }

  /** The letters stand here. */
  ghost predicate Letters(sql: string, at: nat, upper: string) {
    at + |upper| <= |sql| && forall i :: 0 <= i < |upper| ==> Spells(sql[at + i], upper[i])
  }

  /** And no word goes on after them. */
  ghost predicate Standing(sql: string, at: nat, upper: string) {
    Letters(sql, at, upper) && (at + |upper| == |sql| || !Wordly(sql[at + |upper|]))
  }

  /** ORDER, one to nine spaces and BY, whole within sixteen characters. */
  ghost predicate OrderByStands(sql: string, at: nat, length: nat) {
    && 8 <= length <= 16 && at + length <= |sql|
    && Letters(sql, at, "ORDER") && (forall k :: at + 5 <= k < at + length - 2 ==> Space(sql[k]))
    && Letters(sql, at + length - 2, "BY")
    && (length == 16 || at + length == |sql| || !Wordly(sql[at + length]))
  }

  lemma WholeIff(sql: string, at: nat, upper: string)
    requires at < |sql| && |upper| < 16
    ensures Whole(sql, at, Reading(sql, at), upper) <==> Standing(sql, at, upper)
  {
  }

  lemma {:induction false} SpacesEndAt(sql: string, at: nat, end: nat, limit: nat)
    requires at <= end < limit <= |sql| && (forall k :: at <= k < end ==> Space(sql[k])) && !Space(sql[end])
    ensures SpaceEnd(sql, at, limit) == end
    decreases end - at
  {
    if at == end {
    } else {
      SpacesEndAt(sql, at + 1, end, limit);
    }
  }

  lemma OrderByIff(sql: string, at: nat, length: nat)
    requires at < |sql| && length > 0
    ensures OrderByLength(sql, at) == length <==> OrderByStands(sql, at, length)
  {
    var limit := Reading(sql, at);
    if OrderByStands(sql, at, length) {
      assert Spells(sql[at + length - 2 + 0], "BY"[0]);
      SpacesEndAt(sql, at + 5, at + length - 2, limit);
    }
  }

  /** Two texts no place can start with both of. */
  ghost predicate Apart(a: string, b: string) {
    exists i :: 0 <= i < |a| && i < |b| && 'A' <= a[i] <= 'Z' && 'A' <= b[i] <= 'Z' && a[i] != b[i]
  }

  lemma NotBoth(sql: string, at: nat, a: string, b: string)
    requires Apart(a, b) && Letters(sql, at, a)
    ensures !Letters(sql, at, b)
  {
    var i :| 0 <= i < |a| && i < |b| && 'A' <= a[i] <= 'Z' && 'A' <= b[i] <= 'Z' && a[i] != b[i];
    assert Spells(sql[at + i], a[i]) && !Spells(sql[at + i], b[i]);
  }

  /** The words differ in their first letter or, after O and R, in their second. */
  lemma SpellingsApart(v: Word, w: Word)
    requires v != w
    ensures Apart(Spelling(v), Spelling(w))
  {
    var a, b := Spelling(v), Spelling(w);
    assert a[0] != b[0] || a[1] != b[1];
  }

  lemma WordsAreSpelled(k: nat)
    requires k < |WORDS|
    ensures WORDS[k].1 == Spelling(WORDS[k].0) && WORDS[k].0 != OrderBy && |WORDS[k].1| < 16
  {
    var w := WORDS;
    assert k == 0 || k == 1 || k == 2 || k == 3 || k == 4 || k == 5 || k == 6 || k == 7 || k == 8 || k == 9 || k == 10;
  }

  /** The search through the words finds the one that stands here. */
  lemma {:induction false} SearchFinds(sql: string, at: nat, k: nat, word: Word, length: nat)
    requires at < |sql| && k <= |WORDS|
    ensures KeywordIn(sql, at, WORDS[k..]) == Some(Hit(word, length)) <==>
      && (exists j :: k <= j < |WORDS| && WORDS[j].0 == word)
      && length == |Spelling(word)| && Standing(sql, at, Spelling(word))
    decreases |WORDS| - k
  {
    var words := WORDS[k..];
    if k < |WORDS| {
      assert words[0] == WORDS[k] && words[1..] == WORDS[k + 1..];
      WordsAreSpelled(k);
      WholeIff(sql, at, WORDS[k].1);
      SearchFinds(sql, at, k + 1, word, length);
      SearchStep(sql, at, k, word);
    }
  }

  lemma SearchStep(sql: string, at: nat, k: nat, word: Word)
    requires at < |sql| && k < |WORDS|
    ensures WORDS[k].0 != word && Standing(sql, at, WORDS[k].1) ==> !Standing(sql, at, Spelling(word))
    ensures WORDS[k].0 == word ==> forall j :: k < j < |WORDS| ==> WORDS[j].0 != word
  {
    WordsAreSpelled(k);
    if WORDS[k].0 != word {
      SpellingsApart(WORDS[k].0, word);
      if Standing(sql, at, WORDS[k].1) {
        NotBoth(sql, at, WORDS[k].1, Spelling(word));
      }
    } else {
      OncePerWord(k);
    }
  }

  lemma OncePerWord(k: nat)
    requires k < |WORDS|
    ensures forall j :: k < j < |WORDS| ==> WORDS[j].0 != WORDS[k].0
  {
    var w := WORDS;
    forall j | k < j < |w|
      ensures w[j].0 != w[k].0
    {
      Place(j);
      Place(k);
    }
  }

  function Placed(word: Word): nat {
    match word
    case Select => 0 case Distinct => 1 case From => 2 case Limit => 3 case Union => 4 case Intersect => 5
    case Except => 6 case Over => 7 case Rows => 8 case Range => 9 case Groups => 10 case OrderBy => 11
  }

  lemma Place(k: nat)
    requires k < |WORDS|
    ensures Placed(WORDS[k].0) == k
  {
    var w := WORDS;
    assert k == 0 || k == 1 || k == 2 || k == 3 || k == 4 || k == 5 || k == 6 || k == 7 || k == 8 || k == 9 || k == 10;
  }

  lemma InWords(word: Word)
    requires word != OrderBy
    ensures exists j :: 0 <= j < |WORDS| && WORDS[j].0 == word
  {
    var w := WORDS;
    assert w[Placed(word)].0 == word;
  }

  /** What a place is a keyword's start for: ORDER BY, or the one word that
      stands there. */
  lemma KeywordIff(sql: string, at: nat, word: Word, length: nat)
    requires at < |sql|
    ensures Keyword(sql, at) == Some(Hit(word, length)) <==>
      if word == OrderBy then OrderByStands(sql, at, length)
      else length == |Spelling(word)| && Standing(sql, at, Spelling(word))
  {
    var words := WORDS;
    assert words[0..] == words;
    SearchFinds(sql, at, 0, word, length);
    var n := OrderByLength(sql, at);
    if n > 0 {
      OrderByIff(sql, at, n);
    }
    if word == OrderBy {
      if length > 0 {
        OrderByIff(sql, at, length);
      }
      forall j | 0 <= j < |WORDS|
        ensures WORDS[j].0 != OrderBy
      {
        WordsAreSpelled(j);
      }
    } else {
      InWords(word);
      if n > 0 {
        OrderIsApart(sql, at, word);
      }
    }
  }

  lemma OrderIsApart(sql: string, at: nat, word: Word)
    requires Letters(sql, at, "ORDER") && word != OrderBy
    ensures !Letters(sql, at, Spelling(word))
  {
    var a, b := "ORDER", Spelling(word);
    assert a[0] != b[0] || a[1] != b[1];
    NotBoth(sql, at, a, b);
  }

  // ---------------------------------------------------------------------
  // Quoted text
  // ---------------------------------------------------------------------

  /** How many backslashes stand right before `k`, back to `from` at most. */
  function Slashes(sql: string, from: nat, k: nat): nat
    requires from <= k <= |sql|
    decreases k - from
  {
    if k == from || sql[k - 1] != '\\' then 0 else 1 + Slashes(sql, from, k - 1)
  }

  /** A quote that closes the text quoted from `from` on: in backticks any, and
      otherwise one that an even number of backslashes stands before. */
  ghost predicate ClosesQuote(sql: string, from: nat, quote: char, k: nat) {
    from <= k < |sql| && sql[k] == quote && (quote != '`' ==> Slashes(sql, from, k) % 2 == 0)
  }

  /** Starting later, past a character that escapes nothing or past an escaped
      one, the backslashes are as many, or two fewer. */
  lemma {:induction false} SlashesFrom(sql: string, from: nat, k: nat)
    requires from < k <= |sql|
    ensures sql[from] != '\\' ==> Slashes(sql, from, k) == Slashes(sql, from + 1, k)
    ensures sql[from] == '\\' && from + 2 <= k ==> Slashes(sql, from, k) % 2 == Slashes(sql, from + 2, k) % 2
    decreases k - from
  {
    if from + 1 < k && sql[k - 1] == '\\' {
      SlashesFrom(sql, from, k - 1);
      assert Slashes(sql, from, from + 1) == if sql[from] == '\\' then 1 else 0;
    }
  }

  /** Quoted text ends at the first quote that closes it, or with the statement. */
  lemma {:induction false} QuoteEndsFirst(sql: string, from: nat, quote: char)
    requires from <= |sql| && Quote(quote)
    ensures var end := QuoteEnd(sql, from, quote);
      && (end < |sql| ==> ClosesQuote(sql, from, quote, end))
      && forall k: nat :: k < end ==> !ClosesQuote(sql, from, quote, k)
    decreases |sql| - from
  {
    if from < |sql| && sql[from] != quote {
      var next := if sql[from] == '\\' && quote != '`' then from + 2 else from + 1;
      if next <= |sql| {
        QuoteEndsFirst(sql, next, quote);
        QuoteLater(sql, from, next, quote);
      }
    }
  }

  lemma QuoteLater(sql: string, from: nat, next: nat, quote: char)
    requires from < next <= |sql| && sql[from] != quote && Quote(quote)
    requires next == if sql[from] == '\\' && quote != '`' then from + 2 else from + 1
    ensures forall k: nat :: ClosesQuote(sql, from, quote, k) <==> ClosesQuote(sql, next, quote, k)
  {
    forall k: nat
      ensures ClosesQuote(sql, from, quote, k) <==> ClosesQuote(sql, next, quote, k)
    {
      if from < k < |sql| {
        SlashesFrom(sql, from, k);
        assert Slashes(sql, from, from) == 0;
      }
    }
  }
}
