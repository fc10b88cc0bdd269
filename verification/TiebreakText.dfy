/**
 What the window rewrite leaves alone. The windows of one statement are apart
 or nested, because the scanners agree; the text outside the rewritten windows
 is copied once and in order exactly when none of them nests in another.
 */
module TiebreakText {
  import opened SqlScan
  import opened Tiebreak
  import opened Options

  // ---------------------------------------------------------------------
  // Windows are apart or nested
  // ---------------------------------------------------------------------

  lemma {:induction false} PlainReach(sql: string, at: nat, to: nat)
    requires at <= to <= |sql| && forall k :: at <= k < to ==> !Quote(sql[k])
    ensures Reach(sql, at, to)
    decreases |sql| - at
  {
    if at == to {
    } else {
      PlainReach(sql, at + 1, to);
    }
  }

  /** An unquoted parenthesis opened inside a closed one is closed inside it. */
  lemma InnerClosesFirst(sql: string, outer: nat, inner: nat)
    requires outer < inner < |sql| && Reach(sql, 0, outer) && Reach(sql, 0, inner)
    requires sql[outer] == '(' && sql[inner] == '('
    requires inner < ClosingFrom(sql, outer, 0)
    ensures 0 <= ClosingFrom(sql, inner, 0) < ClosingFrom(sql, outer, 0)
  {
    var close := ClosingFrom(sql, outer, 0);
    OnePath(sql, 0, outer, inner);
    ClosingIsLeast(sql, outer, 0);
    OnePath(sql, outer, inner, close);
    StaysOpen(sql, outer + 1, 1, inner);
    assert Deeper(sql, inner, close) <= 0;
    NotOpenStill(sql, inner, close);
  }

  lemma NotOpenStill(sql: string, open: nat, to: nat)
    requires open < to && open < |sql| && Reach(sql, open, to) && sql[open] == '(' && Deeper(sql, open, to) <= 0
    ensures 0 <= ClosingFrom(sql, open, 0) < to
  {
    var close := ClosingFrom(sql, open, 0);
    if close == -1 || to <= close {
      StaysOpen(sql, open + 1, 1, to);
      assert false;
    }
  }

  /** A window the scanners found: it opens outside quotes and closes where its
      parenthesis does. */
  predicate Found(sql: string, w: Window) {
    && w.open < |sql| && Reach(sql, 0, w.open) && sql[w.open] == '('
    && w.close == ClosingFrom(sql, w.open, 0)
  }

  predicate Apart(a: Window, b: Window) { a.close < b.open }

  predicate Nested(outer: Window, inner: Window) { outer.open < inner.open && inner.close < outer.close }

  lemma ClosesAfter(sql: string, w: Window)
    requires Found(sql, w)
    ensures w.open < w.close < |sql| && sql[w.close] == ')'
  {
    ClosingIsLeast(sql, w.open, 0);
  }

  lemma ApartOrNested(sql: string, a: Window, b: Window)
    requires Found(sql, a) && Found(sql, b) && a.open < b.open
    ensures Apart(a, b) || Nested(a, b)
  {
    ClosesAfter(sql, a);
    ClosesAfter(sql, b);
    if b.open < a.close {
      InnerClosesFirst(sql, a.open, b.open);
    }
  }

  // ---------------------------------------------------------------------
  // The windows of a rewrite, in order
  // ---------------------------------------------------------------------

  lemma {:induction false} MarksIncrease(sql: string, at: nat, depth: int)
    ensures forall i :: 0 <= i < |MarksFrom(sql, at, depth)| ==> MarksFrom(sql, at, depth)[i].at >= at
    ensures forall i, j :: 0 <= i < j < |MarksFrom(sql, at, depth)| ==>
      MarksFrom(sql, at, depth)[i].at < MarksFrom(sql, at, depth)[j].at
    decreases |sql| - at
  {
    if at >= |sql| {
    } else {
      MarksIncrease(sql, Next(sql, at), depth + Sign(sql[at]));
    }
  }

  lemma InertWithin(sql: string, mark: Mark, k: nat)
    requires Marked(sql, 0, 0, mark) && mark.at < k < mark.end
    ensures mark.end <= |sql| && Inert(sql, k)
  {
    KeywordIsInert(sql, mark.at);
  }

  /** Between a keyword and the parenthesis after it stands nothing but space. */
  lemma OnlySpaceBetween(sql: string, mark: Mark, open: nat, k: nat)
    requires Marked(sql, 0, 0, mark) && open == OpenAfter(sql, mark.end) && open < |sql| && sql[open] == '('
    ensures mark.at < open
    ensures mark.at <= k < open ==> !Quote(sql[k])
    ensures mark.at < k <= open ==> KeywordAt(sql, k).None?
  {
    KeywordShape(sql, mark.at, mark.end - 1);
    assert SpaceEnd(sql, mark.end, |sql|) == open;
    if mark.at < k < mark.end {
      InertWithin(sql, mark, k);
    }
  }

  lemma OpensOutsideQuotes(sql: string, mark: Mark, open: nat)
    requires Marked(sql, 0, 0, mark) && open == OpenAfter(sql, mark.end) && open < |sql| && sql[open] == '('
    ensures mark.at < open && Reach(sql, 0, open)
  {
    forall k | mark.at <= k < open ensures !Quote(sql[k]) {
      OnlySpaceBetween(sql, mark, open, k);
    }
    OnlySpaceBetween(sql, mark, open, open);
    PlainReach(sql, mark.at, open);
    PathsJoin(sql, 0, mark.at, open);
  }

  /** A rewritten window is one the scanners found. */
  lemma RewriteIsFound(sql: string, all: seq<Mark>, index: nat)
    requires all == MarksFrom(sql, 0, 0) && index < |all| && StepAt(sql, all, index).Rewrite?
    ensures Found(sql, StepAt(sql, all, index).window)
    ensures all[index].at < StepAt(sql, all, index).window.open
  {
    MarksAreAll(sql, 0, 0, all[index]);
    OpensOutsideQuotes(sql, all[index], StepAt(sql, all, index).window.open);
  }

  /** It opens before the next keyword. */
  lemma OpensBefore(sql: string, all: seq<Mark>, index: nat, later: nat)
    requires all == MarksFrom(sql, 0, 0) && index < later < |all| && StepAt(sql, all, index).Rewrite?
    ensures StepAt(sql, all, index).window.open < all[later].at
  {
    MarksAreAll(sql, 0, 0, all[index]);
    MarksAreAll(sql, 0, 0, all[later]);
    OnlySpaceBetween(sql, all[index], StepAt(sql, all, index).window.open, all[later].at);
    MarksIncrease(sql, 0, 0);
  }

  ghost predicate InOrder(sql: string, windows: seq<Window>) {
    && (forall i :: 0 <= i < |windows| ==> Found(sql, windows[i]))
    && (forall i, j :: 0 <= i < j < |windows| ==> windows[i].open < windows[j].open)
  }

  ghost predicate OpenBefore(windows: seq<Window>, at: nat) {
    forall i :: 0 <= i < |windows| ==> windows[i].open < at
  }

  lemma InOrderGrows(sql: string, windows: seq<Window>, w: Window, at: nat)
    requires InOrder(sql, windows) && OpenBefore(windows, at) && Found(sql, w) && at < w.open
    ensures InOrder(sql, windows + [w])
  {
  }

  lemma {:induction false} WindowsOpenBefore(sql: string, all: seq<Mark>, n: nat, later: nat)
    requires all == MarksFrom(sql, 0, 0) && n <= later < |all|
    ensures OpenBefore(Windows(sql, all, n), all[later].at)
  {
    if n == 0 {
    } else {
      WindowsOpenBefore(sql, all, n - 1, later);
      if StepAt(sql, all, n - 1).Rewrite? {
        OpensBefore(sql, all, n - 1, later);
      }
    }
  }

  lemma {:induction false} WindowsInOrder(sql: string, all: seq<Mark>, n: nat)
    requires all == MarksFrom(sql, 0, 0) && n <= |all|
    ensures InOrder(sql, Windows(sql, all, n))
  {
    if n == 0 {
    } else {
      WindowsInOrder(sql, all, n - 1);
      NextInOrder(sql, all, n, Windows(sql, all, n - 1), Windows(sql, all, n), StepAt(sql, all, n - 1));
    }
  }

  lemma NextInOrder(sql: string, all: seq<Mark>, n: nat, before: seq<Window>, after: seq<Window>, step: Step)
    requires all == MarksFrom(sql, 0, 0) && 0 < n <= |all|
    requires before == Windows(sql, all, n - 1) && InOrder(sql, before) && step == StepAt(sql, all, n - 1)
    requires after == if step.Rewrite? then before + [step.window] else before
    ensures InOrder(sql, after)
  {
    if step.Rewrite? {
      var at := all[n - 1].at;
      assert OpenBefore(before, at) by {
        WindowsOpenBefore(sql, all, n - 1, n - 1);
      }
      assert Found(sql, step.window) && at < step.window.open by {
        RewriteIsFound(sql, all, n - 1);
      }
      InOrderGrows(sql, before, step.window, at);
    }
  }

  // ---------------------------------------------------------------------
  // The text that is copied
  // ---------------------------------------------------------------------

  function Span(from: nat, end: nat): (positions: seq<nat>)
    ensures |positions| == if from <= end then end - from else 0
    ensures forall i :: 0 <= i < |positions| ==> positions[i] == from + i
  {
    seq(if from <= end then end - from else 0, i requires 0 <= i => from + i)
  }

  lemma SpanStarts(from: nat, end: nat)
    requires from < end
    ensures from in Span(from, end)
  {
    assert Span(from, end)[0] == from;
  }

  lemma SpanNext(from: nat, end: nat)
    requires from <= end
    ensures Span(from, end + 1) == Span(from, end) + [end]
  {
  }

  /** The positions of the statement copied before the last of these windows. */
  function Copied(windows: seq<Window>): seq<nat> {
    if windows == [] then [] else
      var n := |windows| - 1;
      Copied(windows[..n]) + Span(CopiedTo(windows[..n]), windows[n].open + 1)
  }

  /** Strictly inside a rewritten window. */
  predicate Inside(windows: seq<Window>, at: nat) {
    exists i :: 0 <= i < |windows| && windows[i].open < at < windows[i].close
  }

  /** The positions before `end` outside every rewritten window, in order. */
  function Outside(windows: seq<Window>, end: nat): seq<nat> {
    if end == 0 then []
    else if Inside(windows, end - 1) then Outside(windows, end - 1)
    else Outside(windows, end - 1) + [end - 1]
  }

  predicate NoneNests(windows: seq<Window>) {
    forall i, j :: 0 <= i < j < |windows| ==> !Nested(windows[i], windows[j])
  }

  lemma {:induction false} OutsideNeverInside(windows: seq<Window>, end: nat, at: nat)
    ensures at in Outside(windows, end) ==> !Inside(windows, at)
  {
    if end == 0 {
    } else {
      OutsideNeverInside(windows, end - 1, at);
    }
  }

  /** A window that opens at `end` or later does not matter before it. */
  lemma {:induction false} OutsideGrows(windows: seq<Window>, w: Window, end: nat)
    requires end <= w.open + 1
    ensures Outside(windows + [w], end) == Outside(windows, end)
  {
    if end == 0 {
    } else {
      OutsideGrows(windows, w, end - 1);
      var more := windows + [w];
      assert Inside(windows, end - 1) ==> Inside(more, end - 1) by {
        if Inside(windows, end - 1) {
          var i :| 0 <= i < |windows| && windows[i].open < end - 1 < windows[i].close;
          assert more[i] == windows[i];
        }
      }
    }
  }

  lemma {:induction false} OutsideSkips(windows: seq<Window>, i: nat, end: nat)
    requires i < |windows| && windows[i].open < end <= windows[i].close
    ensures Outside(windows, end) == Outside(windows, windows[i].open + 1)
    decreases end
  {
    if end == windows[i].open + 1 {
    } else {
      assert Inside(windows, end - 1);
      OutsideSkips(windows, i, end - 1);
    }
  }

  lemma {:induction false} OutsideTail(windows: seq<Window>, from: nat, end: nat)
    requires from <= end && forall at: nat :: from <= at < end ==> !Inside(windows, at)
    ensures Outside(windows, end) == Outside(windows, from) + Span(from, end)
    decreases end
  {
    if from == end {
    } else {
      OutsideTail(windows, from, end - 1);
      SpanNext(from, end - 1);
    }
  }

  lemma AllApart(sql: string, windows: seq<Window>)
    requires InOrder(sql, windows) && NoneNests(windows)
    ensures forall i, j :: 0 <= i < j < |windows| ==> windows[i].open < windows[i].close < windows[j].open
  {
    forall i, j | 0 <= i < j < |windows| ensures windows[i].open < windows[i].close < windows[j].open {
      ClosesAfter(sql, windows[i]);
      ApartOrNested(sql, windows[i], windows[j]);
    }
  }

  lemma {:induction false} ApartCopiesOutside(sql: string, windows: seq<Window>, end: nat)
    requires InOrder(sql, windows) && NoneNests(windows) && CopiedTo(windows) <= end
    ensures Copied(windows) + Span(CopiedTo(windows), end) == Outside(windows, end)
    decreases |windows|
  {
    if windows == [] {
      OutsideTail(windows, 0, end);
      assert Outside(windows, 0) == [];
    } else {
      var n := |windows| - 1;
      var before, w := windows[..n], windows[n];
      assert windows == before + [w];
      AllApart(sql, windows);
      ApartCopiesOutside(sql, before, w.open + 1);
      LastCopied(sql, before, w, end);
    }
  }

  lemma LastCopied(sql: string, before: seq<Window>, w: Window, end: nat)
    requires InOrder(sql, before + [w]) && NoneNests(before + [w]) && w.close <= end
    ensures Outside(before + [w], end) == Outside(before, w.open + 1) + Span(w.close, end)
  {
    var windows := before + [w];
    AllApart(sql, windows);
    assert windows[|before|] == w;
    OutsideGrows(before, w, w.open + 1);
    ClosesAfter(sql, w);
    OutsideSkips(windows, |before|, w.close);
    forall at: nat | w.close <= at < end ensures !Inside(windows, at) {
      assert forall i :: 0 <= i < |before| ==> windows[i].close < windows[|before|].open;
    }
    OutsideTail(windows, w.close, end);
  }

  lemma InsideGrows(windows: seq<Window>, w: Window, at: nat)
    requires Inside(windows, at)
    ensures Inside(windows + [w], at)
  {
    var i :| 0 <= i < |windows| && windows[i].open < at < windows[i].close;
    assert (windows + [w])[i] == windows[i];
  }

  /** A position inside a rewritten window is copied all the same, or is the one
      copying goes on from. */
  ghost predicate CopiesInside(windows: seq<Window>) {
    || Inside(windows, CopiedTo(windows))
    || exists at :: at in Copied(windows) && Inside(windows, at)
  }

  lemma NestingCopiesInside(sql: string, windows: seq<Window>, i: nat)
    requires InOrder(sql, windows) && i < |windows| - 1 && Nested(windows[i], windows[|windows| - 1])
    ensures CopiesInside(windows)
  {
    ClosesAfter(sql, windows[|windows| - 1]);
  }

  lemma CopyingGoesBack(sql: string, before: seq<Window>, w: Window)
    requires before != [] && InOrder(sql, before + [w]) && CopiesInside(before)
    ensures CopiesInside(before + [w])
  {
    var all, last := before + [w], before[|before| - 1];
    assert all[..|before|] == before && all[|before| - 1] == last && all[|before|] == w;
    if Inside(before, last.close) {
      ClosesAfter(sql, last);
      ApartOrNested(sql, last, w);
      if Apart(last, w) {
        InsideGrows(before, w, last.close);
        SpanStarts(last.close, w.open + 1);
        assert last.close in Copied(all);
      } else {
        NestingCopiesInside(sql, all, |before| - 1);
      }
    } else {
      var at :| at in Copied(before) && Inside(before, at);
      InsideGrows(before, w, at);
      assert at in Copied(all);
    }
  }

  lemma NoneNestsGrows(before: seq<Window>, w: Window)
    requires NoneNests(before)
    ensures (forall i :: 0 <= i < |before| ==> !Nested(before[i], w)) ==> NoneNests(before + [w])
  {
  }

  /** Where one window nests in another, copying goes back into the outer one. */
  lemma {:induction false} SomeNestCopiesInside(sql: string, windows: seq<Window>)
    requires InOrder(sql, windows) && !NoneNests(windows)
    ensures CopiesInside(windows)
    decreases |windows|
  {
    var n := |windows| - 1;
    var before, w := windows[..n], windows[n];
    assert windows == before + [w];
    if NoneNests(before) {
      NoneNestsGrows(before, w);
      var i :| 0 <= i < n && Nested(before[i], w);
      NestingCopiesInside(sql, windows, i);
    } else {
      SomeNestCopiesInside(sql, before);
      CopyingGoesBack(sql, before, w);
    }
  }

  /** The positions of the statement a rewrite copies, in the order it does. */
  function AllCopied(sql: string, windows: seq<Window>): seq<nat> {
    Copied(windows) + Span(CopiedTo(windows), |sql|)
  }

  lemma LastCloses(sql: string, windows: seq<Window>)
    requires InOrder(sql, windows) && windows != []
    ensures CopiedTo(windows) < |sql|
  {
    ClosesAfter(sql, windows[|windows| - 1]);
  }

  /** The rewrite copies the text outside the rewritten windows, all of it, once
      and in order, if and only if none of those windows nests in another. */
  lemma OutsideIsKeptIff(sql: string)
    ensures var all := MarksFrom(sql, 0, 0); var windows := Windows(sql, all, |all|);
      AllCopied(sql, windows) == Outside(windows, |sql|) <==> NoneNests(windows)
  {
    var all := MarksFrom(sql, 0, 0);
    WindowsInOrder(sql, all, |all|);
    CopiedIsOutsideIff(sql, Windows(sql, all, |all|));
  }

  lemma CopiedIsOutsideIff(sql: string, windows: seq<Window>)
    requires InOrder(sql, windows)
    ensures AllCopied(sql, windows) == Outside(windows, |sql|) <==> NoneNests(windows)
  {
    if windows != [] {
      LastCloses(sql, windows);
    }
    if NoneNests(windows) {
      ApartCopiesOutside(sql, windows, |sql|);
    } else {
      SomeNestCopiesInside(sql, windows);
      var at :| at in AllCopied(sql, windows) && Inside(windows, at) by {
        SpanStarts(CopiedTo(windows), |sql|);
      }
      OutsideNeverInside(windows, |sql|, at);
    }
  }

  // ---------------------------------------------------------------------
  // The copied text is what the result holds besides the new windows
  // ---------------------------------------------------------------------

  function TextAt(sql: string, positions: seq<nat>): (text: string)
    ensures |text| == |positions|
    ensures forall i :: 0 <= i < |text| ==> text[i] == if positions[i] < |sql| then sql[positions[i]] else ' '
  {
    seq(|positions|, i requires 0 <= i < |positions| => if positions[i] < |sql| then sql[positions[i]] else ' ')
  }

  function Blank(n: nat): (texts: seq<string>)
    ensures |texts| == n && forall i :: 0 <= i < n ==> texts[i] == []
  {
    seq(n, i => [])
  }

  lemma TextConcat(sql: string, a: seq<nat>, b: seq<nat>)
    ensures TextAt(sql, a + b) == TextAt(sql, a) + TextAt(sql, b)
  {
  }

  lemma TextOfSpan(sql: string, from: nat, end: nat)
    requires end <= |sql|
    ensures TextAt(sql, Span(from, end)) == Cut(sql, from, end)
  {
  }

  /** With its new windows blank, the result is the text at the copied positions. */
  lemma {:induction false} BlankIsCopied(sql: string, windows: seq<Window>)
    requires forall i :: 0 <= i < |windows| ==> windows[i].open < |sql|
    ensures Written(sql, windows, Blank(|windows|)) == TextAt(sql, Copied(windows))
    decreases |windows|
  {
    if windows == [] {
    } else {
      var n := |windows| - 1;
      var before := windows[..n];
      BlankIsCopied(sql, before);
      assert Blank(n + 1)[..n] == Blank(n);
      TextConcat(sql, Copied(before), Span(CopiedTo(before), windows[n].open + 1));
      TextOfSpan(sql, CopiedTo(before), windows[n].open + 1);
    }
  }

  /** So where no window nests, the result with its new windows blank is the
      statement's own text outside them. */
  lemma UnnestedKeepsText(sql: string)
    ensures var all := MarksFrom(sql, 0, 0); var windows := Windows(sql, all, |all|);
      NoneNests(windows) ==>
        Written(sql, windows, Blank(|windows|)) + Cut(sql, CopiedTo(windows), |sql|) ==
        TextAt(sql, Outside(windows, |sql|))
  {
    var all := MarksFrom(sql, 0, 0);
    var windows := Windows(sql, all, |all|);
    WindowsInOrder(sql, all, |all|);
    BlankIsCopied(sql, windows);
    TextConcat(sql, Copied(windows), Span(CopiedTo(windows), |sql|));
    TextOfSpan(sql, CopiedTo(windows), |sql|);
    OutsideIsKeptIff(sql);
  }

  /** The text each window has already. */
  function OwnTexts(sql: string, windows: seq<Window>): (texts: seq<string>)
    ensures |texts| == |windows|
  {
    if windows == [] then [] else
      var w := windows[|windows| - 1];
      OwnTexts(sql, windows[..|windows| - 1]) + [Cut(sql, w.open + 1, w.close)]
  }

  lemma Rejoined(sql: string, a: nat, b: nat, c: nat)
    requires a <= b <= c <= |sql|
    ensures sql[..a] + Cut(sql, a, b) + Cut(sql, b, c) == sql[..c]
  {
  }

  /** Each window opens after the one before it has closed. */
  ghost predicate OneByOne(sql: string, windows: seq<Window>) {
    windows == [] ||
      (var before, w := windows[..|windows| - 1], windows[|windows| - 1];
       OneByOne(sql, before) && CopiedTo(before) <= w.open < w.close <= |sql|)
  }

  lemma {:induction false} ApartIsOneByOne(sql: string, windows: seq<Window>)
    requires forall i :: 0 <= i < |windows| ==> windows[i].open < windows[i].close <= |sql|
    requires forall i, j :: 0 <= i < j < |windows| ==> windows[i].close < windows[j].open
    ensures OneByOne(sql, windows)
  {
    if windows == [] {
    } else {
      ApartIsOneByOne(sql, windows[..|windows| - 1]);
    }
  }

  lemma {:induction false} OwnTextsWritten(sql: string, windows: seq<Window>, end: nat)
    requires OneByOne(sql, windows) && end == CopiedTo(windows)
    ensures end <= |sql| && Written(sql, windows, OwnTexts(sql, windows)) == sql[..end]
  {
    if windows == [] {
    } else {
      var before, w := windows[..|windows| - 1], windows[|windows| - 1];
      assert windows == before + [w];
      OwnTextsWritten(sql, before, CopiedTo(before));
      WrittenNext(sql, before, w, OwnTexts(sql, before), Cut(sql, w.open + 1, w.close));
      Rejoined(sql, CopiedTo(before), w.open + 1, w.close);
    }
  }

  lemma UnnestedOneByOne(sql: string, windows: seq<Window>)
    requires InOrder(sql, windows) && NoneNests(windows)
    ensures OneByOne(sql, windows)
  {
    forall i | 0 <= i < |windows| ensures windows[i].open < windows[i].close <= |sql| {
      ClosesAfter(sql, windows[i]);
    }
    AllApart(sql, windows);
    ApartIsOneByOne(sql, windows);
  }

  /** Each new text goes where its window's old one was: written with the old
      texts, where no window nests, the result is the statement itself. */
  lemma OwnTextsGiveTheStatement(sql: string, windows: seq<Window>)
    requires InOrder(sql, windows) && NoneNests(windows)
    ensures Written(sql, windows, OwnTexts(sql, windows)) + Cut(sql, CopiedTo(windows), |sql|) == sql
  {
    var end := CopiedTo(windows);
    assert OneByOne(sql, windows) by {
      UnnestedOneByOne(sql, windows);
    }
    OwnTextsWritten(sql, windows, end);
    CutTail(sql, end);
  }

  lemma CutTail(sql: string, end: nat)
    requires end <= |sql|
    ensures sql[..end] + Cut(sql, end, |sql|) == sql
  {
  }

  /** The `id` an ordered window gains is put in inside the window. */
  lemma IdIsInside(sql: string, all: seq<Mark>, index: nat)
    requires all == MarksFrom(sql, 0, 0) && index < |all| && StepAt(sql, all, index).Rewrite?
    requires StepAt(sql, all, index).window.spec.Keyed?
    ensures var w := StepAt(sql, all, index).window; w.open < w.spec.end <= w.close
  {
    var w := StepAt(sql, all, index).window;
    RewriteIsFound(sql, all, index);
    ClosesAfter(sql, w);
    if w.spec.framed {
      var k :| index < k < |all| && all[k] == FrameIn(all, index, w.close).value;
      OpensBefore(sql, all, index, k);
    }
  }

  // ---------------------------------------------------------------------
  // A statement whose windows nest
  // ---------------------------------------------------------------------

  lemma OverAt(sql: string, at: nat)
    requires at + 4 < |sql| && sql[at] == 'O' && sql[at + 1] == 'V' && sql[at + 2] == 'E' && sql[at + 3] == 'R'
    requires sql[at + 4] == '('
    ensures Keyword(sql, at) == Some(Hit(Over, 4))
  {
    var limit := Reading(sql, at);
    assert !Starts(sql, at, limit, "ORDER") by {
      assert !Spells(sql[at + 1], "ORDER"[1]);
    }
    var w := WORDS;
    assert KeywordIn(sql, at, w[7..]) == Some(Hit(Over, 4)) by {
      assert w[7..][0] == (Over, "OVER");
    }
    assert forall k :: 0 <= k < 7 ==> !Spells(sql[at], w[k].1[0]);
    PassOver(sql, at, w, 7);
  }

  lemma {:induction false} PassOver(sql: string, at: nat, words: seq<(Word, string)>, n: nat)
    requires n <= |words| && at < |sql|
    requires forall k :: 0 <= k < n ==> words[k].1 != [] && !Spells(sql[at], words[k].1[0])
    ensures KeywordIn(sql, at, words) == KeywordIn(sql, at, words[n..])
  {
    if n > 0 {
      assert !Starts(sql, at, Reading(sql, at), words[0].1) by {
        assert !Spells(sql[at + 0], words[0].1[0]);
      }
      PassOver(sql, at, words[1..], n - 1);
      assert words[1..][n - 1..] == words[n..];
    } else {
      assert words[0..] == words;
    }
  }

  const NESTED := "OVER(OVER())"

  ghost predicate OverOver(sql: string) {
    && |sql| == 12
    && sql[0] == sql[5] == 'O' && sql[1] == sql[6] == 'V' && sql[2] == sql[7] == 'E' && sql[3] == sql[8] == 'R'
    && sql[4] == sql[9] == '(' && sql[10] == sql[11] == ')'
  }

  lemma ParenthesisStep(sql: string, at: nat, depth: int)
    requires at < |sql| && Sign(sql[at]) != 0
    ensures MarksFrom(sql, at, depth) == MarksFrom(sql, at + 1, depth + Sign(sql[at]))
  {
  }

  lemma NestedMarks(sql: string)
    requires OverOver(sql)
    ensures MarksFrom(sql, 0, 0) == [Mark(Over, 0, 4, 0), Mark(Over, 5, 9, 1)]
  {
    OverAt(sql, 0);
    KeywordStep(sql, 0, 0);
    ParenthesisStep(sql, 4, 0);
    OverAt(sql, 5);
    KeywordStep(sql, 5, 1);
    ParenthesisStep(sql, 9, 1);
    ParenthesisStep(sql, 10, 2);
    ParenthesisStep(sql, 11, 1);
  }

  lemma ClosingStep(sql: string, at: nat, depth: int)
    requires at < |sql| && !Quote(sql[at])
    ensures ClosingFrom(sql, at, depth) ==
      if sql[at] == ')' && depth == 1 then at else ClosingFrom(sql, at + 1, depth + Sign(sql[at]))
  {
  }

  lemma NestedCloses(sql: string)
    requires OverOver(sql)
    ensures ClosingFrom(sql, 9, 0) == 10 && ClosingFrom(sql, 4, 0) == 11
  {
    ClosingStep(sql, 9, 0);
    ClosingStep(sql, 10, 1);
    ClosingStep(sql, 4, 0);
    ClosingStep(sql, 5, 1);
    ClosingStep(sql, 6, 1);
    ClosingStep(sql, 7, 1);
    ClosingStep(sql, 8, 1);
    ClosingStep(sql, 9, 1);
    ClosingStep(sql, 10, 2);
    ClosingStep(sql, 11, 1);
  }

  /** An OVER whose window says nothing of order is rewritten. */
  lemma PlainWindow(sql: string, all: seq<Mark>, index: nat, close: nat)
    requires index < |all| && all[index].word == Over && all[index].end < |sql| && sql[all[index].end] == '('
    requires close == ClosingFrom(sql, all[index].end, 0)
    requires forall k :: index < k < |all| ==> all[k].word == Over
    ensures var step := StepAt(sql, all, index);
      step.Rewrite? && step.window.open == all[index].end && step.window.close == close
  {
    NothingInside(all, index + 1, close, all[index].depth + 1, {OrderBy});
    NothingInside(all, index + 1, close, all[index].depth + 1, {Rows, Word.Range, Groups});
  }

  lemma {:induction false} NothingInside(all: seq<Mark>, from: nat, close: int, depth: int, wanted: set<Word>)
    requires forall k :: from <= k < |all| ==> all[k].word !in wanted
    ensures FirstInside(all, from, close, depth, wanted).None?
    decreases |all| - from
  {
    if from >= |all| {
    } else {
      NothingInside(all, from + 1, close, depth, wanted);
    }
  }

  lemma NestedWindows(sql: string, all: seq<Mark>) returns (windows: seq<Window>)
    requires OverOver(sql) && all == MarksFrom(sql, 0, 0)
    ensures |all| == 2 && windows == Windows(sql, all, 2) && |windows| == 2
    ensures windows[0].open == 4 && windows[0].close == 11 && windows[1].open == 9 && windows[1].close == 10
  {
    NestedMarks(sql);
    NestedCloses(sql);
    PlainWindow(sql, all, 0, 11);
    PlainWindow(sql, all, 1, 10);
    windows := Windows(sql, all, 2);
    assert Windows(sql, all, 0) == [];
    assert Windows(sql, all, 1) == [StepAt(sql, all, 0).window];
  }

  /** A statement for which the rewrite copies the inner closing parenthesis a
      second time. */
  lemma NestedTextIsDuplicated()
    ensures var all := MarksFrom(NESTED, 0, 0); var windows := Windows(NESTED, all, |all|);
      && AllCopied(NESTED, windows) == [0, 1, 2, 3, 4, 10, 11]
      && Outside(windows, |NESTED|) != AllCopied(NESTED, windows)
  {
    NestedFails(NESTED);
  }

  lemma NestedFails(sql: string)
    requires OverOver(sql)
    ensures var all := MarksFrom(sql, 0, 0); var windows := Windows(sql, all, |all|);
      && AllCopied(sql, windows) == [0, 1, 2, 3, 4, 10, 11]
      && Outside(windows, |sql|) != AllCopied(sql, windows)
  {
    var windows := NestedWindows(sql, MarksFrom(sql, 0, 0));
    assert Nested(windows[0], windows[1]);
    NestedCopies(sql, windows);
    OutsideIsKeptIff(sql);
  }

  lemma NestedCopies(sql: string, windows: seq<Window>)
    requires |sql| == 12 && |windows| == 2
    requires windows[0].open == 4 && windows[0].close == 11 && windows[1].open == 9 && windows[1].close == 10
    ensures AllCopied(sql, windows) == [0, 1, 2, 3, 4, 10, 11]
  {
    assert windows[..1] == [windows[0]] && windows[..1][..0] == [];
    assert Copied(windows[..1]) == Span(0, 5);
    assert Span(11, 10) == [];
    assert Copied(windows) == Span(0, 5);
    assert Span(0, 5) == [0, 1, 2, 3, 4] && Span(10, 12) == [10, 11];
  }
}
