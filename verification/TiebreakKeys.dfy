/**
 Where the window rewrite puts `id`. It is meant to follow the sort keys of the
 window's ORDER BY, and does so exactly when no frame keyword stands before the
 ORDER BY.
 */
module TiebreakKeys {
  import opened Options
  import opened SqlScan
  import opened Tiebreak
  import opened TiebreakText

  /** A parenthesis or a keyword is not inside another keyword. */
  lemma NotInside(sql: string, mark: Mark, k: nat)
    requires Marked(sql, 0, 0, mark) && k < |sql| && (Sign(sql[k]) != 0 || KeywordAt(sql, k).Some?)
    ensures mark.at < mark.end && (k <= mark.at || mark.end <= k)
  {
    KeywordIsInert(sql, mark.at);
    assert mark.at < k < mark.end ==> Inert(sql, k);
  }

  lemma InsideIsMarked(sql: string, all: seq<Mark>, index: nat, close: int, found: Option<Mark>)
    requires all == MarksFrom(sql, 0, 0) && index < |all|
    requires found == OrderIn(all, index, close) || found == FrameIn(all, index, close)
    ensures found.Some? ==> Marked(sql, 0, 0, found.value)
  {
    if found.Some? {
      var k :| index < k < |all| && all[k] == found.value;
      MarksAreAll(sql, 0, 0, all[k]);
    }
  }

  /** The `id` an ordered window gains stands after its ORDER BY if and only if
      the ORDER BY stands before its frame, where it has one. */
  lemma IdFollowsOrderByIff(sql: string, all: seq<Mark>, index: nat)
    requires all == MarksFrom(sql, 0, 0) && index < |all| && StepAt(sql, all, index).Rewrite?
    requires StepAt(sql, all, index).window.spec.Keyed?
    ensures var w := StepAt(sql, all, index).window;
      var order, frame := OrderIn(all, index, w.close).value, FrameIn(all, index, w.close);
      order.end <= w.spec.end <==> frame.None? || order.at < frame.value.at
  {
    var w := StepAt(sql, all, index).window;
    var order, frame := OrderIn(all, index, w.close), FrameIn(all, index, w.close);
    RewriteIsFound(sql, all, index);
    ClosesAfter(sql, w);
    InsideIsMarked(sql, all, index, w.close, order);
    InsideIsMarked(sql, all, index, w.close, frame);
    NotInside(sql, order.value, if frame.Some? then frame.value.at else w.close);
  }

  // ---------------------------------------------------------------------
  // A window whose frame keyword comes first
  // ---------------------------------------------------------------------

  const FRAMED := "OVER(ROWS ORDER BY x)"

  ghost predicate FrameFirst(sql: string) {
    && |sql| == 21
    && sql[0] == 'O' && sql[1] == 'V' && sql[2] == 'E' && sql[3] == 'R' && sql[4] == '('
    && sql[5] == 'R' && sql[6] == 'O' && sql[7] == 'W' && sql[8] == 'S' && sql[9] == ' '
    && sql[10] == 'O' && sql[11] == 'R' && sql[12] == 'D' && sql[13] == 'E' && sql[14] == 'R' && sql[15] == ' '
    && sql[16] == 'B' && sql[17] == 'Y' && sql[18] == ' ' && sql[19] == 'x' && sql[20] == ')'
  }

  lemma RowsAt(sql: string)
    requires FrameFirst(sql)
    ensures KeywordAt(sql, 5) == Some(Hit(Rows, 4))
  {
    assert !Starts(sql, 5, Reading(sql, 5), "ORDER") by {
      assert !Spells(sql[5 + 0], "ORDER"[0]);
    }
    var w := WORDS;
    assert w[8..][0] == (Rows, "ROWS");
    assert forall k :: 0 <= k < 8 ==> !Spells(sql[5], w[k].1[0]);
    PassOver(sql, 5, w, 8);
  }

  lemma OrderByAt(sql: string)
    requires FrameFirst(sql)
    ensures KeywordAt(sql, 10) == Some(Hit(OrderBy, 8))
  {
    assert SpaceEnd(sql, 15, 21) == 16 by {
      assert SpaceEnd(sql, 16, 21) == 16;
    }
  }

  lemma NothingAtX(sql: string)
    requires FrameFirst(sql)
    ensures KeywordAt(sql, 19).None?
  {
    assert !Starts(sql, 19, Reading(sql, 19), "ORDER");
    var w := WORDS;
    assert forall k :: 0 <= k < 11 ==> !Spells(sql[19], w[k].1[0]);
    PassOver(sql, 19, w, 11);
    assert w[11..] == [];
  }

  lemma FramedMarks(sql: string)
    requires FrameFirst(sql)
    ensures MarksFrom(sql, 0, 0) == [Mark(Over, 0, 4, 0), Mark(Rows, 5, 9, 1), Mark(OrderBy, 10, 18, 1)]
  {
    OverAt(sql, 0);
    KeywordStep(sql, 0, 0);
    ParenthesisStep(sql, 4, 0);
    FramedInside(sql);
  }

  lemma FramedInside(sql: string)
    requires FrameFirst(sql)
    ensures MarksFrom(sql, 5, 1) == [Mark(Rows, 5, 9, 1), Mark(OrderBy, 10, 18, 1)]
  {
    RowsAt(sql);
    KeywordStep(sql, 5, 1);
    SkipInert(sql, 9, 10, 1);
    OrderByAt(sql);
    KeywordStep(sql, 10, 1);
    NothingAtX(sql);
    SkipInert(sql, 18, 20, 1);
    ParenthesisStep(sql, 20, 1);
  }

  lemma {:induction false} ClosingSkips(sql: string, at: nat, end: nat, depth: int)
    requires at <= end <= |sql| && forall k :: at <= k < end ==> !Quote(sql[k]) && Sign(sql[k]) == 0
    ensures ClosingFrom(sql, at, depth) == ClosingFrom(sql, end, depth)
    decreases |sql| - at
  {
    if at == end {
    } else {
      ClosingStep(sql, at, depth);
      ClosingSkips(sql, at + 1, end, depth);
    }
  }

  lemma FramedCloses(sql: string)
    requires FrameFirst(sql)
    ensures ClosingFrom(sql, 4, 0) == 20
  {
    ClosingStep(sql, 4, 0);
    ClosingSkips(sql, 5, 20, 1);
    ClosingStep(sql, 20, 1);
  }

  lemma FramedInsides(all: seq<Mark>)
    requires all == [Mark(Over, 0, 4, 0), Mark(Rows, 5, 9, 1), Mark(OrderBy, 10, 18, 1)]
    ensures OrderIn(all, 0, 20) == Some(all[2]) && FrameIn(all, 0, 20) == Some(all[1])
  {
    assert FirstInside(all, 2, 20, 1, {OrderBy}) == Some(all[2]);
  }

  /** A statement whose window gains `, id` before its ORDER BY. */
  lemma IdCanPrecedeTheKeys()
    ensures var all := MarksFrom(FRAMED, 0, 0);
      && |all| == 3 && StepAt(FRAMED, all, 0) == Rewrite(Window(4, 20, Keyed(5, true)))
      && SpecText(FRAMED, Window(4, 20, Keyed(5, true))) == ", id " + FRAMED[5..20]
      && OrderIn(all, 0, 20) == Some(Mark(OrderBy, 10, 18, 1))
  {
    FramedFails(FRAMED);
  }

  lemma FramedFails(sql: string)
    requires FrameFirst(sql)
    ensures var all := MarksFrom(sql, 0, 0);
      && |all| == 3 && StepAt(sql, all, 0) == Rewrite(Window(4, 20, Keyed(5, true)))
      && SpecText(sql, Window(4, 20, Keyed(5, true))) == ", id " + sql[5..20]
      && OrderIn(all, 0, 20) == Some(Mark(OrderBy, 10, 18, 1))
  {
    FramedMarks(sql);
    FramedCloses(sql);
    FramedInsides(MarksFrom(sql, 0, 0));
    assert OpenAfter(sql, 4) == 4;
    assert Keys([]) == [[]] && !IsId([]);
    assert TrimEnd([]) == [];
  }
}
