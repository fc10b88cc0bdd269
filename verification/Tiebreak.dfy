/**
 `tiebroken`: the rewrite that gives every window of a statement a total order.
 It copies the statement up to each window it rewrites and goes on from where
 that window closes.
 */
module Tiebreak {
  import opened SqlScan
  import opened Options

  // ---------------------------------------------------------------------
  // What one OVER becomes
  // ---------------------------------------------------------------------

  function TrimEnd(text: string): string {
    if text != [] && Space(text[|text| - 1]) then TrimEnd(text[..|text| - 1]) else text
  }

  function TrimStart(text: string): string {
    if text != [] && Space(text[0]) then TrimStart(text[1..]) else text
  }

  function Trim(text: string): string { TrimEnd(TrimStart(text)) }

  predicate Is(text: string, upper: string) {
    |text| == |upper| && Starts(text, 0, |text|, upper)
  }

  /** A sort key that is `id`, whichever way it sorts. */
  predicate IsId(key: string) {
    var text := Trim(key);
    && |text| >= 2 && Spells(text[0], 'I') && Spells(text[1], 'D')
    && var rest := TrimStart(text[2..]); rest == [] || Is(rest, "ASC") || Is(rest, "DESC")
  }

  function Comma(keys: string): (at: nat)
    ensures at <= |keys|
  {
    if keys == [] || keys[0] == ',' then 0 else 1 + Comma(keys[1..])
  }

  /** The text between the commas. */
  function Keys(text: string): seq<string> {
    var at := Comma(text);
    [text[..at]] + if at == |text| then [] else Keys(text[at + 1..])
  }

  predicate NamesId(keys: string) {
    exists key :: key in Keys(keys) && IsId(key)
  }

  /** The first mark after `index` that stands directly in the window that
      closes at `close`. */
  function FirstInside(all: seq<Mark>, from: nat, close: int, depth: int, wanted: set<Word>): (mark: Option<Mark>)
    ensures mark.Some? ==> mark.value.at < close && mark.value.word in wanted
    ensures mark.Some? ==> exists k :: from <= k < |all| && all[k] == mark.value
    decreases |all| - from
  {
    if from >= |all| then None
    else if all[from].at < close && all[from].depth == depth && all[from].word in wanted then Some(all[from])
    else FirstInside(all, from + 1, close, depth, wanted)
  }

  function Cut(sql: string, from: nat, to: nat): string {
    if from <= to <= |sql| then sql[from..to] else []
  }

  const FRAME := "ORDER BY id" + " ROWS BETWEEN UNBOUNDED PRECEDING AND UNBOUNDED FOLLOWING"

  /** The window's own ORDER BY, for the OVER at `index`. */
  function OrderIn(all: seq<Mark>, index: nat, close: int): Option<Mark>
    requires index < |all|
  {
    FirstInside(all, index + 1, close, all[index].depth + 1, {OrderBy})
  }

  /** The keyword of its frame. */
  function FrameIn(all: seq<Mark>, index: nat, close: int): Option<Mark>
    requires index < |all|
  {
    FirstInside(all, index + 1, close, all[index].depth + 1, {Rows, Range, Groups})
  }

  /** How a window is rewritten: ordered by `id` under a frame that spans the
      partition, or with `id` put in at `end`, which is its frame's keyword or
      else its close. */
  datatype Spec = Spanning | Keyed(end: nat, framed: bool)

  datatype Window = Window(open: nat, close: nat, spec: Spec)

  datatype Step = Pass | Unclosed | Rewrite(window: Window)

  /** Where the window of an OVER that ends at `end` would open. */
  function OpenAfter(sql: string, end: nat): nat {
    var at := SpaceEnd(sql, end, |sql|);
    if at < |sql| then at else if end > 0 then end - 1 else 0
  }

  /** What the rewrite does at a mark. */
  function StepAt(sql: string, all: seq<Mark>, index: nat): (step: Step)
    requires index < |all|
    ensures step.Rewrite? ==>
      var w := step.window;
      && w.open == OpenAfter(sql, all[index].end) && w.open < |sql| && sql[w.open] == '('
      && w.close == ClosingFrom(sql, w.open, 0)
      && (w.spec.Keyed? ==>
        var frame := FrameIn(all, index, w.close);
        && OrderIn(all, index, w.close).Some? && w.spec.framed == frame.Some?
        && w.spec.end == if frame.Some? then frame.value.at else w.close)
  {
    var mark := all[index];
    var open := OpenAfter(sql, mark.end);
    if mark.word != Over || open >= |sql| || sql[open] != '(' then Pass else
      var close := ClosingFrom(sql, open, 0);
      if close < 0 then Unclosed else
        var order, frame := OrderIn(all, index, close), FrameIn(all, index, close);
        var end := if frame.Some? then frame.value.at else close;
        if order.None? && frame.Some? then Pass
        else if order.None? then Rewrite(Window(open, close, Spanning))
        else if NamesId(Cut(sql, order.value.end, end)) then Pass
        else Rewrite(Window(open, close, Keyed(end, frame.Some?)))
  }

  /** The new text of a window. */
  function SpecText(sql: string, w: Window): string {
    match w.spec
    case Spanning => Trim(Trim(Cut(sql, w.open + 1, w.close)) + " " + FRAME)
    case Keyed(end, framed) =>
      var keys := TrimEnd(Cut(sql, w.open + 1, end)) + ", id";
      if framed then keys + " " + Cut(sql, end, w.close) else keys
  }

  // ---------------------------------------------------------------------
  // The whole rewrite
  // ---------------------------------------------------------------------

  /** The windows rewritten at the first `n` marks. */
  function Windows(sql: string, all: seq<Mark>, n: nat): seq<Window>
    requires n <= |all|
  {
    if n == 0 then [] else
      var before := Windows(sql, all, n - 1);
      var step := StepAt(sql, all, n - 1);
      if step.Rewrite? then before + [step.window] else before
  }

  function CopiedTo(windows: seq<Window>): nat {
    if windows == [] then 0 else windows[|windows| - 1].close
  }

  function Texts(sql: string, windows: seq<Window>): (texts: seq<string>)
    ensures |texts| == |windows|
  {
    if windows == [] then [] else
      Texts(sql, windows[..|windows| - 1]) + [SpecText(sql, windows[|windows| - 1])]
  }

  /** The text written by the time the last of these windows is. */
  function Written(sql: string, windows: seq<Window>, texts: seq<string>): string
    requires |texts| == |windows|
  {
    if windows == [] then [] else
      var n := |windows| - 1;
      Written(sql, windows[..n], texts[..n]) + Cut(sql, CopiedTo(windows[..n]), windows[n].open + 1) + texts[n]
  }

  lemma WriteNext(sql: string, windows: seq<Window>, w: Window, text: string)
    requires text == SpecText(sql, w)
    ensures Written(sql, windows + [w], Texts(sql, windows + [w])) ==
      Written(sql, windows, Texts(sql, windows)) + Cut(sql, CopiedTo(windows), w.open + 1) + text
  {
    var all, texts := windows + [w], Texts(sql, windows);
    assert all[..|windows|] == windows;
    assert Texts(sql, all) == texts + [text];
    WrittenNext(sql, windows, w, texts, text);
  }

  lemma WrittenNext(sql: string, windows: seq<Window>, w: Window, texts: seq<string>, text: string)
    requires |texts| == |windows|
    ensures Written(sql, windows + [w], texts + [text]) ==
      Written(sql, windows, texts) + Cut(sql, CopiedTo(windows), w.open + 1) + text
  {
    assert (windows + [w])[..|windows|] == windows && (texts + [text])[..|windows|] == texts;
  }

  predicate Aborts(sql: string, all: seq<Mark>, n: nat)
    requires n <= |all|
  {
    exists i :: 0 <= i < n && StepAt(sql, all, i).Unclosed?
  }

  /** The text and the place copied to once these windows are rewritten. */
  predicate Reached(sql: string, windows: seq<Window>, text: string, copied: nat) {
    text == Written(sql, windows, Texts(sql, windows)) && copied == CopiedTo(windows)
  }

  /** Copies the statement up to a window and writes the window's new text. */
  method Replace(sql: string, w: Window, text: string, copied: nat, ghost windows: seq<Window>)
    returns (text': string, copied': nat)
    requires Reached(sql, windows, text, copied)
    ensures Reached(sql, windows + [w], text', copied')
  {
    var spec := SpecText(sql, w);
    WriteNext(sql, windows, w, spec);
    return text + Cut(sql, copied, w.open + 1) + spec, w.close;
  }

  /** `tiebroken`: nothing if a window never closes or none changes, and
      otherwise the statement with each window's text replaced in turn. */
  method Tiebroken(sql: string) returns (result: Option<string>)
    ensures var all := MarksFrom(sql, 0, 0); var windows := Windows(sql, all, |all|);
      result == if Aborts(sql, all, |all|) || windows == [] then None
                else Some(Written(sql, windows, Texts(sql, windows)) + Cut(sql, CopiedTo(windows), |sql|))
  {
    var all := Marks(sql);
    var text: string, copied, changed := [], 0, false;
    ghost var windows: seq<Window> := [];
    for index := 0 to |all|
      invariant !Aborts(sql, all, index)
      invariant windows == Windows(sql, all, index)
      invariant Reached(sql, windows, text, copied) && (changed <==> windows != [])
    {
      var step := StepAt(sql, all, index);
      if step.Unclosed? {
        return None;
      }
      if step.Rewrite? {
        text, copied := Replace(sql, step.window, text, copied, windows);
        windows := windows + [step.window];
        changed := true;
      }
    }
    return if changed then Some(text + Cut(sql, copied, |sql|)) else None;
  }
}
