/**
 Reading a stream of text in chunks: commits from a log, resource samples from a
 stats command. What comes out does not depend on where the chunks are cut.
 */
module Streams {
  import opened Options
  import opened Bags

  // ---------------------------------------------------------------------
  // Splitting
  // ---------------------------------------------------------------------

  /** The first `mark` at `from` or after it, or the length of the text. */
  function IndexOf(text: string, mark: char, from: nat): (at: nat)
    requires from <= |text|
    ensures from <= at <= |text| && (at < |text| ==> text[at] == mark)
    ensures forall i :: from <= i < at ==> text[i] != mark
    decreases |text| - from
  {
    if from == |text| || text[from] == mark then from else IndexOf(text, mark, from + 1)
  }

  /** The pieces of the whole text between marks. */
  function Split(text: string, mark: char): (pieces: seq<string>)
    ensures pieces != []
    decreases |text|
  {
    var at := IndexOf(text, mark, 0);
    if at == |text| then [text] else [text[..at]] + Split(text[at + 1..], mark)
  }

  function Init(pieces: seq<string>): seq<string>
    requires pieces != []
  {
    pieces[..|pieces| - 1]
  }

  function Last(pieces: seq<string>): string
    requires pieces != []
  {
    pieces[|pieces| - 1]
  }

  function Join(pieces: seq<string>, mark: char): string
    requires pieces != []
  {
    if |pieces| == 1 then pieces[0] else pieces[0] + [mark] + Join(pieces[1..], mark)
  }

  /** The pieces, none of which holds the mark, make up the text again. */
  lemma {:induction false} SplitJoins(text: string, mark: char)
    ensures Join(Split(text, mark), mark) == text
    ensures forall piece :: piece in Split(text, mark) ==> mark !in piece
    decreases |text|
  {
    var at := IndexOf(text, mark, 0);
    if at < |text| {
      SplitJoins(text[at + 1..], mark);
      assert Split(text, mark)[1..] == Split(text[at + 1..], mark);
      assert text == text[..at] + [mark] + text[at + 1..];
    }
  }

  lemma IndexOfUnique(text: string, mark: char, from: nat, at: nat)
    requires from <= at <= |text| && (at < |text| ==> text[at] == mark)
    requires forall i :: from <= i < at ==> text[i] != mark
    ensures IndexOf(text, mark, from) == at
  {
  }

  /** More text changes the last piece only. */
  lemma {:induction false} SplitMore(text: string, more: string, mark: char)
    ensures Split(text + more, mark) == Init(Split(text, mark)) + Split(Last(Split(text, mark)) + more, mark)
    decreases |text|
  {
    var at := IndexOf(text, mark, 0);
    if at == |text| {
      assert Init(Split(text, mark)) == [];
    } else {
      var head, rest := text[..at], text[at + 1..];
      SplitAt(text, mark, at);
      assert (text + more)[..at] == head && (text + more)[at + 1..] == rest + more;
      IndexOfUnique(text + more, mark, 0, at);
      SplitAt(text + more, mark, at);
      SplitMore(rest, more, mark);
      var pieces := Split(rest, mark);
      InitOfBoth([head], pieces);
      Regroup([head], Init(pieces), Split(Last(pieces) + more, mark));
    }
  }

  lemma SplitAt(text: string, mark: char, at: nat)
    requires at < |text| && at == IndexOf(text, mark, 0)
    ensures Split(text, mark) == [text[..at]] + Split(text[at + 1..], mark)
  {
  }

  /** Where a text's pieces are these and then another's, more of both keeps it so. */
  lemma SplitBoth(text: string, pieces: seq<string>, tail: string, more: string, mark: char)
    requires Split(text, mark) == pieces + Split(tail, mark)
    ensures Split(text + more, mark) == pieces + Split(tail + more, mark)
  {
    var a, b := Split(text, mark), Split(tail, mark);
    SplitMore(text, more, mark);
    SplitMore(tail, more, mark);
    var rest := Split(Last(b) + more, mark);
    InitOfBoth(pieces, b);
    Regroup(pieces, Init(b), rest);
  }

  lemma InitOfBoth(pieces: seq<string>, b: seq<string>)
    requires b != []
    ensures Init(pieces + b) == pieces + Init(b) && Last(pieces + b) == Last(b)
  {
  }

  function Concat(chunks: seq<string>): string {
    if chunks == [] then "" else Concat(chunks[..|chunks| - 1]) + chunks[|chunks| - 1]
  }

  // ---------------------------------------------------------------------
  // Commits of a log
  // ---------------------------------------------------------------------

  const RECORD := '\U{1E}'
  const HEADER := '\U{1D}'

  /** A commit: the text before the header's end, and the text after it. */
  datatype Commit = Commit(header: string, paths: string)

  function Parse(piece: string): Option<Commit> {
    var at := IndexOf(piece, HEADER, 0);
    if at == |piece| then None else Some(Commit(piece[..at], piece[at + 1..]))
  }

  /** A piece is a commit exactly when it has a header's end, and the first one
      parts it. */
  lemma ParseIff(piece: string, commit: Commit)
    ensures Parse(piece) == Some(commit) <==>
      piece == commit.header + [HEADER] + commit.paths && HEADER !in commit.header
    ensures Parse(piece).None? <==> HEADER !in piece
  {
    var at := IndexOf(piece, HEADER, 0);
    if piece == commit.header + [HEADER] + commit.paths && HEADER !in commit.header {
      assert piece[|commit.header|] == HEADER;
      assert forall i :: 0 <= i < |commit.header| ==> piece[i] == commit.header[i];
      assert at == |commit.header|;
      assert piece[..at] == commit.header && piece[at + 1..] == commit.paths;
    }
    if at < |piece| {
      assert piece == piece[..at] + [HEADER] + piece[at + 1..];
      assert piece[at] in piece;
      assert forall c :: c in piece[..at] ==> c != HEADER;
    }
  }

  function ParseAll(pieces: seq<string>): seq<Commit> {
    if pieces == [] then [] else
      var before := ParseAll(pieces[..|pieces| - 1]);
      var commit := Parse(pieces[|pieces| - 1]);
      if commit.Some? then before + [commit.value] else before
  }

  function Rest(text: string): string { if text == "" then "" else text[1..] }

  /** What has been yielded, and what is still in the buffer, of what was read. */
  ghost predicate Read(seen: string, buffer: string, pieces: seq<string>) {
    && (buffer == "" ==> seen == "")
    && Split(Rest(seen), RECORD) == pieces + Split(Rest(buffer), RECORD)
  }

  lemma ReadMore(seen: string, buffer: string, pieces: seq<string>, chunk: string)
    requires Read(seen, buffer, pieces) && (seen == "" ==> buffer == "" && pieces == [])
    ensures Read(seen + chunk, buffer + chunk, pieces)
  {
    if buffer == "" {
      assert seen + chunk == chunk == buffer + chunk;
    } else {
      assert Rest(seen + chunk) == Rest(seen) + chunk && Rest(buffer + chunk) == Rest(buffer) + chunk;
      SplitBoth(Rest(seen), pieces, Rest(buffer), chunk, RECORD);
    }
  }

  lemma ReadNext(seen: string, buffer: string, pieces: seq<string>, at: nat)
    requires Read(seen, buffer, pieces) && 1 <= at < |buffer| && at == IndexOf(buffer, RECORD, 1)
    ensures Read(seen, buffer[at..], pieces + [buffer[1..at]])
  {
    SplitFirst(buffer, at);
    Regroup(pieces, [buffer[1..at]], Split(Rest(buffer[at..]), RECORD));
  }

  lemma SplitFirst(buffer: string, at: nat)
    requires 1 <= at < |buffer| && at == IndexOf(buffer, RECORD, 1)
    ensures Split(Rest(buffer), RECORD) == [buffer[1..at]] + Split(Rest(buffer[at..]), RECORD)
  {
    var rest := Rest(buffer);
    IndexOfUnique(rest, RECORD, 0, at - 1);
    assert rest[..at - 1] == buffer[1..at];
    assert rest[at..] == Rest(buffer[at..]);
  }

  lemma ParseNext(pieces: seq<string>, piece: string)
    ensures ParseAll(pieces + [piece]) ==
      ParseAll(pieces) + if Parse(piece).Some? then [Parse(piece).value] else []
  {
    assert (pieces + [piece])[..|pieces|] == pieces;
  }

  lemma ConcatNext(chunks: seq<string>, k: nat)
    requires k < |chunks|
    ensures Concat(chunks[..k + 1]) == Concat(chunks[..k]) + chunks[k]
  {
    assert chunks[..k + 1][..k] == chunks[..k];
  }

  /** `logRecords`: however the log is cut into chunks, it yields the commits of
      the whole log split at the record mark, its first character left off. */
  method LogRecords(chunks: seq<string>) returns (commits: seq<Commit>)
    ensures commits == ParseAll(Split(Rest(Concat(chunks)), RECORD))
  {
    var buffer := "";
    commits := [];
    ghost var pieces: seq<string> := [];
    for k := 0 to |chunks|
      invariant commits == ParseAll(pieces)
      invariant Read(Concat(chunks[..k]), buffer, pieces)
      invariant Concat(chunks[..k]) == "" ==> buffer == "" && pieces == []
      invariant Split(Rest(buffer), RECORD) == [Rest(buffer)]
    {
      ghost var seen := Concat(chunks[..k]);
      ReadMore(seen, buffer, pieces, chunks[k]);
      ConcatNext(chunks, k);
      buffer := buffer + chunks[k];
      commits, buffer, pieces := Drain(buffer, commits, pieces, seen + chunks[k]);
    }
    assert chunks[..|chunks|] == chunks;
    ParseNext(pieces, Rest(buffer));
    var last := Parse(Rest(buffer));
    if last.Some? {
      commits := commits + [last.value];
    }
  }

  /** Yields every record the buffer holds the end of. */
  method Drain(start: string, yielded: seq<Commit>, ghost before: seq<string>, ghost seen: string)
    returns (commits: seq<Commit>, buffer: string, ghost pieces: seq<string>)
    requires Read(seen, start, before) && yielded == ParseAll(before) && (seen == "" ==> start == "" && before == [])
    ensures Read(seen, buffer, pieces) && commits == ParseAll(pieces)
    ensures seen == "" ==> buffer == "" && pieces == []
    ensures Split(Rest(buffer), RECORD) == [Rest(buffer)]
  {
    buffer, commits, pieces := start, yielded, before;
    while buffer != "" && IndexOf(buffer, RECORD, 1) < |buffer|
      invariant Read(seen, buffer, pieces) && commits == ParseAll(pieces)
      invariant seen == "" ==> buffer == "" && pieces == []
      decreases |buffer|
    {
      var at := IndexOf(buffer, RECORD, 1);
      ReadNext(seen, buffer, pieces, at);
      var record := Parse(buffer[1..at]);
      ParseNext(pieces, buffer[1..at]);
      if record.Some? {
        commits := commits + [record.value];
      }
      pieces := pieces + [buffer[1..at]];
      buffer := buffer[at..];
    }
    if buffer != "" {
      IndexOfUnique(Rest(buffer), RECORD, 0, |buffer| - 1);
    }
  }

  // ---------------------------------------------------------------------
  // Samples of a stats command
  // ---------------------------------------------------------------------

  const NEWLINE := '\n'

  /** The lines of a text that have ended. */
  function Lines(text: string): seq<string> { Init(Split(text, NEWLINE)) }

  /** What each line is a sample of, where it is one. */
  function Samples<Sample>(lines: seq<string>, record: string -> Option<Sample>): seq<Sample> {
    if lines == [] then [] else
      var before := Samples(lines[..|lines| - 1], record);
      var sample := record(lines[|lines| - 1]);
      if sample.Some? then before + [sample.value] else before
  }

  lemma SamplesNext<Sample>(lines: seq<string>, line: string, record: string -> Option<Sample>)
    ensures Samples(lines + [line], record) ==
      if record(line).Some? then Samples(lines, record) + [record(line).value] else Samples(lines, record)
  {
    assert (lines + [line])[..|lines|] == lines;
  }

  /** What has been recorded, and what is still in the buffer, of what was read. */
  ghost predicate Pumped(seen: string, buffered: string, lines: seq<string>) {
    Split(seen, NEWLINE) == lines + Split(buffered, NEWLINE)
  }

  lemma LineNext(seen: string, buffered: string, lines: seq<string>, at: nat)
    requires Pumped(seen, buffered, lines) && at < |buffered| && at == IndexOf(buffered, NEWLINE, 0)
    ensures Pumped(seen, buffered[at + 1..], lines + [buffered[..at]])
  {
    SplitAt(buffered, NEWLINE, at);
    Regroup(lines, [buffered[..at]], Split(buffered[at + 1..], NEWLINE));
  }

  /** `ResourceStream`, over any reading of a line. */
  class ResourceStream<Sample> {
    const record: string -> Option<Sample>
    var samples: seq<Sample>
    var buffered: string
    ghost var seen: string

    /** The samples are those of the lines that have ended in the text so far. */
    ghost predicate Valid()
      reads this
    {
      && samples == Samples(Lines(seen), record)
      && Pumped(seen, buffered, Lines(seen)) && Split(buffered, NEWLINE) == [buffered]
    }

    constructor (record: string -> Option<Sample>)
      ensures Valid() && seen == "" && samples == [] && this.record == record
    {
      this.record := record;
      samples, buffered, seen := [], "", "";
    }

    /** One chunk read by `pump`: it records the lines that end in it, whatever
        was cut where, and only adds to what was recorded. */
    method Read(value: string)
      requires Valid()
      modifies this
      ensures Valid() && seen == old(seen) + value
      ensures old(samples) <= samples
    {
      ghost var lines := Lines(seen);
      SplitBoth(seen, lines, buffered, value, NEWLINE);
      seen := seen + value;
      buffered := buffered + value;
      while IndexOf(buffered, NEWLINE, 0) < |buffered|
        invariant Pumped(seen, buffered, lines) && samples == Samples(lines, record)
        invariant seen == old(seen) + value && old(samples) <= samples
        decreases |buffered|
      {
        var at := IndexOf(buffered, NEWLINE, 0);
        var line := buffered[..at];
        LineNext(seen, buffered, lines, at);
        SamplesNext(lines, line, record);
        var sample := record(line);
        if sample.Some? {
          samples := samples + [sample.value];
        }
        lines := lines + [line];
        buffered := buffered[at + 1..];
      }
      InitOfBoth(lines, [buffered]);
      assert Lines(seen) == lines;
    }

    /** How many samples there are so far. */
    method Count() returns (n: nat)
      ensures n == |samples|
    {
      return |samples|;
    }

    /** The samples from a count on. */
    method Since(start: nat) returns (window: seq<Sample>)
      ensures window == if start <= |samples| then samples[start..] else []
    {
      return if start <= |samples| then samples[start..] else [];
    }
  }

  // ---------------------------------------------------------------------
  // Windows on the stream
  // ---------------------------------------------------------------------

  /** The samples of a stream once its first `t` chunks have been read. */
  function Taken<Sample>(chunks: seq<string>, t: nat, record: string -> Option<Sample>): seq<Sample>
    requires t <= |chunks|
  {
    Samples(Lines(Concat(chunks[..t])), record)
  }

  lemma {:induction false} SamplesOfBoth<Sample>(lines: seq<string>, more: seq<string>,
                                                 record: string -> Option<Sample>)
    ensures Samples(lines, record) <= Samples(lines + more, record)
  {
    if more == [] {
      assert lines + more == lines;
    } else {
      var n := |more| - 1;
      SamplesOfBoth(lines, more[..n], record);
      assert lines + more == (lines + more[..n]) + [more[n]];
      SamplesNext(lines + more[..n], more[n], record);
    }
  }

  /** More text only adds samples. */
  lemma SamplesGrow<Sample>(text: string, more: string, record: string -> Option<Sample>)
    ensures Samples(Lines(text), record) <= Samples(Lines(text + more), record)
  {
    var rest := Split(Last(Split(text, NEWLINE)) + more, NEWLINE);
    SplitMore(text, more, NEWLINE);
    InitOfBoth(Lines(text), rest);
    SamplesOfBoth(Lines(text), Init(rest), record);
  }

  /** So later samples begin with the earlier ones. */
  lemma {:induction false} TakenGrows<Sample>(chunks: seq<string>, t: nat, u: nat, record: string -> Option<Sample>)
    requires t <= u <= |chunks|
    ensures Taken(chunks, t, record) <= Taken(chunks, u, record)
    decreases u
  {
    if t == u {
    } else {
      TakenGrows(chunks, t, u - 1, record);
      TakenNext(chunks, u - 1, record);
      PrefixChain(Taken(chunks, t, record), Taken(chunks, u - 1, record), Taken(chunks, u, record));
    }
  }

  lemma TakenNext<Sample>(chunks: seq<string>, t: nat, record: string -> Option<Sample>)
    requires t < |chunks|
    ensures Taken(chunks, t, record) <= Taken(chunks, t + 1, record)
  {
    ConcatNext(chunks, t);
    SamplesGrow(Concat(chunks[..t]), chunks[t], record);
  }

  lemma PrefixChain<T>(a: seq<T>, b: seq<T>, c: seq<T>)
    requires a <= b <= c
    ensures a <= c
  {
  }

  /** What is taken from one time to a later one. */
  function Window<Sample>(chunks: seq<string>, t: nat, u: nat, record: string -> Option<Sample>): seq<Sample>
    requires t <= u <= |chunks|
  {
    TakenGrows(chunks, t, u, record);
    Taken(chunks, u, record)[|Taken(chunks, t, record)|..]
  }

  ghost predicate Times(times: seq<nat>, end: nat) {
    times != [] && forall i, j :: 0 <= i <= j < |times| ==> times[i] <= times[j] <= end
  }

  /** The windows of consecutive times. */
  ghost predicate Consecutive<Sample>(windows: seq<seq<Sample>>, chunks: seq<string>, times: seq<nat>,
                                      record: string -> Option<Sample>)
    requires Times(times, |chunks|)
  {
    && |windows| == |times| - 1
    && forall i :: 0 <= i < |windows| ==> windows[i] == Window(chunks, times[i], times[i + 1], record)
  }

  lemma WindowsMeet<Sample>(chunks: seq<string>, t: nat, u: nat, v: nat, record: string -> Option<Sample>)
    requires t <= u <= v <= |chunks|
    ensures Window(chunks, t, u, record) + Window(chunks, u, v, record) == Window(chunks, t, v, record)
  {
    TakenGrows(chunks, t, u, record);
    TakenGrows(chunks, u, v, record);
  }

  /** Windows taken one after another hold every sample that arrived between the
      first time and the last, once and in order, however the stream was cut. */
  lemma {:induction false} WindowsPartition<Sample>(windows: seq<seq<Sample>>, chunks: seq<string>, times: seq<nat>,
                                                    record: string -> Option<Sample>)
    requires Times(times, |chunks|) && Consecutive(windows, chunks, times, record)
    ensures times[0] <= times[|times| - 1] <= |chunks|
    ensures Flatten(windows) == Window(chunks, times[0], times[|times| - 1], record)
    decreases |times|
  {
    var n := |times| - 1;
    if n == 0 {
      assert windows == [];
    } else {
      WindowsPartition(windows[..n - 1], chunks, times[..n], record);
      WindowsMeet(chunks, times[0], times[n - 1], times[n], record);
    }
  }

  /** A sampler: a count, what is read meanwhile, and what came since. */
  method Sampled<Sample>(stream: ResourceStream<Sample>, chunks: seq<string>, from: nat, upto: nat)
    returns (window: seq<Sample>)
    requires from <= upto <= |chunks| && stream.Valid() && stream.seen == Concat(chunks[..from])
    modifies stream
    ensures stream.Valid() && stream.seen == Concat(chunks[..upto])
    ensures window == Window(chunks, from, upto, stream.record)
  {
    var start := stream.Count();
    for t := from to upto
      invariant stream.Valid() && stream.seen == Concat(chunks[..t])
    {
      ConcatNext(chunks, t);
      stream.Read(chunks[t]);
    }
    TakenGrows(chunks, from, upto, stream.record);
    window := stream.Since(start);
  }

  /** Samplers taken one after another on one stream. */
  method SampledInTurn<Sample>(stream: ResourceStream<Sample>, chunks: seq<string>, times: seq<nat>)
    returns (windows: seq<seq<Sample>>)
    requires Times(times, |chunks|) && stream.Valid() && stream.seen == Concat(chunks[..times[0]])
    modifies stream
    ensures Consecutive(windows, chunks, times, stream.record)
    ensures Flatten(windows) == Window(chunks, times[0], times[|times| - 1], stream.record)
  {
    windows := [];
    for i := 0 to |times| - 1
      invariant stream.Valid() && stream.seen == Concat(chunks[..times[i]])
      invariant |windows| == i
      invariant forall k :: 0 <= k < i ==> windows[k] == Window(chunks, times[k], times[k + 1], stream.record)
    {
      var window := Sampled(stream, chunks, times[i], times[i + 1]);
      windows := windows + [window];
    }
    WindowsPartition(windows, chunks, times, stream.record);
  }
}
