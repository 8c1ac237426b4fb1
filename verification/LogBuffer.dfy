/** The log of a managed session: two interleaved byte streams split into numbered lines, bounded by
    entry and byte limits, and queried by revision, text and position. */
module LogBuffer {
  import opened Common
  import opened Eviction
  import opened LineSplitting
  import opened LogEntries
  import opened LogQueries

  /** Zero means unlimited. */
  datatype Limits = Limits(maxBytes: nat, maxEntries: nat)

  // ----- the log as a function of the bytes received -----

  /** Everything but eviction: both splitters, the number of bytes received, and every line ever
      completed. */
  datatype Log = Log(out: Splitter, err: Splitter, offset: nat, lines: seq<Entry>)

  const EMPTY_LOG := Log(Splitter("", false, 0), Splitter("", false, 0), 0, [])

  function Of(log: Log, stream: Stream): Splitter { if stream.Stderr? then log.err else log.out }

  function With(log: Log, stream: Stream, sp: Splitter): Log {
    if stream.Stderr? then log.(err := sp) else log.(out := sp)
  }

  /** The lines after one more has been completed at byte `offset`. */
  function Completed(lines: seq<Entry>, offset: nat, now: int, stream: Stream, text: string): seq<Entry> {
    lines + [MakeEntry(|lines| + 1, offset, now, stream, text, false)]
  }

  function FeedByte(log: Log, stream: Stream, ch: char, now: int): Log {
    var (sp, line) := Feed(Of(log, stream), ch, now);
    var fed := With(log, stream, sp).(offset := log.offset + 1);
    if line.None? then fed
    else fed.(lines := Completed(log.lines, log.offset + 1, now, stream, line.value))
  }

  function FeedBytes(log: Log, stream: Stream, data: string, now: int): Log {
    if data == "" then log
    else FeedByte(FeedBytes(log, stream, data[..|data| - 1], now), stream, data[|data| - 1], now)
  }

  /** A chunk that finds no unfinished line stamps the next one. */
  function StampChunk(log: Log, stream: Stream, now: int): Log {
    var sp := Of(log, stream);
    if sp.partial == "" then With(log, stream, sp.(stamp := now)) else log
  }

  function AppendChunk(log: Log, stream: Stream, data: string, now: int): Log {
    if data == "" then log else FeedBytes(StampChunk(log, stream, now), stream, data, now)
  }

  function Other(log: Log, stream: Stream): Splitter { if stream.Stderr? then log.out else log.err }

  lemma {:induction false} FeedByteParts(log: Log, stream: Stream, ch: char, now: int)
    ensures var r, (sp, line) := FeedByte(log, stream, ch, now), Feed(Of(log, stream), ch, now);
      && Of(r, stream) == sp && Other(r, stream) == Other(log, stream) && r.offset == log.offset + 1
      && r.lines == if line.None? then log.lines
         else Completed(log.lines, log.offset + 1, now, stream, line.value)
  {}

  lemma {:induction false} FeedBytesSnoc(log: Log, stream: Stream, data: string, i: nat, now: int)
    requires i < |data|
    ensures FeedBytes(log, stream, data[..i + 1], now)
         == FeedByte(FeedBytes(log, stream, data[..i], now), stream, data[i], now)
  {
    assert data[..i + 1][..i] == data[..i];
  }

  // ----- eviction -----

  function TextBytes(es: seq<Entry>): nat {
    if es == [] then 0 else |es[0].text| + TextBytes(es[1..])
  }

  predicate WithinLimits(limits: Limits, count: nat, bytes: nat) {
    && (limits.maxEntries == 0 || count <= limits.maxEntries)
    && (limits.maxBytes == 0 || bytes <= limits.maxBytes)
  }

  function Fits(limits: Limits): seq<Entry> -> bool {
    (es: seq<Entry>) => WithinLimits(limits, |es|, TextBytes(es))
  }

  lemma {:induction false} TextBytesAppend(a: seq<Entry>, b: seq<Entry>)
    ensures TextBytes(a + b) == TextBytes(a) + TextBytes(b)
  {
    if a == [] {
      assert a + b == b;
    } else {
      assert (a + b)[1..] == a[1..] + b;
      TextBytesAppend(a[1..], b);
    }
  }

  lemma {:induction false} TextBytesSnoc(a: seq<Entry>, e: Entry)
    ensures TextBytes(a + [e]) == TextBytes(a) + |e.text|
  {
    TextBytesAppend(a, [e]);
    assert [e][1..] == [];
  }

  lemma {:induction false} FitsShrinks(limits: Limits)
    ensures ShrinksAtBack(Fits(limits))
  {
    forall t: seq<Entry>, y: Entry ensures Fits(limits)(t + [y]) ==> Fits(limits)(t) {
      TextBytesSnoc(t, y);
    }
  }

  function Retained(lines: seq<Entry>, limits: Limits): seq<Entry> { LongestFit(lines, Fits(limits)) }

  /** Evicting after each completed line keeps the suffix specified for all lines. */
  lemma {:induction false} RetainedStep(lines: seq<Entry>, e: Entry, limits: Limits)
    ensures Retained(lines + [e], limits) == LongestFit(Retained(lines, limits) + [e], Fits(limits))
  {
    FitsShrinks(limits);
    EvictIncrementally(lines, e, Fits(limits));
  }

  function TextsIn(es: seq<Entry>): seq<string> { seq(|es|, i requires 0 <= i < |es| => es[i].text) }

  /** The bytes counted are those of all texts together. */
  lemma {:induction false} BytesAreTextLength(es: seq<Entry>)
    ensures TextBytes(es) == |Concat(TextsIn(es))|
  {
    if es == [] {
    } else {
      BytesAreTextLength(es[1..]);
      assert TextsIn(es)[1..] == TextsIn(es[1..]);
    }
  }

  /** Within the limit on entries and within the limit on text bytes, 0 meaning no limit. */
  ghost predicate Obeys(es: seq<Entry>, limits: Limits) {
    && (limits.maxEntries > 0 ==> |es| <= limits.maxEntries)
    && (limits.maxBytes > 0 ==> |Concat(TextsIn(es))| <= limits.maxBytes)
  }

  lemma {:induction false} FitsIsObeys(es: seq<Entry>, limits: Limits)
    ensures Fits(limits)(es) <==> Obeys(es, limits)
  {
    BytesAreTextLength(es);
  }

  /** Greedy eviction is optimal: the retained entries are a suffix of all lines ever completed, obey
      both limits, and no longer suffix does: one entry more and there are too many entries or too many
      text bytes. */
  lemma {:induction false} RetainedIsLongest(lines: seq<Entry>, limits: Limits, k: nat)
    requires k <= |lines|
    ensures |Retained(lines, limits)| <= |lines|
    ensures Retained(lines, limits) == lines[|lines| - |Retained(lines, limits)|..]
    ensures Obeys(Retained(lines, limits), limits)
    ensures k < |lines| - |Retained(lines, limits)| ==>
              || (limits.maxEntries > 0 && |lines| - k > limits.maxEntries)
              || (limits.maxBytes > 0 && |Concat(TextsIn(lines[k..]))| > limits.maxBytes)
  {
    LongestFitIsSuffix(lines, Fits(limits));
    FitsIsObeys(Retained(lines, limits), limits);
    FitsIsObeys(lines[k..], limits);
    FitsIsObeys([], limits);
    if Fits(limits)(lines[k..]) { LongestFitIsLongest(lines, Fits(limits), k); }
  }

  datatype Totals = Totals(retainedBytes: nat, droppedEntries: nat, droppedBytes: nat)

  /** The specified entries are retained, and entries and bytes are either retained or counted as
      dropped. */
  ghost predicate Conserved(limits: Limits, lines: seq<Entry>, entries: seq<Entry>, t: Totals) {
    && entries == Retained(lines, limits)
    && t.droppedEntries + |entries| == |lines|
    && t.retainedBytes == TextBytes(entries)
    && t.droppedBytes + t.retainedBytes == TextBytes(lines)
    && Revised(lines, 1)
  }

  /** Pops entries from the front while a limit is exceeded, moving their counts to the dropped
      totals. */
  method EvictIfNeeded(limits: Limits, entries: seq<Entry>, totals: Totals) returns (es: seq<Entry>, t: Totals)
    requires totals.retainedBytes == TextBytes(entries)
    ensures es == LongestFit(entries, Fits(limits)) && Obeys(es, limits)
    ensures t.retainedBytes == TextBytes(es)
    ensures t.droppedEntries + |es| == totals.droppedEntries + |entries|
    ensures t.droppedBytes + t.retainedBytes == totals.droppedBytes + totals.retainedBytes
  {
    es, t := entries, totals;
    while es != [] && !WithinLimits(limits, |es|, t.retainedBytes)
      invariant LongestFit(es, Fits(limits)) == LongestFit(entries, Fits(limits))
      invariant t.retainedBytes == TextBytes(es)
      invariant t.droppedEntries + |es| == totals.droppedEntries + |entries|
      invariant t.droppedBytes + t.retainedBytes == totals.droppedBytes + totals.retainedBytes
      decreases |es|
    {
      var size := |es[0].text|;
      t := Totals(t.retainedBytes - size, t.droppedEntries + 1, t.droppedBytes + size);
      es := es[1..];
    }
    FitsIsObeys(es, limits);
  }

  lemma {:induction false} ConservedStep(limits: Limits, lines: seq<Entry>, entries: seq<Entry>, t: Totals, e: Entry,
                      entries': seq<Entry>, t': Totals)
    requires Conserved(limits, lines, entries, t) && e.revision == |lines| + 1
    requires entries' == LongestFit(entries + [e], Fits(limits)) && t'.retainedBytes == TextBytes(entries')
    requires t'.droppedEntries + |entries'| == t.droppedEntries + |entries| + 1
    requires t'.droppedBytes + t'.retainedBytes == t.droppedBytes + t.retainedBytes + |e.text|
    ensures Conserved(limits, lines + [e], entries', t')
  {
    RetainedStep(lines, e, limits);
    TextBytesSnoc(lines, e);
  }

  method PushLine(limits: Limits, ghost lines: seq<Entry>, entries: seq<Entry>, t: Totals,
                  revision: nat, offset: nat, now: int, stream: Stream, text: string)
    returns (es: seq<Entry>, t': Totals)
    requires Conserved(limits, lines, entries, t) && revision == |lines| + 1
    ensures Conserved(limits, Completed(lines, offset, now, stream, text), es, t')
  {
    var e := MakeEntry(revision, offset, now, stream, text, false);
    assert Completed(lines, offset, now, stream, text) == lines + [e];
    TextBytesSnoc(entries, e);
    es, t' := EvictIfNeeded(limits, entries + [e], t.(retainedBytes := t.retainedBytes + |text|));
    ConservedStep(limits, lines, entries, t, e, es, t');
  }

  lemma {:induction false} RevisedSuffix(lines: seq<Entry>, n: nat)
    requires Revised(lines, 1) && n <= |lines|
    ensures Revised(lines[|lines| - n..], |lines| - n + 1)
  {}

  class Buffer {
    const limits: Limits
    var entries: seq<Entry>
    var retainedBytes: nat
    var nextRevision: nat
    var droppedEntries: nat
    var droppedBytes: nat
    var nextByteOffset: nat
    var stdout: Splitter
    var stderr: Splitter
    /** Every line ever completed. */
    ghost var lines: seq<Entry>

    ghost function State(): Log
      reads this
    {
      Log(stdout, stderr, nextByteOffset, lines)
    }

    ghost predicate Bounded()
      reads this`entries, this`retainedBytes, this`nextRevision, this`droppedEntries, this`droppedBytes, this`lines
    {
      && nextRevision == |lines| + 1
      && Conserved(limits, lines, entries, Totals(retainedBytes, droppedEntries, droppedBytes))
    }

    ghost predicate Valid()
      reads this
    {
      && Bounded()
      && Free(stdout.partial, '\r') && Free(stderr.partial, '\r')
    }

    /** Retained revisions are contiguous and end just below `nextRevision`. */
    lemma {:induction false} EntriesRevised()
      requires Bounded()
      ensures Revised(entries, droppedEntries + 1)
    {
      LongestFitIsSuffix(lines, Fits(limits));
      RevisedSuffix(lines, |entries|);
    }

    constructor (limits: Limits)
      ensures Valid() && State() == EMPTY_LOG && this.limits == limits
    {
      this.limits := limits;
      entries, retainedBytes, nextRevision := [], 0, 1;
      droppedEntries, droppedBytes, nextByteOffset := 0, 0, 0;
      stdout, stderr := Splitter("", false, 0), Splitter("", false, 0);
      lines := [];
    }

    method CompleteLine(stream: Stream, text: string, now: int)
      requires Bounded()
      modifies this`entries, this`retainedBytes, this`nextRevision, this`droppedEntries, this`droppedBytes, this`lines
      ensures Bounded()
      ensures lines == Completed(old(lines), nextByteOffset, now, stream, text)
    {
      var t := Totals(retainedBytes, droppedEntries, droppedBytes);
      entries, t := PushLine(limits, lines, entries, t, nextRevision, nextByteOffset, now, stream, text);
      retainedBytes, droppedEntries, droppedBytes := t.retainedBytes, t.droppedEntries, t.droppedBytes;
      nextRevision := nextRevision + 1;
      lines := Completed(lines, nextByteOffset, now, stream, text);
    }

    /** The chunk is consumed byte by byte with a look-ahead of one inside the chunk; the effect is
        that of the byte-wise splitter, and every completed line is recorded. */
    method Append(stream: Stream, data: string, now: int)
      requires Valid()
      modifies this
      ensures Valid()
      ensures State() == AppendChunk(old(State()), stream, data, now)
    {
      if data == "" { return; }
      var sp := if stream.Stderr? then stderr else stdout;
      if sp.partial == "" { sp := sp.(stamp := now); }
      sp := AppendBytes(stream, sp, data, now, StampChunk(State(), stream, now));
      if stream.Stderr? { stderr := sp; } else { stdout := sp; }
    }

    method AppendByte(stream: Stream, sp: Splitter, data: string, index: nat, now: int, ghost spec: Log)
      returns (r: Splitter)
      requires Bounded() && Free(sp.partial, '\r')
      requires index < |data| && InStep(sp, Of(spec, stream), data, index, now)
      requires spec.offset == nextByteOffset && spec.lines == lines
      modifies this`entries, this`retainedBytes, this`nextRevision, this`droppedEntries, this`droppedBytes, this`lines,
               this`nextByteOffset
      ensures Bounded() && Free(r.partial, '\r')
      ensures var fed := FeedByte(spec, stream, data[index], now);
        && InStep(r, Of(fed, stream), data, index + 1, now)
        && Other(fed, stream) == Other(spec, stream)
        && fed.offset == nextByteOffset && fed.lines == lines
    {
      FeedByteParts(spec, stream, data[index], now);
      nextByteOffset := nextByteOffset + 1;
      assert nextByteOffset == spec.offset + 1;
      var line;
      r, line := ConsumeByte(sp, data, index, now, Of(spec, stream));
      if line.Some? { CompleteLine(stream, line.value, now); }
    }

    method AppendBytes(stream: Stream, sp: Splitter, data: string, now: int, ghost start: Log) returns (r: Splitter)
      requires Bounded() && Free(sp.partial, '\r')
      requires sp == Of(start, stream) && nextByteOffset == start.offset && lines == start.lines
      modifies this`entries, this`retainedBytes, this`nextRevision, this`droppedEntries, this`droppedBytes, this`lines,
               this`nextByteOffset
      ensures Bounded() && Free(r.partial, '\r')
      ensures var end := FeedBytes(start, stream, data, now);
        && Of(end, stream) == r && Other(end, stream) == Other(start, stream)
        && end.offset == nextByteOffset && end.lines == lines
    {
      r := sp;
      ghost var spec := start;
      for index := 0 to |data|
        invariant Bounded() && Free(r.partial, '\r')
        invariant spec == FeedBytes(start, stream, data[..index], now)
        invariant spec.offset == nextByteOffset && spec.lines == lines
        invariant Other(spec, stream) == Other(start, stream)
        invariant InStep(r, Of(spec, stream), data, index, now)
      {
        r := AppendByte(stream, r, data, index, now, spec);
        FeedBytesSnoc(start, stream, data, index, now);
        spec := FeedByte(spec, stream, data[index], now);
      }
      assert data[..|data|] == data;
    }

    // ----- queries -----

    /** The unfinished lines, as entries with the next revision. */
    function Unfinished(includePartial: bool): seq<Entry>
      reads this
    {
      Listed(PartialEntry(Stdout, includePartial)) + Listed(PartialEntry(Stderr, includePartial))
    }

    function PartialEntry(stream: Stream, includePartial: bool): Option<Entry>
      reads this
    {
      var sp := if stream.Stderr? then stderr else stdout;
      if includePartial && sp.partial != ""
      then Some(MakeEntry(nextRevision, nextByteOffset, sp.stamp, stream, sp.partial, true)) else None
    }

    /** After a run, the unfinished item of a stream is labelled with it and holds the unfinished line of
        the bytes that stream received; there is one exactly when that is not empty. */
    lemma {:induction false} PartialIsOfItsStream(calls: seq<Call>, stream: Stream)
      requires State() == After(calls)
      ensures var text := Shown(Rest(Received(calls, stream)));
              && (PartialEntry(stream, true).Some? <==> text != "")
              && (text != "" ==> PartialEntry(stream, true).value.stream == stream
                                 && PartialEntry(stream, true).value.text == text
                                 && PartialEntry(stream, true).value.partial)
      ensures PartialEntry(stream, false).None?
    {
      RunRefinesStreams(calls, stream);
    }

    method TailEntries(limit: nat, includePartial: bool) returns (r: seq<Entry>)
      requires Valid()
      ensures r == TailSpec(entries, Unfinished(includePartial), limit)
      ensures |r| == Min(limit, |entries| + |Unfinished(includePartial)|)
    {
      r := Tail(entries, PartialEntry(Stdout, includePartial), PartialEntry(Stderr, includePartial), limit);
      TailLength(entries, Unfinished(includePartial), limit);
    }

    method RangeEntries(start: nat, end: nat, limit: nat) returns (r: seq<Entry>)
      requires Valid()
      ensures r == Take(Between(entries, start, end), limit)
    {
      EntriesRevised();
      r := Range(entries, start, end, limit, droppedEntries + 1);
    }

    method ContextEntries(revision: nat, before: nat, after: nat) returns (r: Option<seq<Entry>>)
      requires Valid() && |entries| < WORD && before < WORD && after < WORD
      ensures r == Some(Around(entries, revision, before, after)) <==> !ContextOverflows(entries, revision, after)
    {
      EntriesRevised();
      r := Context(entries, revision, before, after, droppedEntries + 1);
    }

    method SearchEntries(query: string, limit: nat) returns (r: SearchResult)
      requires Valid()
      ensures r == SearchSpec(entries, query, limit)
    {
      r := Search(entries, query, limit);
    }

    /** The oldest and latest retained revisions; when nothing is retained the range is empty and
        ends just below the next revision. */
    method RevisionStats() returns (oldest: nat, latest: int)
      requires Valid()
      ensures oldest == droppedEntries + 1 && latest == nextRevision - 1
      ensures latest - oldest + 1 == |entries|
    {
      EntriesRevised();
      oldest := if entries == [] then nextRevision else entries[0].revision;
      latest := if entries == [] then nextRevision - 1 else entries[|entries| - 1].revision;
    }
  }

  /** One turn of the loop over a chunk: the new unfinished line, and the line completed if any.  It
      looks one byte ahead, and still does what the byte-wise splitter `spec` does. */
  method ConsumeByte(sp: Splitter, data: string, index: nat, now: int, ghost spec: Splitter)
    returns (r: Splitter, line: Option<string>)
    requires index < |data| && InStep(sp, spec, data, index, now) && Free(sp.partial, '\r')
    ensures InStep(r, Feed(spec, data[index], now).0, data, index + 1, now)
    ensures line == Feed(spec, data[index], now).1
    ensures Free(r.partial, '\r')
  {
    r, line := sp, None;
    var ch := data[index];
    if r.pendingCr {
      r := r.(pendingCr := false);
      if ch == '\n' {
        return Splitter("", false, 0), Some(r.partial);
      }
      r := r.(partial := "", stamp := now);
    }
    if ch == '\r' && index + 1 < |data| && data[index + 1] == '\n' {
      return;
    }
    if ch == '\n' {
      if r.partial != "" && r.partial[|r.partial| - 1] == '\r' {
        assert false; // the source strips a carriage return here, but a partial never holds one
      }
      return r.(partial := "", stamp := 0), Some(r.partial);
    }
    if ch == '\r' {
      if index + 1 == |data| {
        r := r.(pendingCr := true);
        return;
      }
      r := r.(partial := "", stamp := now);
      return;
    }
    r := r.(partial := r.partial + [ch]);
  }

  // ----- whole runs -----

  datatype Call = Call(stream: Stream, data: string, now: int)

  /** The log after a run of appends to both streams, in any interleaving and chunking. */
  function After(calls: seq<Call>): Log {
    if calls == [] then EMPTY_LOG
    else
      var c := calls[|calls| - 1];
      AppendChunk(After(calls[..|calls| - 1]), c.stream, c.data, c.now)
  }

  /** All bytes a stream received. */
  function Received(calls: seq<Call>, stream: Stream): string {
    if calls == [] then ""
    else
      var c := calls[|calls| - 1];
      Received(calls[..|calls| - 1], stream) + (if c.stream == stream then c.data else "")
  }

  function TextsOf(lines: seq<Entry>, stream: Stream): seq<string> {
    if lines == [] then []
    else
      var e := lines[|lines| - 1];
      TextsOf(lines[..|lines| - 1], stream) + (if e.stream == stream then [e.text] else [])
  }

  /** A log agrees with the bytes `rx` its stream has received: the completed lines are the shown
      newline-terminated pieces, and the unfinished line is the shown rest. */
  ghost predicate Refines(log: Log, stream: Stream, rx: string) {
    && Tracks(Of(log, stream), rx)
    && TextsOf(log.lines, stream) == ShownAll(Pieces(rx))
  }

  lemma {:induction false} TextsSnoc(lines: seq<Entry>, e: Entry, stream: Stream)
    ensures TextsOf(lines + [e], stream) == TextsOf(lines, stream) + (if e.stream == stream then [e.text] else [])
  {
    assert (lines + [e])[..|lines|] == lines;
  }

  lemma {:induction false} CompletedTexts(
    lines: seq<Entry>, offset: nat, now: int, from: Stream, text: string, stream: Stream)
    ensures TextsOf(Completed(lines, offset, now, from, text), stream)
         == TextsOf(lines, stream) + (if from == stream then [text] else [])
  {
    TextsSnoc(lines, MakeEntry(|lines| + 1, offset, now, from, text, false), stream);
  }

  lemma {:induction false} FeedByteRefines(log: Log, from: Stream, ch: char, now: int, stream: Stream, rx: string)
    requires Refines(log, stream, rx)
    ensures Refines(FeedByte(log, from, ch, now), stream, Grown(rx, from, stream, [ch]))
  {
    FeedByteParts(log, from, ch, now);
    var line := Feed(Of(log, from), ch, now).1;
    if line.Some? { CompletedTexts(log.lines, log.offset + 1, now, from, line.value, stream); }
    if from == stream {
      FeedTracks(Of(log, stream), rx, ch, now);
      RestSnoc(rx, ch);
      if ch == '\n' { assert ShownAll(Pieces(rx) + [Rest(rx)]) == ShownAll(Pieces(rx)) + [Shown(Rest(rx))]; }
    }
  }

  /** What a stream has received once `from` received `data`. */
  function Grown(rx: string, from: Stream, stream: Stream, data: string): string {
    if from == stream then rx + data else rx
  }

  lemma {:induction false} GrownByNothing(rx: string, from: Stream, stream: Stream)
    ensures Grown(rx, from, stream, "") == rx
  {}

  lemma {:induction false} GrownByOne(rx: string, from: Stream, stream: Stream, data: string)
    requires data != ""
    ensures var n := |data| - 1;
            Grown(Grown(rx, from, stream, data[..n]), from, stream, [data[n]]) == Grown(rx, from, stream, data)
  {
    var n := |data| - 1;
    assert data == data[..n] + [data[n]];
    Join(rx, data[..n], [data[n]]);
  }

  lemma {:induction false} FeedBytesRefines(log: Log, from: Stream, data: string, now: int, stream: Stream, rx: string)
    requires Refines(log, stream, rx)
    ensures Refines(FeedBytes(log, from, data, now), stream, Grown(rx, from, stream, data))
  {
    if data == "" {
      GrownByNothing(rx, from, stream);
    } else {
      var n := |data| - 1;
      FeedBytesRefines(log, from, data[..n], now, stream, rx);
      var fed, grown := FeedBytes(log, from, data[..n], now), Grown(rx, from, stream, data[..n]);
      FeedByteRefines(fed, from, data[n], now, stream, grown);
      GrownByOne(rx, from, stream, data);
    }
  }

  /** Line splitting refines the whole stream: after every run, in any interleaving and chunking,
      each stream's completed lines are the shown newline-terminated pieces of all bytes it received
      and its unfinished line is the shown rest. */
  lemma {:induction false} RunRefinesStreams(calls: seq<Call>, stream: Stream)
    ensures Refines(After(calls), stream, Received(calls, stream))
  {
    if calls == [] {
    } else {
      var before, c := calls[..|calls| - 1], calls[|calls| - 1];
      RunRefinesStreams(before, stream);
      var rx := Received(before, stream);
      assert rx + "" == rx;
      if c.data != "" {
        FeedBytesRefines(StampChunk(After(before), c.stream, c.now), c.stream, c.data, c.now, stream, rx);
      }
    }
  }

  /** An unfinished line never holds a carriage return or a newline. */
  lemma {:induction false} UnfinishedIsClean(calls: seq<Call>, stream: Stream)
    ensures var p := Of(After(calls), stream).partial; Free(p, '\r') && Free(p, '\n')
  {
    RunRefinesStreams(calls, stream);
    PartialIsClean(Of(After(calls), stream), Received(calls, stream));
  }

  // ----- chunking does not matter -----

  datatype TaggedByte = TaggedByte(stream: Stream, ch: char)

  function Tagged(stream: Stream, data: string): seq<TaggedByte> {
    seq(|data|, i requires 0 <= i < |data| => TaggedByte(stream, data[i]))
  }

  /** The bytes of a run in order of arrival, with chunk boundaries and times forgotten. */
  function Arrivals(calls: seq<Call>): seq<TaggedByte> {
    if calls == [] then []
    else
      var c := calls[|calls| - 1];
      Arrivals(calls[..|calls| - 1]) + Tagged(c.stream, c.data)
  }

  function Timeless(lines: seq<Entry>): seq<Entry> {
    seq(|lines|, i requires 0 <= i < |lines| => lines[i].(timestamp := 0))
  }

  /** Everything but times: unfinished texts, pending carriage returns, byte offset, and every
      line's revision, byte range, stream and text. */
  ghost predicate SameLog(a: Log, b: Log) {
    && a.out.(stamp := 0) == b.out.(stamp := 0)
    && a.err.(stamp := 0) == b.err.(stamp := 0)
    && a.offset == b.offset
    && Timeless(a.lines) == Timeless(b.lines)
  }

  function FeedTagged(bytes: seq<TaggedByte>): Log {
    if bytes == [] then EMPTY_LOG
    else
      var b := bytes[|bytes| - 1];
      FeedByte(FeedTagged(bytes[..|bytes| - 1]), b.stream, b.ch, 0)
  }

  lemma {:induction false} FeedByteSame(a: Log, b: Log, stream: Stream, ch: char, now: int, now': int)
    requires SameLog(a, b)
    ensures SameLog(FeedByte(a, stream, ch, now), FeedByte(b, stream, ch, now'))
  {
    FeedByteParts(a, stream, ch, now);
    FeedByteParts(b, stream, ch, now');
    var line := Feed(Of(a, stream), ch, now).1;
    assert |a.lines| == |Timeless(a.lines)| == |b.lines|;
    if line.Some? {
      var e, e' := MakeEntry(|a.lines| + 1, a.offset + 1, now, stream, line.value, false),
                   MakeEntry(|b.lines| + 1, b.offset + 1, now', stream, line.value, false);
      TimelessSnoc(a.lines, e);
      TimelessSnoc(b.lines, e');
    }
  }

  lemma {:induction false} TimelessSnoc(lines: seq<Entry>, e: Entry)
    ensures Timeless(lines + [e]) == Timeless(lines) + [e.(timestamp := 0)]
  {}

  lemma {:induction false} FeedBytesSame(log: Log, stream: Stream, data: string, now: int, bytes: seq<TaggedByte>)
    requires SameLog(log, FeedTagged(bytes))
    ensures SameLog(FeedBytes(log, stream, data, now), FeedTagged(bytes + Tagged(stream, data)))
  {
    if data == "" {
      assert bytes + Tagged(stream, data) == bytes;
    } else {
      var n := |data| - 1;
      FeedBytesSame(log, stream, data[..n], now, bytes);
      var all := bytes + Tagged(stream, data);
      assert all[..|all| - 1] == bytes + Tagged(stream, data[..n]);
      assert all[|all| - 1] == TaggedByte(stream, data[n]);
      FeedByteSame(FeedBytes(log, stream, data[..n], now), FeedTagged(all[..|all| - 1]), stream, data[n], now, 0);
    }
  }

  lemma {:induction false} AfterSameAsTagged(calls: seq<Call>)
    ensures SameLog(After(calls), FeedTagged(Arrivals(calls)))
  {
    if calls == [] {
    } else {
      var before, c := calls[..|calls| - 1], calls[|calls| - 1];
      AfterSameAsTagged(before);
      if c.data == "" {
        assert Arrivals(before) + Tagged(c.stream, c.data) == Arrivals(before);
      } else {
        FeedBytesSame(StampChunk(After(before), c.stream, c.now), c.stream, c.data, c.now, Arrivals(before));
      }
    }
  }

  lemma {:induction false} TimelessBytes(es: seq<Entry>)
    ensures TextBytes(Timeless(es)) == TextBytes(es)
  {
    if es == [] {
    } else {
      TimelessBytes(es[1..]);
      assert Timeless(es)[1..] == Timeless(es[1..]);
    }
  }

  /** Times play no part in eviction. */
  lemma {:induction false} TimelessRetained(lines: seq<Entry>, limits: Limits)
    ensures Timeless(Retained(lines, limits)) == Retained(Timeless(lines), limits)
  {
    TimelessBytes(lines);
    if lines == [] || Fits(limits)(lines) {
    } else {
      TimelessRetained(lines[1..], limits);
      assert Timeless(lines)[1..] == Timeless(lines[1..]);
    }
  }

  /** Any two runs that deliver the same bytes in the same order leave the same log, up to times, and
      under any limits retain the same entries. */
  lemma {:induction false} ChunkingDoesNotMatter(calls: seq<Call>, calls': seq<Call>, limits: Limits)
    requires Arrivals(calls) == Arrivals(calls')
    ensures SameLog(After(calls), After(calls'))
    ensures Timeless(Retained(After(calls).lines, limits)) == Timeless(Retained(After(calls').lines, limits))
  {
    AfterSameAsTagged(calls);
    AfterSameAsTagged(calls');
    TimelessRetained(After(calls).lines, limits);
    TimelessRetained(After(calls').lines, limits);
  }

  // ----- the times of completed lines -----

  datatype TimedByte = TimedByte(stream: Stream, ch: char, now: int)

  function Timed(stream: Stream, data: string, now: int): seq<TimedByte> {
    seq(|data|, i requires 0 <= i < |data| => TimedByte(stream, data[i], now))
  }

  /** The bytes of a run in order of arrival, each with its time; chunk boundaries are forgotten. */
  function TimedArrivals(calls: seq<Call>): seq<TimedByte> {
    if calls == [] then []
    else
      var c := calls[|calls| - 1];
      TimedArrivals(calls[..|calls| - 1]) + Timed(c.stream, c.data, c.now)
  }

  /** Everything but the stamps of unfinished lines; the times of completed lines are included. */
  ghost predicate SameButStamps(a: Log, b: Log) {
    && a.out.(stamp := 0) == b.out.(stamp := 0)
    && a.err.(stamp := 0) == b.err.(stamp := 0)
    && a.offset == b.offset
    && a.lines == b.lines
  }

  function FeedTimed(bytes: seq<TimedByte>): Log {
    if bytes == [] then EMPTY_LOG
    else
      var b := bytes[|bytes| - 1];
      FeedByte(FeedTimed(bytes[..|bytes| - 1]), b.stream, b.ch, b.now)
  }

  lemma {:induction false} FeedByteTimed(a: Log, b: Log, stream: Stream, ch: char, now: int)
    requires SameButStamps(a, b)
    ensures SameButStamps(FeedByte(a, stream, ch, now), FeedByte(b, stream, ch, now))
  {
    FeedByteParts(a, stream, ch, now);
    FeedByteParts(b, stream, ch, now);
  }

  lemma {:induction false} FeedTimedSnoc(bytes: seq<TimedByte>, b: TimedByte)
    ensures FeedTimed(bytes + [b]) == FeedByte(FeedTimed(bytes), b.stream, b.ch, b.now)
  {
    assert (bytes + [b])[..|bytes|] == bytes;
  }

  lemma {:induction false} TimedSnoc(bytes: seq<TimedByte>, stream: Stream, data: string, now: int)
    requires data != ""
    ensures var n := |data| - 1;
            bytes + Timed(stream, data, now)
            == bytes + Timed(stream, data[..n], now) + [TimedByte(stream, data[n], now)]
  {
    var n := |data| - 1;
    assert Timed(stream, data, now) == Timed(stream, data[..n], now) + [TimedByte(stream, data[n], now)];
  }

  lemma {:induction false} FeedBytesTimed(log: Log, stream: Stream, data: string, now: int, bytes: seq<TimedByte>)
    requires SameButStamps(log, FeedTimed(bytes))
    ensures SameButStamps(FeedBytes(log, stream, data, now), FeedTimed(bytes + Timed(stream, data, now)))
  {
    if data == "" {
      assert bytes + Timed(stream, data, now) == bytes;
    } else {
      var n := |data| - 1;
      var before := bytes + Timed(stream, data[..n], now);
      FeedBytesTimed(log, stream, data[..n], now, bytes);
      TimedSnoc(bytes, stream, data, now);
      FeedTimedSnoc(before, TimedByte(stream, data[n], now));
      FeedByteTimed(FeedBytes(log, stream, data[..n], now), FeedTimed(before), stream, data[n], now);
    }
  }

  lemma {:induction false} AfterSameAsTimed(calls: seq<Call>)
    ensures SameButStamps(After(calls), FeedTimed(TimedArrivals(calls)))
  {
    if calls == [] {
    } else {
      var before, c := calls[..|calls| - 1], calls[|calls| - 1];
      AfterSameAsTimed(before);
      if c.data == "" {
        assert TimedArrivals(before) + Timed(c.stream, c.data, c.now) == TimedArrivals(before);
      } else {
        FeedBytesTimed(StampChunk(After(before), c.stream, c.now), c.stream, c.data, c.now, TimedArrivals(before));
      }
    }
  }

  /** Any two runs that deliver the same bytes in the same order at the same times complete the same
      lines, times included. */
  lemma {:induction false} TimesDoNotDependOnChunking(calls: seq<Call>, calls': seq<Call>)
    requires TimedArrivals(calls) == TimedArrivals(calls')
    ensures SameButStamps(After(calls), After(calls'))
  {
    AfterSameAsTimed(calls);
    AfterSameAsTimed(calls');
  }

  // ----- where lines end -----

  /** The entry ends with a line feed of its stream, at the time and place of that byte. */
  ghost predicate EndsAtLineFeed(e: Entry, bytes: seq<TimedByte>) {
    && 0 < e.byteEnd <= |bytes| && bytes[e.byteEnd - 1] == TimedByte(e.stream, '\n', e.timestamp)
    && e.byteStart + |e.text| == e.byteEnd && !e.partial
  }

  ghost predicate HasLine(lines: seq<Entry>, end: nat) {
    exists k :: 0 <= k < |lines| && lines[k].byteEnd == end
  }

  ghost predicate AllEnd(lines: seq<Entry>, bytes: seq<TimedByte>) {
    forall k :: 0 <= k < |lines| ==> lines[k].revision == k + 1 && EndsAtLineFeed(lines[k], bytes)
  }

  ghost predicate InOrder(lines: seq<Entry>) {
    forall k, l :: 0 <= k < l < |lines| ==> lines[k].byteEnd < lines[l].byteEnd
  }

  ghost predicate AllHaveLines(lines: seq<Entry>, bytes: seq<TimedByte>) {
    forall p :: 0 <= p < |bytes| && bytes[p].ch == '\n' ==> HasLine(lines, p + 1)
  }

  /** The lines are those of the line feeds among the bytes, in order and numbered from one. */
  ghost predicate LinesAreLineFeeds(lines: seq<Entry>, bytes: seq<TimedByte>) {
    AllEnd(lines, bytes) && InOrder(lines) && AllHaveLines(lines, bytes)
  }

  lemma {:induction false} AllEndSnoc(lines: seq<Entry>, bytes: seq<TimedByte>, b: TimedByte)
    requires AllEnd(lines, bytes)
    ensures AllEnd(lines, bytes + [b])
  {
    forall k | 0 <= k < |lines| ensures EndsAtLineFeed(lines[k], bytes + [b]) {
      assert EndsAtLineFeed(lines[k], bytes);
    }
  }

  lemma {:induction false} AddLine(lines: seq<Entry>, bytes: seq<TimedByte>, e: Entry)
    requires AllEnd(lines, bytes) && InOrder(lines)
    requires e.revision == |lines| + 1 && EndsAtLineFeed(e, bytes)
    requires forall k :: 0 <= k < |lines| ==> lines[k].byteEnd < e.byteEnd
    ensures AllEnd(lines + [e], bytes) && InOrder(lines + [e])
  {}

  lemma {:induction false} HasLineStill(lines: seq<Entry>, e: Entry, end: nat)
    requires HasLine(lines, end) || e.byteEnd == end
    ensures HasLine(lines + [e], end)
  {
    var r := lines + [e];
    if HasLine(lines, end) {
      var k :| 0 <= k < |lines| && lines[k].byteEnd == end;
      assert r[k] == lines[k];
    } else {
      assert r[|lines|] == e;
    }
  }

  lemma {:induction false} LineAdded(lines: seq<Entry>, bytes: seq<TimedByte>, b: TimedByte, e: Entry)
    requires LinesAreLineFeeds(lines, bytes) && e.revision == |lines| + 1 && e.byteEnd == |bytes| + 1
    requires EndsAtLineFeed(e, bytes + [b])
    ensures LinesAreLineFeeds(lines + [e], bytes + [b])
  {
    AllEndSnoc(lines, bytes, b);
    forall k | 0 <= k < |lines| ensures lines[k].byteEnd < e.byteEnd { assert EndsAtLineFeed(lines[k], bytes); }
    AddLine(lines, bytes + [b], e);
    forall p | 0 <= p <= |bytes| && (bytes + [b])[p].ch == '\n' ensures HasLine(lines + [e], p + 1) {
      assert p < |bytes| ==> (bytes + [b])[p] == bytes[p];
      HasLineStill(lines, e, p + 1);
    }
  }

  lemma {:induction false} NoLineAdded(lines: seq<Entry>, bytes: seq<TimedByte>, b: TimedByte)
    requires LinesAreLineFeeds(lines, bytes) && b.ch != '\n'
    ensures LinesAreLineFeeds(lines, bytes + [b])
  {
    AllEndSnoc(lines, bytes, b);
    forall p | 0 <= p <= |bytes| && (bytes + [b])[p].ch == '\n' ensures HasLine(lines, p + 1) {
      assert (bytes + [b])[p] == bytes[p];
    }
  }

  lemma {:induction false} LineStep(log: Log, bytes: seq<TimedByte>, b: TimedByte)
    requires log.offset == |bytes| && |Of(log, b.stream).partial| <= |bytes| && LinesAreLineFeeds(log.lines, bytes)
    ensures LinesAreLineFeeds(FeedByte(log, b.stream, b.ch, b.now).lines, bytes + [b])
  {
    var text := Of(log, b.stream).partial;
    FeedByteParts(log, b.stream, b.ch, b.now);
    if b.ch == '\n' {
      LineAdded(log.lines, bytes, b, MakeEntry(|log.lines| + 1, |bytes| + 1, b.now, b.stream, text, false));
    } else {
      NoLineAdded(log.lines, bytes, b);
    }
  }

  /** A splitter holds no more than has been received. */
  lemma {:induction false} PartialBounded(bytes: seq<TimedByte>)
    ensures var log := FeedTimed(bytes);
      log.offset == |bytes| && |log.out.partial| <= |bytes| && |log.err.partial| <= |bytes|
  {
    if bytes == [] {
    } else {
      PartialBounded(bytes[..|bytes| - 1]);
    }
  }

  lemma {:induction false} TimedLines(bytes: seq<TimedByte>)
    ensures LinesAreLineFeeds(FeedTimed(bytes).lines, bytes)
  {
    if bytes == [] {
    } else {
      var before, b := bytes[..|bytes| - 1], bytes[|bytes| - 1];
      TimedLines(before);
      PartialBounded(before);
      LineStep(FeedTimed(before), before, b);
      assert before + [b] == bytes;
    }
  }

  /** After every run there is one line for each line feed received, numbered in order of arrival, with
      the stream, the time and the place of that byte; what it holds is told by `RunRefinesStreams`. */
  lemma {:induction false} LineLaw(calls: seq<Call>)
    ensures LinesAreLineFeeds(After(calls).lines, TimedArrivals(calls))
  {
    AfterSameAsTimed(calls);
    TimedLines(TimedArrivals(calls));
  }

  // ----- the time stamp of an unfinished line -----

  function CrCount(pendingCr: bool): nat { if pendingCr then 1 else 0 }

  /** Where the unfinished line begins among the bytes a stream has received: a pending carriage return
      after it does not belong to it. */
  function LineStart(rx: string): int { |rx| - |Shown(Rest(rx))| - CrCount(EndsWithCr(Rest(rx))) }

  /** The stamp of a line that begins at index `i` of a chunk. */
  function StampAt(data: string, i: nat, now: int): int
    requires i <= |data|
  {
    if i > 0 && data[i - 1] == '\n' then 0 else now
  }

  /** How far back the unfinished line begins. */
  function Back(sp: Splitter): nat { |sp.partial| + CrCount(sp.pendingCr) }

  /** Stamps while a chunk is fed.  `sp` has taken the first `i` bytes, having been `sp0` before. */
  ghost predicate Stamped(sp0: Splitter, sp: Splitter, data: string, i: nat, now: int)
    requires i <= |data|
  {
    var back := Back(sp);
    if sp.partial == "" then !sp.pendingCr ==> sp.stamp == StampAt(data, i, now)
    else if back <= i then sp.stamp == StampAt(data, i - back, now)
    else sp0.partial != "" && sp.stamp == sp0.stamp && back - i == Back(sp0)
  }

  lemma {:induction false} StampStep(sp0: Splitter, sp: Splitter, data: string, i: nat, now: int)
    requires i < |data| && Stamped(sp0, sp, data, i, now)
    requires sp.pendingCr && i > 0 ==> data[i - 1] == '\r'
    ensures Stamped(sp0, Feed(sp, data[i], now).0, data, i + 1, now)
  {}

  /** One stream's splitter after the first `i` bytes of a chunk. */
  function FedTo(sp: Splitter, data: string, i: nat, now: int): Splitter
    requires i <= |data|
  {
    if i == 0 then sp else Feed(FedTo(sp, data, i - 1, now), data[i - 1], now).0
  }

  lemma {:induction false} FedToIsFeedBytes(log: Log, stream: Stream, data: string, now: int, i: nat)
    requires i <= |data|
    ensures Of(FeedBytes(log, stream, data[..i], now), stream) == FedTo(Of(log, stream), data, i, now)
  {
    if i == 0 {
    } else {
      FedToIsFeedBytes(log, stream, data, now, i - 1);
      FeedBytesSnoc(log, stream, data, i - 1, now);
      FeedByteParts(FeedBytes(log, stream, data[..i - 1], now), stream, data[i - 1], now);
    }
  }

  /** A pending carriage return is the last byte fed. */
  lemma {:induction false} FeedStamps(sp: Splitter, data: string, now: int, i: nat)
    requires i <= |data| && (sp.partial == "" ==> sp.stamp == now)
    ensures Stamped(sp, FedTo(sp, data, i, now), data, i, now)
    ensures FedTo(sp, data, i, now).pendingCr && i > 0 ==> data[i - 1] == '\r'
  {
    if i == 0 {
    } else {
      FeedStamps(sp, data, now, i - 1);
      StampStep(sp, FedTo(sp, data, i - 1, now), data, i - 1, now);
    }
  }

  /** How many bytes the first `k` calls brought to a stream. */
  function Before(calls: seq<Call>, stream: Stream, k: nat): nat
    requires k <= |calls|
  {
    if k == 0 then 0
    else if calls[k - 1].stream == stream then Before(calls, stream, k - 1) + |calls[k - 1].data|
    else Before(calls, stream, k - 1)
  }

  lemma {:induction false} BeforeInPrefix(calls: seq<Call>, stream: Stream, n: nat, k: nat)
    requires k <= n <= |calls|
    ensures Before(calls[..n], stream, k) == Before(calls, stream, k)
  {
    if k == 0 {
    } else {
      BeforeInPrefix(calls, stream, n, k - 1);
    }
  }

  lemma {:induction false} BeforeAll(calls: seq<Call>, stream: Stream)
    ensures Before(calls, stream, |calls|) == |Received(calls, stream)|
  {
    if calls == [] {
    } else {
      var n := |calls| - 1;
      BeforeAll(calls[..n], stream);
      BeforeInPrefix(calls, stream, n, n);
    }
  }

  lemma {:induction false} BeforeGrows(calls: seq<Call>, stream: Stream, j: nat, k: nat)
    requires j <= k <= |calls|
    ensures Before(calls, stream, j) <= Before(calls, stream, k)
  {
    if j >= k {
    } else {
      BeforeGrows(calls, stream, j, k - 1);
    }
  }

  /** The unfinished line of the stream begins at byte `i` of call `k`. */
  ghost predicate BeginsAt(calls: seq<Call>, stream: Stream, k: nat, i: nat) {
    && k < |calls| && calls[k].stream == stream && i < |calls[k].data|
    && Shown(Rest(Received(calls, stream))) != ""
    && Before(calls, stream, k) + i == LineStart(Received(calls, stream))
  }

  /** A call to the other stream, or an empty one, leaves the stream alone. */
  lemma {:induction false} OtherCall(log: Log, c: Call, stream: Stream)
    requires c.stream != stream || c.data == ""
    ensures Of(AppendChunk(log, c.stream, c.data, c.now), stream) == Of(log, stream)
  {
    if c.data != "" { OtherUntouched(StampChunk(log, c.stream, c.now), c.stream, c.data, c.now); }
  }

  lemma {:induction false} OtherUntouched(log: Log, from: Stream, data: string, now: int)
    ensures Other(FeedBytes(log, from, data, now), from) == Other(log, from)
  {
    if data == "" {
    } else {
      var n := |data| - 1;
      OtherUntouched(log, from, data[..n], now);
      FeedByteParts(FeedBytes(log, from, data[..n], now), from, data[n], now);
    }
  }

  lemma {:induction false} StartIsBack(calls: seq<Call>, stream: Stream)
    ensures LineStart(Received(calls, stream)) == |Received(calls, stream)| - Back(Of(After(calls), stream))
    ensures Of(After(calls), stream).partial == Shown(Rest(Received(calls, stream)))
  {
    RunRefinesStreams(calls, stream);
  }

  lemma {:induction false} LastCallStamps(before: Log, stream: Stream, data: string, now: int)
    requires data != ""
    ensures Stamped(Of(StampChunk(before, stream, now), stream), Of(AppendChunk(before, stream, data, now), stream),
                    data, |data|, now)
  {
    var stamped := StampChunk(before, stream, now);
    FeedStamps(Of(stamped, stream), data, now, |data|);
    FedToIsFeedBytes(stamped, stream, data, now, |data|);
    assert data[..|data|] == data;
  }

  /** The log after the first `n` calls. */
  function AfterFirst(calls: seq<Call>, n: nat): Log
    requires n <= |calls|
  {
    if n == 0 then EMPTY_LOG
    else AppendChunk(AfterFirst(calls, n - 1), calls[n - 1].stream, calls[n - 1].data, calls[n - 1].now)
  }

  lemma {:induction false} AfterFirstIsAfter(calls: seq<Call>, n: nat)
    requires n <= |calls|
    ensures AfterFirst(calls, n) == After(calls[..n])
  {
    if n == 0 {
    } else {
      AfterFirstIsAfter(calls, n - 1);
      assert calls[..n][..n - 1] == calls[..n - 1];
    }
  }

  /** The unfinished line `sp` after the first `n` calls begins at byte `i` of call `k`. */
  ghost predicate BeginsBack(calls: seq<Call>, stream: Stream, n: nat, sp: Splitter, k: nat, i: nat) {
    && k < n <= |calls| && calls[k].stream == stream && i < |calls[k].data| && sp.partial != ""
    && Before(calls, stream, k) + i + Back(sp) == Before(calls, stream, n)
  }

  /** A line that began in an earlier call was there before this one, with the same stamp. */
  lemma {:induction false} BegunEarlier(calls: seq<Call>, stream: Stream, n: nat, k: nat, i: nat)
    requires n < |calls| && k < n
    requires BeginsBack(calls, stream, n + 1, Of(AfterFirst(calls, n + 1), stream), k, i)
    ensures BeginsBack(calls, stream, n, Of(AfterFirst(calls, n), stream), k, i)
    ensures Of(AfterFirst(calls, n + 1), stream).stamp == Of(AfterFirst(calls, n), stream).stamp
  {
    var c := calls[n];
    if c.stream == stream && c.data != "" {
      BeforeGrows(calls, stream, k + 1, n);
      LastCallStamps(AfterFirst(calls, n), stream, c.data, c.now);
    } else {
      OtherCall(AfterFirst(calls, n), c, stream);
    }
  }

  lemma {:induction false} StampsFollow(calls: seq<Call>, stream: Stream, n: nat, k: nat, i: nat)
    requires n <= |calls| && BeginsBack(calls, stream, n, Of(AfterFirst(calls, n), stream), k, i)
    ensures Of(AfterFirst(calls, n), stream).stamp == StampAt(calls[k].data, i, calls[k].now)
  {
    if k < n - 1 {
      BegunEarlier(calls, stream, n - 1, k, i);
      StampsFollow(calls, stream, n - 1, k, i);
    } else {
      LastCallStamps(AfterFirst(calls, k), stream, calls[k].data, calls[k].now);
    }
  }

  /** The stamp of an unfinished line is the time of the chunk that brought its first byte, unless that
      byte follows a line feed in the same chunk, in which case it is 0. */
  lemma {:induction false} StampLaw(calls: seq<Call>, stream: Stream, k: nat, i: nat)
    requires BeginsAt(calls, stream, k, i)
    ensures Of(After(calls), stream).stamp == StampAt(calls[k].data, i, calls[k].now)
    ensures calls[k].now != 0 ==>
              (Of(After(calls), stream).stamp == calls[k].now <==> !(i > 0 && calls[k].data[i - 1] == '\n'))
  {
    StartIsBack(calls, stream);
    BeforeAll(calls, stream);
    AfterFirstIsAfter(calls, |calls|);
    assert calls[..|calls|] == calls;
    StampsFollow(calls, stream, |calls|, k, i);
  }

  /** Every unfinished line begins at some byte of some call. */
  lemma {:induction false} LineBegins(calls: seq<Call>, stream: Stream) returns (k: nat, i: nat)
    requires Of(After(calls), stream).partial != ""
    ensures BeginsAt(calls, stream, k, i)
  {
    StartIsBack(calls, stream);
    BeforeAll(calls, stream);
    var rx := Received(calls, stream);
    StartInside(rx);
    k, i := Locate(calls, stream, LineStart(rx), |calls|);
  }

  lemma {:induction false} StartInside(rx: string)
    requires Shown(Rest(rx)) != ""
    ensures 0 <= LineStart(rx) < |rx|
  {
    RestIsSuffix(rx);
    var r := Rest(rx);
    AfterLastCrIsSuffix(if EndsWithCr(r) then r[..|r| - 1] else r);
  }

  lemma {:induction false} RestIsSuffix(s: string)
    ensures |Rest(s)| <= |s|
  {
    if s == "" {
    } else {
      RestIsSuffix(s[..|s| - 1]);
    }
  }

  lemma {:induction false} Locate(calls: seq<Call>, stream: Stream, p: nat, n: nat) returns (k: nat, i: nat)
    requires n <= |calls| && p < Before(calls, stream, n)
    ensures k < n && calls[k].stream == stream && i < |calls[k].data| && Before(calls, stream, k) + i == p
  {
    if p < Before(calls, stream, n - 1) {
      k, i := Locate(calls, stream, p, n - 1);
    } else {
      k, i := n - 1, p - Before(calls, stream, n - 1);
    }
  }

  const ONE_CHUNK := [Call(Stdout, "\nx", 7)]
  const TWO_CHUNKS := [Call(Stdout, "\n", 7), Call(Stdout, "x", 7)]

  /** The time stamp of an unfinished line is not covered, because it does depend on chunking. */
  lemma {:induction false} StampDependsOnChunking()
    ensures Arrivals(ONE_CHUNK) == Arrivals(TWO_CHUNKS)
    ensures After(ONE_CHUNK).out == Splitter("x", false, 0)
    ensures After(TWO_CHUNKS).out == Splitter("x", false, 7)
  {
    assert "\nx"[..1] == "\n" && "\n"[..0] == "" && "x"[..0] == "";
    assert ONE_CHUNK[..0] == [] && TWO_CHUNKS[..1] == [Call(Stdout, "\n", 7)] && TWO_CHUNKS[..1][..0] == [];
    assert Arrivals(TWO_CHUNKS[..1]) == [] + Tagged(Stdout, "\n");
    var one := FeedByte(StampChunk(EMPTY_LOG, Stdout, 7), Stdout, '\n', 7);
    assert FeedBytes(StampChunk(EMPTY_LOG, Stdout, 7), Stdout, "\n", 7) == one;
    assert After(TWO_CHUNKS[..1]) == one;
    assert After(ONE_CHUNK) == FeedByte(one, Stdout, 'x', 7);
    var two := StampChunk(one, Stdout, 7);
    assert FeedBytes(two, Stdout, "x", 7) == FeedByte(FeedBytes(two, Stdout, "", 7), Stdout, 'x', 7);
  }
}
