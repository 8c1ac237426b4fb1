/** Range, context, search and tail queries, which the source answers by index arithmetic, against
    plain filters over the entries. */
module LogQueries {
  import opened Common
  import opened LogEntries
  import opened TextSearch

  function Take<T>(s: seq<T>, n: nat): seq<T> { s[..Min(n, |s|)] }

  function Last<T>(s: seq<T>, n: nat): seq<T> { s[|s| - Min(n, |s|)..] }

  // ----- by revision -----

  /** The entries from index `i` on with revisions in `lo..hi`, in order. */
  function BetweenFrom(es: seq<Entry>, i: nat, lo: nat, hi: nat): seq<Entry>
    decreases |es| - i
  {
    if i >= |es| then []
    else if lo <= es[i].revision <= hi then [es[i]] + BetweenFrom(es, i + 1, lo, hi)
    else BetweenFrom(es, i + 1, lo, hi)
  }

  function Between(es: seq<Entry>, lo: nat, hi: nat): seq<Entry> { BetweenFrom(es, 0, lo, hi) }

  function Clamp(x: int, n: nat): nat { if x < 0 then 0 else Min(x, n) }

  /** On contiguous revisions, filtering is slicing. */
  lemma {:induction false} BetweenIsSlice(es: seq<Entry>, first: nat, lo: nat, hi: nat)
    requires Revised(es, first) && lo <= hi + 1
    ensures Clamp(lo - first, |es|) <= Clamp(hi + 1 - first, |es|)
    ensures Between(es, lo, hi) == es[Clamp(lo - first, |es|)..Clamp(hi + 1 - first, |es|)]
  {
    BetweenSuffix(es, 0, Clamp(lo - first, |es|), Clamp(hi + 1 - first, |es|), lo, hi);
  }

  lemma {:induction false} BetweenSuffix(es: seq<Entry>, i: nat, a: nat, b: nat, lo: nat, hi: nat)
    requires i <= |es| && a <= b <= |es|
    requires forall j :: 0 <= j < |es| ==> (lo <= es[j].revision <= hi <==> a <= j < b)
    ensures BetweenFrom(es, i, lo, hi) == es[Max(a, i)..Max(b, i)]
    decreases |es| - i
  {
    if i >= |es| {
    } else {
      BetweenSuffix(es, i + 1, a, b, lo, hi);
      if a <= i < b { assert es[i..b] == [es[i]] + es[i + 1..b]; }
    }
  }

  lemma {:induction false} BetweenNone(es: seq<Entry>, i: nat, lo: nat, hi: nat)
    requires lo > hi
    ensures BetweenFrom(es, i, lo, hi) == []
    decreases |es| - i
  {
    if i >= |es| {
    } else {
      BetweenNone(es, i + 1, lo, hi);
    }
  }

  method Range(es: seq<Entry>, lo: nat, hi: nat, limit: nat, ghost first: nat) returns (r: seq<Entry>)
    requires Revised(es, first)
    ensures r == Take(Between(es, lo, hi), limit)
  {
    if limit == 0 || es == [] || lo > hi {
      if lo > hi { BetweenNone(es, 0, lo, hi); }
      return [];
    }
    BetweenIsSlice(es, first, lo, hi);
    var oldest, latest := es[0].revision, es[|es| - 1].revision;
    if hi < oldest || lo > latest {
      return [];
    }
    var start := (if lo > oldest then lo else oldest) - oldest;
    var end := (if hi < latest then hi else latest) - oldest;
    var count := Min(limit, end - start + 1);
    r := CopyFrom(es, start, start + count);
    TakeOfSlice(es, start, end + 1, limit);
  }

  lemma {:induction false} TakeOfSlice(es: seq<Entry>, start: nat, end: nat, limit: nat)
    requires start <= end <= |es|
    ensures Take(es[start..end], limit) == es[start..start + Min(limit, end - start)]
  {}

  method CopyFrom(es: seq<Entry>, start: nat, end: nat) returns (r: seq<Entry>)
    requires start <= end <= |es|
    ensures r == es[start..end]
  {
    r := [];
    for i := start to end
      invariant r == es[start..i]
    {
      r := r + [es[i]];
    }
  }

  predicate Contains(es: seq<Entry>, revision: nat) {
    es != [] && es[0].revision <= revision <= es[|es| - 1].revision
  }

  /** The entries at most `before` below and `after` above the anchor revision, if it is retained. */
  function Around(es: seq<Entry>, revision: nat, before: nat, after: nat): seq<Entry> {
    if !Contains(es, revision) then []
    else Between(es, if before < revision then revision - before else 0, revision + after)
  }

  /** The sum whose wrap-around the source does not guard against. */
  predicate ContextOverflows(es: seq<Entry>, revision: nat, after: nat) {
    Contains(es, revision) && revision - es[0].revision + after + 1 >= WORD
  }

  /** `None` models the length error raised when the end index has wrapped below the start.  The
      result is the intended window exactly when the end index does not wrap. */
  method Context(es: seq<Entry>, revision: nat, before: nat, after: nat, ghost first: nat)
    returns (r: Option<seq<Entry>>)
    requires Revised(es, first) && first >= 1
    requires |es| < WORD && before < WORD && after < WORD
    ensures r == Some(Around(es, revision, before, after)) <==> !ContextOverflows(es, revision, after)
  {
    if !Contains(es, revision) { return Some([]); }
    var anchor := revision - es[0].revision;
    var start := if anchor > before then anchor - before else 0;
    var end := Min(|es|, (anchor + after + 1) % WORD);
    ContextWindow(es, first, revision, before, after);
    if end < start { return None; }
    var copied := CopyFrom(es, start, end);
    r := Some(copied);
    if anchor + after + 1 >= WORD { WrappedContext(es, anchor, after, start); }
  }

  /** An input on which it wraps: the window around the only entry, reaching as far as it can, should be
      that entry. */
  lemma {:induction false} WideContextWraps(e: Entry)
    requires e.revision == 1
    ensures ContextOverflows([e], 1, WORD - 1) && Around([e], 1, 0, WORD - 1) == [e]
  {
    BetweenIsSlice([e], 1, 1, WORD);
  }

  /** A wrapped end index is at most the anchor, so the window misses the anchor itself. */
  lemma {:induction false} WrappedContext(es: seq<Entry>, anchor: nat, after: nat, start: nat)
    requires start <= anchor < |es| < WORD && after < WORD && anchor + after + 1 >= WORD
    ensures var end := Min(|es|, (anchor + after + 1) % WORD);
      end <= anchor && (start <= end ==> |es[start..end]| < |es[start..Min(|es|, anchor + after + 1)]|)
  {
    assert (anchor + after + 1) % WORD == anchor + after + 1 - WORD;
  }

  lemma {:induction false} ContextWindow(es: seq<Entry>, first: nat, revision: nat, before: nat, after: nat)
    requires Revised(es, first) && first >= 1 && Contains(es, revision)
    ensures var anchor := revision - first;
      var start := if anchor > before then anchor - before else 0;
      start <= anchor < Min(|es|, anchor + after + 1)
      && Around(es, revision, before, after) == es[start..Min(|es|, anchor + after + 1)]
  {
    BetweenIsSlice(es, first, if before < revision then revision - before else 0, revision + after);
  }

  // ----- by text -----

  datatype Highlight = Highlight(revision: nat, start: nat, length: nat)

  datatype SearchResult = SearchResult(entries: seq<Entry>, highlights: seq<Highlight>, truncated: bool)

  predicate Mentions(e: Entry, query: string) { Find(e.text, query, 0).Some? }

  function Mentioning(es: seq<Entry>, query: string): seq<Entry> {
    if es == [] then []
    else Mentioning(es[..|es| - 1], query) + (if Mentions(es[|es| - 1], query) then [es[|es| - 1]] else [])
  }

  /** The highlights from a first match on: scan from the left, skipping past each match. */
  function HighlightsFrom(e: Entry, query: string, found: Option<nat>): seq<Highlight>
    requires query != "" && (found.Some? ==> found.value <= |e.text|)
    decreases if found.Some? then |e.text| - found.value else 0, found.Some?
  {
    if found.None? then []
    else
      var next := Find(e.text, query, found.value + |query|);
      [Highlight(e.revision, found.value, |query|)] + HighlightsFrom(e, query, next)
  }

  function HighlightsIn(e: Entry, query: string): seq<Highlight>
    requires query != ""
  {
    HighlightsFrom(e, query, Find(e.text, query, 0))
  }

  /** Genuine matches in the entry, disjoint and in order, starting at or after `from`. */
  ghost predicate Disjoint(h: seq<Highlight>, e: Entry, query: string, from: nat) {
    h == [] ||
    (&& h[0] == Highlight(e.revision, h[0].start, |query|)
     && from <= h[0].start && OccursAt(e.text, query, h[0].start)
     && Disjoint(h[1..], e, query, h[0].start + |query|))
  }

  lemma {:induction false} HighlightsAreDisjoint(e: Entry, query: string, from: nat)
    requires query != ""
    ensures Disjoint(HighlightsFrom(e, query, Find(e.text, query, from)), e, query, from)
    decreases |e.text| - from
  {
    FindOccurs(e.text, query, from);
    var found := Find(e.text, query, from);
    if found.Some? {
      var rest := HighlightsFrom(e, query, Find(e.text, query, found.value + |query|));
      var h := [Highlight(e.revision, found.value, |query|)] + rest;
      assert HighlightsFrom(e, query, found) == h && h[1..] == rest;
      HighlightsAreDisjoint(e, query, found.value + |query|);
    }
  }

  ghost predicate Covered(h: seq<Highlight>, p: nat) {
    exists i :: 0 <= i < |h| && h[i].start <= p < h[i].start + h[i].length
  }

  /** Nothing is left out: every occurrence overlaps a highlight that starts at or before it. */
  lemma {:induction false} HighlightsCover(e: Entry, query: string, from: nat, p: nat)
    requires query != "" && from <= p && OccursAt(e.text, query, p)
    ensures Covered(HighlightsFrom(e, query, Find(e.text, query, from)), p)
    decreases |e.text| - from
  {
    FindIsFirst(e.text, query, from, p);
    var found := Find(e.text, query, from).value;
    var first := Highlight(e.revision, found, |query|);
    var rest := HighlightsFrom(e, query, Find(e.text, query, found + |query|));
    if p < found + |query| {
    } else {
      HighlightsCover(e, query, found + |query|, p);
    }
    CoveredCons(first, rest, p);
    HighlightsUnfold(e, query, found);
  }

  lemma {:induction false} HighlightsUnfold(e: Entry, query: string, found: nat)
    requires query != "" && found + |query| <= |e.text|
    ensures HighlightsFrom(e, query, Some(found))
         == [Highlight(e.revision, found, |query|)] + HighlightsFrom(e, query, Find(e.text, query, found + |query|))
  {}

  lemma {:induction false} CoveredCons(first: Highlight, rest: seq<Highlight>, p: nat)
    requires first.start <= p < first.start + first.length || Covered(rest, p)
    ensures Covered([first] + rest, p)
  {
    var h := [first] + rest;
    if first.start <= p < first.start + first.length {
      assert h[0] == first;
    } else {
      var i :| 0 <= i < |rest| && rest[i].start <= p < rest[i].start + rest[i].length;
      assert h[i + 1] == rest[i];
    }
  }

  function AllHighlights(es: seq<Entry>, query: string): seq<Highlight>
    requires query != ""
  {
    if es == [] then [] else AllHighlights(es[..|es| - 1], query) + HighlightsIn(es[|es| - 1], query)
  }

  /** The first `limit` matching entries with all their highlights; truncated exactly when more
      entries match.  An empty query or a zero limit finds nothing. */
  function SearchSpec(es: seq<Entry>, query: string, limit: nat): SearchResult {
    if query == "" || limit == 0 then SearchResult([], [], false)
    else
      var m := Mentioning(es, query);
      SearchResult(Take(m, limit), AllHighlights(Take(m, limit), query), |m| > limit)
  }

  lemma {:induction false} MentioningSnoc(es: seq<Entry>, query: string, i: nat)
    requires i < |es|
    ensures Mentioning(es[..i + 1], query)
         == Mentioning(es[..i], query) + (if Mentions(es[i], query) then [es[i]] else [])
  {
    assert es[..i + 1][..i] == es[..i];
  }

  lemma {:induction false} MentioningGrows(es: seq<Entry>, query: string, i: nat)
    requires i <= |es|
    ensures |Mentioning(es[..i], query)| <= |Mentioning(es, query)|
    ensures Mentioning(es[..i], query) == Mentioning(es, query)[..|Mentioning(es[..i], query)|]
    decreases |es| - i
  {
    if i < |es| {
      MentioningGrows(es, query, i + 1);
      MentioningSnoc(es, query, i);
    } else {
      assert es[..i] == es;
    }
  }

  lemma {:induction false} AllHighlightsSnoc(es: seq<Entry>, e: Entry, query: string)
    requires query != ""
    ensures AllHighlights(es + [e], query) == AllHighlights(es, query) + HighlightsIn(e, query)
  {
    assert (es + [e])[..|es|] == es;
  }

  /** Increasing indices of exactly the entries in which the query occurs. */
  ghost predicate Picks(es: seq<Entry>, query: string, at: seq<nat>) {
    && (forall k :: 0 <= k < |at| ==> at[k] < |es|)
    && (forall k, l :: 0 <= k < l < |at| ==> at[k] < at[l])
    && (forall i :: 0 <= i < |es| ==> (i in at <==> Occurs(es[i].text, query)))
  }

  ghost predicate Occurs(text: string, query: string) { exists p: nat :: OccursAt(text, query, p) }

  lemma {:induction false} MentionsOccurs(e: Entry, query: string)
    ensures Mentions(e, query) <==> Occurs(e.text, query)
  {
    FindOccurs(e.text, query, 0);
    if Occurs(e.text, query) {
      var p: nat :| OccursAt(e.text, query, p);
      FindIsFirst(e.text, query, 0, p);
    }
  }

  lemma {:induction false} PicksSnoc(es: seq<Entry>, query: string, before: seq<nat>)
    requires es != [] && Picks(es[..|es| - 1], query, before)
    ensures Picks(es, query, if Occurs(es[|es| - 1].text, query) then before + [|es| - 1] else before)
  {
    var n := |es| - 1;
    assert forall i :: 0 <= i < n ==> es[..n][i] == es[i];
    assert n !in before;
  }

  lemma {:induction false} MentioningPicks(es: seq<Entry>, query: string) returns (at: seq<nat>)
    ensures Picks(es, query, at)
    ensures |Mentioning(es, query)| == |at| && forall k :: 0 <= k < |at| ==> Mentioning(es, query)[k] == es[at[k]]
  {
    if es == [] {
      at := [];
    } else {
      var n := |es| - 1;
      var before := MentioningPicks(es[..n], query);
      MentionsOccurs(es[n], query);
      at := if Mentions(es[n], query) then before + [n] else before;
      PicksSnoc(es, query, before);
    }
  }

  /** A search returns the first entries in which the query occurs, in order and up to the limit. */
  lemma {:induction false} SearchFindsTheFirst(es: seq<Entry>, query: string, limit: nat) returns (at: seq<nat>)
    requires query != "" && limit > 0
    ensures Picks(es, query, at)
    ensures var r := SearchSpec(es, query, limit);
      && |r.entries| == Min(limit, |at|) && (r.truncated <==> |at| > limit)
      && forall k :: 0 <= k < |r.entries| ==> r.entries[k] == es[at[k]]
  {
    at := MentioningPicks(es, query);
  }

  function Each(es: seq<Entry>, query: string): seq<seq<Highlight>>
    requires query != ""
  {
    seq(|es|, i requires 0 <= i < |es| => HighlightsIn(es[i], query))
  }

  /** The highlights of a search are those of each entry found, one entry after the other. */
  lemma {:induction false} HighlightsByEntry(es: seq<Entry>, query: string)
    requires query != ""
    ensures AllHighlights(es, query) == Concat(Each(es, query))
  {
    if es == [] {
    } else {
      var n := |es| - 1;
      HighlightsByEntry(es[..n], query);
      EachSnoc(es, query);
      ConcatSnoc(Each(es[..n], query), HighlightsIn(es[n], query));
    }
  }

  lemma {:induction false} EachSnoc(es: seq<Entry>, query: string)
    requires query != "" && es != []
    ensures Each(es, query) == Each(es[..|es| - 1], query) + [HighlightsIn(es[|es| - 1], query)]
  {}

  lemma {:induction false} ConcatSnoc(hs: seq<seq<Highlight>>, last: seq<Highlight>)
    ensures Concat(hs + [last]) == Concat(hs) + last
  {
    ConcatAppend(hs, [last]);
    assert Concat([last]) == last + Concat<Highlight>([]) == last;
  }

  /** The inner loop: highlights of one entry, given its first match. */
  method Highlighting(e: Entry, query: string, first: nat) returns (hs: seq<Highlight>)
    requires query != "" && Find(e.text, query, 0) == Some(first)
    ensures hs == HighlightsIn(e, query)
  {
    hs := [];
    var offset: Option<nat> := Some(first);
    while offset.Some?
      invariant offset.Some? ==> offset.value <= |e.text|
      invariant hs + HighlightsFrom(e, query, offset) == HighlightsIn(e, query)
      decreases if offset.Some? then |e.text| - offset.value else 0, offset.Some?
    {
      var next := Find(e.text, query, offset.value + |query|);
      Join(hs, [Highlight(e.revision, offset.value, |query|)], HighlightsFrom(e, query, next));
      hs := hs + [Highlight(e.revision, offset.value, |query|)];
      offset := next;
    }
  }

  method Search(es: seq<Entry>, query: string, limit: nat) returns (r: SearchResult)
    ensures r == SearchSpec(es, query, limit)
  {
    r := SearchResult([], [], false);
    if query == "" || limit == 0 { return; }
    for i := 0 to |es|
      invariant r == SearchResult(Mentioning(es[..i], query), AllHighlights(r.entries, query), false)
      invariant |r.entries| <= limit
    {
      MentioningSnoc(es, query, i);
      var offset := Find(es[i].text, query, 0);
      if offset.None? { continue; }
      if |r.entries| >= limit {
        r := r.(truncated := true);
        MentioningGrows(es, query, i);
        MentioningGrows(es, query, i + 1);
        return;
      }
      var hs := Highlighting(es[i], query, offset.value);
      AllHighlightsSnoc(r.entries, es[i], query);
      r := SearchResult(r.entries + [es[i]], r.highlights + hs, false);
    }
    assert es[..|es|] == es;
    assert Take(r.entries, limit) == r.entries;
  }

  // ----- from the end -----

  /** The newest items: completed entries followed by the unfinished lines.  Unfinished lines take
      precedence, standard output first. */
  function TailSpec(es: seq<Entry>, unfinished: seq<Entry>, limit: nat): seq<Entry> {
    Last(es, limit - Min(limit, |unfinished|)) + Take(unfinished, limit)
  }

  /** A tail has as many items as there are, up to the limit: the last ones, unless the limit is too
      small for the unfinished lines alone. */
  lemma {:induction false} TailLength(es: seq<Entry>, unfinished: seq<Entry>, limit: nat)
    ensures var r := TailSpec(es, unfinished, limit);
      && |r| == Min(limit, |es| + |unfinished|)
      && (limit >= |unfinished| ==> r == (es + unfinished)[|es| + |unfinished| - |r|..])
      && (limit < |unfinished| ==> r == unfinished[..limit])
  {}

  method Tail(es: seq<Entry>, outPart: Option<Entry>, errPart: Option<Entry>, limit: nat) returns (r: seq<Entry>)
    ensures r == TailSpec(es, Listed(outPart) + Listed(errPart), limit)
  {
    r := [];
    if limit == 0 { return; }
    var partialCount := (if outPart.Some? then 1 else 0) + (if errPart.Some? then 1 else 0);
    var completedLimit := if limit > partialCount then limit - partialCount else 0;
    var start := if |es| > completedLimit then |es| - completedLimit else 0;
    r := CopyFrom(es, start, |es|);
    TailPieces(es, outPart, errPart, limit);
    r := AppendPartial(r, outPart, limit);
    r := AppendPartial(r, errPart, limit);
  }

  method AppendPartial(es: seq<Entry>, part: Option<Entry>, limit: nat) returns (r: seq<Entry>)
    ensures r == es + if |es| < limit then Listed(part) else []
  {
    r := es;
    if part.Some? && |r| < limit { r := r + [part.value]; }
  }

  lemma {:induction false} TailPieces(es: seq<Entry>, a: Option<Entry>, b: Option<Entry>, limit: nat)
    requires limit > 0
    ensures var n := |Listed(a)| + |Listed(b)|;
      var start := |es| - Min(if limit > n then limit - n else 0, |es|);
      TailSpec(es, Listed(a) + Listed(b), limit)
      == var r := es[start..|es|] + (if |es| - start < limit then Listed(a) else []);
         r + (if |r| < limit then Listed(b) else [])
  {
    var both := Listed(a) + Listed(b);
    assert Take(both, limit) == Listed(a) + (if |Listed(a)| < limit then Listed(b) else []);
  }

  function Listed(e: Option<Entry>): seq<Entry> { if e.Some? then [e.value] else [] }
}
