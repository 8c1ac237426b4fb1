/** The byte-bounded history of numbered output chunks of one session. */
module OutputBuffer {
  import opened Common
  import opened Eviction

  datatype Chunk = Chunk(number: nat, data: string)

  /** A run of chunks sent to a client.  Chunk numbers start at 1, so 0 marks the empty slice. */
  datatype Slice = Slice(first: nat, last: nat, data: string)

  const EMPTY_SLICE := Slice(0, 0, "")

  function Flat(cs: seq<Chunk>): string {
    if cs == [] then "" else cs[0].data + Flat(cs[1..])
  }

  /** The last `n` bytes, or all of them when there are fewer. */
  function LastBytes(s: string, n: nat): string { s[|s| - Min(n, |s|)..] }

  function FitsIn(capacity: nat): seq<Chunk> -> bool { (cs: seq<Chunk>) => |Flat(cs)| <= capacity }

  /** The chunks a history of non-empty appends produces, before any eviction: chunk `i + 1` holds
      the end of the `i`-th append, cut to the capacity. */
  function Stored(history: seq<string>, capacity: nat): seq<Chunk> {
    seq(|history|, i requires 0 <= i < |history| => Chunk(i + 1, LastBytes(history[i], capacity)))
  }

  /** What the buffer is specified to hold after a history of appends: the longest suffix of whole
      chunks that fits. */
  function Retained(history: seq<string>, capacity: nat): seq<Chunk> {
    LongestFit(Stored(history, capacity), FitsIn(capacity))
  }

  /** Chunks `lo..hi` (numbers, both ends included) joined. */
  function Joined(cs: seq<Chunk>, lo: nat, hi: nat): string
    requires 1 <= lo && hi <= |cs|
  {
    if lo <= hi then Flat(cs[lo - 1..hi]) else ""
  }

  // ----- flattening -----

  lemma {:induction false} FlatAppend(a: seq<Chunk>, b: seq<Chunk>)
    ensures Flat(a + b) == Flat(a) + Flat(b)
  {
    if a == [] {
      assert a + b == b;
    } else {
      assert (a + b)[1..] == a[1..] + b;
      FlatAppend(a[1..], b);
    }
  }

  lemma {:induction false} FlatSnoc(a: seq<Chunk>, c: Chunk)
    ensures Flat(a + [c]) == Flat(a) + c.data
  {
    FlatAppend(a, [c]);
    assert Flat([c]) == c.data + Flat([]);
  }

  lemma {:induction false} FlatSplit(cs: seq<Chunk>, k: nat)
    requires k <= |cs|
    ensures Flat(cs) == Flat(cs[..k]) + Flat(cs[k..])
  {
    assert cs == cs[..k] + cs[k..];
    FlatAppend(cs[..k], cs[k..]);
  }

  lemma {:induction false} FitsShrinks(capacity: nat)
    ensures ShrinksAtBack(FitsIn(capacity))
  {
    forall t: seq<Chunk>, y: Chunk ensures FitsIn(capacity)(t + [y]) ==> FitsIn(capacity)(t) {
      FlatSnoc(t, y);
    }
  }

  // ----- what the retained chunks are -----

  /** Appending one more string and evicting incrementally keeps exactly the specified suffix. */
  lemma {:induction false} RetainedStep(history: seq<string>, data: string, capacity: nat)
    ensures var c := Chunk(|history| + 1, LastBytes(data, capacity));
            Retained(history + [data], capacity) == LongestFit(Retained(history, capacity) + [c], FitsIn(capacity))
  {
    FitsShrinks(capacity);
    var c := Chunk(|history| + 1, LastBytes(data, capacity));
    assert Stored(history + [data], capacity) == Stored(history, capacity) + [c];
    EvictIncrementally(Stored(history, capacity), c, FitsIn(capacity));
  }

  /** What a history leaves in the buffer: whole chunks, consecutively numbered up to the newest
      append, within capacity. */
  ghost predicate Shape(history: seq<string>, capacity: nat, r: seq<Chunk>) {
    && |r| <= |history|
    && |Flat(r)| <= capacity
    && (forall i :: 0 <= i < |r| ==> r[i].number == |history| - |r| + i + 1)
    && Matches(r, history[|history| - |r|..], capacity)
  }

  ghost predicate Matches(r: seq<Chunk>, appended: seq<string>, capacity: nat) {
    |r| == |appended| && forall i :: 0 <= i < |r| ==> r[i].data == LastBytes(appended[i], capacity)
  }

  lemma {:induction false} RetainedIsStoredSuffix(history: seq<string>, capacity: nat)
    ensures |Retained(history, capacity)| <= |history|
    ensures Retained(history, capacity) == Stored(history, capacity)[|history| - |Retained(history, capacity)|..]
    ensures |Flat(Retained(history, capacity))| <= capacity
  {
    LongestFitIsSuffix(Stored(history, capacity), FitsIn(capacity));
  }

  lemma {:induction false} StoredSuffixShape(history: seq<string>, capacity: nat, r: seq<Chunk>)
    requires |r| <= |history| && |Flat(r)| <= capacity
    requires r == Stored(history, capacity)[|history| - |r|..]
    ensures Shape(history, capacity, r)
  {}

  lemma {:induction false} RetainedShape(history: seq<string>, capacity: nat)
    ensures Shape(history, capacity, Retained(history, capacity))
  {
    RetainedIsStoredSuffix(history, capacity);
    StoredSuffixShape(history, capacity, Retained(history, capacity));
  }

  /** Eviction is not too eager: from any evicted chunk on, the stored chunks exceed the capacity. */
  lemma {:induction false} EvictedDidNotFit(history: seq<string>, capacity: nat, k: nat)
    requires k < |history| - |Retained(history, capacity)|
    ensures |Flat(Stored(history, capacity)[k..])| > capacity
  {
    if FitsIn(capacity)(Stored(history, capacity)[k..]) {
      LongestFitIsLongest(Stored(history, capacity), FitsIn(capacity), k);
    }
  }

  /** The newest append is never evicted. */
  lemma {:induction false} NewestRetained(history: seq<string>, capacity: nat)
    requires history != []
    ensures Retained(history, capacity) != []
  {
    var all := Stored(history, capacity);
    var n := |all| - 1;
    assert all[n..] == [] + [all[n]];
    FlatSnoc([], all[n]);
    assert FitsIn(capacity)(all[n..]);
    LongestFitIsLongest(all, FitsIn(capacity), n);
  }

  /** The retained bytes are a suffix of every byte ever appended, although single appends larger
      than the capacity are cut when they are stored. */
  lemma {:induction false} RetainedIsSuffix(history: seq<string>, capacity: nat)
    ensures IsSuffix(Flat(Retained(history, capacity)), Concat(history))
    ensures |Flat(Retained(history, capacity))| <= capacity
  {
    RetainedShape(history, capacity);
    ShapeIsSuffix(history, capacity, Retained(history, capacity));
  }

  lemma {:induction false} ShapeIsSuffix(history: seq<string>, capacity: nat, r: seq<Chunk>)
    requires Shape(history, capacity, r)
    ensures IsSuffix(Flat(r), Concat(history))
  {
    var base := |history| - |r|;
    SuffixFrom(history[base..], capacity, r);
    assert history == history[..base] + history[base..];
    ConcatAppend(history[..base], history[base..]);
    SuffixTrans(Flat(r), Concat(history[..base]), Concat(history[base..]));
  }

  lemma {:induction false} SuffixTrans(s: string, a: string, b: string)
    requires IsSuffix(s, b)
    ensures IsSuffix(s, a + b)
  {}

  /** Only the first chunk of a fitting run can have been cut, since a cut chunk fills the capacity
      by itself; so the run is a suffix of the joined appends. */
  lemma {:induction false} SuffixFrom(appended: seq<string>, capacity: nat, r: seq<Chunk>)
    requires Matches(r, appended, capacity) && |Flat(r)| <= capacity
    ensures IsSuffix(Flat(r), Concat(appended))
  {
    if r == [] {
    } else {
      var head, rest := r[0].data, Flat(r[1..]);
      assert Flat(r) == head + rest;
      assert Concat(appended) == appended[0] + Concat(appended[1..]);
      SuffixFrom(appended[1..], capacity, r[1..]);
      if head == "" {
        assert Flat(r) == rest;
        SuffixTrans(rest, appended[0], Concat(appended[1..]));
      } else {
        WholeIfSmall(appended[1..], capacity, r[1..]);
        assert IsSuffix(head, appended[0]);
      }
    }
  }

  lemma {:induction false} WholeIfSmall(appended: seq<string>, capacity: nat, r: seq<Chunk>)
    requires Matches(r, appended, capacity) && |Flat(r)| < capacity
    ensures Flat(r) == Concat(appended)
  {
    if r == [] {
    } else {
      WholeIfSmall(appended[1..], capacity, r[1..]);
      assert |r[0].data| < capacity;
    }
  }

  // ----- queries -----

  /** The index of the first chunk numbered `number` or higher. */
  function IndexFrom(cs: seq<Chunk>, number: nat): nat {
    if cs == [] || cs[0].number >= number then 0 else 1 + IndexFrom(cs[1..], number)
  }

  function SliceFrom(cs: seq<Chunk>, number: nat): Slice {
    var k := IndexFrom(cs, number);
    if k < |cs| then Slice(cs[k].number, cs[|cs| - 1].number, Flat(cs[k..])) else EMPTY_SLICE
  }

  lemma {:induction false} IndexFromConsecutive(cs: seq<Chunk>, base: nat, number: nat)
    requires forall i :: 0 <= i < |cs| ==> cs[i].number == base + i + 1
    ensures IndexFrom(cs, number) == if number <= base + 1 then 0 else Min(number - base - 1, |cs|)
  {
    if cs == [] || cs[0].number >= number {
    } else {
      IndexFromConsecutive(cs[1..], base + 1, number);
    }
  }

  ghost predicate Numbered(cs: seq<Chunk>) { forall i :: 0 <= i < |cs| ==> cs[i].number == i + 1 }

  /** A slice request answers with every stored chunk from the requested number on, or from the
      oldest retained one if the requested chunk has been evicted; it is empty exactly when no
      chunk that new exists. */
  ghost predicate IsSliceFrom(stored: seq<Chunk>, evicted: nat, number: nat, s: Slice) {
    if number > |stored| then s == EMPTY_SLICE
    else
      && s.last == |stored|
      && s.first == (if number <= evicted then evicted + 1 else number)
      && 1 <= s.first <= s.last
      && s.data == Joined(stored, s.first, s.last)
  }

  lemma {:induction false} SliceFromHistory(history: seq<string>, capacity: nat, number: nat)
    requires number >= 1
    ensures var r := Retained(history, capacity);
      && |r| <= |history|
      && IsSliceFrom(Stored(history, capacity), |history| - |r|, number, SliceFrom(r, number))
  {
    RetainedIsStoredSuffix(history, capacity);
    if history != [] { NewestRetained(history, capacity); }
    SliceOfSuffix(Stored(history, capacity), |history| - |Retained(history, capacity)|, number);
  }

  lemma {:induction false} SliceOfSuffix(stored: seq<Chunk>, evicted: nat, number: nat)
    requires Numbered(stored) && number >= 1
    requires evicted <= |stored| && (stored != [] ==> evicted < |stored|)
    ensures IsSliceFrom(stored, evicted, number, SliceFrom(stored[evicted..], number))
  {
    var r := stored[evicted..];
    IndexFromConsecutive(r, evicted, number);
    if number <= |stored| {
      DropDrop(stored, evicted, IndexFrom(r, number));
    }
  }

  lemma {:induction false} DropDrop<T>(s: seq<T>, a: nat, b: nat)
    requires a + b <= |s|
    ensures s[a..][b..] == s[a + b..|s|]
  {}

  ghost predicate NonEmptyChunks(cs: seq<Chunk>) { forall i :: 0 <= i < |cs| ==> cs[i].data != "" }

  /** What `Tail` returns: the last bytes, up to the newest chunk, labelled with the number of the
      chunk that holds the first of them. */
  ghost predicate IsTail(cs: seq<Chunk>, n: nat, s: Slice) {
    if cs == [] || n == 0 then s == EMPTY_SLICE
    else
      && s.data == LastBytes(Flat(cs), n)
      && s.last == cs[|cs| - 1].number
      && exists k :: 0 <= k < |cs| && s.first == cs[k].number && (NonEmptyChunks(cs) ==> HoldsFirstByte(cs, k, s.data))
  }

  /** The chunks from `k` on contain the suffix `data`, and those after `k` do not. */
  ghost predicate HoldsFirstByte(cs: seq<Chunk>, k: nat, data: string)
    requires k < |cs|
  {
    |Flat(cs[k + 1..])| < |data| <= |Flat(cs[k..])|
  }

  method FlattenFrom(cs: seq<Chunk>, from: nat) returns (data: string)
    requires from <= |cs|
    ensures data == Flat(cs[from..])
  {
    data := "";
    for i := from to |cs|
      invariant data == Flat(cs[from..i])
    {
      assert cs[from..i + 1] == cs[from..i] + [cs[i]];
      FlatSnoc(cs[from..i], cs[i]);
      data := data + cs[i].data;
    }
    assert cs[from..|cs|] == cs[from..];
  }

  /** The scan back from the newest chunk: `first` is the newest index from which at least
      `maxBytes` bytes are held, or 0. */
  method TailStart(cs: seq<Chunk>, maxBytes: nat) returns (first: nat)
    requires cs != [] && maxBytes > 0
    ensures first < |cs|
    ensures |Flat(cs[first + 1..])| < maxBytes
    ensures first > 0 ==> |Flat(cs[first..])| >= maxBytes
  {
    var collected := 0;
    first := |cs|;
    while first > 0 && collected < maxBytes
      invariant 0 <= first <= |cs|
      invariant collected >= maxBytes ==> |Flat(cs[first..])| >= maxBytes
      invariant collected < maxBytes ==> collected == |Flat(cs[first..])|
      invariant first < |cs| ==> |Flat(cs[first + 1..])| < maxBytes
      invariant first == |cs| ==> collected == 0
    {
      assert cs[first - 1..][1..] == cs[first..];
      collected := collected + Min(|cs[first - 1].data|, maxBytes);
      first := first - 1;
    }
  }

  lemma {:induction false} LastBytesOfSplit(cs: seq<Chunk>, k: nat, n: nat)
    requires k <= |cs|
    requires k > 0 ==> |Flat(cs[k..])| >= n
    ensures LastBytes(Flat(cs[k..]), n) == LastBytes(Flat(cs), n)
  {
    if k == 0 {
      assert cs[0..] == cs;
    } else {
      FlatSplit(cs, k);
    }
  }

  method TailOf(cs: seq<Chunk>, maxBytes: nat) returns (s: Slice)
    requires cs != [] && maxBytes > 0
    ensures IsTail(cs, maxBytes, s)
  {
    var first := TailStart(cs, maxBytes);
    var data := FlattenFrom(cs, first);
    LastBytesOfSplit(cs, first, maxBytes);
    if |data| > maxBytes {
      data := data[|data| - maxBytes..];
    }
    s := Slice(cs[first].number, cs[|cs| - 1].number, data);
    assert first == 0 ==> cs[first..] == cs;
    assert cs[first..][1..] == cs[first + 1..];
    assert NonEmptyChunks(cs) ==> HoldsFirstByte(cs, first, s.data);
  }

  method FirstAtOrAfter(cs: seq<Chunk>, number: nat) returns (index: nat)
    ensures index == IndexFrom(cs, number) && index <= |cs|
  {
    index := 0;
    while index < |cs| && cs[index].number < number
      invariant 0 <= index <= |cs|
      invariant IndexFrom(cs, number) == index + IndexFrom(cs[index..], number)
    {
      assert cs[index..][1..] == cs[index + 1..];
      index := index + 1;
    }
  }

  class SessionOutputBuffer {
    const capacity: nat
    var size: nat
    var nextSequence: nat
    var chunks: seq<Chunk>
    /** Every non-empty string ever appended. */
    ghost var history: seq<string>

    ghost predicate Valid()
      reads this
    {
      && chunks == Retained(history, capacity)
      && size == |Flat(chunks)|
      && nextSequence == |history| + 1
      && (forall i :: 0 <= i < |history| ==> history[i] != "")
    }

    constructor (capacity: nat)
      ensures Valid() && history == [] && this.capacity == capacity
    {
      this.capacity := capacity;
      size, nextSequence, chunks, history := 0, 1, [], [];
    }

    method Append(data: string)
      requires Valid()
      modifies this
      ensures Valid()
      ensures history == if data == "" then old(history) else old(history) + [data]
    {
      if data == "" { return; }
      var stored := data;
      if |stored| > capacity {
        stored := stored[|stored| - capacity..];
      }
      assert stored == LastBytes(data, capacity);
      RetainedStep(history, data, capacity);
      FlatSnoc(chunks, Chunk(nextSequence, stored));
      size := size + |stored|;
      chunks := chunks + [Chunk(nextSequence, stored)];
      nextSequence := nextSequence + 1;
      history := history + [data];
      EvictIfNeeded();
    }

    method EvictIfNeeded()
      requires size == |Flat(chunks)|
      modifies this`size, this`chunks
      ensures chunks == LongestFit(old(chunks), FitsIn(capacity))
      ensures size == |Flat(chunks)|
    {
      while size > capacity && chunks != []
        invariant size == |Flat(chunks)|
        invariant LongestFit(chunks, FitsIn(capacity)) == LongestFit(old(chunks), FitsIn(capacity))
        decreases |chunks|
      {
        size := size - |chunks[0].data|;
        chunks := chunks[1..];
      }
    }

    method LatestSequence() returns (found: bool, number: nat)
      requires Valid()
      ensures found == (history != [])
      ensures found ==> number == |history|
    {
      RetainedShape(history, capacity);
      if chunks == [] {
        if history != [] { NewestRetained(history, capacity); }
        return false, 0;
      }
      return true, chunks[|chunks| - 1].number;
    }

    method Tail(maxBytes: nat) returns (s: Slice)
      requires Valid()
      ensures IsTail(chunks, maxBytes, s)
      ensures capacity > 0 ==> NonEmptyChunks(chunks)
    {
      RetainedShape(history, capacity);
      if chunks == [] || maxBytes == 0 {
        return EMPTY_SLICE;
      }
      s := TailOf(chunks, maxBytes);
    }

    method SliceFromSequence(number: nat) returns (s: Slice)
      requires Valid()
      ensures s == SliceFrom(chunks, number)
    {
      if chunks == [] { return EMPTY_SLICE; }
      var index := FirstAtOrAfter(chunks, number);
      if index == |chunks| { return EMPTY_SLICE; }
      var data := FlattenFrom(chunks, index);
      s := Slice(chunks[index].number, chunks[|chunks| - 1].number, data);
    }
  }
}
