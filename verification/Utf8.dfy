/** Terminal text as UTF-8: emitting cells and clipping lines to a range of columns. */
module Utf8 {
  import opened Common

  // ----- UTF-8 itself: section 4 of RFC 3629 -----

  predicate IsScalar(x: nat) { x < 0xD800 || 0xE000 <= x < 0x110000 }

  predicate InRange(s: bytes, i: nat, low: nat, high: nat) { i < |s| && low <= s[i] as int <= high }

  predicate IsTail(s: bytes, i: nat) { InRange(s, i, 0x80, 0xBF) }

  function Bits(s: bytes, i: nat): nat
    requires IsTail(s, i)
  {
    s[i] as int - 0x80
  }

  /** How many bytes the well-formed character at `i` takes, 0 if there is none. */
  function CharLength(s: bytes, i: nat): nat {
    if InRange(s, i, 0, 0x7F) then 1
    else if InRange(s, i, 0xC2, 0xDF) && IsTail(s, i + 1) then 2
    else if (|| (InRange(s, i, 0xE0, 0xE0) && InRange(s, i + 1, 0xA0, 0xBF))
             || (InRange(s, i, 0xED, 0xED) && InRange(s, i + 1, 0x80, 0x9F))
             || (InRange(s, i, 0xE1, 0xEF) && s[i] as int != 0xED && IsTail(s, i + 1)))
         && IsTail(s, i + 2) then 3
    else if (|| (InRange(s, i, 0xF0, 0xF0) && InRange(s, i + 1, 0x90, 0xBF))
             || (InRange(s, i, 0xF4, 0xF4) && InRange(s, i + 1, 0x80, 0x8F))
             || (InRange(s, i, 0xF1, 0xF3) && IsTail(s, i + 1)))
         && IsTail(s, i + 2) && IsTail(s, i + 3) then 4
    else 0
  }

  function CharAt(s: bytes, i: nat): (x: nat)
    requires CharLength(s, i) > 0
    ensures IsScalar(x)
  {
    var n, lead := CharLength(s, i), s[i] as int;
    if n == 1 then lead
    else if n == 2 then (lead - 0xC0) * 0x40 + Bits(s, i + 1)
    else if n == 3 then (lead - 0xE0) * 0x1000 + Bits(s, i + 1) * 0x40 + Bits(s, i + 2)
    else (lead - 0xF0) * 0x40000 + Bits(s, i + 1) * 0x1000 + Bits(s, i + 2) * 0x40 + Bits(s, i + 3)
  }

  /** The characters of a byte string from index `i` on; nothing if it is not well formed. */
  function DecodedFrom(s: bytes, i: nat): Option<seq<nat>>
    decreases |s| - i
  {
    if i >= |s| then Some([])
    else if CharLength(s, i) == 0 then None
    else
      var rest := DecodedFrom(s, i + CharLength(s, i));
      if rest.None? then None else Some([CharAt(s, i)] + rest.value)
  }

  function Decoded(s: bytes): Option<seq<nat>> { DecodedFrom(s, 0) }

  // ----- what the host emits -----

  /** Scalars are kept, and everything else becomes the replacement character. */
  function NormalizeUnicodeScalar(codepoint: nat): (x: nat)
    ensures IsScalar(x)
    ensures x == if IsScalar(codepoint) then codepoint else 0xFFFD
  {
    if codepoint == 0 then 0
    else if codepoint > 0x10FFFF || 0xD800 <= codepoint <= 0xDFFF then 0xFFFD
    else codepoint
  }

  function Byte(v: nat): byte
    requires v < 256
  {
    v as char
  }

  /** The bytes of one scalar. */
  function Utf8Of(x: nat): (r: bytes)
    requires IsScalar(x)
    ensures r != ""
  {
    if x <= 0x7F then [Byte(x)]
    else if x <= 0x7FF then [Byte(0xC0 + x / 0x40), Byte(0x80 + x % 0x40)]
    else if x <= 0xFFFF then [Byte(0xE0 + x / 0x1000), Byte(0x80 + x / 0x40 % 0x40), Byte(0x80 + x % 0x40)]
    else [Byte(0xF0 + x / 0x40000), Byte(0x80 + x / 0x1000 % 0x40), Byte(0x80 + x / 0x40 % 0x40), Byte(0x80 + x % 0x40)]
  }

  predicate AllScalars(xs: seq<nat>) { forall i :: 0 <= i < |xs| ==> IsScalar(xs[i]) }

  function Encoded(xs: seq<nat>): seq<bytes>
    requires AllScalars(xs)
  {
    seq(|xs|, i requires 0 <= i < |xs| => Utf8Of(xs[i]))
  }

  function Text(xs: seq<nat>): bytes
    requires AllScalars(xs)
  {
    Concat(Encoded(xs))
  }

  function Emitted(codepoint: nat): seq<nat> { if codepoint == 0 then [] else [NormalizeUnicodeScalar(codepoint)] }

  lemma {:induction false} TextOfOne(x: nat)
    requires IsScalar(x)
    ensures Text([x]) == Utf8Of(x)
  {
    assert Encoded([x]) == [Utf8Of(x)] && Concat([Utf8Of(x)][1..]) == "";
    assert Utf8Of(x) + "" == Utf8Of(x);
  }

  method AppendUtf8(out: bytes, codepoint: nat) returns (r: bytes)
    ensures r == out + Text(Emitted(codepoint))
  {
    var scalar := NormalizeUnicodeScalar(codepoint);
    r := out;
    if scalar == 0 { return; }
    TextOfOne(scalar);
    ghost var expected := Utf8Of(scalar);
    if scalar <= 0x7F {
      r := r + [Byte(scalar)];
      return;
    }
    if scalar <= 0x7FF {
      r := r + [Byte(0xC0 + scalar / 0x40)];
      r := r + [Byte(0x80 + scalar % 0x40)];
      assert r == out + expected;
      return;
    }
    if scalar <= 0xFFFF {
      r := r + [Byte(0xE0 + scalar / 0x1000)];
      r := r + [Byte(0x80 + scalar / 0x40 % 0x40)];
      r := r + [Byte(0x80 + scalar % 0x40)];
      assert r == out + expected;
      return;
    }
    r := r + [Byte(0xF0 + scalar / 0x40000)];
    r := r + [Byte(0x80 + scalar / 0x1000 % 0x40)];
    r := r + [Byte(0x80 + scalar / 0x40 % 0x40)];
    r := r + [Byte(0x80 + scalar % 0x40)];
    assert r == out + expected;
  }

  // ----- decoding inverts emitting, and nothing else is well formed -----

  lemma {:induction false} DigitsOf(x: nat)
    requires x < 0x200000
    ensures x == x / 0x40 * 0x40 + x % 0x40
    ensures x / 0x40 == x / 0x1000 * 0x40 + x / 0x40 % 0x40
    ensures x / 0x1000 == x / 0x40000 * 0x40 + x / 0x1000 % 0x40
  {
    assert x / 0x1000 == x / 0x40 / 0x40 && x / 0x40000 == x / 0x1000 / 0x40;
  }

  lemma {:induction false} DecodeOne(prefix: bytes, x: nat, rest: bytes)
    requires IsScalar(x)
    ensures var s := prefix + Utf8Of(x) + rest;
            CharLength(s, |prefix|) == |Utf8Of(x)| && CharAt(s, |prefix|) == x
  {
    var s, n, u := prefix + Utf8Of(x) + rest, |prefix|, Utf8Of(x);
    assert forall k :: 0 <= k < |u| ==> s[n + k] == u[k];
    DigitsOf(x);
    assert s[n] == u[0];
    if x > 0x7F { assert s[n + 1] == u[1]; }
    if x > 0x7FF { assert s[n + 2] == u[2]; }
    if x > 0xFFFF { assert s[n + 3] == u[3]; }
  }

  lemma {:induction false} DigitsBack(a: nat, b: nat, c: nat, d: nat)
    requires a < 8 && b < 0x40 && c < 0x40 && d < 0x40
    ensures var x := a * 0x40000 + b * 0x1000 + c * 0x40 + d;
            x / 0x40000 == a && x / 0x1000 % 0x40 == b && x / 0x40 % 0x40 == c && x % 0x40 == d
  {
    var z := a * 0x40 + b;
    var y := z * 0x40 + c;
    var x := y * 0x40 + d;
    LastDigit(y, d);
    LastDigit(z, c);
    LastDigit(a, b);
    assert x / 0x40 == y && x / 0x1000 == z && x / 0x40000 == a;
  }

  lemma {:induction false} LastDigit(q: nat, r: nat)
    requires r < 0x40
    ensures (q * 0x40 + r) / 0x40 == q && (q * 0x40 + r) % 0x40 == r
    ensures (q * 0x40 + r) / 0x1000 == q / 0x40 && (q * 0x40 + r) / 0x40000 == q / 0x1000
  {}

  lemma {:induction false} EncodeOne(s: bytes, i: nat)
    requires CharLength(s, i) > 0
    ensures i + CharLength(s, i) <= |s| && s[i..i + CharLength(s, i)] == Utf8Of(CharAt(s, i))
  {
    var n := CharLength(s, i);
    if n == 2 {
      DigitsBack(0, 0, s[i] as int - 0xC0, Bits(s, i + 1));
    } else if n == 3 {
      ThreeBytes(s, i);
    } else if n == 4 {
      DigitsBack(s[i] as int - 0xF0, Bits(s, i + 1), Bits(s, i + 2), Bits(s, i + 3));
      assert s[i..i + 4] == [s[i], s[i + 1], s[i + 2], s[i + 3]];
    }
  }

  lemma {:induction false} ThreeBytes(s: bytes, i: nat)
    requires CharLength(s, i) == 3
    ensures s[i..i + 3] == Utf8Of(CharAt(s, i))
  {
    var a, b, c := s[i] as int - 0xE0, Bits(s, i + 1), Bits(s, i + 2);
    DigitsBack(0, a, b, c);
    var x := CharAt(s, i);
    assert x == a * 0x1000 + b * 0x40 + c;
    assert 0x7FF < x <= 0xFFFF;
    assert s[i..i + 3] == [s[i], s[i + 1], s[i + 2]];
  }

  lemma {:induction false} TextUncons(xs: seq<nat>)
    requires AllScalars(xs) && xs != []
    ensures Text(xs) == Utf8Of(xs[0]) + Text(xs[1..])
  {
    assert Encoded(xs)[1..] == Encoded(xs[1..]);
  }

  lemma {:induction false} StepDecodes(prefix: bytes, x: nat, rest: bytes, xs: seq<nat>)
    requires IsScalar(x) && DecodedFrom(prefix + Utf8Of(x) + rest, |prefix + Utf8Of(x)|) == Some(xs)
    ensures DecodedFrom(prefix + (Utf8Of(x) + rest), |prefix|) == Some([x] + xs)
  {
    DecodeOne(prefix, x, rest);
    Join(prefix, Utf8Of(x), rest);
  }

  lemma {:induction false} TextDecodes(prefix: bytes, xs: seq<nat>)
    requires AllScalars(xs)
    ensures DecodedFrom(prefix + Text(xs), |prefix|) == Some(xs)
    decreases |xs|
  {
    if xs == [] {
      assert prefix + Text(xs) == prefix;
    } else {
      TextUncons(xs);
      TextDecodes(prefix + Utf8Of(xs[0]), xs[1..]);
      StepDecodes(prefix, xs[0], Text(xs[1..]), xs[1..]);
      assert [xs[0]] + xs[1..] == xs;
    }
  }

  /** The first character of well-formed text, and where the rest starts. */
  lemma {:induction false} StepIsText(s: bytes, i: nat) returns (x: nat, j: nat, xs: seq<nat>)
    requires i < |s| && DecodedFrom(s, i).Some?
    ensures i < j <= |s| && IsScalar(x) && s[i..] == Utf8Of(x) + s[j..]
    ensures DecodedFrom(s, j) == Some(xs) && DecodedFrom(s, i) == Some([x] + xs)
  {
    EncodeOne(s, i);
    x, j := CharAt(s, i), i + CharLength(s, i);
    xs := DecodedFrom(s, j).value;
    assert s[i..] == s[i..j] + s[j..];
  }

  lemma {:induction false} TextPrepend(x: nat, xs: seq<nat>)
    requires IsScalar(x) && AllScalars(xs)
    ensures AllScalars([x] + xs) && Text([x] + xs) == Utf8Of(x) + Text(xs)
  {
    TextUncons([x] + xs);
    assert ([x] + xs)[1..] == xs;
  }

  lemma {:induction false} DecodedIsText(s: bytes, i: nat, all: seq<nat>)
    requires i <= |s| && DecodedFrom(s, i) == Some(all)
    ensures AllScalars(all) && Text(all) == s[i..]
    decreases |s| - i
  {
    if i >= |s| {
    } else {
      var x, j, xs := StepIsText(s, i);
      DecodedIsText(s, j, xs);
      TextPrepend(x, xs);
    }
  }

  /** A byte string is well formed exactly when it is the text of some scalars, and then of one
      sequence only. */
  lemma {:induction false} WellFormedIsText(s: bytes, xs: seq<nat>)
    ensures Decoded(s) == Some(xs) <==> AllScalars(xs) && Text(xs) == s
  {
    if Decoded(s).Some? {
      DecodedIsText(s, 0, Decoded(s).value);
      assert s[0..] == s;
    }
    if AllScalars(xs) {
      TextDecodes("", xs);
      assert "" + Text(xs) == Text(xs);
    }
  }

  lemma {:induction false} TextAppend(xs: seq<nat>, ys: seq<nat>)
    requires AllScalars(xs) && AllScalars(ys)
    ensures AllScalars(xs + ys) && Text(xs + ys) == Text(xs) + Text(ys)
  {
    assert Encoded(xs + ys) == Encoded(xs) + Encoded(ys);
    ConcatAppend(Encoded(xs), Encoded(ys));
  }

  // ----- clipping -----

  function NextUtf8CodepointLength(input: bytes, offset: nat): nat {
    if offset >= |input| then 0
    else
      var lead := input[offset] as int;
      if lead < 0x80 then 1
      else if 0xC0 <= lead < 0xE0 then 2
      else if 0xE0 <= lead < 0xF0 then 3
      else if 0xF0 <= lead < 0xF8 then 4
      else 1
  }

  /** The offset `k` characters after `i`, going by lead bytes and stopping at the end. */
  function Advance(line: bytes, i: nat, k: nat): (r: nat)
    requires i <= |line|
    ensures i <= r <= |line|
    decreases k
  {
    if k == 0 || i == |line| then i else Advance(line, Min(|line|, i + NextUtf8CodepointLength(line, i)), k - 1)
  }

  /** A contiguous part of the line, whatever bytes it holds. */
  function Clipped(line: bytes, start: nat, count: nat): bytes {
    var i := Advance(line, 0, start);
    line[i..Advance(line, i, count)]
  }

  method ClipUtf8Columns(line: bytes, startColumn: nat, maxColumns: nat) returns (clipped: bytes)
    ensures clipped == Clipped(line, startColumn, maxColumns)
  {
    if maxColumns == 0 || line == "" { return ""; }
    var byteOffset := SkipColumns(line, startColumn);
    clipped := TakeColumns(line, byteOffset, maxColumns);
  }

  /** The offset may end up past the line, when its last character is cut short. */
  method SkipColumns(line: bytes, startColumn: nat) returns (byteOffset: nat)
    ensures Min(|line|, byteOffset) == Advance(line, 0, startColumn)
  {
    byteOffset := 0;
    var currentColumn := 0;
    while byteOffset < |line| && currentColumn < startColumn
      invariant currentColumn <= startColumn
      invariant Advance(line, Min(|line|, byteOffset), startColumn - currentColumn) == Advance(line, 0, startColumn)
    {
      byteOffset := byteOffset + NextUtf8CodepointLength(line, byteOffset);
      currentColumn := currentColumn + 1;
    }
  }

  method TakeColumns(line: bytes, start: nat, maxColumns: nat) returns (clipped: bytes)
    ensures var from := Min(|line|, start); clipped == line[from..Advance(line, from, maxColumns)]
  {
    clipped := "";
    var byteOffset, emittedColumns := start, 0;
    ghost var from := Min(|line|, start);
    ghost var end := Advance(line, from, maxColumns);
    while byteOffset < |line| && emittedColumns < maxColumns
      invariant from <= Min(|line|, byteOffset) && emittedColumns <= maxColumns
      invariant Advance(line, Min(|line|, byteOffset), maxColumns - emittedColumns) == end
      invariant clipped == line[from..Min(|line|, byteOffset)]
    {
      var codepointBytes := NextUtf8CodepointLength(line, byteOffset);
      Extend(line, from, byteOffset, Min(|line|, byteOffset + codepointBytes));
      clipped := clipped + line[byteOffset..Min(|line|, byteOffset + codepointBytes)];
      byteOffset := byteOffset + codepointBytes;
      emittedColumns := emittedColumns + 1;
    }
  }

  lemma {:induction false} Extend(line: bytes, from: nat, i: nat, j: nat)
    requires from <= i <= j <= |line|
    ensures line[from..i] + line[i..j] == line[from..j]
  {}

  /** A non-empty part whose first byte announces its length. */
  predicate IsChar(part: bytes) { part != "" && NextUtf8CodepointLength(part, 0) == |part| }

  predicate AllChars(parts: seq<bytes>) { forall i :: 0 <= i < |parts| ==> IsChar(parts[i]) }

  lemma {:induction false} EncodedAreChars(xs: seq<nat>)
    requires AllScalars(xs)
    ensures AllChars(Encoded(xs))
  {
    forall i | 0 <= i < |xs| ensures IsChar(Utf8Of(xs[i])) {}
  }

  lemma {:induction false} StepPast(prefix: bytes, part: bytes, rest: bytes)
    requires IsChar(part)
    ensures NextUtf8CodepointLength(prefix + (part + rest), |prefix|) == |part|
  {
    assert (prefix + (part + rest))[|prefix|] == part[0];
  }

  lemma {:induction false} AdvanceParts(prefix: bytes, parts: seq<bytes>, after: bytes, k: nat)
    requires AllChars(parts) && (k == |parts| || (k > |parts| && after == ""))
    ensures Advance(prefix + (Concat(parts) + after), |prefix|, k) == |prefix| + |Concat(parts)|
    decreases |parts|
  {
    if parts == [] {
      assert after == "" ==> prefix + ("" + after) == prefix;
    } else {
      var part, rest := parts[0], Concat(parts[1..]) + after;
      StepPast(prefix, part, rest);
      AdvanceParts(prefix + part, parts[1..], after, k - 1);
      Join(part, Concat(parts[1..]), after);
      Join(prefix, part, rest);
    }
  }

  lemma {:induction false} AdvanceFromStart(parts: seq<bytes>, after: bytes, k: nat)
    requires AllChars(parts) && (k == |parts| || (k > |parts| && after == ""))
    ensures Advance(Concat(parts) + after, 0, k) == |Concat(parts)|
  {
    AdvanceParts("", parts, after, k);
    assert "" + (Concat(parts) + after) == Concat(parts) + after;
  }

  lemma {:induction false} ClipParts(before: seq<bytes>, middle: seq<bytes>, after: seq<bytes>, start: nat, count: nat)
    requires AllChars(before) && AllChars(middle)
    requires start == |before| || (start > |before| && middle == [] && after == [])
    requires count == |middle| || (count > |middle| && after == [])
    ensures Clipped(Concat(before) + (Concat(middle) + Concat(after)), start, count) == Concat(middle)
  {
    var b, m, a := Concat(before), Concat(middle), Concat(after);
    AdvanceFromStart(before, m + a, start);
    AdvanceParts(b, middle, a, count);
    Middle(b, m, a);
  }

  lemma {:induction false} Middle(b: bytes, m: bytes, a: bytes)
    ensures (b + (m + a))[|b|..|b| + |m|] == m
  {}

  lemma {:induction false} ConcatThree(parts: seq<bytes>, a: nat, b: nat)
    requires a <= b <= |parts|
    ensures Concat(parts) == Concat(parts[..a]) + (Concat(parts[a..b]) + Concat(parts[b..]))
  {
    assert parts == parts[..a] + parts[a..] && parts[a..] == parts[a..b] + parts[b..];
    ConcatAppend(parts[a..b], parts[b..]);
    ConcatAppend(parts[..a], parts[a..]);
  }

  lemma {:induction false} EncodedSlice(xs: seq<nat>, a: nat, b: nat)
    requires AllScalars(xs) && a <= b <= |xs|
    ensures Encoded(xs[a..b]) == Encoded(xs)[a..b]
  {}

  /** The characters of `xs` in those columns. */
  function Columns(xs: seq<nat>, start: nat, count: nat): seq<nat> {
    xs[Min(start, |xs|)..Min(start + count, |xs|)]
  }

  /** Clipping commutes with encoding. */
  lemma {:induction false} ClipText(xs: seq<nat>, start: nat, count: nat)
    requires AllScalars(xs)
    ensures Clipped(Text(xs), start, count) == Text(Columns(xs, start, count))
  {
    var a, b := Min(start, |xs|), Min(start + count, |xs|);
    var parts := Encoded(xs);
    EncodedAreChars(xs);
    ConcatThree(parts, a, b);
    assert b < |xs| ==> count == b - a;
    ClipParts(parts[..a], parts[a..b], parts[b..], start, count);
    EncodedSlice(xs, a, b);
  }

  /** Clipping a well-formed line gives a well-formed line: its characters in those columns. */
  lemma {:induction false} ClipDecodes(line: bytes, start: nat, count: nat)
    requires Decoded(line).Some?
    ensures Decoded(Clipped(line, start, count)) == Some(Columns(Decoded(line).value, start, count))
  {
    var xs := Decoded(line).value;
    WellFormedIsText(line, xs);
    ClipText(xs, start, count);
    WellFormedIsText(Clipped(line, start, count), Columns(xs, start, count));
  }

  // ----- lines of cells -----

  datatype Cell = Cell(width: nat, chars: seq<nat>)

  /** What is emitted for the characters of a cell: up to the first zero. */
  function Glyphs(chars: seq<nat>): (r: seq<nat>)
    ensures AllScalars(r)
  {
    if chars == [] || chars[0] == 0 then [] else [NormalizeUnicodeScalar(chars[0])] + Glyphs(chars[1..])
  }

  const SPACE: nat := 0x20

  function CellText(cell: Cell): (r: seq<nat>)
    ensures AllScalars(r)
  {
    if cell.width == 0 then [] else if Glyphs(cell.chars) == [] then [SPACE] else Glyphs(cell.chars)
  }

  function CellsText(cells: seq<Cell>): (r: seq<nat>)
    ensures AllScalars(r)
  {
    if cells == [] then [] else CellText(cells[0]) + CellsText(cells[1..])
  }

  /** The sequence without the spaces at its end. */
  function Trimmed(xs: seq<nat>): (r: seq<nat>)
    ensures AllScalars(xs) ==> AllScalars(r)
    decreases |xs|
  {
    if xs != [] && xs[|xs| - 1] == SPACE then Trimmed(xs[..|xs| - 1]) else xs
  }

  method TrimRight(value: bytes, ghost xs: seq<nat>) returns (r: bytes)
    requires AllScalars(xs) && value == Text(xs)
    ensures r == Text(Trimmed(xs))
  {
    r := value;
    ghost var left := xs;
    TextLast(left);
    while r != "" && r[|r| - 1] == ' '
      invariant AllScalars(left) && r == Text(left) && Trimmed(left) == Trimmed(xs)
      decreases |r|
    {
      TextLast(left);
      r := r[..|r| - 1];
      left := left[..|left| - 1];
    }
    TextLast(left);
  }

  /** The last byte is a space exactly when the last character is. */
  lemma {:induction false} TextLast(xs: seq<nat>)
    requires AllScalars(xs)
    ensures xs == [] <==> Text(xs) == ""
    ensures xs != [] ==> (Text(xs)[|Text(xs)| - 1] == ' ' <==> xs[|xs| - 1] == SPACE)
    ensures xs != [] && xs[|xs| - 1] == SPACE ==> Text(xs[..|xs| - 1]) == Text(xs)[..|Text(xs)| - 1]
  {
    if xs != [] {
      var front, x := xs[..|xs| - 1], xs[|xs| - 1];
      assert xs == front + [x];
      TextAppend(front, [x]);
      TextOfOne(x);
    }
  }

  /** Emits the characters of one cell. */
  method AppendGlyphs(line: bytes, chars: seq<nat>) returns (r: bytes, emitted: bool)
    ensures r == line + Text(Glyphs(chars))
    ensures emitted <==> Glyphs(chars) != []
  {
    r, emitted := line, false;
    var index := 0;
    assert chars[0..] == chars;
    while index < |chars|
      invariant 0 <= index <= |chars|
      invariant r + Text(Glyphs(chars[index..])) == line + Text(Glyphs(chars))
      invariant if emitted then Glyphs(chars) != [] else index == 0
    {
      var codepoint := chars[index];
      if codepoint == 0 { break; }
      assert chars[index..][1..] == chars[index + 1..];
      TextAppend(Emitted(codepoint), Glyphs(chars[index + 1..]));
      Join(r, Text(Emitted(codepoint)), Text(Glyphs(chars[index + 1..])));
      r := AppendUtf8(r, codepoint);
      emitted := true;
      index := index + 1;
    }
    assert Glyphs(chars[index..]) == [];
    assert r + "" == r;
  }

  method AppendCell(line: bytes, cell: Cell) returns (r: bytes)
    ensures r == line + Text(CellText(cell))
  {
    r := line;
    if cell.width == 0 { return; }
    var emitted;
    r, emitted := AppendGlyphs(line, cell.chars);
    if !emitted {
      TextOfOne(SPACE);
      r := r + " ";
    }
  }

  method CellsToUtf8Line(cells: seq<Cell>) returns (line: bytes)
    ensures line == Text(Trimmed(CellsText(cells)))
  {
    line := "";
    assert cells[0..] == cells;
    for col := 0 to |cells|
      invariant line + Text(CellsText(cells[col..])) == Text(CellsText(cells))
    {
      ghost var rest := CellsText(cells[col + 1..]);
      assert cells[col..][1..] == cells[col + 1..];
      TextAppend(CellText(cells[col]), rest);
      Join(line, Text(CellText(cells[col])), Text(rest));
      line := AppendCell(line, cells[col]);
    }
    assert line + "" == line;
    line := TrimRight(line, CellsText(cells));
  }

  /** Every line of cells is well formed, whatever numbers the terminal library put in them. */
  lemma {:induction false} CellLinesAreWellFormed(cells: seq<Cell>)
    ensures Decoded(Text(Trimmed(CellsText(cells)))) == Some(Trimmed(CellsText(cells)))
  {
    WellFormedIsText(Text(Trimmed(CellsText(cells))), Trimmed(CellsText(cells)));
  }
}
