/** Base64 (sections 4 and 5 of RFC 4648): the padded encoder used by the stores and the JSON layer,
    the unpadded URL-safe encoder used for replay tokens, and the two decoders. */
module Base64 {
  import opened Common

  /** The two alphabets differ in the last two digits; the URL-safe one is written unpadded. */
  datatype Variant = Padded | UrlSafe

  function Digit(variant: Variant, v: nat): byte
    requires v < 64
  {
    if v < 26 then ('A' as int + v) as char
    else if v < 52 then ('a' as int + v - 26) as char
    else if v < 62 then ('0' as int + v - 52) as char
    else if v == 62 then (if variant.Padded? then '+' else '-')
    else (if variant.Padded? then '/' else '_')
  }

  function Value(variant: Variant, ch: byte): Option<nat> {
    if 'A' <= ch <= 'Z' then Some(ch as int - 'A' as int)
    else if 'a' <= ch <= 'z' then Some(ch as int - 'a' as int + 26)
    else if '0' <= ch <= '9' then Some(ch as int - '0' as int + 52)
    else if ch == (if variant.Padded? then '+' else '-') then Some(62)
    else if ch == (if variant.Padded? then '/' else '_') then Some(63)
    else None
  }

  lemma {:induction false} DigitValue(variant: Variant, v: nat)
    requires v < 64
    ensures Value(variant, Digit(variant, v)) == Some(v) && Digit(variant, v) != '='
  {}

  const LETTERS: bytes := "ABCDEFGHIJKLMNOPQRSTUVWXYZ"
  const SMALL_LETTERS: bytes := "abcdefghijklmnopqrstuvwxyz"
  const DIGITS: bytes := "0123456789"

  /** Tables 1 and 2 of RFC 4648. */
  function Alphabet(variant: Variant): bytes {
    LETTERS + SMALL_LETTERS + DIGITS + (if variant.Padded? then "+/" else "-_")
  }

  lemma {:induction false} DigitsAreTheAlphabet(variant: Variant, v: nat)
    ensures |Alphabet(variant)| == 64
    ensures v < 64 ==> Digit(variant, v) == Alphabet(variant)[v]
  {
    if v < 26 {
      LettersInOrder(v);
    } else if v < 52 {
      LettersInOrder(v - 26);
    } else if v < 62 {
      assert DIGITS[v - 52] as int == 48 + (v - 52);
    }
  }

  lemma {:induction false} LettersInOrder(v: nat)
    requires v < 26
    ensures LETTERS[v] as int == 65 + v && SMALL_LETTERS[v] as int == 97 + v
  {}

  // ----- sextets -----

  function Sextet0(a: byte): nat { a as int / 4 }
  function Sextet1(a: byte, b: byte): nat { a as int % 4 * 16 + b as int / 16 }
  function Sextet2(b: byte, c: byte): nat { b as int % 16 * 4 + c as int / 64 }
  function Sextet3(c: byte): nat { c as int % 64 }

  function Byte0(v0: nat, v1: nat): byte
    requires v0 < 64 && v1 < 64
  {
    (v0 * 4 + v1 / 16) as char
  }

  function Byte1(v1: nat, v2: nat): byte
    requires v1 < 64 && v2 < 64
  {
    (v1 % 16 * 16 + v2 / 4) as char
  }

  function Byte2(v2: nat, v3: nat): byte
    requires v2 < 64 && v3 < 64
  {
    (v2 % 4 * 64 + v3) as char
  }

  const ZERO: byte := '\0'

  lemma {:induction false} SextetsRebuild(a: byte, b: byte, c: byte)
    ensures Sextet0(a) < 64 && Sextet1(a, b) < 64 && Sextet2(b, c) < 64 && Sextet3(c) < 64
    ensures Byte0(Sextet0(a), Sextet1(a, b)) == a
    ensures Byte1(Sextet1(a, b), Sextet2(b, c)) == b
    ensures Byte2(Sextet2(b, c), Sextet3(c)) == c
  {}

  // ----- encoding -----

  function Quad(v: Variant, a: byte, b: byte, c: byte): bytes {
    [Digit(v, Sextet0(a)), Digit(v, Sextet1(a, b)), Digit(v, Sextet2(b, c)), Digit(v, Sextet3(c))]
  }

  /** The encoding of up to three bytes at index `i`. */
  function Group(variant: Variant, s: bytes, i: nat): bytes
    requires i < |s|
  {
    if i + 1 == |s| then
      [Digit(variant, Sextet0(s[i])), Digit(variant, Sextet1(s[i], ZERO))] + (if variant.Padded? then "==" else "")
    else if i + 2 == |s| then
      [Digit(variant, Sextet0(s[i])), Digit(variant, Sextet1(s[i], s[i + 1])), Digit(variant, Sextet2(s[i + 1], ZERO))]
      + (if variant.Padded? then "=" else "")
    else Quad(variant, s[i], s[i + 1], s[i + 2])
  }

  /** The encoding of the bytes from index `i` on. */
  function EncodeFrom(variant: Variant, s: bytes, i: nat): bytes
    decreases |s| - i
  {
    if i >= |s| then [] else Group(variant, s, i) + EncodeFrom(variant, s, i + 3)
  }

  function Encode(variant: Variant, s: bytes): bytes { EncodeFrom(variant, s, 0) }

  /** The encoder of the stores and of the JSON layer, which have the same text. */
  method Base64Encode(input: bytes) returns (encoded: bytes)
    ensures encoded == Encode(Padded, input)
  {
    encoded := [];
    var index := 0;
    while index + 3 <= |input|
      invariant 0 <= index <= |input|
      invariant encoded + EncodeFrom(Padded, input, index) == Encode(Padded, input)
    {
      var a, b, c := input[index], input[index + 1], input[index + 2];
      Join(encoded, Quad(Padded, a, b, c), EncodeFrom(Padded, input, index + 3));
      encoded := encoded + [Digit(Padded, a as int / 4), Digit(Padded, a as int % 4 * 16 + b as int / 16),
                            Digit(Padded, b as int % 16 * 4 + c as int / 64), Digit(Padded, c as int % 64)];
      index := index + 3;
    }
    var remaining := |input| - index;
    if remaining > 0 { assert EncodeFrom(Padded, input, index) == Group(Padded, input, index); }
    if remaining == 1 {
      var a := input[index];
      encoded := encoded + ([Digit(Padded, a as int / 4), Digit(Padded, a as int % 4 * 16)] + "==");
    } else if remaining == 2 {
      var a, b := input[index], input[index + 1];
      encoded := encoded + ([Digit(Padded, a as int / 4), Digit(Padded, a as int % 4 * 16 + b as int / 16),
                             Digit(Padded, b as int % 16 * 4)] + "=");
    }
  }

  method UrlGroup(input: bytes, index: nat) returns (group: bytes)
    requires index < |input|
    ensures group == Group(UrlSafe, input, index)
  {
    var a := input[index];
    var b := if index + 1 < |input| then input[index + 1] else ZERO;
    var c := if index + 2 < |input| then input[index + 2] else ZERO;
    group := [Digit(UrlSafe, a as int / 4), Digit(UrlSafe, a as int % 4 * 16 + b as int / 16)];
    if index + 1 < |input| { group := group + [Digit(UrlSafe, b as int % 16 * 4 + c as int / 64)]; }
    if index + 2 < |input| { group := group + [Digit(UrlSafe, c as int % 64)]; }
  }

  method Base64UrlEncode(input: bytes) returns (encoded: bytes)
    ensures encoded == Encode(UrlSafe, input)
  {
    encoded := [];
    var index := 0;
    while index < |input|
      invariant 0 <= index
      invariant encoded + EncodeFrom(UrlSafe, input, index) == Encode(UrlSafe, input)
    {
      var group := UrlGroup(input, index);
      Join(encoded, group, EncodeFrom(UrlSafe, input, index + 3));
      encoded := encoded + group;
      index := index + 3;
    }
  }

  // ----- decoding -----

  const PAD: byte := '='

  /** One group of four characters as the store decodes it: padding only in the last group. */
  function StrictGroup(c0: byte, c1: byte, c2: byte, c3: byte, last: bool): Option<bytes> {
    var a, b, c, d := Value(Padded, c0), Value(Padded, c1), Value(Padded, c2), Value(Padded, c3);
    if a.None? || b.None? then None
    else if c2 == PAD then if c3 == PAD && last then Some([Byte0(a.value, b.value)]) else None
    else if c.None? then None
    else if c3 == PAD then if last then Some([Byte0(a.value, b.value), Byte1(b.value, c.value)]) else None
    else if d.None? then None
    else Some([Byte0(a.value, b.value), Byte1(b.value, c.value), Byte2(c.value, d.value)])
  }

  /** A digit's value, with padding counted as zero. */
  function ValueOrPad(ch: byte): Option<nat> { if ch == PAD then Some(0) else Value(Padded, ch) }

  /** One group as the command line decodes it: padding may replace either of the last two digits. */
  function LenientGroup(c0: byte, c1: byte, c2: byte, c3: byte): Option<bytes> {
    var a, b, c, d := Value(Padded, c0), Value(Padded, c1), ValueOrPad(c2), ValueOrPad(c3);
    if a.None? || b.None? || c.None? || d.None? then None
    else if c2 == PAD && c3 == PAD then Some([Byte0(a.value, b.value)])
    else if c2 == PAD then Some([Byte0(a.value, b.value), Byte2(c.value, d.value)])
    else if c3 == PAD then Some([Byte0(a.value, b.value), Byte1(b.value, c.value)])
    else Some([Byte0(a.value, b.value), Byte1(b.value, c.value), Byte2(c.value, d.value)])
  }

  function GroupAt(strict: bool, s: bytes, i: nat): Option<bytes>
    requires i + 4 <= |s|
  {
    if strict then StrictGroup(s[i], s[i + 1], s[i + 2], s[i + 3], i + 4 == |s|)
    else LenientGroup(s[i], s[i + 1], s[i + 2], s[i + 3])
  }

  /** Decodes all groups from index `i` on; an incomplete group is refused. */
  function DecodeFrom(strict: bool, s: bytes, i: nat): Option<bytes>
    decreases |s| - i
  {
    if i >= |s| then Some([])
    else if i + 4 > |s| then None
    else
      var g := GroupAt(strict, s, i);
      if g.None? then None else Prepend(g.value, DecodeFrom(strict, s, i + 4))
  }

  function StrictDecode(s: bytes): Option<bytes> { if |s| % 4 != 0 then None else DecodeFrom(true, s, 0) }

  function LenientDecode(s: bytes): Option<bytes> { if |s| % 4 != 0 then None else DecodeFrom(false, s, 0) }

  lemma {:induction false} DecodeStep(strict: bool, s: bytes, i: nat, decoded: bytes, g: Option<bytes>)
    requires i + 4 <= |s| && g == GroupAt(strict, s, i)
    ensures g.None? ==> DecodeFrom(strict, s, i) == None
    ensures g.Some? ==>
      Prepend(decoded, DecodeFrom(strict, s, i)) == Prepend(decoded + g.value, DecodeFrom(strict, s, i + 4))
  {
    if g.Some? { PrependTwice(decoded, g.value, DecodeFrom(strict, s, i + 4)); }
  }

  method DecodeStrictGroup(c0: byte, c1: byte, c2: byte, c3: byte, last: bool) returns (g: Option<bytes>)
    ensures g == StrictGroup(c0, c1, c2, c3, last)
  {
    var va, vb := Value(Padded, c0), Value(Padded, c1);
    if va.None? || vb.None? { return None; }
    var decoded: bytes := [Byte0(va.value, vb.value)];
    if c2 != PAD {
      var vc := Value(Padded, c2);
      if vc.None? { return None; }
      decoded := decoded + [Byte1(vb.value, vc.value)];
      assert decoded == [Byte0(va.value, vb.value), Byte1(vb.value, vc.value)];
      if c3 != PAD {
        var vd := Value(Padded, c3);
        if vd.None? { return None; }
        decoded := decoded + [Byte2(vc.value, vd.value)];
        assert decoded == [Byte0(va.value, vb.value), Byte1(vb.value, vc.value), Byte2(vc.value, vd.value)];
      } else if !last {
        return None;
      }
    } else if c3 != PAD || !last {
      return None;
    }
    g := Some(decoded);
  }

  method DecodeGroupAt(input: bytes, index: nat) returns (g: Option<bytes>)
    requires index + 4 <= |input|
    ensures g == GroupAt(true, input, index)
  {
    var last := index + 4 == |input|;
    g := DecodeStrictGroup(input[index], input[index + 1], input[index + 2], input[index + 3], last);
  }

  method Base64Decode(input: bytes) returns (r: Option<bytes>)
    ensures r == StrictDecode(input)
  {
    if |input| % 4 != 0 { return None; }
    var decoded: bytes := [];
    var index := 0;
    ghost var groups := |input| / 4;
    PrependNothing(DecodeFrom(true, input, 0));
    while index < |input|
      invariant |input| == index + 4 * groups
      invariant Prepend(decoded, DecodeFrom(true, input, index)) == StrictDecode(input)
    {
      var g := DecodeGroupAt(input, index);
      DecodeStep(true, input, index, decoded, g);
      if g.None? { return None; }
      decoded := decoded + g.value;
      index := index + 4;
      groups := groups - 1;
    }
    PrependEnd(decoded);
    r := Some(decoded);
  }

  lemma {:induction false} PrependNothing(r: Option<bytes>)
    ensures Prepend([], r) == r
  {
    if r.Some? { assert [] + r.value == r.value; }
  }

  lemma {:induction false} PrependEnd(b: bytes)
    ensures Prepend(b, Some([])) == Some(b)
  {
    assert b + [] == b;
  }

  lemma {:induction false} PrependTwice(a: bytes, b: bytes, r: Option<bytes>)
    ensures Prepend(a, Prepend(b, r)) == Prepend(a + b, r)
  {
    if r.Some? { Join(a, b, r.value); }
  }

  /** The table the command line's decoder fills before decoding: -1 marks characters that are not
      digits. */
  function TableEntry(code: nat): int
    requires code < 256
  {
    var v := Value(Padded, code as char);
    if v.None? then -1 else v.value
  }

  method FillTable() returns (table: array<int>)
    ensures fresh(table) && table.Length == 256
    ensures forall k :: 0 <= k < 256 ==> table[k] == TableEntry(k)
  {
    table := new int[256](k => -1);
    for i := 0 to 26
      invariant forall k :: 0 <= k < 256 ==>
        table[k] == (if 65 <= k < 65 + i then k - 65 else if 97 <= k < 97 + i then k - 71 else -1)
    {
      table['A' as int + i] := i;
      table['a' as int + i] := 26 + i;
    }
    for i := 0 to 10
      invariant forall k :: 0 <= k < 256 ==>
        table[k] == (if 65 <= k < 91 then k - 65 else if 97 <= k < 123 then k - 71
                     else if 48 <= k < 48 + i then k + 4 else -1)
    {
      table['0' as int + i] := 52 + i;
    }
    table['+' as int] := 62;
    table['/' as int] := 63;
  }

  method DecodeLenientGroup(table: array<int>, c0: byte, c1: byte, c2: byte, c3: byte) returns (g: Option<bytes>)
    requires table.Length == 256 && forall k :: 0 <= k < 256 ==> table[k] == TableEntry(k)
    ensures g == LenientGroup(c0, c1, c2, c3)
  {
    if table[c0 as int] < 0 || table[c1 as int] < 0
       || (c2 != PAD && table[c2 as int] < 0) || (c3 != PAD && table[c3 as int] < 0) {
      return None;
    }
    var v0, v1 := table[c0 as int], table[c1 as int];
    var v2 := if c2 == PAD then 0 else table[c2 as int];
    var v3 := if c3 == PAD then 0 else table[c3 as int];
    var decoded: bytes := [Byte0(v0, v1)];
    if c2 != PAD { decoded := decoded + [Byte1(v1, v2)]; }
    if c3 != PAD { decoded := decoded + [Byte2(v2, v3)]; }
    assert LenientGroup(c0, c1, c2, c3).Some? && decoded == LenientGroup(c0, c1, c2, c3).value;
    g := Some(decoded);
  }

  method DecodeBase64(input: bytes) returns (r: Option<bytes>)
    ensures r == LenientDecode(input)
  {
    var table := FillTable();
    if |input| % 4 != 0 { return None; }
    var decoded: bytes := [];
    var index := 0;
    ghost var groups := |input| / 4;
    PrependNothing(DecodeFrom(false, input, 0));
    while index < |input|
      invariant |input| == index + 4 * groups
      invariant forall k :: 0 <= k < 256 ==> table[k] == TableEntry(k)
      invariant Prepend(decoded, DecodeFrom(false, input, index)) == LenientDecode(input)
    {
      var g := DecodeLenientGroup(table, input[index], input[index + 1], input[index + 2], input[index + 3]);
      DecodeStep(false, input, index, decoded, g);
      if g.None? { return None; }
      decoded := decoded + g.value;
      index := index + 4;
      groups := groups - 1;
    }
    PrependEnd(decoded);
    r := Some(decoded);
  }

  // ----- round trips -----

  /** A group and the bytes it stands for. */
  ghost predicate Decodes(strict: bool, g: bytes, last: bool, out: bytes) {
    && |g| == 4
    && (if strict then StrictGroup(g[0], g[1], g[2], g[3], last) else LenientGroup(g[0], g[1], g[2], g[3])) == Some(out)
  }

  function Covered(s: bytes, i: nat): bytes
    requires i <= |s|
  {
    s[i..if i + 3 <= |s| then i + 3 else |s|]
  }

  lemma {:induction false} GroupRoundTrip(s: bytes, i: nat)
    requires i < |s|
    ensures Decodes(true, Group(Padded, s, i), i + 3 >= |s|, Covered(s, i))
  {
    var a := s[i];
    var b := if i + 1 < |s| then s[i + 1] else ZERO;
    var c := if i + 2 < |s| then s[i + 2] else ZERO;
    SextetsRebuild(a, b, c);
    DigitValue(Padded, Sextet0(a));
    DigitValue(Padded, Sextet1(a, b));
    DigitValue(Padded, Sextet2(b, c));
    DigitValue(Padded, Sextet3(c));
    assert Covered(s, i) == if i + 1 == |s| then [a] else if i + 2 == |s| then [a, b] else [a, b, c];
  }

  lemma {:induction false} PaddedGroupLength(s: bytes, i: nat)
    requires i < |s|
    ensures |Group(Padded, s, i)| == 4
  {}

  lemma {:induction false} GroupsAdd(g: bytes, rest: bytes)
    requires |g| == 4
    ensures |g + rest| % 4 == |rest| % 4
  {}

  lemma {:induction false} EncodedLength(s: bytes, i: nat)
    ensures |EncodeFrom(Padded, s, i)| % 4 == 0
    ensures EncodeFrom(Padded, s, i) == [] <==> i >= |s|
    decreases |s| - i
  {
    if i >= |s| {
    } else {
      EncodedLength(s, i + 3);
      PaddedGroupLength(s, i);
      GroupsAdd(Group(Padded, s, i), EncodeFrom(Padded, s, i + 3));
    }
  }

  lemma {:induction false} DecodeGroupFirst(strict: bool, prefix: bytes, g: bytes, rest: bytes, out: bytes, tail: bytes)
    requires Decodes(strict, g, rest == [], out)
    requires DecodeFrom(strict, prefix + g + rest, |prefix| + 4) == Some(tail)
    ensures DecodeFrom(strict, prefix + (g + rest), |prefix|) == Some(out + tail)
  {
    var e, n := prefix + (g + rest), |prefix|;
    Join(prefix, g, rest);
    assert e[n] == g[0] && e[n + 1] == g[1] && e[n + 2] == g[2] && e[n + 3] == g[3];
    assert n + 4 == |e| <==> rest == [];
  }

  function From(s: bytes, i: nat): bytes { if i < |s| then s[i..] else [] }

  lemma {:induction false} CoveredRest(s: bytes, i: nat)
    requires i <= |s|
    ensures Covered(s, i) + From(s, i + 3) == From(s, i)
  {}

  lemma {:induction false} StrictInverts(prefix: bytes, s: bytes, i: nat)
    ensures DecodeFrom(true, prefix + EncodeFrom(Padded, s, i), |prefix|) == Some(From(s, i))
    decreases |s| - i
  {
    if i >= |s| {
    } else {
      var g := Group(Padded, s, i);
      GroupRoundTrip(s, i);
      EncodedLength(s, i + 3);
      StrictInverts(prefix + g, s, i + 3);
      DecodeGroupFirst(true, prefix, g, EncodeFrom(Padded, s, i + 3), Covered(s, i), From(s, i + 3));
      CoveredRest(s, i);
    }
  }

  /** Whatever the strict decoder accepts, the lenient one decodes to the same bytes. */
  lemma {:induction false} StrictIsLenient(s: bytes, i: nat)
    requires DecodeFrom(true, s, i).Some?
    ensures DecodeFrom(false, s, i) == DecodeFrom(true, s, i)
    decreases |s| - i
  {
    if i >= |s| {
    } else {
      StrictIsLenient(s, i + 4);
    }
  }

  lemma {:induction false} DecodersAgree(s: bytes)
    ensures StrictDecode(s).Some? ==> LenientDecode(s) == StrictDecode(s)
  {
    if StrictDecode(s).Some? { StrictIsLenient(s, 0); }
  }

  /** Both decoders invert the encoder on every byte string. */
  lemma {:induction false} DecodersInvertEncoder(s: bytes)
    ensures StrictDecode(Encode(Padded, s)) == Some(s)
    ensures LenientDecode(Encode(Padded, s)) == Some(s)
  {
    StrictInverts([], s, 0);
    EncodedLength(s, 0);
    assert [] + Encode(Padded, s) == Encode(Padded, s) && s[0..] == s;
    DecodersAgree(Encode(Padded, s));
  }

  /** Padding only in the last group, and never a padded third digit before a fourth one. */
  predicate WellPadded(s: bytes, i: nat)
    decreases |s| - i
  {
    i + 4 > |s| ||
    (&& (s[i + 2] == PAD ==> s[i + 3] == PAD)
     && (s[i + 3] == PAD ==> i + 4 == |s|)
     && WellPadded(s, i + 4))
  }

  /** Exactly how the decoders differ: of the inputs the lenient one accepts, the strict one rejects
      those with misplaced padding. */
  lemma {:induction false} StrictnessIsPadding(s: bytes, i: nat)
    requires DecodeFrom(false, s, i).Some?
    ensures DecodeFrom(true, s, i).Some? <==> WellPadded(s, i)
    decreases |s| - i
  {
    if i >= |s| {
    } else {
      StrictnessIsPadding(s, i + 4);
    }
  }

  // ----- canonical encodings -----

  /** The digits of a short last group hold no bits beyond the bytes it stands for. */
  predicate Canonical(s: bytes) {
    var n := |s|;
    n < 4 ||
    (if s[n - 2] == PAD then Value(Padded, s[n - 3]).Some? && Value(Padded, s[n - 3]).value % 16 == 0
     else if s[n - 1] == PAD then Value(Padded, s[n - 2]).Some? && Value(Padded, s[n - 2]).value % 4 == 0
     else true)
  }

  lemma {:induction false} ValueDigit(variant: Variant, ch: byte)
    requires Value(variant, ch).Some?
    ensures Value(variant, ch).value < 64 && Digit(variant, Value(variant, ch).value) == ch
  {}

  lemma {:induction false} BytesRebuild(v0: nat, v1: nat, v2: nat, v3: nat)
    requires v0 < 64 && v1 < 64 && v2 < 64 && v3 < 64
    ensures Sextet0(Byte0(v0, v1)) == v0
    ensures Sextet1(Byte0(v0, v1), Byte1(v1, v2)) == v1 && Sextet1(Byte0(v0, v1), ZERO) == v1 / 16 * 16
    ensures Sextet2(Byte1(v1, v2), Byte2(v2, v3)) == v2 && Sextet2(Byte1(v1, v2), ZERO) == v2 / 4 * 4
    ensures Sextet3(Byte2(v2, v3)) == v3
  {}

  /** What a decoded full group is encoded to. */
  lemma {:induction false} FullGroupBack(c0: byte, c1: byte, c2: byte, c3: byte, last: bool)
    requires StrictGroup(c0, c1, c2, c3, last).Some? && c3 != PAD
    ensures var g := StrictGroup(c0, c1, c2, c3, last).value;
      |g| == 3 && Quad(Padded, g[0], g[1], g[2]) == [c0, c1, c2, c3]
  {
    BytesRebuild(Value(Padded, c0).value, Value(Padded, c1).value, Value(Padded, c2).value, Value(Padded, c3).value);
    ValueDigit(Padded, c0);
    ValueDigit(Padded, c1);
    ValueDigit(Padded, c2);
    ValueDigit(Padded, c3);
  }

  /** A decoded short group is encoded to itself exactly if its filler bits are zero. */
  lemma {:induction false} ShortGroupBack(c0: byte, c1: byte, c2: byte, c3: byte)
    requires StrictGroup(c0, c1, c2, c3, true).Some? && c3 == PAD
    ensures var g := StrictGroup(c0, c1, c2, c3, true).value;
      && 1 <= |g| <= 2
      && (Group(Padded, g, 0) == [c0, c1, c2, c3] <==> Canonical([c0, c1, c2, c3]))
  {
    var v0, v1 := Value(Padded, c0).value, Value(Padded, c1).value;
    ValueDigit(Padded, c0);
    ValueDigit(Padded, c1);
    if c2 == PAD {
      BytesRebuild(v0, v1, 0, 0);
      DigitValue(Padded, v1 / 16 * 16);
      assert Group(Padded, [Byte0(v0, v1)], 0)[1] == Digit(Padded, v1 / 16 * 16);
    } else {
      var v2 := Value(Padded, c2).value;
      ValueDigit(Padded, c2);
      BytesRebuild(v0, v1, v2, 0);
      DigitValue(Padded, v2 / 4 * 4);
      assert Group(Padded, [Byte0(v0, v1), Byte1(v1, v2)], 0)[2] == Digit(Padded, v2 / 4 * 4);
    }
  }

  /** Encoding after a prefix, from the end of the prefix on, is encoding. */
  lemma {:induction false} EncodeShift(prefix: bytes, s: bytes, i: nat)
    ensures EncodeFrom(Padded, prefix + s, |prefix| + i) == EncodeFrom(Padded, s, i)
    decreases |s| - i
  {
    if i >= |s| {
    } else {
      EncodeShift(prefix, s, i + 3);
      assert (prefix + s)[|prefix| + i] == s[i];
      assert Group(Padded, prefix + s, |prefix| + i) == Group(Padded, s, i);
    }
  }

  lemma {:induction false} EncodeAfterGroup(g: bytes, rest: bytes)
    requires |g| == 3
    ensures Encode(Padded, g + rest) == Quad(Padded, g[0], g[1], g[2]) + Encode(Padded, rest)
  {
    EncodeShift(g, rest, 0);
    assert Group(Padded, g + rest, 0) == Quad(Padded, g[0], g[1], g[2]);
  }

  lemma {:induction false} CanonicalTail(s: bytes, i: nat)
    requires (i + 4 == |s| && s[i + 2] != PAD && s[i + 3] != PAD) || i + 8 <= |s|
    ensures Canonical(s[i..]) == Canonical(s[i + 4..])
  {}

  lemma {:induction false} EncodeOneGroup(g: bytes)
    requires 1 <= |g| <= 2
    ensures Encode(Padded, g) == Group(Padded, g, 0)
  {
    assert EncodeFrom(Padded, g, 3) == [];
  }

  lemma {:induction false} SameTail(head: bytes, a: bytes, b: bytes)
    ensures head + a == head + b <==> a == b
  {
    assert (head + a)[|head|..] == a && (head + b)[|head|..] == b;
  }

  lemma {:induction false} DecodedSplits(s: bytes, i: nat)
    requires i + 4 <= |s| && DecodeFrom(true, s, i).Some?
    ensures GroupAt(true, s, i).Some? && DecodeFrom(true, s, i + 4).Some?
    ensures DecodeFrom(true, s, i).value == GroupAt(true, s, i).value + DecodeFrom(true, s, i + 4).value
    ensures s[i + 3] == PAD ==> i + 4 == |s|
    ensures s[i + 3] != PAD ==> s[i + 2] != PAD
    ensures s[i..] == [s[i], s[i + 1], s[i + 2], s[i + 3]] + s[i + 4..]
  {}

  lemma {:induction false} LastGroupBack(s: bytes, i: nat)
    requires i + 4 == |s| && s[i + 3] == PAD && DecodeFrom(true, s, i).Some?
    ensures Encode(Padded, DecodeFrom(true, s, i).value) == s[i..] <==> Canonical(s[i..])
  {
    DecodedSplits(s, i);
    var g := GroupAt(true, s, i).value;
    ShortGroupBack(s[i], s[i + 1], s[i + 2], s[i + 3]);
    EncodeOneGroup(g);
    assert g + [] == g && s[i..] == [s[i], s[i + 1], s[i + 2], s[i + 3]];
  }

  lemma {:induction false} FullStepBack(head: bytes, tail: bytes, g: bytes, rest: bytes)
    requires |g| == 3 && Quad(Padded, g[0], g[1], g[2]) == head
    ensures Encode(Padded, g + rest) == head + tail <==> Encode(Padded, rest) == tail
  {
    EncodeAfterGroup(g, rest);
    SameTail(head, Encode(Padded, rest), tail);
  }

  lemma {:induction false} FullBack(s: bytes, i: nat)
    requires (i + 4 == |s| || i + 8 <= |s|) && s[i + 3] != PAD && DecodeFrom(true, s, i).Some?
    ensures DecodeFrom(true, s, i + 4).Some? && Canonical(s[i..]) == Canonical(s[i + 4..])
    ensures Encode(Padded, DecodeFrom(true, s, i).value) == s[i..]
       <==> Encode(Padded, DecodeFrom(true, s, i + 4).value) == s[i + 4..]
  {
    DecodedSplits(s, i);
    FullGroupBack(s[i], s[i + 1], s[i + 2], s[i + 3], i + 4 == |s|);
    FullStepBack([s[i], s[i + 1], s[i + 2], s[i + 3]], s[i + 4..], GroupAt(true, s, i).value,
                 DecodeFrom(true, s, i + 4).value);
    CanonicalTail(s, i);
  }

  lemma {:induction false} EncodeBack(s: bytes, i: nat, groups: nat)
    requires |s| == i + 4 * groups && DecodeFrom(true, s, i).Some?
    ensures Encode(Padded, DecodeFrom(true, s, i).value) == s[i..] <==> Canonical(s[i..])
    decreases groups
  {
    if i == |s| {
    } else if s[i + 3] == PAD {
      DecodedSplits(s, i);
      LastGroupBack(s, i);
    } else {
      FullBack(s, i);
      EncodeBack(s, i + 4, groups - 1);
    }
  }

  /** Of the inputs the strict decoder accepts, the canonical ones are those the encoder writes. */
  lemma {:induction false} EncoderInvertsDecoder(s: bytes)
    requires StrictDecode(s).Some?
    ensures Encode(Padded, StrictDecode(s).value) == s <==> Canonical(s)
  {
    assert s[0..] == s;
    EncodeBack(s, 0, |s| / 4);
  }

  const MISPADDED: bytes := "AA=A"

  /** An input on which the decoders differ. */
  lemma {:induction false} MispaddedIsLenient()
    ensures LenientDecode(MISPADDED).Some? && StrictDecode(MISPADDED).None?
  {
    assert Value(Padded, 'A') == Some(0);
    assert DecodeFrom(false, MISPADDED, 4) == Some([]);
    assert DecodeFrom(false, MISPADDED, 0).Some?;
    StrictnessIsPadding(MISPADDED, 0);
  }

  /** The unpadded URL-safe encoding is injective, by a decoder of its own. */
  function UrlDecodeFrom(s: bytes, i: nat): bytes
    decreases |s| - i
  {
    if i + 1 >= |s| then []
    else
      var v0, v1 := UrlValue(s[i]), UrlValue(s[i + 1]);
      if i + 2 >= |s| then [Byte0(v0, v1)]
      else if i + 3 >= |s| then [Byte0(v0, v1), Byte1(v1, UrlValue(s[i + 2]))]
      else
        var v2, v3 := UrlValue(s[i + 2]), UrlValue(s[i + 3]);
        [Byte0(v0, v1), Byte1(v1, v2), Byte2(v2, v3)] + UrlDecodeFrom(s, i + 4)
  }

  function UrlValue(ch: byte): nat
    ensures UrlValue(ch) < 64
  {
    var v := Value(UrlSafe, ch);
    if v.Some? then v.value else 0
  }

  lemma {:induction false} UrlGroupRoundTrip(s: bytes, i: nat)
    requires i < |s|
    ensures var g := Group(UrlSafe, s, i);
      && 2 <= |g| <= 4 && (|g| < 4 ==> i + 3 > |s|)
      && UrlDecodeFrom(g, 0) == Covered(s, i)
  {
    var a := s[i];
    var b := if i + 1 < |s| then s[i + 1] else ZERO;
    var c := if i + 2 < |s| then s[i + 2] else ZERO;
    SextetsRebuild(a, b, c);
    DigitValue(UrlSafe, Sextet0(a));
    DigitValue(UrlSafe, Sextet1(a, b));
    DigitValue(UrlSafe, Sextet2(b, c));
    DigitValue(UrlSafe, Sextet3(c));
    assert Covered(s, i) == if i + 1 == |s| then [a] else if i + 2 == |s| then [a, b] else [a, b, c];
  }

  lemma {:induction false} UrlDecodeFirst(prefix: bytes, g: bytes, rest: bytes)
    requires 2 <= |g| <= 4 && (|g| < 4 ==> rest == [])
    ensures UrlDecodeFrom(prefix + (g + rest), |prefix|)
         == UrlDecodeFrom(g, 0) + UrlDecodeFrom(prefix + g + rest, |prefix| + |g|)
  {
    var e, n := prefix + (g + rest), |prefix|;
    Join(prefix, g, rest);
    assert forall k :: 0 <= k < |g| ==> e[n + k] == g[k];
    assert UrlDecodeFrom(g, |g|) == [];
  }

  lemma {:induction false} UrlDecodeInverts(prefix: bytes, s: bytes, i: nat)
    ensures UrlDecodeFrom(prefix + EncodeFrom(UrlSafe, s, i), |prefix|) == From(s, i)
    decreases |s| - i
  {
    if i >= |s| {
    } else {
      var g := Group(UrlSafe, s, i);
      UrlGroupRoundTrip(s, i);
      var rest := EncodeFrom(UrlSafe, s, i + 3);
      UrlDecodeInverts(prefix + g, s, i + 3);
      UrlDecodeFirst(prefix, g, rest);
      assert EncodeFrom(UrlSafe, s, i) == g + rest;
      CoveredRest(s, i);
    }
  }

  lemma {:induction false} UrlEncodeIsInjective(s: bytes, t: bytes)
    requires Encode(UrlSafe, s) == Encode(UrlSafe, t)
    ensures s == t
  {
    UrlDecodeInverts([], s, 0);
    UrlDecodeInverts([], t, 0);
    assert [] + Encode(UrlSafe, s) == Encode(UrlSafe, s) && s[0..] == s && t[0..] == t;
  }
}
