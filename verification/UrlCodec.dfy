/** Percent-encoding (sections 2.1 and 2.3 of RFC 3986) and query strings: the command line writes
    them, the server reads them. */
module UrlCodec {
  import opened Common

  predicate IsUnreserved(c: byte) {
    || 'A' <= c <= 'Z' || 'a' <= c <= 'z' || '0' <= c <= '9'
    || c == '-' || c == '_' || c == '.' || c == '~'
  }

  function UpperHex(v: nat): byte
    requires v < 16
  {
    if v < 10 then ('0' as int + v) as char else ('A' as int + v - 10) as char
  }

  function EncodeByte(c: byte): bytes {
    if IsUnreserved(c) then [c] else ['%', UpperHex(c as int / 16), UpperHex(c as int % 16)]
  }

  function Encoded(s: bytes): bytes { if s == "" then "" else EncodeByte(s[0]) + Encoded(s[1..]) }

  method UrlEncode(input: bytes) returns (encoded: bytes)
    ensures encoded == Encoded(input)
  {
    encoded := "";
    for i := 0 to |input|
      invariant encoded + Encoded(input[i..]) == Encoded(input)
    {
      var ch := input[i];
      assert input[i..][1..] == input[i + 1..];
      Join(encoded, EncodeByte(ch), Encoded(input[i + 1..]));
      if IsUnreserved(ch) {
        encoded := encoded + [ch];
      } else {
        encoded := encoded + ['%', UpperHex(ch as int / 16), UpperHex(ch as int % 16)];
      }
    }
  }

  /** Decoding from index `i` on; no result for a broken escape. */
  function DecodedFrom(s: bytes, i: nat): Option<bytes>
    decreases |s| - i
  {
    if i >= |s| then Some("")
    else if s[i] == '%' then
      if i + 2 >= |s| || HexValue(s[i + 1]) < 0 || HexValue(s[i + 2]) < 0 then None
      else Cons((HexValue(s[i + 1]) * 16 + HexValue(s[i + 2])) as char, DecodedFrom(s, i + 3))
    else Cons(if s[i] == '+' then ' ' else s[i], DecodedFrom(s, i + 1))
  }

  function Cons(c: byte, r: Option<bytes>): Option<bytes> { if r.None? then None else Some([c] + r.value) }

  function Decoded(s: bytes): Option<bytes> { DecodedFrom(s, 0) }

  lemma {:induction false} PrependCons(a: bytes, c: byte, r: Option<bytes>)
    ensures Prepend(a, Cons(c, r)) == Prepend(a + [c], r)
  {
    if r.Some? { Join(a, [c], r.value); }
  }

  method UrlDecode(encoded: bytes) returns (r: Option<bytes>)
    ensures r == Decoded(encoded)
  {
    var decoded: bytes := "";
    var index := 0;
    assert Decoded(encoded).Some? ==> "" + Decoded(encoded).value == Decoded(encoded).value;
    while index < |encoded|
      invariant 0 <= index <= |encoded|
      invariant Prepend(decoded, DecodedFrom(encoded, index)) == Decoded(encoded)
    {
      if encoded[index] == '%' {
        if index + 2 >= |encoded| { return None; }
        var high, low := HexValue(encoded[index + 1]), HexValue(encoded[index + 2]);
        if high < 0 || low < 0 { return None; }
        PrependCons(decoded, (high * 16 + low) as char, DecodedFrom(encoded, index + 3));
        decoded := decoded + [(high * 16 + low) as char];
        index := index + 3;
        continue;
      }
      var ch := if encoded[index] == '+' then ' ' else encoded[index];
      PrependCons(decoded, ch, DecodedFrom(encoded, index + 1));
      decoded := decoded + [ch];
      index := index + 1;
    }
    assert decoded + "" == decoded;
    r := Some(decoded);
  }

  lemma {:induction false} HexRoundTrip(v: nat)
    requires v < 16
    ensures HexValue(UpperHex(v)) == v
  {}

  lemma {:induction false} DecodeOne(prefix: bytes, c: byte, rest: bytes)
    ensures DecodedFrom(prefix + (EncodeByte(c) + rest), |prefix|)
         == Cons(c, DecodedFrom(prefix + EncodeByte(c) + rest, |prefix| + |EncodeByte(c)|))
  {
    var e := EncodeByte(c);
    Join(prefix, e, rest);
    var s, n := prefix + (e + rest), |prefix|;
    if IsUnreserved(c) {
      assert s[n] == c;
    } else {
      assert s[n] == '%' && s[n + 1] == UpperHex(c as int / 16) && s[n + 2] == UpperHex(c as int % 16);
      HexRoundTrip(c as int / 16);
      HexRoundTrip(c as int % 16);
    }
  }

  lemma {:induction false} DecodeInverts(prefix: bytes, x: bytes)
    ensures DecodedFrom(prefix + Encoded(x), |prefix|) == Some(x)
    decreases |x|
  {
    if x == "" {
    } else {
      DecodeOne(prefix, x[0], Encoded(x[1..]));
      DecodeInverts(prefix + EncodeByte(x[0]), x[1..]);
      assert [x[0]] + x[1..] == x;
    }
  }

  /** Decoding undoes encoding on every byte string. */
  lemma {:induction false} UrlRoundTrip(x: bytes)
    ensures Decoded(Encoded(x)) == Some(x)
  {
    DecodeInverts("", x);
    assert "" + Encoded(x) == Encoded(x);
  }

  // ----- what the decoder accepts -----

  /** Escaped text, piece by piece: a byte standing for itself, or for a space, or a percent escape. */
  datatype Piece = Plain(c: byte) | Escape(high: byte, low: byte)

  predicate IsPiece(p: Piece) {
    match p
    case Plain(c) => c != '%'
    case Escape(high, low) => HexValue(high) >= 0 && HexValue(low) >= 0
  }

  function PieceText(p: Piece): bytes {
    match p
    case Plain(c) => [c]
    case Escape(high, low) => ['%', high, low]
  }

  function PieceByte(p: Piece): byte
    requires IsPiece(p)
  {
    match p
    case Plain(c) => if c == '+' then ' ' else c
    case Escape(high, low) => (HexValue(high) * 16 + HexValue(low)) as char
  }

  function Written(ps: seq<Piece>): bytes { if ps == [] then "" else PieceText(ps[0]) + Written(ps[1..]) }

  lemma {:induction false} DecodePiece(prefix: bytes, p: Piece, rest: bytes)
    requires IsPiece(p)
    ensures DecodedFrom(prefix + (PieceText(p) + rest), |prefix|)
         == Cons(PieceByte(p), DecodedFrom(prefix + PieceText(p) + rest, |prefix| + |PieceText(p)|))
  {
    var t := PieceText(p);
    Join(prefix, t, rest);
    var s, n := prefix + (t + rest), |prefix|;
    assert forall k :: 0 <= k < |t| ==> s[n + k] == t[k];
    match p
    case Plain(c) => assert s[n] == t[0];
    case Escape(high, low) => assert s[n] == t[0] && s[n + 1] == t[1] && s[n + 2] == t[2];
  }

  lemma {:induction false} DecodePieces(prefix: bytes, ps: seq<Piece>)
    requires forall k :: 0 <= k < |ps| ==> IsPiece(ps[k])
    ensures DecodedFrom(prefix + Written(ps), |prefix|)
         == Some(seq(|ps|, k requires 0 <= k < |ps| => PieceByte(ps[k])))
    decreases |ps|
  {
    if ps == [] {
    } else {
      DecodePiece(prefix, ps[0], Written(ps[1..]));
      DecodePieces(prefix + PieceText(ps[0]), ps[1..]);
      var rest := seq(|ps| - 1, k requires 0 <= k < |ps| - 1 => PieceByte(ps[1..][k]));
      assert [PieceByte(ps[0])] + rest == seq(|ps|, k requires 0 <= k < |ps| => PieceByte(ps[k]));
    }
  }

  /** Escaped text decodes to the bytes of its pieces. */
  lemma {:induction false} PiecesDecode(ps: seq<Piece>)
    requires forall k :: 0 <= k < |ps| ==> IsPiece(ps[k])
    ensures Decoded(Written(ps)) == Some(seq(|ps|, k requires 0 <= k < |ps| => PieceByte(ps[k])))
  {
    DecodePieces("", ps);
    assert "" + Written(ps) == Written(ps);
  }

  predicate EscapeAt(s: bytes, i: nat) {
    i + 2 < |s| && HexValue(s[i + 1]) >= 0 && HexValue(s[i + 2]) >= 0
  }

  lemma {:induction false} DecodedExactly(s: bytes, i: nat)
    ensures DecodedFrom(s, i).Some? <==> forall k :: i <= k < |s| && s[k] == '%' ==> EscapeAt(s, k)
    decreases |s| - i
  {
    if i >= |s| {
    } else if s[i] != '%' {
      DecodedExactly(s, i + 1);
    } else if EscapeAt(s, i) {
      DecodedExactly(s, i + 3);
      assert s[i + 1] != '%' && s[i + 2] != '%';
    }
  }

  predicate AllUnreserved(s: bytes) { forall i :: 0 <= i < |s| ==> IsUnreserved(s[i]) }

  /** Text is left unchanged by encoding exactly when it is all unreserved. */
  lemma {:induction false} EncodedUnchanged(s: bytes)
    ensures |Encoded(s)| >= |s|
    ensures Encoded(s) == s <==> AllUnreserved(s)
  {
    if s == "" {
    } else {
      EncodedUnchanged(s[1..]);
      assert s == [s[0]] + s[1..];
      assert AllUnreserved(s) <==> IsUnreserved(s[0]) && AllUnreserved(s[1..]) by {
        assert forall i :: 0 < i < |s| ==> s[i] == s[1..][i - 1];
      }
      if Encoded(s) == s && IsUnreserved(s[0]) {
        assert Encoded(s[1..]) == Encoded(s)[1..];
      }
    }
  }

  /** Characters that structure a target never occur in encoded text. */
  predicate IsPlain(s: bytes) { forall i :: 0 <= i < |s| ==> IsUnreserved(s[i]) || s[i] == '%' }

  lemma {:induction false} EncodedIsPlain(s: bytes)
    ensures IsPlain(Encoded(s))
    ensures s != "" ==> Encoded(s) != ""
  {
    if s == "" {
    } else {
      EncodedIsPlain(s[1..]);
    }
  }

  // ----- query strings -----

  function ItemKey(item: bytes): bytes { item[..IndexOf(item, '=')] }

  function ItemValue(item: bytes): bytes {
    var e := IndexOf(item, '=');
    if e < |item| then item[e + 1..] else ""
  }

  /** The value of the first item with the key, or nothing. */
  function Lookup(query: bytes, key: bytes): bytes
    decreases |query|
  {
    if query == "" then ""
    else
      var next := IndexOf(query, '&');
      if ItemKey(query[..next]) == key then ItemValue(query[..next])
      else if next == |query| then ""
      else Lookup(query[next + 1..], key)
  }

  function QueryValue(target: bytes, key: bytes): bytes {
    var q := IndexOf(target, '?');
    if q < |target| then Lookup(target[q + 1..], key) else ""
  }

  method ParseQueryValue(target: bytes, key: bytes) returns (value: bytes)
    ensures value == QueryValue(target, key)
  {
    var start := IndexOf(target, '?');
    if start == |target| || start + 1 >= |target| { return ""; }
    var query := target[start + 1..];
    var offset := 0;
    assert query[0..] == query;
    while offset < |query|
      invariant 0 <= offset <= |query|
      invariant Lookup(query[offset..], key) == Lookup(query, key)
    {
      var rest := query[offset..];
      var next := IndexOf(rest, '&');
      var item := rest[..next];
      if ItemKey(item) == key { return ItemValue(item); }
      if next == |rest| { break; }
      assert rest[next + 1..] == query[offset + next + 1..];
      offset := offset + next + 1;
    }
    value := "";
  }

  /** Key and value pairs joined with `&`; the values are already encoded. */
  function Joined(pairs: seq<(bytes, bytes)>): bytes {
    if pairs == [] then ""
    else if |pairs| == 1 then pairs[0].0 + "=" + pairs[0].1
    else pairs[0].0 + "=" + pairs[0].1 + "&" + Joined(pairs[1..])
  }

  function FirstValue(pairs: seq<(bytes, bytes)>, key: bytes): bytes {
    if pairs == [] then "" else if pairs[0].0 == key then pairs[0].1 else FirstValue(pairs[1..], key)
  }

  predicate PlainPairs(pairs: seq<(bytes, bytes)>) {
    forall i :: 0 <= i < |pairs| ==> IsPlain(pairs[i].0) && IsPlain(pairs[i].1)
  }

  lemma {:induction false} ItemOf(k: bytes, v: bytes)
    requires IsPlain(k)
    ensures ItemKey(k + "=" + v) == k && ItemValue(k + "=" + v) == v
  {
    assert k + "=" + v == k + ("=" + v);
    IndexOfAfter(k, '=', "=" + v);
  }

  /** Reading a key out of a joined query gives the value written for it. */
  lemma {:induction false} LookupJoined(pairs: seq<(bytes, bytes)>, key: bytes)
    requires PlainPairs(pairs)
    ensures Lookup(Joined(pairs), key) == FirstValue(pairs, key)
  {
    if pairs == [] {
    } else {
      var (k, v) := pairs[0];
      var item := k + "=" + v;
      ItemOf(k, v);
      assert forall i :: 0 <= i < |item| ==> item[i] != '&';
      if |pairs| == 1 {
        IndexOfAfter(item, '&', "");
        assert item + "" == item && item[..|item|] == item;
        assert FirstValue(pairs[1..], key) == "";
      } else {
        var rest := Joined(pairs[1..]);
        IndexOfAfter(item, '&', "&" + rest);
        assert item + "&" + rest == item + ("&" + rest);
        assert Joined(pairs)[..|item|] == item && Joined(pairs)[|item| + 1..] == rest;
        LookupJoined(pairs[1..], key);
      }
    }
  }
}
