/** Decimal numbers as text: what the host writes with `std::to_string` and reads with
    `std::stoull`. */
module Decimal {
  import opened Common

  predicate IsDigit(c: byte) { '0' <= c <= '9' }

  function DigitChar(d: nat): byte
    requires d < 10
  {
    ('0' as int + d) as char
  }

  function ToString(n: nat): bytes {
    if n < 10 then [DigitChar(n)] else ToString(n / 10) + [DigitChar(n % 10)]
  }

  predicate AllDigits(s: bytes) { forall i :: 0 <= i < |s| ==> IsDigit(s[i]) }

  function Number(s: bytes): nat
    requires AllDigits(s)
  {
    if s == "" then 0 else Number(s[..|s| - 1]) * 10 + (s[|s| - 1] as int - '0' as int)
  }

  /** The longest prefix of digits. */
  function Leading(s: bytes): (d: bytes)
    ensures AllDigits(d) && |d| <= |s|
  {
    if s == "" || !IsDigit(s[0]) then "" else [s[0]] + Leading(s[1..])
  }

  lemma {:induction false} NumberOfToString(n: nat)
    ensures AllDigits(ToString(n)) && ToString(n) != "" && Number(ToString(n)) == n
  {
    if n < 10 {
      assert ToString(n)[..0] == "";
    } else {
      NumberOfToString(n / 10);
      var s := ToString(n);
      assert s[..|s| - 1] == ToString(n / 10);
    }
  }

  lemma {:induction false} LeadingOf(d: bytes, rest: bytes)
    requires AllDigits(d) && (rest == "" || !IsDigit(rest[0]))
    ensures Leading(d + rest) == d
  {
    if d == "" {
      assert d + rest == rest;
    } else {
      assert (d + rest)[1..] == d[1..] + rest;
      LeadingOf(d[1..], rest);
    }
  }

  /** A number followed by a non-digit can be told apart from what follows. */
  lemma {:induction false} NumberThenRest(n: nat, m: nat, x: bytes, y: bytes)
    requires ToString(n) + x == ToString(m) + y
    requires x != "" && !IsDigit(x[0]) && y != "" && !IsDigit(y[0])
    ensures n == m && x == y
  {
    NumberOfToString(n);
    NumberOfToString(m);
    LeadingOf(ToString(n), x);
    LeadingOf(ToString(m), y);
    var k := |ToString(n)|;
    assert x == (ToString(n) + x)[k..] && y == (ToString(m) + y)[k..];
  }

  predicate IsSpace(c: byte) { c == ' ' || '\t' <= c <= '\r' }

  function SkipSpace(s: bytes): bytes { if s == "" || !IsSpace(s[0]) then s else SkipSpace(s[1..]) }

  /** `std::stoull` in base ten: leading white space, an optional sign, then as many digits as there
      are; anything after them is ignored.  No digits or an unrepresentable value is an error, and a
      minus sign negates modulo the word size. */
  function Stoull(s: bytes): Option<nat> {
    var t := SkipSpace(s);
    var negative := t != "" && t[0] == '-';
    var digits := Leading(if negative || (t != "" && t[0] == '+') then t[1..] else t);
    if digits == "" || Number(digits) >= WORD then None
    else if negative && Number(digits) > 0 then Some(WORD - Number(digits))
    else Some(Number(digits))
  }

  lemma {:induction false} StoullOfToString(n: nat)
    ensures Stoull(ToString(n)) == if n < WORD then Some(n) else None
  {
    var s := ToString(n);
    NumberOfToString(n);
    LeadingOf(s, "");
    assert s + "" == s && IsDigit(s[0]);
  }
}
