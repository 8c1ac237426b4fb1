/** Types and byte-string operations shared by the models of the components. */
module Common {
  datatype Option<+T> = None | Some(value: T)

  /** A byte of a C++ string, written as the character with that code. */
  type byte = c: char | c as int < 256

  type bytes = seq<byte>

  /** A 64-bit machine word counts up to, but not including, this. */
  const WORD: nat := 0x1_0000_0000_0000_0000

  function Min(a: nat, b: nat): nat { if a < b then a else b }

  function Max(a: nat, b: nat): nat { if a < b then b else a }

  /** Subtraction that stops at zero. */
  function Minus(a: nat, b: nat): nat { if a < b then 0 else a - b }

  lemma {:induction false} Join<T>(a: seq<T>, b: seq<T>, c: seq<T>)
    ensures a + (b + c) == (a + b) + c
  {}

  /** The first index of `c`, or the length. */
  function IndexOf(s: bytes, c: byte): (r: nat)
    ensures r <= |s|
  {
    if s == "" || s[0] == c then 0 else 1 + IndexOf(s[1..], c)
  }

  lemma {:induction false} IndexOfAfter(a: bytes, c: byte, rest: bytes)
    requires forall i :: 0 <= i < |a| ==> a[i] != c
    ensures IndexOf(a + rest, c) == |a| + IndexOf(rest, c)
  {
    if a == "" {
      assert a + rest == rest;
    } else {
      assert (a + rest)[1..] == a[1..] + rest;
      IndexOfAfter(a[1..], c, rest);
    }
  }

  function Concat<T>(parts: seq<seq<T>>): seq<T> { if parts == [] then [] else parts[0] + Concat(parts[1..]) }

  lemma {:induction false} ConcatAppend<T>(a: seq<seq<T>>, b: seq<seq<T>>)
    ensures Concat(a + b) == Concat(a) + Concat(b)
  {
    if a == [] {
      assert a + b == b;
    } else {
      assert (a + b)[1..] == a[1..] + b;
      ConcatAppend(a[1..], b);
    }
  }

  ghost predicate IsSuffix(s: string, all: string) { |s| <= |all| && all[|all| - |s|..] == s }

  /** Bytes put before a result, if there is one. */
  function Prepend(b: bytes, rest: Option<bytes>): Option<bytes> {
    if rest.None? then None else Some(b + rest.value)
  }

  /** The value of a hexadecimal digit, or -1. */
  function HexValue(c: byte): int {
    if '0' <= c <= '9' then c as int - '0' as int
    else if 'a' <= c <= 'f' then 10 + c as int - 'a' as int
    else if 'A' <= c <= 'F' then 10 + c as int - 'A' as int
    else -1
  }
}
