/** Front eviction, shared by the two bounded histories of the host.

    Both the terminal output buffer and the log buffer append at the back and then pop from the
    front while a limit is exceeded.  `LongestFit` is what they are meant to keep. */
module Eviction {

  /** The longest suffix of `s` that satisfies `fits`, or the empty sequence if there is none. */
  function LongestFit<T>(s: seq<T>, fits: seq<T> -> bool): (r: seq<T>) {
    if s == [] || fits(s) then s else LongestFit(s[1..], fits)
  }

  lemma {:induction false} LongestFitIsSuffix<T>(s: seq<T>, fits: seq<T> -> bool)
    ensures |LongestFit(s, fits)| <= |s|
    ensures LongestFit(s, fits) == s[|s| - |LongestFit(s, fits)|..]
    ensures LongestFit(s, fits) == [] || fits(LongestFit(s, fits))
  {
    if s == [] || fits(s) {
    } else {
      LongestFitIsSuffix(s[1..], fits);
    }
  }

  /** Nothing longer fits: every suffix of `s` that fits is at most as long as `LongestFit`. */
  lemma {:induction false} LongestFitIsLongest<T>(s: seq<T>, fits: seq<T> -> bool, k: nat)
    requires k <= |s| && fits(s[k..])
    ensures |s| - k <= |LongestFit(s, fits)|
  {
    if s == [] || fits(s) {
    } else {
      assert k > 0 by { assert s[0..] == s; }
      assert s[1..][k - 1..] == s[k..];
      LongestFitIsLongest(s[1..], fits, k - 1);
    }
  }

  /** A sequence that does not fit never fits again by growing at the back. */
  ghost predicate ShrinksAtBack<T(!new)>(fits: seq<T> -> bool) {
    forall t: seq<T>, y: T {:trigger fits(t + [y])} :: fits(t + [y]) ==> fits(t)
  }

  /** Evicting after every append keeps the same elements as evicting once over everything ever
      appended. */
  lemma {:induction false} EvictIncrementally<T(!new)>(s: seq<T>, x: T, fits: seq<T> -> bool)
    requires ShrinksAtBack(fits)
    ensures LongestFit(LongestFit(s, fits) + [x], fits) == LongestFit(s + [x], fits)
  {
    if s == [] || fits(s) {
    } else {
      EvictIncrementally(s[1..], x, fits);
      assert !fits(s + [x]);
      assert (s + [x])[1..] == s[1..] + [x];
      assert LongestFit(s + [x], fits) == LongestFit(s[1..] + [x], fits);
    }
  }
}
