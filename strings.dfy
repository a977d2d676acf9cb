/**
  The few .NET string operations the key-naming convention is built from,
  written over `string` (a `seq<char>`), plus the subsequence relation used to
  state that a filter keeps its input's order.
 */
module Strings {

  /** `s.EndsWith(suffix)`, compared character by character. */
  predicate EndsWith(s: string, suffix: string) {
    |suffix| <= |s| && s[|s| - |suffix|..] == suffix
  }

  /** Every character of `s` from index `from` on is `c`. */
  predicate AllFrom(s: string, from: nat, c: char) {
    forall i :: from <= i < |s| ==> s[i] == c
  }

  /** Ends-with against a one-character suffix is a test of the last character. */
  lemma EndsWithChar(s: string, c: char)
    ensures EndsWith(s, [c]) <==> |s| > 0 && s[|s| - 1] == c
  {
  }

  /**
    `s.TrimEnd(c)`: removes every trailing occurrence of `c`. The result is a
    prefix of `s` that does not end in `c`, and what was cut off is all `c`.
   */
  function TrimEnd(s: string, c: char): (r: string)
    ensures r <= s
    ensures r == [] || r[|r| - 1] != c
    ensures AllFrom(s, |r|, c)
    decreases |s|
  {
    if |s| > 0 && s[|s| - 1] == c then TrimEnd(s[..|s| - 1], c) else s
  }

  /**
    The three properties in TrimEnd's contract determine its result: any
    prefix of `s` that does not end in `c` and after which `s` holds only `c`
    is what TrimEnd returns.
   */
  lemma TrimEndUnique(s: string, c: char, r: string)
    requires r <= s
    requires r == [] || r[|r| - 1] != c
    requires AllFrom(s, |r|, c)
    ensures TrimEnd(s, c) == r
  {
  }

  /** `a` is `b` with some elements removed and the rest kept in order. */
  predicate IsSubsequence<T(==)>(a: seq<T>, b: seq<T>)
    decreases |b|
  {
    if b == [] then a == []
    else (|a| > 0 && a[0] == b[0] && IsSubsequence(a[1..], b[1..])) || IsSubsequence(a, b[1..])
  }
}
