/** First and last positions in a sequence: what `find`, `rfind` and `split_once` look for. */
module Scan {
  /** Position of the first c, or the length. */
  function IndexOf<T(==)>(s: seq<T>, c: T): (i: nat)
    ensures i <= |s| && c !in s[..i] && (i < |s| ==> s[i] == c)
  {
    if s == [] || s[0] == c then 0 else 1 + IndexOf(s[1..], c)
  }

  /** Position of the last c, or -1. */
  function LastIndexOf<T(==)>(s: seq<T>, c: T): (i: int)
    ensures -1 <= i < |s| && (i >= 0 ==> s[i] == c) && c !in s[i + 1..]
  {
    if s == [] then -1 else if s[|s| - 1] == c then |s| - 1 else LastIndexOf(s[..|s| - 1], c)
  }

  lemma {:induction false} IndexOfJoined<T>(a: seq<T>, c: T, b: seq<T>)
    requires c !in a
    ensures IndexOf(a + [c] + b, c) == |a|
  {
    if a != [] {
      assert (a + [c] + b)[1..] == a[1..] + [c] + b;
      IndexOfJoined(a[1..], c, b);
    }
  }

  lemma {:induction false} LastIndexOfJoined<T>(a: seq<T>, c: T, b: seq<T>)
    requires c !in b
    ensures LastIndexOf(a + [c] + b, c) == |a|
  {
    if b != [] {
      assert (a + [c] + b)[..|a + [c] + b| - 1] == a + [c] + b[..|b| - 1];
      LastIndexOfJoined(a, c, b[..|b| - 1]);
    }
  }
}
