/** Counting the elements of a sequence that satisfy a predicate. */
module Sequences {

  /** How many elements of `s` satisfy `p`. */
  function Count<T>(s: seq<T>, p: T -> bool): nat
  {
    if s == [] then 0
    else (if p(s[0]) then 1 else 0) + Count(s[1..], p)
  }

  lemma {:induction false} CountAppend<T>(a: seq<T>, b: seq<T>, p: T -> bool)
    ensures Count(a + b, p) == Count(a, p) + Count(b, p)
  {
    if a == [] {
      assert a + b == b;
    } else {
      CountAppend(a[1..], b, p);
      assert (a + b)[1..] == a[1..] + b;
    }
  }

  /** Unrolls Count along every suffix of `s`. */
  lemma CountSuffixes<T>(s: seq<T>, p: T -> bool)
    ensures forall k :: 0 <= k < |s| ==>
      Count(s[k..], p) == (if p(s[k]) then 1 else 0) + Count(s[k + 1..], p)
  {
    forall k | 0 <= k < |s|
      ensures Count(s[k..], p) == (if p(s[k]) then 1 else 0) + Count(s[k + 1..], p)
    {
      assert s[k..][1..] == s[k + 1..];
    }
  }
}
