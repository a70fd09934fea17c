/** Counting the elements of a sequence that satisfy a predicate. */
module Counting {

  function CountWhere<T>(s: seq<T>, p: T -> bool): nat
  {
    if s == [] then 0 else (if p(s[0]) then 1 else 0) + CountWhere(s[1..], p)
  }

  lemma {:induction false} CountWhereConcat<T>(a: seq<T>, b: seq<T>, p: T -> bool)
    ensures CountWhere(a + b, p) == CountWhere(a, p) + CountWhere(b, p)
    decreases |a|
  {
    if a == [] {
      assert a + b == b;
    } else {
      assert (a + b)[0] == a[0];
      assert (a + b)[1..] == a[1..] + b;
      CountWhereConcat(a[1..], b, p);
    }
  }

  /** Removing the k-th element takes it out of the count and of the multiset. */
  lemma RemoveAt<T>(b: seq<T>, k: nat, p: T -> bool) returns (rest: seq<T>)
    requires k < |b|
    ensures CountWhere(b, p) == CountWhere(rest, p) + (if p(b[k]) then 1 else 0)
    ensures multiset(rest) == multiset(b) - multiset{b[k]}
  {
    rest := b[..k] + b[k + 1..];
    assert b == b[..k] + ([b[k]] + b[k + 1..]);
    CountWhereConcat(b[..k], [b[k]] + b[k + 1..], p);
    CountWhereConcat([b[k]], b[k + 1..], p);
    CountWhereConcat(b[..k], b[k + 1..], p);
    assert multiset(b) == multiset(b[..k]) + multiset([b[k]] + b[k + 1..]);
  }

  /** The count depends only on the multiset of elements. */
  lemma {:induction false} CountWherePermutation<T>(a: seq<T>, b: seq<T>, p: T -> bool)
    requires multiset(a) == multiset(b)
    ensures CountWhere(a, p) == CountWhere(b, p)
    decreases |a|
  {
    if a == [] {
      assert |b| == |multiset(b)| == 0;
    } else {
      assert a[0] in multiset(b);
      var k :| 0 <= k < |b| && b[k] == a[0];
      var rest := RemoveAt(b, k, p);
      assert a == [a[0]] + a[1..];
      assert multiset(a) == multiset{a[0]} + multiset(a[1..]);
      assert multiset(a[1..]) == multiset(rest);
      CountWherePermutation(a[1..], rest, p);
    }
  }

  lemma {:induction false} CountNone<T>(s: seq<T>, p: T -> bool)
    requires forall i :: 0 <= i < |s| ==> !p(s[i])
    ensures CountWhere(s, p) == 0
    decreases |s|
  {
    if s != [] {
      CountNone(s[1..], p);
    }
  }
}
