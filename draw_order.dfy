/** The draw-order policy: the comparator the renderer hands to std::sort and
    what any sorted permutation of the draw list looks like. */
module DrawOrder {
  import opened Drawables

  /** The key the comparator orders by, lexicographically: alpha rank (only when
      alpha sorting is on), draw priority, z-buffer rank (only when the
      z-buffer tie-break is on). */
  datatype SortKey = SortKey(alphaRank: nat, priority: int, zRank: nat)

  function Rank(b: bool): nat
  {
    if b then 1 else 0
  }

  function KeyOf(useAlpha: bool, useZBuffer: bool, c: DrawableContainer): SortKey
  {
    SortKey(if useAlpha then Rank(c.drawable.hasAlpha) else 0,
            c.drawable.drawPriority,
            if useZBuffer then Rank(c.drawable.requestZBuffer) else 0)
  }

  /** Strict lexicographic order on keys. */
  predicate KeyLess(a: SortKey, b: SortKey)
  {
    || a.alphaRank < b.alphaRank
    || (a.alphaRank == b.alphaRank && a.priority < b.priority)
    || (a.alphaRank == b.alphaRank && a.priority == b.priority && a.zRank < b.zRank)
  }

  /** DrawListSortStruct2::operator(): true when conA goes before conB.
      It is exactly the lexicographic order on the keys. */
  function DrawsBefore(useAlpha: bool, useZBuffer: bool, conA: DrawableContainer, conB: DrawableContainer): (r: bool)
    ensures r <==> KeyLess(KeyOf(useAlpha, useZBuffer, conA), KeyOf(useAlpha, useZBuffer, conB))
  {
    var a := conA.drawable;
    var b := conB.drawable;
    if useAlpha && a.hasAlpha != b.hasAlpha then
      !a.hasAlpha
    else if a.drawPriority == b.drawPriority && useZBuffer && a.requestZBuffer != b.requestZBuffer then
      !a.requestZBuffer
    else
      a.drawPriority < b.drawPriority
  }

  /** Neither goes before the other. */
  predicate Equivalent(useAlpha: bool, useZBuffer: bool, a: DrawableContainer, b: DrawableContainer)
  {
    !DrawsBefore(useAlpha, useZBuffer, a, b) && !DrawsBefore(useAlpha, useZBuffer, b, a)
  }

  /** The comparator is a strict weak order, as std::sort demands, and two
      entries are equivalent exactly when their keys agree. */
  lemma DrawsBeforeIsStrictWeakOrder(useAlpha: bool, useZBuffer: bool, a: DrawableContainer, b: DrawableContainer, c: DrawableContainer)
    ensures !DrawsBefore(useAlpha, useZBuffer, a, a)
    ensures DrawsBefore(useAlpha, useZBuffer, a, b) ==> !DrawsBefore(useAlpha, useZBuffer, b, a)
    ensures DrawsBefore(useAlpha, useZBuffer, a, b) && DrawsBefore(useAlpha, useZBuffer, b, c) ==> DrawsBefore(useAlpha, useZBuffer, a, c)
    ensures Equivalent(useAlpha, useZBuffer, a, b) && Equivalent(useAlpha, useZBuffer, b, c) ==> Equivalent(useAlpha, useZBuffer, a, c)
    ensures Equivalent(useAlpha, useZBuffer, a, b) <==> KeyOf(useAlpha, useZBuffer, a) == KeyOf(useAlpha, useZBuffer, b)
  {
  }

  /** The z-buffer tie-break: it decides only between entries of equal alpha
      status (when alpha sorting is on) and equal priority, and only when it is
      switched on; then the entry that does not request the z-buffer goes first. */
  lemma ZBufferTieBreak(useAlpha: bool, useZBuffer: bool, a: DrawableContainer, b: DrawableContainer)
    requires useAlpha ==> a.drawable.hasAlpha == b.drawable.hasAlpha
    requires a.drawable.drawPriority == b.drawable.drawPriority
    ensures DrawsBefore(useAlpha, useZBuffer, a, b) <==> useZBuffer && !a.drawable.requestZBuffer && b.drawable.requestZBuffer
  {
  }

  /** No entry is followed by one that the comparator puts before it
      (the guarantee of std::sort). */
  predicate SortedBy(useAlpha: bool, useZBuffer: bool, s: seq<DrawableContainer>)
  {
    forall i, j :: 0 <= i < j < |s| ==> !DrawsBefore(useAlpha, useZBuffer, s[j], s[i])
  }

  /** Sortedness is the keys growing along the list. */
  lemma SortedByKeys(useAlpha: bool, useZBuffer: bool, s: seq<DrawableContainer>)
    ensures SortedBy(useAlpha, useZBuffer, s) <==>
      forall i, j :: 0 <= i < j < |s| ==> !KeyLess(KeyOf(useAlpha, useZBuffer, s[j]), KeyOf(useAlpha, useZBuffer, s[i]))
  {
  }

  lemma {:induction false} InsertKeepsSorted(useAlpha: bool, useZBuffer: bool, x: DrawableContainer, s: seq<DrawableContainer>, r: seq<DrawableContainer>)
    requires SortedBy(useAlpha, useZBuffer, s) && s != []
    requires DrawsBefore(useAlpha, useZBuffer, s[0], x)
    requires SortedBy(useAlpha, useZBuffer, r) && multiset(r) == multiset(s[1..]) + multiset{x}
    ensures SortedBy(useAlpha, useZBuffer, [s[0]] + r)
  {
    var t := [s[0]] + r;
    forall i, j | 0 <= i < j < |t| ensures !DrawsBefore(useAlpha, useZBuffer, t[j], t[i]) {
      if i == 0 {
        assert t[j] == r[j - 1];
        assert r[j - 1] in multiset(r);
        if r[j - 1] != x {
          assert r[j - 1] in multiset(s[1..]);
          var k :| 0 <= k < |s[1..]| && s[1..][k] == r[j - 1];
          assert s[k + 1] == r[j - 1];
        }
      }
    }
  }

  lemma PrependKeepsSorted(useAlpha: bool, useZBuffer: bool, x: DrawableContainer, s: seq<DrawableContainer>)
    requires SortedBy(useAlpha, useZBuffer, s)
    requires s != [] ==> !DrawsBefore(useAlpha, useZBuffer, s[0], x)
    ensures SortedBy(useAlpha, useZBuffer, [x] + s)
  {
    var t := [x] + s;
    forall i, j | 0 <= i < j < |t| ensures !DrawsBefore(useAlpha, useZBuffer, t[j], t[i]) {
      assert t[j] == s[j - 1];
      if i > 0 {
        assert t[i] == s[i - 1];
      } else if j > 1 {
        assert !DrawsBefore(useAlpha, useZBuffer, s[j - 1], s[0]);
      }
    }
  }

  /** Insertion of one entry into a sorted list. */
  function InsertEntry(useAlpha: bool, useZBuffer: bool, x: DrawableContainer, s: seq<DrawableContainer>): (r: seq<DrawableContainer>)
    requires SortedBy(useAlpha, useZBuffer, s)
    ensures SortedBy(useAlpha, useZBuffer, r)
    ensures multiset(r) == multiset(s) + multiset{x}
    decreases |s|
  {
    if s == [] then
      [x]
    else if DrawsBefore(useAlpha, useZBuffer, s[0], x) then
      assert SortedBy(useAlpha, useZBuffer, s[1..]) by {
        forall i, j | 0 <= i < j < |s[1..]| ensures !DrawsBefore(useAlpha, useZBuffer, s[1..][j], s[1..][i]) {
          assert s[1..][j] == s[j + 1] && s[1..][i] == s[i + 1];
        }
      }
      var rest := InsertEntry(useAlpha, useZBuffer, x, s[1..]);
      InsertKeepsSorted(useAlpha, useZBuffer, x, s, rest);
      assert s == [s[0]] + s[1..];
      [s[0]] + rest
    else
      PrependKeepsSorted(useAlpha, useZBuffer, x, s);
      [x] + s
  }

  /** The std::sort call of the frame: one sorted permutation of the draw list.
      std::sort is not stable; the lemmas below hold of every sorted
      permutation, whichever std::sort produces. */
  function SortDrawList(useAlpha: bool, useZBuffer: bool, s: seq<DrawableContainer>): (r: seq<DrawableContainer>)
    ensures SortedBy(useAlpha, useZBuffer, r)
    ensures multiset(r) == multiset(s)
    ensures |r| == |s|
  {
    if s == [] then
      []
    else
      assert s == [s[0]] + s[1..];
      InsertEntry(useAlpha, useZBuffer, s[0], SortDrawList(useAlpha, useZBuffer, s[1..]))
  }

  /** With alpha sorting on, every entry without alpha precedes every entry with
      alpha, whatever the priorities. */
  lemma AlphaSortsToEnd(useZBuffer: bool, r: seq<DrawableContainer>, i: int, j: int)
    requires SortedBy(true, useZBuffer, r)
    requires 0 <= i < j < |r|
    ensures r[i].drawable.hasAlpha ==> r[j].drawable.hasAlpha
  {
    assert !DrawsBefore(true, useZBuffer, r[j], r[i]);
  }

  /** Among entries of equal alpha status and equal priority a sorted list with
      the tie-break on puts those that do not request the z-buffer first. */
  lemma ZBufferRequestersLater(useAlpha: bool, r: seq<DrawableContainer>, i: int, j: int)
    requires SortedBy(useAlpha, true, r)
    requires 0 <= i < j < |r|
    requires r[i].drawable.hasAlpha == r[j].drawable.hasAlpha
    requires r[i].drawable.drawPriority == r[j].drawable.drawPriority
    ensures r[i].drawable.requestZBuffer ==> r[j].drawable.requestZBuffer
  {
    assert !DrawsBefore(useAlpha, true, r[j], r[i]);
  }

  /** The model's sort leaves an already sorted list exactly as it is. This
      is a property of the model's insertion sort only: std::sort may swap
      equivalent entries (see SortIsIdempotent for what holds of it). */
  lemma {:induction false} SortOfSorted(useAlpha: bool, useZBuffer: bool, s: seq<DrawableContainer>)
    requires SortedBy(useAlpha, useZBuffer, s)
    ensures SortDrawList(useAlpha, useZBuffer, s) == s
  {
    if s != [] {
      assert SortedBy(useAlpha, useZBuffer, s[1..]);
      SortOfSorted(useAlpha, useZBuffer, s[1..]);
      if |s| > 1 {
        assert !DrawsBefore(useAlpha, useZBuffer, s[1], s[0]);
        assert s[1..][0] == s[1];
      }
      assert s == [s[0]] + s[1..];
    }
  }

  /** Sorting twice is sorting once, for whatever sorted permutations
      std::sort returns: if `once` is a sorted permutation of s and `twice` a
      sorted permutation of `once`, all three of `once`, `twice` and the
      model's sort of s carry the same key at every position. */
  lemma SortIsIdempotent(useAlpha: bool, useZBuffer: bool, s: seq<DrawableContainer>, once: seq<DrawableContainer>, twice: seq<DrawableContainer>)
    requires SortedBy(useAlpha, useZBuffer, once) && multiset(once) == multiset(s)
    requires SortedBy(useAlpha, useZBuffer, twice) && multiset(twice) == multiset(once)
    ensures |twice| == |once| == |s|
    ensures forall i :: 0 <= i < |s| ==>
      KeyOf(useAlpha, useZBuffer, twice[i]) == KeyOf(useAlpha, useZBuffer, once[i]) == KeyOf(useAlpha, useZBuffer, SortDrawList(useAlpha, useZBuffer, s)[i])
  {
    SortedPermutationsAgree(useAlpha, useZBuffer, twice, once);
    SortedPermutationsAgree(useAlpha, useZBuffer, once, SortDrawList(useAlpha, useZBuffer, s));
  }

  /** Moving the k-th entry of a sorted list to the front, when all entries up
      to it share its key, keeps the list sorted, its keys and its elements. */
  lemma MoveToFront(useAlpha: bool, useZBuffer: bool, r: seq<DrawableContainer>, k: nat) returns (r': seq<DrawableContainer>)
    requires SortedBy(useAlpha, useZBuffer, r) && k < |r|
    requires forall j :: 0 <= j <= k ==> KeyOf(useAlpha, useZBuffer, r[j]) == KeyOf(useAlpha, useZBuffer, r[k])
    ensures |r'| == |r| && r'[0] == r[k]
    ensures forall j :: 0 <= j < |r| ==> KeyOf(useAlpha, useZBuffer, r'[j]) == KeyOf(useAlpha, useZBuffer, r[j])
    ensures SortedBy(useAlpha, useZBuffer, r')
    ensures multiset(r') == multiset(r)
  {
    r' := [r[k]] + r[..k] + r[k + 1..];
    forall j | 0 <= j < |r| ensures KeyOf(useAlpha, useZBuffer, r'[j]) == KeyOf(useAlpha, useZBuffer, r[j]) {
      if 0 < j <= k { assert r'[j] == r[j - 1]; }
      if j > k { assert r'[j] == r[j]; }
    }
    SortedByKeys(useAlpha, useZBuffer, r);
    SortedByKeys(useAlpha, useZBuffer, r');
    assert r == r[..k] + [r[k]] + r[k + 1..];
  }

  /** The first entries of two sorted permutations of one list share a key. */
  lemma FirstKeysAgree(useAlpha: bool, useZBuffer: bool, r1: seq<DrawableContainer>, r2: seq<DrawableContainer>, k: nat)
    requires SortedBy(useAlpha, useZBuffer, r1) && SortedBy(useAlpha, useZBuffer, r2)
    requires multiset(r1) == multiset(r2) && |r1| > 0
    requires k < |r2| && r2[k] == r1[0]
    ensures forall j :: 0 <= j <= k ==> KeyOf(useAlpha, useZBuffer, r2[j]) == KeyOf(useAlpha, useZBuffer, r1[0])
  {
    assert r2[0] in multiset(r1);
    var m :| 0 <= m < |r1| && r1[m] == r2[0];
    assert !DrawsBefore(useAlpha, useZBuffer, r1[m], r1[0]);
    forall j | 0 <= j <= k ensures KeyOf(useAlpha, useZBuffer, r2[j]) == KeyOf(useAlpha, useZBuffer, r1[0]) {
      if 0 < j { assert !DrawsBefore(useAlpha, useZBuffer, r2[j], r2[0]); }
      if j < k { assert !DrawsBefore(useAlpha, useZBuffer, r2[k], r2[j]); }
    }
  }

  /** Two sorted permutations of the same list have the same key at every
      position: std::sort may order equivalent entries differently, but never
      anything else. */
  lemma {:induction false} SortedPermutationsAgree(useAlpha: bool, useZBuffer: bool, r1: seq<DrawableContainer>, r2: seq<DrawableContainer>)
    requires SortedBy(useAlpha, useZBuffer, r1) && SortedBy(useAlpha, useZBuffer, r2)
    requires multiset(r1) == multiset(r2)
    ensures |r1| == |r2|
    ensures forall i :: 0 <= i < |r1| ==> KeyOf(useAlpha, useZBuffer, r1[i]) == KeyOf(useAlpha, useZBuffer, r2[i])
    decreases |r1|
  {
    assert |r1| == |multiset(r1)| == |multiset(r2)| == |r2|;
    if |r1| > 0 {
      assert r1[0] in multiset(r2);
      var k :| 0 <= k < |r2| && r2[k] == r1[0];
      FirstKeysAgree(useAlpha, useZBuffer, r1, r2, k);
      var r2' := MoveToFront(useAlpha, useZBuffer, r2, k);
      TailsArePermutations(r1, r2');
      assert SortedBy(useAlpha, useZBuffer, r1[1..]);
      assert SortedBy(useAlpha, useZBuffer, r2'[1..]);
      SortedPermutationsAgree(useAlpha, useZBuffer, r1[1..], r2'[1..]);
      forall i | 0 <= i < |r1| ensures KeyOf(useAlpha, useZBuffer, r1[i]) == KeyOf(useAlpha, useZBuffer, r2[i]) {
        if i > 0 { assert r1[i] == r1[1..][i - 1] && r2'[i] == r2'[1..][i - 1]; }
      }
    }
  }

  lemma TailsArePermutations<T>(s: seq<T>, t: seq<T>)
    requires |s| > 0 && |t| > 0 && s[0] == t[0] && multiset(s) == multiset(t)
    ensures multiset(s[1..]) == multiset(t[1..])
  {
    assert s == [s[0]] + s[1..];
    assert t == [t[0]] + t[1..];
    assert multiset(s) == multiset{s[0]} + multiset(s[1..]);
    assert multiset(t) == multiset{t[0]} + multiset(t[1..]);
    assert multiset(s[1..]) == multiset(s) - multiset{s[0]};
    assert multiset(t[1..]) == multiset(t) - multiset{t[0]};
  }

  /** The worked example: C (priority 1, opaque), A (priority 5, opaque),
      B (priority 5, alpha) with alpha sorting on; every sorted permutation of
      any arrangement of them is [C, A, B]. */
  lemma ExampleAlphaOrder(useZBuffer: bool, a: DrawableContainer, b: DrawableContainer, c: DrawableContainer, r: seq<DrawableContainer>)
    requires a.drawable.drawPriority == 5 && !a.drawable.hasAlpha
    requires b.drawable.drawPriority == 5 && b.drawable.hasAlpha
    requires c.drawable.drawPriority == 1 && !c.drawable.hasAlpha
    requires SortedBy(true, useZBuffer, r) && multiset(r) == multiset{a, b, c}
    ensures r == [c, a, b]
  {
    var expected := [c, a, b];
    ExampleIsSorted(useZBuffer, a, b, c);
    SortedPermutationsAgree(true, useZBuffer, r, expected);
    MembersOfThree(r, a, b, c);
    forall i | 0 <= i < 3 ensures r[i] == expected[i] {
      assert KeyOf(true, useZBuffer, r[i]) == KeyOf(true, useZBuffer, expected[i]);
    }
  }

  lemma ExampleIsSorted(useZBuffer: bool, a: DrawableContainer, b: DrawableContainer, c: DrawableContainer)
    requires a.drawable.drawPriority == 5 && !a.drawable.hasAlpha
    requires b.drawable.drawPriority == 5 && b.drawable.hasAlpha
    requires c.drawable.drawPriority == 1 && !c.drawable.hasAlpha
    ensures SortedBy(true, useZBuffer, [c, a, b]) && multiset([c, a, b]) == multiset{a, b, c}
  {
  }

  /** A permutation of three elements holds only them. */
  lemma MembersOfThree<T>(r: seq<T>, a: T, b: T, c: T)
    requires multiset(r) == multiset{a, b, c}
    ensures |r| == 3 && forall i :: 0 <= i < 3 ==> r[i] == a || r[i] == b || r[i] == c
  {
    assert |r| == |multiset(r)| == 3;
    forall i | 0 <= i < 3 ensures r[i] == a || r[i] == b || r[i] == c {
      assert r[i] in multiset(r);
    }
  }
}
