/** Pattern containment: some choice of values is ordered like the pattern. */
module Patterns {
  import opened Powers
  import opened Masks
  import opened Selector

  // ----- normalising -----

  function Inserted(x: int, xs: seq<int>): seq<int> {
    if xs == [] || x <= xs[0] then [x] + xs else [xs[0]] + Inserted(x, xs[1..])
  }

  /** `sorted(xs)` */
  function Sorted(xs: seq<int>): seq<int> {
    if xs == [] then [] else Inserted(xs[0], Sorted(xs[1..]))
  }

  /** `xs.index(x)`: the first place of `x`. */
  function IndexOf(xs: seq<int>, x: int): (i: nat)
    requires x in xs
    ensures i < |xs| && xs[i] == x && x !in xs[..i]
  {
    if xs[0] == x then 0 else 1 + IndexOf(xs[1..], x)
  }

  function Normalize(xs: seq<int>): (r: seq<nat>)
    ensures |r| == |xs|
  {
    SortedHolds(xs);
    SameElements(xs, Sorted(xs));
    seq(|xs|, i requires 0 <= i < |xs| => IndexOf(Sorted(xs), xs[i]))
  }

  /** How many elements are less than `x`. */
  function Less(xs: seq<int>, x: int): nat {
    if xs == [] then 0 else (if xs[0] < x then 1 else 0) + Less(xs[1..], x)
  }

  predicate NonDecreasing(xs: seq<int>) {
    |xs| <= 1 || (xs[0] <= xs[1] && NonDecreasing(xs[1..]))
  }

  lemma {:induction false} InsertedContents(x: int, xs: seq<int>)
    ensures multiset(Inserted(x, xs)) == multiset(xs) + multiset{x}
  {
    if xs != [] {
      assert xs == [xs[0]] + xs[1..];
      if x > xs[0] {
        InsertedContents(x, xs[1..]);
      }
    }
  }

  lemma {:induction false} InsertedAscending(x: int, xs: seq<int>)
    requires NonDecreasing(xs)
    ensures NonDecreasing(Inserted(x, xs)) && Inserted(x, xs)[0] == if xs == [] || x <= xs[0] then x else xs[0]
  {
    if xs != [] && x > xs[0] {
      InsertedAscending(x, xs[1..]);
      assert Inserted(x, xs)[1..] == Inserted(x, xs[1..]);
    } else {
      assert ([x] + xs)[1..] == xs;
    }
  }

  lemma SortedStep(xs: seq<int>)
    ensures xs == [] ==> Sorted(xs) == [] && NonDecreasing(Sorted(xs))
    ensures xs != [] ==>
      Sorted(xs) == Inserted(xs[0], Sorted(xs[1..])) && multiset(xs) == multiset(xs[1..]) + multiset{xs[0]}
  {
    hide Inserted;
    if xs != [] {
      assert xs == [xs[0]] + xs[1..];
    }
  }

  lemma {:induction false} SortedHolds(xs: seq<int>)
    ensures multiset(Sorted(xs)) == multiset(xs) && NonDecreasing(Sorted(xs))
  {
    hide *;
    SortedStep(xs);
    if xs != [] {
      SortedHolds(xs[1..]);
      InsertedContents(xs[0], Sorted(xs[1..]));
      InsertedAscending(xs[0], Sorted(xs[1..]));
    }
  }

  lemma SameElements(a: seq<int>, b: seq<int>)
    requires multiset(a) == multiset(b)
    ensures forall x :: x in a ==> x in b
  {
    forall x | x in a ensures x in b {
      assert x in multiset(a);
    }
  }

  lemma {:induction false} LessJoin(a: seq<int>, b: seq<int>, x: int)
    ensures Less(a + b, x) == Less(a, x) + Less(b, x)
  {
    if a == [] {
      assert a + b == b;
    } else {
      assert (a + b)[1..] == a[1..] + b;
      LessJoin(a[1..], b, x);
    }
  }

  lemma Without(b: seq<int>, i: nat, x: int) returns (rest: seq<int>)
    requires i < |b|
    ensures multiset(b) == multiset(rest) + multiset{b[i]} && Less(b, x) == Less(rest, x) + if b[i] < x then 1 else 0
  {
    rest := b[..i] + b[i + 1..];
    assert b == b[..i] + [b[i]] + b[i + 1..];
    LessJoin(b[..i] + [b[i]], b[i + 1..], x);
    LessJoin(b[..i], [b[i]], x);
    LessJoin(b[..i], b[i + 1..], x);
    assert Less([b[i]], x) == if b[i] < x then 1 else 0;
  }

  /** The number of smaller elements does not depend on the order. */
  lemma {:induction false} LessPermuted(a: seq<int>, b: seq<int>, x: int)
    requires multiset(a) == multiset(b)
    ensures Less(a, x) == Less(b, x)
    decreases |a|
  {
    if a == [] {
      assert |b| == |multiset(b)| == 0;
    } else {
      assert a[0] in multiset(b);
      var i :| 0 <= i < |b| && b[i] == a[0];
      var rest := Without(b, i, x);
      var others := Without(a, 0, x);
      SmallerPermuted(others, rest, a, b, a[0]);
      LessPermuted(others, rest, x);
    }
  }

  lemma SmallerPermuted(others: seq<int>, rest: seq<int>, a: seq<int>, b: seq<int>, y: int)
    requires multiset(a) == multiset(b) == multiset(rest) + multiset{y} && multiset(a) == multiset(others) + multiset{y}
    ensures multiset(others) == multiset(rest) && |others| < |a|
  {
    assert multiset(others) == multiset(a) - multiset{y} == multiset(rest);
    assert |multiset(a)| == |multiset(others)| + 1;
  }

  lemma {:induction false} HeadLeast(xs: seq<int>)
    requires NonDecreasing(xs)
    ensures forall i :: 0 <= i < |xs| ==> xs[0] <= xs[i]
  {
    if |xs| > 1 {
      HeadLeast(xs[1..]);
      forall i | 0 <= i < |xs| ensures xs[0] <= xs[i] {
        if i > 0 { assert xs[i] == xs[1..][i - 1]; }
      }
    }
  }

  /** In a sorted sequence the first place of a value is the number of smaller ones. */
  lemma {:induction false} IndexIsLess(xs: seq<int>, x: int)
    requires x in xs && NonDecreasing(xs)
    ensures IndexOf(xs, x) == Less(xs, x)
  {
    HeadLeast(xs);
    if xs[0] == x {
      NoneLess(xs, x);
    } else {
      IndexIsLess(xs[1..], x);
    }
  }

  lemma {:induction false} NoneLess(xs: seq<int>, x: int)
    requires forall i :: 0 <= i < |xs| ==> xs[i] >= x
    ensures Less(xs, x) == 0
  {
    if xs != [] { NoneLess(xs[1..], x); }
  }

  /** Normalising replaces every value by the number of smaller ones. */
  lemma NormalizeRanks(xs: seq<int>)
    ensures forall i :: 0 <= i < |xs| ==> Normalize(xs)[i] == Less(xs, xs[i])
  {
    SortedHolds(xs);
    SameElements(xs, Sorted(xs));
    forall i | 0 <= i < |xs| ensures Normalize(xs)[i] == Less(xs, xs[i]) {
      IndexIsLess(Sorted(xs), xs[i]);
      LessPermuted(Sorted(xs), xs, xs[i]);
    }
  }

  // ----- order isomorphism -----

  /** Elements compare in `xs` as they do in `ys`. */
  predicate OrderIsomorphic(xs: seq<int>, ys: seq<int>) {
    |xs| == |ys| && forall i, j :: 0 <= i < |xs| && 0 <= j < |xs| ==> (xs[i] < xs[j] <==> ys[i] < ys[j])
  }

  function Iota(k: nat): (r: seq<int>)
    ensures |r| == k
  {
    if k == 0 then [] else Iota(k - 1) + [k - 1]
  }

  /** A rearrangement of 0, 1, ..., |patt| - 1. */
  predicate IsPermutation(patt: seq<int>) {
    multiset(patt) == multiset(Iota(|patt|))
  }

  lemma {:induction false} LessIota(k: nat, y: nat)
    requires y <= k
    ensures Less(Iota(k), y) == y
  {
    if k > 0 {
      LessJoin(Iota(k - 1), [k - 1], y);
      assert Less([k - 1], y) == if k - 1 < y then 1 else 0;
      if y == k {
        LessIota(k - 1, k - 1);
        AllLess(Iota(k - 1), y);
        IotaBelow(k - 1);
      } else {
        LessIota(k - 1, y);
      }
    }
  }

  lemma {:induction false} IotaBelow(k: nat)
    ensures forall i :: 0 <= i < k ==> 0 <= Iota(k)[i] < k
  {
    if k > 0 { IotaBelow(k - 1); }
  }

  lemma {:induction false} AllLess(xs: seq<int>, x: int)
    ensures (forall i :: 0 <= i < |xs| ==> xs[i] < x) ==> Less(xs, x) == |xs|
  {
    if xs != [] { AllLess(xs[1..], x); }
  }

  /** Every element of a permutation is the number of smaller elements. */
  lemma PermutationRanks(patt: seq<int>, i: nat)
    requires IsPermutation(patt) && i < |patt|
    ensures Less(patt, patt[i]) == patt[i]
  {
    var k := |patt|;
    assert patt[i] in multiset(Iota(k));
    IotaBelow(k);
    LessPermuted(patt, Iota(k), patt[i]);
    LessIota(k, patt[i]);
  }

  /** Sequences that compare alike have equal ranks. */
  lemma {:induction false} SameLess(xs: seq<int>, ys: seq<int>, x: int, y: int)
    requires |xs| == |ys| && forall j :: 0 <= j < |xs| ==> (xs[j] < x <==> ys[j] < y)
    ensures Less(xs, x) == Less(ys, y)
  {
    if xs != [] { SameLess(xs[1..], ys[1..], x, y); }
  }

  lemma {:induction false} LessMonotone(xs: seq<int>, x: int, y: int)
    requires x <= y
    ensures Less(xs, x) <= Less(xs, y)
    ensures x < y && x in xs ==> Less(xs, x) < Less(xs, y)
  {
    if xs != [] { LessMonotone(xs[1..], x, y); }
  }

  lemma IsomorphicNormalize(xs: seq<int>, ys: seq<int>)
    requires OrderIsomorphic(xs, ys)
    ensures Normalize(xs) == Normalize(ys)
  {
    NormalizeRanks(xs);
    NormalizeRanks(ys);
    forall i: nat | i < |xs| ensures Normalize(xs)[i] == Normalize(ys)[i] {
      SameLess(xs, ys, xs[i], ys[i]);
    }
  }

  lemma NormalizeIsomorphic(xs: seq<int>)
    ensures OrderIsomorphic(xs, Normalize(xs))
  {
    NormalizeRanks(xs);
    forall i, j | 0 <= i < |xs| && 0 <= j < |xs| ensures xs[i] < xs[j] <==> Normalize(xs)[i] < Normalize(xs)[j] {
      if xs[i] < xs[j] {
        LessMonotone(xs, xs[i], xs[j]);
      } else {
        LessMonotone(xs, xs[j], xs[i]);
      }
    }
  }

  /** Normalising to a pattern means being ordered like it, provided the pattern is in normal form itself. */
  lemma NormalizesIff(xs: seq<int>, patt: seq<int>)
    ensures Normalize(xs) == patt <==> Normalize(patt) == patt && OrderIsomorphic(xs, patt)
  {
    NormalizeIsomorphic(xs);
    if OrderIsomorphic(xs, patt) {
      IsomorphicNormalize(xs, patt);
    }
  }

  lemma PermutationNormal(patt: seq<int>)
    requires IsPermutation(patt)
    ensures Normalize(patt) == patt
  {
    NormalizeRanks(patt);
    forall i: nat | i < |patt| ensures Normalize(patt)[i] == patt[i] {
      PermutationRanks(patt, i);
    }
  }

  // ----- subsequences -----

  predicate IsSubsequence(s: seq<int>, xs: seq<int>) {
    s == [] || (xs != [] && ((s[0] == xs[0] && IsSubsequence(s[1..], xs[1..])) || IsSubsequence(s, xs[1..])))
  }

  lemma {:induction false} PickedSubsequence(xs: seq<int>, v: nat)
    requires v < Pow2(|xs|)
    ensures IsSubsequence(Picked(xs, v), xs) && |Picked(xs, v)| == Ones(v)
  {
    if xs != [] {
      PickedSubsequence(xs[1..], v / 2);
      if v % 2 == 1 {
        assert Picked(xs, v)[1..] == Picked(xs[1..], v / 2);
      } else {
        assert Picked(xs, v) == Picked(xs[1..], v / 2);
      }
    }
  }

  lemma {:induction false} MaskOf(s: seq<int>, xs: seq<int>) returns (v: nat)
    requires IsSubsequence(s, xs)
    ensures v < Pow2(|xs|) && Ones(v) == |s| && Picked(xs, v) == s
  {
    if xs == [] {
      v := 0;
    } else if s != [] && s[0] == xs[0] && IsSubsequence(s[1..], xs[1..]) {
      var w := MaskOf(s[1..], xs[1..]);
      v := 2 * w + 1;
      assert Picked(xs, v) == [xs[0]] + Picked(xs[1..], w);
    } else {
      var w := MaskOf(s, xs[1..]);
      v := 2 * w;
      assert Picked(xs, v) == [] + Picked(xs[1..], w);
    }
  }

  /** The choices of the selector are exactly the subsequences of that length. */
  lemma ChoicesAreSubsequences(xs: seq<int>, k: nat, s: seq<int>)
    ensures s in PickedAll(xs, MasksFrom(0, Pow2(|xs|), k)) <==> |s| == k && IsSubsequence(s, xs)
  {
    var m := MasksFrom(0, Pow2(|xs|), k);
    MasksExact(0, Pow2(|xs|), k);
    if s in PickedAll(xs, m) {
      var v := PickedFrom(xs, m, s);
      PickedSubsequence(xs, v);
    }
    if |s| == k && IsSubsequence(s, xs) {
      var v := MaskOf(s, xs);
      PickedIn(xs, m, v);
    }
  }

  lemma {:induction false} PickedFrom(xs: seq<int>, m: seq<nat>, s: seq<int>) returns (v: nat)
    requires s in PickedAll(xs, m)
    ensures v in m && Picked(xs, v) == s
  {
    if Picked(xs, m[0]) == s {
      v := m[0];
    } else {
      v := PickedFrom(xs, m[1..], s);
    }
  }

  lemma {:induction false} PickedIn(xs: seq<int>, m: seq<nat>, v: nat)
    requires v in m
    ensures Picked(xs, v) in PickedAll(xs, m)
  {
    if m[0] != v {
      PickedIn(xs, m[1..], v);
      assert forall s :: s in PickedAll(xs, m[1..]) ==> s in PickedAll(xs, m);
    }
  }

  // ----- containment -----

  /** Some subsequence of `perm` normalises to `patt`. */
  method ContainsPattern(perm: seq<int>, patt: seq<int>) returns (found: bool)
    ensures found <==> exists s :: IsSubsequence(s, perm) && Normalize(s) == patt
  {
    if |patt| > |perm| {
      forall s | IsSubsequence(s, perm) ensures Normalize(s) != patt {
        SubsequenceLength(s, perm);
      }
      return false;
    }
    var choices := Choices(perm, |patt|);
    var all := choices.choices;
    for i := 0 to |all|
      invariant forall j :: 0 <= j < i ==> Normalize(all[j]) != patt
    {
      if Normalize(all[i]) == patt {
        ChoicesAreSubsequences(perm, |patt|, all[i]);
        return true;
      }
    }
    forall s | IsSubsequence(s, perm) ensures Normalize(s) != patt {
      if |s| == |patt| {
        ChoicesAreSubsequences(perm, |patt|, s);
      }
    }
    found := false;
  }

  lemma {:induction false} SubsequenceLength(s: seq<int>, xs: seq<int>)
    requires IsSubsequence(s, xs)
    ensures |s| <= |xs|
  {
    if s != [] {
      if s[0] == xs[0] && IsSubsequence(s[1..], xs[1..]) {
        SubsequenceLength(s[1..], xs[1..]);
      } else {
        SubsequenceLength(s, xs[1..]);
      }
    }
  }

  /** A pattern not in normal form is never found; any other, exactly when some subsequence is ordered like it. */
  lemma ContainmentIff(perm: seq<int>, patt: seq<int>)
    ensures (exists s :: IsSubsequence(s, perm) && Normalize(s) == patt)
       <==> Normalize(patt) == patt && exists s :: IsSubsequence(s, perm) && OrderIsomorphic(s, patt)
  {
    if s :| IsSubsequence(s, perm) && Normalize(s) == patt {
      NormalizesIff(s, patt);
    }
    if s :| IsSubsequence(s, perm) && OrderIsomorphic(s, patt) {
      NormalizesIff(s, patt);
    }
  }

  /** A permutation of 0, 1, ... is contained exactly when some subsequence is ordered like it. */
  lemma PermutationContainment(perm: seq<int>, patt: seq<int>)
    requires IsPermutation(patt)
    ensures (exists s :: IsSubsequence(s, perm) && Normalize(s) == patt)
       <==> (exists s :: IsSubsequence(s, perm) && OrderIsomorphic(s, patt))
  {
    PermutationNormal(patt);
    ContainmentIff(perm, patt);
  }
}
