/** The slot bitmap of a run: bit `j` is set while slot `j` is free. */
module Bitmap {
  import opened Powers

  predicate Bit(w: nat, j: nat) {
    if j == 0 then w % 2 == 1 else Bit(w / 2, j - 1)
  }

  /** `w ^ (1 << j)` */
  function Toggle(w: nat, j: nat): nat {
    if Bit(w, j) then w - BitValue(w, j) else w + Pow2(j)
  }

  /** 2^j, which does not exceed a number whose bit `j` is set. */
  function BitValue(w: nat, j: nat): (p: nat)
    requires Bit(w, j)
    ensures p == Pow2(j) && p <= w
  {
    if j == 0 then 1 else 2 * BitValue(w / 2, j - 1)
  }

  lemma {:induction false} ToggleHalf(w: nat, j: nat)
    requires j > 0
    ensures Toggle(w, j) / 2 == Toggle(w / 2, j - 1) && Toggle(w, j) % 2 == w % 2
  {
  }

  /** Toggling flips the one bit and no other. */
  lemma {:induction false} ToggleFlips(w: nat, j: nat, i: nat)
    ensures Bit(Toggle(w, j), i) == (if i == j then !Bit(w, i) else Bit(w, i))
    decreases j
  {
    if j > 0 {
      ToggleHalf(w, j);
      if i > 0 {
        ToggleFlips(w / 2, j - 1, i - 1);
      }
    } else if i > 0 {
      assert Toggle(w, 0) / 2 == w / 2;
    }
  }

  /** Toggling twice restores the bitmap. */
  lemma ToggleTwice(w: nat, j: nat)
    ensures Toggle(Toggle(w, j), j) == w
  {
    ToggleFlips(w, j, j);
  }

  lemma {:induction false} ToggleInRange(w: nat, j: nat, n: nat)
    requires w < Pow2(n) && j < n
    ensures Toggle(w, j) < Pow2(n)
    decreases j
  {
    var p := Pow2(n - 1);
    assert Pow2(n) == 2 * p && w / 2 < p;
    if j > 0 {
      ToggleHalf(w, j);
      ToggleInRange(w / 2, j - 1, n - 1);
      DoubleBelow(Toggle(w, j), p);
    } else {
      assert Toggle(w, 0) / 2 == w / 2;
      DoubleBelow(Toggle(w, 0), p);
    }
  }

  lemma DoubleBelow(x: nat, p: nat)
    requires x / 2 < p
    ensures x < 2 * p
  {
  }

  /** Bits at and above `n` of a number below 2^n are clear. */
  lemma {:induction false} NoHighBit(w: nat, n: nat, j: nat)
    requires w < Pow2(n) && n <= j
    ensures !Bit(w, j)
    decreases j
  {
    if n > 0 {
      NoHighBit(w / 2, n - 1, j - 1);
    } else if j > 0 {
      NoHighBit(0, 0, j - 1);
    }
  }

  /** A bitmap of `n` bits in which some slot is taken, unless it is 2^n - 1. */
  lemma {:induction false} ClearBit(w: nat, n: nat) returns (j: nat)
    requires w < Pow2(n) && w != Pow2(n) - 1
    ensures j < n && !Bit(w, j)
  {
    if w % 2 == 0 {
      j := 0;
    } else {
      j := ClearBit(w / 2, n - 1);
      j := j + 1;
    }
  }

  lemma {:induction false} AllBitsSet(n: nat, j: nat)
    requires j < n
    ensures Bit(Pow2(n) - 1, j)
  {
    if j > 0 {
      AllBitsSet(n - 1, j - 1);
      assert (Pow2(n) - 1) / 2 == Pow2(n - 1) - 1;
    }
  }

  predicate AllSet(w: nat, n: nat) {
    forall j: nat :: j < n ==> Bit(w, j)
  }

  /** The one bitmap of `n` bits that are all set. */
  lemma AllSetIff(w: nat, n: nat)
    requires w < Pow2(n)
    ensures AllSet(w, n) <==> w == Pow2(n) - 1
  {
    if w == Pow2(n) - 1 {
      forall j: nat | j < n ensures Bit(w, j) {
        AllBitsSet(n, j);
      }
    } else {
      var j := ClearBit(w, n);
    }
  }

  ghost predicate HighestBit(w: nat, j: nat) {
    Bit(w, j) && forall k: nat :: k > j ==> !Bit(w, k)
  }

  /** When all `n` bits are set, the highest is the last. */
  lemma HighestOfAll(n: nat, j: nat)
    requires HighestBit(Pow2(n) - 1, j)
    ensures j == n - 1
  {
    if j >= n {
      NoHighBit(Pow2(n) - 1, n, j);
    } else if n > 0 {
      AllBitsSet(n, n - 1);
    }
  }

  /** `w >> k` */
  function ShiftRight(w: nat, k: nat): nat {
    if k == 0 then w else ShiftRight(w, k - 1) / 2
  }

  lemma {:induction false} ShiftRightBit(w: nat, k: nat, j: nat)
    ensures Bit(ShiftRight(w, k), j) == Bit(w, j + k)
    decreases k
  {
    if k > 0 {
      ShiftRightBit(w, k - 1, j + 1);
    }
  }

  /** Index of the highest set bit, -1 for 0. Halves the bitmap until nothing is left. */
  method FirstFree(bitmap: nat) returns (first: int)
    ensures -1 <= first
    ensures first == -1 <==> bitmap == 0
    ensures first >= 0 ==> Bit(bitmap, first)
    ensures forall j: nat :: j > first ==> !Bit(bitmap, j)
  {
    first := -1;
    var w := bitmap;
    while w != 0
      invariant -1 <= first && w == ShiftRight(bitmap, first + 1)
      invariant if first >= 0 then ShiftRight(bitmap, first) > 0 else w == bitmap
      decreases w
    {
      first := first + 1;
      w := w / 2;
    }
    if first >= 0 {
      ShiftRightBit(bitmap, first, 0);
      assert ShiftRight(bitmap, first) == 1;
    }
    forall j: nat | j > first ensures !Bit(bitmap, j) {
      ShiftRightBit(bitmap, first + 1, j - (first + 1));
      NoHighBit(0, 0, j - (first + 1));
    }
    if bitmap == 0 && first >= 0 {
      NoHighBit(0, 0, first);
    }
  }
}
