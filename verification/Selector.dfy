/** The selector: every choice of a given number of values, by stepping through bit masks. */
module Selector {
  import opened Powers
  import opened Masks
  import Bitmap

  // ----- reference definitions -----

  /** The numbers from `lo` up to `hi` with `k` ones, in ascending order. */
  function MasksFrom(lo: nat, hi: nat, k: nat): seq<nat>
    decreases hi - lo
  {
    if lo >= hi then [] else (if Ones(lo) == k then [lo] else []) + MasksFrom(lo + 1, hi, k)
  }

  /** The values whose bit is set in `v`. */
  function Picked<T>(values: seq<T>, v: nat): seq<T> {
    if values == [] then [] else (if v % 2 == 1 then [values[0]] else []) + Picked(values[1..], v / 2)
  }

  function PickedAll<T>(values: seq<T>, masks: seq<nat>): (r: seq<seq<T>>)
    ensures |r| == |masks|
  {
    if masks == [] then [] else [Picked(values, masks[0])] + PickedAll(values, masks[1..])
  }

  /** The largest `n`-bit mask with `k` ones. */
  function EndMask(k: nat, n: nat): nat
    requires k <= n
  {
    Shift(Pow2(k) - 1, n - k)
  }

  // ----- the reference list -----

  /** The list holds exactly the masks with `k` ones, each once, in strictly increasing order. */
  lemma {:induction false} MasksExact(lo: nat, hi: nat, k: nat)
    ensures var m := MasksFrom(lo, hi, k);
      && (forall i, j :: 0 <= i < j < |m| ==> m[i] < m[j])
      && (forall x: nat :: x in m <==> lo <= x < hi && Ones(x) == k)
    decreases hi - lo
  {
    if lo < hi {
      MasksExact(lo + 1, hi, k);
      var (m, rest) := (MasksFrom(lo, hi, k), MasksFrom(lo + 1, hi, k));
      hide MasksFrom, Ones;
      forall i, j | 0 <= i < j < |m| ensures m[i] < m[j] {
        if |m| > |rest| {
          assert m[j] == rest[j - 1] && m[j] in rest;
        }
      }
    }
  }

  lemma {:induction false} MasksJoin(a: nat, b: nat, c: nat, k: nat)
    requires a <= b <= c
    ensures MasksFrom(a, c, k) == MasksFrom(a, b, k) + MasksFrom(b, c, k)
    decreases b - a
  {
    if a < b {
      MasksJoin(a + 1, b, c, k);
    }
  }

  lemma {:induction false} MasksGap(a: nat, b: nat, k: nat)
    requires forall x: nat :: a <= x < b ==> Ones(x) != k
    ensures MasksFrom(a, b, k) == []
    decreases b - a
  {
    if a < b {
      MasksGap(a + 1, b, k);
    }
  }

  lemma MasksOne(v: nat, k: nat)
    requires Ones(v) == k
    ensures MasksFrom(v, v + 1, k) == [v]
  {
    assert MasksFrom(v, v + 1, k) == [v] + MasksFrom(v + 1, v + 1, k);
  }

  /** The list grows by one when the next mask is reached. */
  lemma MasksGrow(v: nat, v': nat, k: nat)
    requires v < v' && Ones(v') == k && forall x: nat :: v < x < v' ==> Ones(x) != k
    ensures MasksFrom(0, v' + 1, k) == MasksFrom(0, v + 1, k) + [v']
  {
    MasksOne(v', k);
    hide Ones, MasksFrom;
    MasksJoin(0, v + 1, v' + 1, k);
    MasksJoin(v + 1, v', v' + 1, k);
    MasksGap(v + 1, v', k);
  }

  // ----- the first, the next and the last mask -----

  lemma FirstMask(k: nat)
    ensures Ones(Pow2(k) - 1) == k && MasksFrom(0, Pow2(k), k) == [Pow2(k) - 1]
  {
    OnesOfAllOnes(k);
    var v := Pow2(k) - 1;
    forall x: nat | 0 <= x < v ensures Ones(x) != k { FewOnes(x, k); }
    MasksGap(0, v, k);
    MasksJoin(0, v, v + 1, k);
    MasksOne(v, k);
  }

  lemma EndMaskFits(k: nat, n: nat)
    requires k <= n
    ensures EndMask(k, n) + Pow2(n - k) == Pow2(n)
  {
    ShiftSum(Pow2(k) - 1, 1, n - k);
    ShiftPow2(k, n - k);
    ShiftOne(n - k);
  }

  /** Below 2^n no mask after the end mask has `k` ones. */
  lemma NothingAfterEnd(k: nat, n: nat, x: nat)
    requires k <= n && EndMask(k, n) < x < Pow2(n)
    ensures Ones(x) != k
  {
    var e := EndMask(k, n);
    EndMaskFits(k, n);
    OnesOfAllOnes(k);
    OnesSplit(Pow2(k) - 1, n - k, x - e);
    SomeOnes(x - e);
  }

  /** A step from any mask but the last reaches the least larger mask with as many ones. */
  lemma Step(v: nat, n: nat, k: nat)
    requires 0 < v < Pow2(n) && Ones(v) == k <= n && v != EndMask(k, n)
    ensures BitAnd(v, Negated(v, n)) > 0 && v < NextMask(v, n) < Pow2(n) && Ones(NextMask(v, n)) == k
    ensures forall x: nat :: v < x < NextMask(v, n) ==> Ones(x) != k
  {
    var w, u, p, q, t := FindBlock(v);
    CarryFits(v, n, k, w, u, p, q, t);
    NextMaskValue(v, n, w, u, p, q, t);
    NextMaskOnes(v, w, u, p, q, t);
    var v' := NextMask(v, n);
    hide *;
    forall x: nat | v < x < v' ensures Ones(x) != k {
      NextMaskLeast(v, w, u, p, q, t, x);
    }
  }

  /** A mask whose ones fill the top is the end mask. */
  lemma OnlyTopOnes(v: nat, n: nat, w: nat, p: nat)
    requires p < n && OddPart(v, w, p) && w + 1 == Pow2(n - p)
    ensures Ones(v) <= n && v == EndMask(Ones(v), n)
  {
    OnesSplit(w, p, 0);
    OnesOfAllOnes(n - p);
    assert Ones(0) == 0;
    hide Ones, Pow2, Shift;
  }

  lemma CarryFits(v: nat, n: nat, k: nat, w: nat, u: nat, p: nat, q: nat, t: nat)
    requires 0 < v < Pow2(n) && Ones(v) == k <= n && v != EndMask(k, n) && Block(v, w, u, p, q, t)
    ensures t < Pow2(n) && v < t + Pow2(q - 1) - 1 < Pow2(n)
  {
    hide Ones, Pow2, Shift, EndMask;
    var c := Missing(v, w, p, n);
    OddSum(v, w, p);
    if c == 1 {
      OnlyTopOnes(v, n, w, p);
      assert false;
    }
    CarryBelow(v, n, w, p, c);
    TopFits(t, n, u, p, q);
  }

  lemma CarryBelow(v: nat, n: nat, w: nat, p: nat, c: nat)
    requires v == Shift(w, p) && c > 1 && v + Shift(c, p) == Pow2(n)
    ensures v + Pow2(p) < Pow2(n)
  {
    ShiftSum(1, c - 1, p);
    ShiftOne(p);
    hide Pow2, Shift;
    assert Shift(c - 1, p) >= c - 1;
  }

  lemma TopFits(t: nat, n: nat, u: nat, p: nat, q: nat)
    requires q > 0 && OddPart(t, u, p + q) && t < Pow2(n)
    ensures t + Pow2(q - 1) - 1 < Pow2(n)
  {
    var m := p + q;
    var c := Missing(t, u, m, n);
    ShiftSum(1, c - 1, m);
    ShiftOne(m);
    Pow2Monotone(q - 1, m);
  }

  // ----- picking -----

  lemma {:induction false} TestBit(v: nat, i: nat)
    ensures BitAnd(v, Shift(1, i)) != 0 <==> Bitmap.Bit(v, i)
    decreases i
  {
    AndHalves(v, Shift(1, i));
    if i > 0 {
      TestBit(v / 2, i - 1);
    } else {
      assert BitAnd(v / 2, 0) == 0;
    }
  }

  lemma {:induction false} PickedMore<T>(values: seq<T>, x: T, v: nat)
    ensures Picked(values + [x], v) == Picked(values, v) + if Bitmap.Bit(v, |values|) then [x] else []
  {
    if values != [] {
      assert (values + [x])[1..] == values[1..] + [x];
      PickedMore(values[1..], x, v / 2);
    }
  }

  lemma {:induction false} PickedAllMore<T>(values: seq<T>, masks: seq<nat>, v: nat)
    ensures PickedAll(values, masks + [v]) == PickedAll(values, masks) + [Picked(values, v)]
  {
    if masks != [] {
      assert (masks + [v])[1..] == masks[1..] + [v];
      PickedAllMore(values, masks[1..], v);
    }
  }

  method Select<T>(values: seq<T>, v: nat) returns (out: seq<T>)
    ensures out == Picked(values, v)
  {
    out := [];
    for i := 0 to |values|
      invariant out == Picked(values[..i], v)
    {
      TestBit(v, i);
      PickedMore(values[..i], values[i], v);
      assert values[..i + 1] == values[..i] + [values[i]];
      if BitAnd(v, Shift(1, i)) != 0 {
        out := out + [values[i]];
      }
    }
    assert values[..|values|] == values;
  }

  datatype Selection<T> = ValueError | Selected(choices: seq<seq<T>>)

  lemma PickedOne<T>(values: seq<T>, v: nat)
    ensures PickedAll(values, [v]) == [Picked(values, v)]
  {
  }

  /** All choices of `setBits` values, in the order the generator yields them. More set bits than values
      is an error: the end state would be a shift by a negative amount. */
  method Choices<T>(values: seq<T>, setBits: nat) returns (r: Selection<T>)
    ensures setBits > |values| <==> r.ValueError?
    ensures setBits <= |values| ==> r.choices == PickedAll(values, MasksFrom(0, Pow2(|values|), setBits))
  {
    hide Pow2, Shift, MasksFrom, Ones, BitAnd, BitOr, Negated, Picked, PickedAll;
    var n := |values|;
    if setBits > n {
      return ValueError;
    }
    var v := Pow2(setBits) - 1;
    var endState := Shift(v, n - setBits);
    FirstMask(setBits);
    EndMaskFits(setBits, n);
    var first := Select(values, v);
    var out := [first];
    PickedOne(values, v);
    while v != endState
      invariant v <= endState && Ones(v) == setBits
      invariant out == PickedAll(values, MasksFrom(0, v + 1, setBits))
      decreases endState - v
    {
      if v == 0 {
        OnesOfZero(setBits, n);
        assert false;
      }
      Step(v, n, setBits);
      if NextMask(v, n) > endState {
        NothingAfterEnd(setBits, n, NextMask(v, n));
        assert false;
      }
      MasksGrow(v, NextMask(v, n), setBits);
      PickedAllMore(values, MasksFrom(0, v + 1, setBits), NextMask(v, n));
      var t := BitOr(v, v - 1) + 1;
      v := BitOr(t, BitAnd(t, Negated(t, n)) / BitAnd(v, Negated(v, n)) / 2 - 1);
      var choice := Select(values, v);
      out := out + [choice];
    }
    LastMask(setBits, n);
    r := Selected(out);
  }

  lemma OnesOfZero(k: nat, n: nat)
    requires k <= n && Ones(0) == k
    ensures EndMask(k, n) == 0
  {
    ShiftOne(n);
  }

  lemma LastMask(k: nat, n: nat)
    requires k <= n
    ensures MasksFrom(0, Pow2(n), k) == MasksFrom(0, EndMask(k, n) + 1, k)
  {
    var e := EndMask(k, n);
    EndMaskFits(k, n);
    forall x: nat | e + 1 <= x < Pow2(n) ensures Ones(x) != k {
      NothingAfterEnd(k, n, x);
    }
    MasksGap(e + 1, Pow2(n), k);
    MasksJoin(0, e + 1, Pow2(n), k);
  }

  lemma EndsWithMask(v: nat, k: nat)
    requires Ones(v) == k
    ensures var m := MasksFrom(0, v + 1, k); |m| > 0 && m[|m| - 1] == v
  {
    MasksJoin(0, v, v + 1, k);
    MasksOne(v, k);
  }

  lemma EndMaskOnes(k: nat, n: nat)
    requires k <= n
    ensures Ones(EndMask(k, n)) == k
  {
    OnesOfAllOnes(k);
    OnesSplit(Pow2(k) - 1, n - k, 0);
    assert Ones(0) == 0;
    hide Ones, Pow2, Shift;
  }

  /** The masks start with 2^k - 1 and end with that shifted to the top. */
  lemma FirstAndLast(k: nat, n: nat)
    requires k <= n
    ensures var m := MasksFrom(0, Pow2(n), k);
      |m| > 0 && m[0] == Pow2(k) - 1 && m[|m| - 1] == EndMask(k, n)
  {
    hide *;
    Pow2Monotone(k, n);
    MasksJoin(0, Pow2(k), Pow2(n), k);
    FirstMask(k);
    LastMask(k, n);
    EndMaskOnes(k, n);
    EndsWithMask(EndMask(k, n), k);
  }
}
