/** Bit masks as numbers, and the step from one mask to the next with as many bits. */
module Masks {
  import opened Powers

  // ----- the operators -----

  /** `a & b` */
  function BitAnd(a: nat, b: nat): nat {
    if a == 0 || b == 0 then 0
    else 2 * BitAnd(a / 2, b / 2) + if a % 2 == 1 && b % 2 == 1 then 1 else 0
  }

  /** `a | b` */
  function BitOr(a: nat, b: nat): nat {
    if a == 0 then b else if b == 0 then a
    else 2 * BitOr(a / 2, b / 2) + if a % 2 == 1 || b % 2 == 1 then 1 else 0
  }

  /** `a << m` */
  function Shift(a: nat, m: nat): (r: nat)
    ensures r >= a
  {
    if m == 0 then a else 2 * Shift(a, m - 1)
  }

  /** `-v % (1 << n)`; the remainder is never negative. */
  function Negated(v: nat, n: nat): nat {
    -(v as int) % Pow2(n)
  }

  /** How many bits are set. */
  function Ones(v: nat): nat {
    if v == 0 then 0 else v % 2 + Ones(v / 2)
  }

  // ----- shifts -----

  lemma {:induction false} ShiftOne(m: nat)
    ensures Shift(1, m) == Pow2(m) && Shift(0, m) == 0
  {
    if m > 0 { ShiftOne(m - 1); }
  }

  lemma {:induction false} ShiftSum(a: nat, b: nat, m: nat)
    ensures Shift(a + b, m) == Shift(a, m) + Shift(b, m)
  {
    if m > 0 { ShiftSum(a, b, m - 1); }
  }

  lemma {:induction false} ShiftTwice(a: nat, p: nat, q: nat)
    ensures Shift(Shift(a, p), q) == Shift(a, p + q)
  {
    if q > 0 { ShiftTwice(a, p, q - 1); }
  }

  lemma ShiftPow2(p: nat, q: nat)
    ensures Shift(Pow2(p), q) == Pow2(p + q)
  {
    ShiftOne(p);
    ShiftOne(p + q);
    ShiftTwice(1, p, q);
  }

  /** Dividing a power of two by a smaller one. */
  lemma Pow2Quotient(p: nat, q: nat)
    ensures Pow2(p + q) / Pow2(p) == Pow2(q)
  {
    Pow2Product(p, q);
    ProductQuotient(Pow2(q), Pow2(p));
  }

  lemma Pow2Step(n: nat)
    ensures Pow2(n + 1) == 2 * Pow2(n)
  {
  }

  lemma {:induction false} Pow2Product(p: nat, q: nat)
    ensures Pow2(p + q) == Pow2(q) * Pow2(p)
  {
    if q > 0 {
      Pow2Product(p, q - 1);
      Pow2Step(p + q - 1);
      Pow2Step(q - 1);
      hide Pow2;
      var (x, y) := (Pow2(q - 1), Pow2(p));
      assert 2 * (x * y) == (2 * x) * y;
    }
  }

  // ----- splitting a mask into high and low bits -----

  lemma Halve(a: nat, m: nat, b: nat)
    requires m > 0 && b < Pow2(m)
    ensures (Shift(a, m) + b) / 2 == Shift(a, m - 1) + b / 2 && (Shift(a, m) + b) % 2 == b % 2 && b / 2 < Pow2(m - 1)
  {
  }

  lemma {:induction false} OnesSplit(a: nat, m: nat, b: nat)
    requires b < Pow2(m)
    ensures Ones(Shift(a, m) + b) == Ones(a) + Ones(b)
    decreases m
  {
    if m > 0 {
      Halve(a, m, b);
      OnesSplit(a, m - 1, b / 2);
    }
  }

  lemma OrHalves(a: nat, b: nat)
    ensures BitOr(a, b) == 2 * BitOr(a / 2, b / 2) + if a % 2 == 1 || b % 2 == 1 then 1 else 0
  {
  }

  lemma {:induction false} OrSplit(a: nat, b: nat, m: nat, c: nat, d: nat)
    requires b < Pow2(m) && d < Pow2(m)
    ensures BitOr(Shift(a, m) + b, Shift(c, m) + d) == Shift(BitOr(a, c), m) + BitOr(b, d)
    decreases m
  {
    if m > 0 {
      Halve(a, m, b);
      Halve(c, m, d);
      OrSplit(a, b / 2, m - 1, c, d / 2);
      OrHalves(Shift(a, m) + b, Shift(c, m) + d);
      OrHalves(b, d);
    }
  }

  lemma AndHalves(a: nat, b: nat)
    ensures BitAnd(a, b) == 2 * BitAnd(a / 2, b / 2) + if a % 2 == 1 && b % 2 == 1 then 1 else 0
  {
  }

  lemma {:induction false} AndSplit(a: nat, b: nat, m: nat, c: nat, d: nat)
    requires b < Pow2(m) && d < Pow2(m)
    ensures BitAnd(Shift(a, m) + b, Shift(c, m) + d) == Shift(BitAnd(a, c), m) + BitAnd(b, d)
    decreases m
  {
    if m > 0 {
      Halve(a, m, b);
      Halve(c, m, d);
      AndSplit(a, b / 2, m - 1, c, d / 2);
      AndHalves(Shift(a, m) + b, Shift(c, m) + d);
      AndHalves(b, d);
    }
  }

  /** Numbers that add up to all ones share no bit. */
  lemma {:induction false} Complement(a: nat, b: nat, m: nat)
    requires a + b == Pow2(m) - 1
    ensures BitAnd(a, b) == 0
    decreases m
  {
    if m > 0 {
      Complement(a / 2, b / 2, m - 1);
    }
  }

  lemma {:induction false} OrSelf(a: nat)
    ensures BitOr(a, a) == a
  {
    if a > 0 { OrSelf(a / 2); }
  }

  // ----- counting ones -----

  lemma {:induction false} OnesOfAllOnes(m: nat)
    ensures Ones(Pow2(m) - 1) == m
  {
    if m > 0 {
      OnesOfAllOnes(m - 1);
      assert (Pow2(m) - 1) / 2 == Pow2(m - 1) - 1;
    }
  }

  /** Below 2^m - 1 fewer than `m` bits are set. */
  lemma {:induction false} FewOnes(r: nat, m: nat)
    requires r < Pow2(m) - 1
    ensures Ones(r) < m
    decreases m
  {
    if m > 1 && r > 0 {
      if r / 2 < Pow2(m - 1) - 1 {
        FewOnes(r / 2, m - 1);
      } else {
        OnesOfAllOnes(m - 1);
      }
    }
  }

  lemma {:induction false} SomeOnes(r: nat)
    requires r > 0
    ensures Ones(r) > 0
  {
    if r > 1 { SomeOnes(r / 2); }
  }

  // ----- the lowest one -----

  /** `v` is the odd number `w` with `p` zeros appended. */
  predicate OddPart(v: nat, w: nat, p: nat) {
    v == Shift(w, p) && w % 2 == 1
  }

  lemma {:induction false} FindOddPart(v: nat) returns (w: nat, p: nat)
    requires v > 0
    ensures OddPart(v, w, p)
  {
    if v % 2 == 1 {
      w, p := v, 0;
    } else {
      w, p := FindOddPart(v / 2);
      p := p + 1;
    }
  }

  /** `v` with its lowest one taken out, and that one. */
  lemma OddSum(v: nat, w: nat, p: nat)
    requires OddPart(v, w, p)
    ensures v == Shift(w - 1, p) + Pow2(p) && Shift(w + 1, p) == v + Pow2(p)
  {
    ShiftSum(w - 1, 1, p);
    ShiftSum(w, 1, p);
    ShiftOne(p);
  }

  /** An odd number and what is missing to a larger power of two share only bit 0. */
  lemma OddComplement(w: nat, c: nat, k: nat)
    requires w % 2 == 1 && w + c == Pow2(k + 1)
    ensures BitAnd(w, c) == 1
  {
    AndHalves(w, c);
    Complement(w / 2, c / 2, k);
  }

  /** What is missing from `v` to 2^n has as many zeros at the end. */
  lemma Missing(v: nat, w: nat, p: nat, n: nat) returns (c: nat)
    requires OddPart(v, w, p) && v < Pow2(n)
    ensures p < n && c > 0 && w + c == Pow2(n - p) && v + Shift(c, p) == Pow2(n) && Negated(v, n) == Shift(c, p)
  {
    OddSum(v, w, p);
    if n <= p {
      Pow2Monotone(n, p);
      assert false;
    }
    ShiftPow2(n - p, p);
    var top := Pow2(n - p);
    hide Pow2;
    if w >= top {
      ShiftSum(top, w - top, p);
      assert false;
    }
    c := top - w;
    ShiftSum(w, c, p);
    Negation(v, Pow2(n));
  }

  /** `v & -v` is the lowest one of `v`. */
  lemma LowestOne(v: nat, w: nat, p: nat, n: nat)
    requires OddPart(v, w, p) && v < Pow2(n)
    ensures p < n && BitAnd(v, Negated(v, n)) == Pow2(p)
  {
    var c := Missing(v, w, p, n);
    AndSplit(w, 0, p, c, 0);
    OddComplement(w, c, n - p - 1);
    ShiftOne(p);
  }

  lemma Negation(v: int, y: int)
    requires 0 < v < y
    ensures -v % y == y - v
  {
    assert -v == (-1) * y + (y - v);
  }

  /** `(v | (v - 1)) + 1` adds the lowest one. */
  lemma FillAndCarry(v: nat, w: nat, p: nat)
    requires OddPart(v, w, p)
    ensures v > 0 && BitOr(v, v - 1) + 1 == v + Pow2(p)
  {
    OddSum(v, w, p);
    OrSplit(w, 0, p, w - 1, Pow2(p) - 1);
    OrBefore(w);
    assert BitOr(0, Pow2(p) - 1) == Pow2(p) - 1;
    hide BitOr, Pow2, Shift;
  }

  lemma OrBefore(w: nat)
    requires w % 2 == 1
    ensures BitOr(w, w - 1) == w
  {
    OrHalves(w, w - 1);
    OrSelf(w / 2);
  }

  // ----- the next mask -----

  /** The step of the selector, from a mask that is not zero. */
  function NextMask(v: nat, n: nat): int
    requires v > 0 && BitAnd(v, Negated(v, n)) > 0
  {
    var t := BitOr(v, v - 1) + 1;
    var low := BitAnd(t, Negated(t, n)) / BitAnd(v, Negated(v, n)) / 2 - 1;
    if low >= 0 then BitOr(t, low) else -1
  }

  /** A mask `v` with a block of `q` ones above `p` zeros, and the carry `t` that a step makes. */
  predicate Block(v: nat, w: nat, u: nat, p: nat, q: nat, t: nat) {
    && q > 0 && OddPart(v, w, p) && OddPart(t, u, p + q) && w + 1 == Shift(u, q) && v + Pow2(p) == t
  }

  lemma FindBlock(v: nat) returns (w: nat, u: nat, p: nat, q: nat, t: nat)
    requires v > 0
    ensures Block(v, w, u, p, q, t)
  {
    w, p := FindOddPart(v);
    OddSum(v, w, p);
    u, q := FindOddPart(w + 1);
    ShiftTwice(u, q, p);
    t := Shift(u, p + q);
  }

  /** The step puts the carry in place and moves the other ones of the block to the bottom. */
  lemma NextMaskValue(v: nat, n: nat, w: nat, u: nat, p: nat, q: nat, t: nat)
    requires Block(v, w, u, p, q, t) && t < Pow2(n)
    ensures v > 0 && BitAnd(v, Negated(v, n)) > 0 && NextMask(v, n) == t + Pow2(q - 1) - 1
  {
    FillAndCarry(v, w, p);
    LowestOne(v, w, p, n);
    LowestOne(t, u, p + q, n);
    Pow2Quotient(p, q);
    BottomOnes(t, u, p, q);
    assert Pow2(q) / 2 - 1 == Pow2(q - 1) - 1;
    hide Pow2, BitOr, BitAnd, Negated;
  }

  lemma BottomOnes(t: nat, u: nat, p: nat, q: nat)
    requires q > 0 && OddPart(t, u, p + q)
    ensures BitOr(t, Pow2(q - 1) - 1) == t + Pow2(q - 1) - 1 && Pow2(q - 1) <= Pow2(p + q)
  {
    Pow2Monotone(q - 1, p + q);
    ShiftOne(p + q);
    OrSplit(u, 0, p + q, 0, Pow2(q - 1) - 1);
    hide Pow2, Shift;
  }

  /** Borrowing from an odd number moves one bit and adds `q` others. */
  lemma OnesBelow(u: nat, q: nat)
    requires u % 2 == 1
    ensures Ones(Shift(u, q) - 1) == Ones(u) - 1 + q
  {
    OddSum(Shift(u, q), u, q);
    OnesSplit(u - 1, q, Pow2(q) - 1);
    OnesOfAllOnes(q);
    OnesOfOdd(u);
    hide *;
  }

  lemma OnesOfOdd(u: nat)
    requires u % 2 == 1
    ensures Ones(u - 1) == Ones(u) - 1
  {
    assert (u - 1) / 2 == u / 2;
  }

  lemma OnesOfBlock(v: nat, w: nat, u: nat, p: nat, q: nat, t: nat)
    requires Block(v, w, u, p, q, t)
    ensures Ones(v) == Ones(u) + (q - 1)
  {
    OnesSplit(w, p, 0);
    OnesBelow(u, q);
    assert Ones(0) == 0 && w == Shift(u, q) - 1;
    hide Ones, Pow2, Shift;
  }

  /** A step keeps the number of ones. */
  lemma NextMaskOnes(v: nat, w: nat, u: nat, p: nat, q: nat, t: nat)
    requires Block(v, w, u, p, q, t)
    ensures Ones(t + Pow2(q - 1) - 1) == Ones(v)
  {
    OnesOfBlock(v, w, u, p, q, t);
    Pow2Monotone(q - 1, p + q);
    OnesSplit(u, p + q, Pow2(q - 1) - 1);
    OnesOfAllOnes(q - 1);
  }

  /** Adding less than the lowest one adds ones. */
  lemma MoreOnes(v: nat, w: nat, p: nat, r: nat)
    requires OddPart(v, w, p) && 0 < r < Pow2(p)
    ensures Ones(v + r) > Ones(v)
  {
    OnesSplit(w, p, r);
    OnesSplit(w, p, 0);
    SomeOnes(r);
  }

  /** No mask with as many ones lies strictly between a mask and the next. */
  lemma NextMaskLeast(v: nat, w: nat, u: nat, p: nat, q: nat, t: nat, x: nat)
    requires Block(v, w, u, p, q, t) && v < x < t + Pow2(q - 1) - 1
    ensures Ones(x) != Ones(v)
  {
    if x < t {
      MoreOnes(v, w, p, x - v);
    } else {
      OnesOfBlock(v, w, u, p, q, t);
      Pow2Monotone(q - 1, p + q);
      OnesSplit(u, p + q, x - t);
      FewOnes(x - t, q - 1);
    }
  }
}
