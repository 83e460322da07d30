/** Powers of two, products, and the smaller and the larger of two numbers. */
module Powers {

  function Min(a: nat, b: nat): nat { if a < b then a else b }

  function Max(a: nat, b: nat): nat { if a < b then b else a }

  function Pow2(n: nat): (p: nat)
    ensures p > 0
  {
    if n == 0 then 1 else 2 * Pow2(n - 1)
  }

  lemma {:induction false} Pow2Monotone(a: nat, b: nat)
    requires a <= b
    ensures 0 < Pow2(a) <= Pow2(b)
    decreases b
  {
    if a > 0 {
      Pow2Monotone(a - 1, b - 1);
    } else if b > 0 {
      Pow2Monotone(0, b - 1);
    }
  }

  lemma SmallMultiple(d: int, b: int, r: int)
    requires d * b == r && 0 <= r < b
    ensures d == 0
  {
  }

  lemma Euclid(n: int, b: int)
    requires b > 0
    ensures n == (n / b) * b + n % b
  {
  }

  lemma Distribute(a: int, c: int, b: int)
    ensures (a - c) * b == a * b - c * b
  {
  }

  lemma ProductQuotient(a: int, b: int)
    requires b > 0
    ensures a * b / b == a
  {
    var (n, c) := (a * b, a * b / b);
    Euclid(n, b);
    Distribute(a, c, b);
    SmallMultiple(a - c, b, n % b);
  }
}
