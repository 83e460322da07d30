/** The names the code generator invents, and how they stay apart. */
module Names {

  function Digit(d: nat): (c: char)
    requires d < 10
    ensures '0' <= c <= '9'
  {
    '0' + d as char
  }

  /** `n` in decimal, as a string stream prints it. */
  function Decimal(n: nat): (s: string)
    ensures |s| > 0 && forall i :: 0 <= i < |s| ==> '0' <= s[i] <= '9'
  {
    if n < 10 then [Digit(n)] else Decimal(n / 10) + [Digit(n % 10)]
  }

  lemma {:induction false} DecimalInjective(m: nat, n: nat)
    requires Decimal(m) == Decimal(n)
    ensures m == n
  {
    var (s, t) := (Decimal(m), Decimal(n));
    if m >= 10 && n >= 10 {
      assert s[|s| - 1] == Digit(m % 10) && t[|t| - 1] == Digit(n % 10);
      assert s[..|s| - 1] == Decimal(m / 10) && t[..|t| - 1] == Decimal(n / 10);
      DecimalInjective(m / 10, n / 10);
    } else if m < 10 && n < 10 {
      assert s[0] == Digit(m) && t[0] == Digit(n);
    }
  }

  const TEMP := "__temp__"
  const TEMP_LABEL := "__temp__label__"
  const BLOCK_LABEL := "__block__label__"

  function TempName(n: nat): string { TEMP + Decimal(n) }

  function TempLabel(n: nat): string { TEMP_LABEL + Decimal(n) }

  function BlockLabel(n: nat): string { BLOCK_LABEL + Decimal(n) }

  /** What the scanner accepts as an identifier starts with a letter. */
  predicate IsUserName(s: string) {
    |s| > 0 && s[0] != '_'
  }

  lemma SuffixInjective(p: string, a: string, b: string)
    requires p + a == p + b
    ensures a == b
  {
    assert (p + a)[|p|..] == a && (p + b)[|p|..] == b;
  }

  lemma TempNameInjective(m: nat, n: nat)
    ensures TempName(m) == TempName(n) ==> m == n
  {
    if TempName(m) == TempName(n) {
      SuffixInjective(TEMP, Decimal(m), Decimal(n));
      DecimalInjective(m, n);
    }
  }

  lemma TempLabelInjective(m: nat, n: nat)
    ensures TempLabel(m) == TempLabel(n) ==> m == n
  {
    if TempLabel(m) == TempLabel(n) {
      SuffixInjective(TEMP_LABEL, Decimal(m), Decimal(n));
      DecimalInjective(m, n);
    }
  }

  lemma BlockLabelInjective(m: nat, n: nat)
    ensures BlockLabel(m) == BlockLabel(n) ==> m == n
  {
    if BlockLabel(m) == BlockLabel(n) {
      SuffixInjective(BLOCK_LABEL, Decimal(m), Decimal(n));
      DecimalInjective(m, n);
    }
  }

  /** Invented names differ from what a user can write, and block labels from labels inside blocks. */
  lemma InventedApart(m: nat, n: nat)
    ensures !IsUserName(TempName(m)) && !IsUserName(TempLabel(m)) && !IsUserName(BlockLabel(m))
    ensures TempLabel(m) != BlockLabel(n)
  {
    assert TempName(m)[0] == '_' && TempLabel(m)[0] == '_' && BlockLabel(n)[0] == '_' && BlockLabel(m)[0] == '_';
    assert TempLabel(m)[2] == 't' && BlockLabel(n)[2] == 'b';
  }

  /** Lower case, as `Token::value` gives it. */
  function ToLower(c: char): char {
    if 'A' <= c <= 'Z' then c - 'A' + 'a' else c
  }

  function Lower(s: string): (r: string)
    ensures |r| == |s| && (IsUserName(s) ==> IsUserName(r))
  {
    seq(|s|, i requires 0 <= i < |s| => ToLower(s[i]))
  }
}
