/** Absolute value, the smaller or larger of two, and whole multiples. */
module Numbers {
  function Abs(x: real): real { if x < 0.0 then -x else x }

  function Min(x: real, y: real): real { if x < y then x else y }

  function Max(x: real, y: real): real { if x > y then x else y }

  /** n times x, as a sum. */
  function Multiple(n: nat, x: real): real { if n == 0 then 0.0 else Multiple(n - 1, x) + x }

  lemma {:induction false} MultipleIsProduct(n: nat, x: real)
    ensures Multiple(n, x) == n as real * x
  {
    if n > 0 {
      MultipleIsProduct(n - 1, x);
      assert n as real * x == (n - 1) as real * x + x;
    }
  }

  lemma {:induction false} MultipleGrows(n: nat, m: nat, x: real)
    requires n <= m && x >= 0.0
    ensures 0.0 <= Multiple(n, x) <= Multiple(m, x)
  {
    if m > n { MultipleGrows(n, m - 1, x); } else if n > 0 { MultipleGrows(n - 1, n - 1, x); }
  }

  function MinInt(x: int, y: int): int { if x < y then x else y }
}
