/** Small notions several components share. */
module Basics {

  datatype Option<+T> = None | Some(value: T)

  /** A byte. */
  type Byte = b: int | 0 <= b < 256

  /** A positive number. */
  type Pos = n: nat | 1 <= n witness 1

  function Pow2(n: nat): Pos
  {
    if n == 0 then 1 else 2 * Pow2(n - 1)
  }

  lemma {:induction false} Pow2Sum(a: nat, b: nat)
    ensures Pow2(a + b) == Pow2(a) * Pow2(b)
  {
    if b > 0 {
      Pow2Sum(a, b - 1);
      assert Pow2(a) * (2 * Pow2(b - 1)) == 2 * (Pow2(a) * Pow2(b - 1));
    }
  }

  lemma {:induction false} Pow2Monotone(a: nat, b: nat)
    requires a <= b
    ensures Pow2(a) <= Pow2(b)
    decreases b
  {
    if a < b {
      Pow2Monotone(a, b - 1);
    }
  }

  /** floor(log2(n)), as clz(1) - clz(n) computes it */
  function Log2(n: Pos): nat
  {
    if n == 1 then 0 else 1 + Log2(n / 2)
  }

  lemma {:induction false} Log2Bounds(n: Pos)
    ensures Pow2(Log2(n)) <= n < 2 * Pow2(Log2(n))
  {
    if n > 1 {
      Log2Bounds(n / 2);
    }
  }

  lemma {:induction false} Log2Unique(n: Pos, k: nat)
    requires Pow2(k) <= n < Pow2(k + 1)
    ensures Log2(n) == k
  {
    Log2Bounds(n);
    if Log2(n) < k {
      Pow2Monotone(Log2(n) + 1, k);
    } else if k < Log2(n) {
      Pow2Monotone(k + 1, Log2(n));
    }
  }

  /** Only one multiple of m leaves r below m as the rest of n. */
  lemma {:induction false} DivModUnique(n: int, q: int, r: int, m: Pos)
    requires n == q * m + r && 0 <= r < m
    ensures n / m == q && n % m == r
  {
    var d := n / m - q;
    assert n == n / m * m + n % m;
    assert d * m == r - n % m;
    assert d >= 1 ==> d * m >= m;
    assert d <= -1 ==> d * m + m <= 0;
  }

  lemma {:induction false} MulMonotone(a: int, b: int, m: nat)
    requires a <= b
    ensures a * m <= b * m
  {
    assert (b - a) * m == b * m - a * m;
  }

  lemma {:induction false} DivBounds(n: int, m: Pos)
    ensures n / m * m <= n < n / m * m + m
  {
  }

  lemma {:induction false} DivLess(n: int, m: Pos, k: int)
    requires n < k * m
    ensures n / m < k
  {
    DivBounds(n, m);
    if n / m >= k { MulMonotone(k, n / m, m); }
  }

  lemma {:induction false} DivAtLeast(n: int, m: Pos, k: int)
    requires k * m <= n
    ensures k <= n / m
  {
    DivBounds(n, m);
    assert (n / m + 1) * m == n / m * m + m;
    if n / m < k {
      MulMonotone(n / m + 1, k, m);
    }
  }
}
