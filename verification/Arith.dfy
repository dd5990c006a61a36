/** Division with remainder and powers of two. */
module Arith {

  lemma MulAtLeast(p: int, d: int)
    requires p > 0
    ensures d >= 1 ==> p * d >= p
    ensures d <= -1 ==> p * d <= -p
  {
    if d >= 1 {
      assert p * (d - 1) >= 0;
    } else if d <= -1 {
      assert p * (-d - 1) >= 0;
    }
  }

  /** Quotient and remainder are determined by a == p * q + r with r in range. */
  lemma DivIs(a: int, p: int, q: int, r: int)
    requires p > 0 && a == p * q + r && 0 <= r < p
    ensures a / p == q && a % p == r
  {
    var d := a / p - q;
    MulAtLeast(p, d);
    assert a == p * (a / p) + a % p;
    assert p * d == p * (a / p) - p * q;
  }

  lemma MulMono(a: nat, b: nat, c: nat)
    requires b <= c
    ensures a * b <= a * c
  {
    assert a * (c - b) >= 0;
  }

  lemma DivMod(a: int, p: int)
    requires p > 0
    ensures a == p * (a / p) + a % p && 0 <= a % p < p
  {
  }

  ghost predicate Multiple(a: int, p: int) {
    p > 0 && a % p == 0
  }

  lemma MultipleIs(a: int, p: int, q: int)
    requires p > 0 && a == q * p
    ensures Multiple(a, p)
  {
    DivIs(a, p, q, 0);
  }

  lemma MultipleSum(a: int, b: int, p: int)
    requires Multiple(a, p) && Multiple(b, p)
    ensures Multiple(a + b, p) && Multiple(a - b, p)
  {
    DivMod(a, p);
    DivMod(b, p);
    assert a + b == (a / p + b / p) * p && a - b == (a / p - b / p) * p;
    MultipleIs(a + b, p, a / p + b / p);
    MultipleIs(a - b, p, a / p - b / p);
  }

  lemma MultipleOfMultiple(a: int, v: int, b: int)
    requires Multiple(a, v) && Multiple(v, b)
    ensures Multiple(a, b)
  {
    DivMod(a, v);
    DivMod(v, b);
    assert a == ((v / b) * (a / v)) * b;
    MultipleIs(a, b, (v / b) * (a / v));
  }

  /** Of two multiples of p the greater is greater by p at least. */
  lemma MultipleGap(a: int, b: int, p: int)
    requires Multiple(a, p) && Multiple(b, p) && a < b
    ensures a + p <= b
  {
    DivMod(a, p);
    DivMod(b, p);
    var d := b / p - a / p;
    MulAtLeast(p, d);
    assert p * d == p * (b / p) - p * (a / p);
  }

  /** Taking away a multiple does not change the remainder. */
  lemma ModMinusMultiple(a: int, t: int, b: int)
    requires Multiple(t, b)
    ensures (a - t) % b == a % b
  {
    DivMod(a, b);
    DivMod(t, b);
    assert a - t == b * (a / b - t / b) + a % b;
    DivIs(a - t, b, a / b - t / b, a % b);
  }

  function Pow2(k: nat): (r: nat)
    ensures r >= 1
  {
    if k == 0 then 1 else 2 * Pow2(k - 1)
  }

  ghost predicate IsPow2(n: int) {
    exists k: nat :: n == Pow2(k)
  }

  lemma {:induction false} Pow2Add(a: nat, b: nat)
    ensures Pow2(a + b) == Pow2(a) * Pow2(b)
    decreases a
  {
    if a > 0 {
      Pow2Add(a - 1, b);
    }
  }

  lemma Pow2Times(m: int, n: int)
    requires IsPow2(m) && IsPow2(n)
    ensures IsPow2(m * n)
  {
    var a: nat :| m == Pow2(a);
    var b: nat :| n == Pow2(b);
    Pow2Add(a, b);
  }

  lemma QuotientOf(m: int, n: int, q: int)
    requires n > 0 && m == n * q
    ensures m % n == 0 && m / n == q && m == (m / n) * n
  {
    DivIs(m, n, q, 0);
  }

  lemma PowerIs(k: nat)
    ensures IsPow2(Pow2(k))
  {
  }

  /** Of two powers of two the larger is a multiple of the smaller, by a power of two. */
  lemma Pow2Divides(m: int, n: int)
    requires IsPow2(m) && IsPow2(n) && m >= n
    ensures n > 0 && m % n == 0 && IsPow2(m / n) && m == (m / n) * n
  {
    var a: nat :| m == Pow2(a);
    var b: nat :| n == Pow2(b);
    if a < b {
      Pow2Grows(a, b);
    } else {
      Pow2Add(b, a - b);
      hide Pow2, IsPow2;
      QuotientOf(m, n, Pow2(a - b));
      PowerIs(a - b);
    }
  }

  lemma {:induction false} Pow2Grows(a: nat, b: nat)
    requires a < b
    ensures Pow2(a) < Pow2(b)
    decreases b
  {
    if a < b - 1 { Pow2Grows(a, b - 1); }
  }

  /** Between two neighbouring powers of two lies no third. */
  lemma Pow2Between(n: int, k: nat)
    requires IsPow2(n) && Pow2(k) <= n < 2 * Pow2(k)
    ensures n == Pow2(k)
  {
    var j: nat :| n == Pow2(j);
    if j < k {
      Pow2Grows(j, k);
    } else if j > k {
      if j > k + 1 { Pow2Grows(k + 1, j); }
    }
  }
}
