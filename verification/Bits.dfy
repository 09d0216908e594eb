/** Bitwise operations on unsigned integers, bit by bit, and what they mean in arithmetic. */
module Bits {
  type byte = bv8

  const U16: nat := 0x1_0000
  const U32: nat := 0x1_0000_0000
  const U64: nat := 0x1_0000_0000_0000_0000

  function Pow2(k: nat): (p: nat)
    ensures p > 0
  {
    if k == 0 then 1 else 2 * Pow2(k - 1)
  }

  lemma Pow2Values()
    ensures Pow2(1) == 2 && Pow2(8) == 0x100 && Pow2(14) == 0x4000 && Pow2(15) == 0x8000 && Pow2(16) == 0x1_0000
    ensures Pow2(32) == 0x1_0000_0000 && Pow2(48) == 0x1_0000_0000_0000
  {
    assert Pow2(8) == 0x100;
    assert Pow2(14) == 0x4000;
    assert Pow2(16) == 0x1_0000;
    assert Pow2(24) == 0x100_0000;
    assert Pow2(32) == 0x1_0000_0000;
    assert Pow2(40) == 0x100_0000_0000;
    assert Pow2(48) == 0x1_0000_0000_0000;
  }

  function And(x: nat, y: nat): nat {
    if x == 0 || y == 0 then 0
    else (if x % 2 == 1 && y % 2 == 1 then 1 else 0) + 2 * And(x / 2, y / 2)
  }

  function Or(x: nat, y: nat): nat
    decreases x + y
  {
    if x == 0 then y
    else if y == 0 then x
    else (if x % 2 == 1 || y % 2 == 1 then 1 else 0) + 2 * Or(x / 2, y / 2)
  }

  predicate IsPowerOfTwo(n: nat) {
    n == 1 || (n > 0 && n % 2 == 0 && IsPowerOfTwo(n / 2))
  }

  /** The smallest power of two that is at least `n`, searched from `p` upwards. */
  function NextPowerOfTwo(n: nat, p: nat := 1): (q: nat)
    requires p > 0
    decreases if p < n then n - p else 0
  {
    if n <= p then p else NextPowerOfTwo(n, 2 * p)
  }

  lemma {:induction false} LogOf(n: nat) returns (k: nat)
    requires IsPowerOfTwo(n)
    ensures n == Pow2(k)
  {
    if n == 1 {
      k := 0;
    } else {
      var j := LogOf(n / 2);
      k := j + 1;
    }
  }

  lemma {:induction false} Pow2IsPowerOfTwo(k: nat)
    ensures IsPowerOfTwo(Pow2(k))
  {
    if k > 0 {
      Pow2IsPowerOfTwo(k - 1);
    }
  }

  lemma MulGap(k: int, d: int)
    requires k >= 1 && d > 0
    ensures k * d >= d
  {
    assert k * d == (k - 1) * d + d;
  }

  /** Quotient and remainder are determined by what they satisfy. */
  lemma DivModUnique(x: int, d: int, q: int, r: int)
    requires d > 0 && x == q * d + r && 0 <= r < d
    ensures x / d == q && x % d == r
  {
    var t, s := x / d, x % d;
    assert x == t * d + s;
    assert (q - t) * d == q * d - t * d == s - r;
    assert (t - q) * d == r - s;
    if q > t {
      MulGap(q - t, d);
    } else if q < t {
      MulGap(t - q, d);
    }
  }

  /** One more low bit of a remainder. */
  lemma ModDouble(x: nat, p: nat)
    requires p > 0
    ensures x % (2 * p) == x % 2 + 2 * (x / 2 % p)
  {
    var h := x / 2;
    var t, s := h / p, h % p;
    assert h == t * p + s;
    assert t * (2 * p) == 2 * (t * p);
    DivModUnique(x, 2 * p, t, 2 * s + x % 2);
  }

  lemma AndOdd(x: nat, m: nat)
    ensures And(x, 2 * m + 1) == x % 2 + 2 * And(x / 2, m)
  {
    assert (2 * m + 1) % 2 == 1 && (2 * m + 1) / 2 == m;
  }

  /** `x & (2^k - 1)` is `x mod 2^k`. */
  lemma {:induction false} AndMask(x: nat, k: nat)
    ensures And(x, Pow2(k) - 1) == x % Pow2(k)
    decreases k
  {
    if k > 0 {
      var m := Pow2(k - 1) - 1;
      assert Pow2(k) - 1 == 2 * m + 1;
      AndOdd(x, m);
      AndMask(x / 2, k - 1);
      ModDouble(x, Pow2(k - 1));
    }
  }

  /** `|` of numbers that share no bit is their sum. */
  lemma {:induction false} OrDisjoint(a: nat, b: nat, k: nat)
    requires a < Pow2(k)
    ensures Or(a, b * Pow2(k)) == a + b * Pow2(k)
    decreases k
  {
    if k > 0 && a > 0 && b > 0 {
      var p := Pow2(k - 1);
      OrDisjoint(a / 2, b, k - 1);
      assert b * Pow2(k) == 2 * (b * p);
    }
  }

  lemma {:induction false} ModOfMultiple(x: nat, d: nat, m: nat)
    requires d > 0 && m > 0
    ensures (x % (m * d)) % d == x % d
  {
    var q, r := x / (m * d), x % (m * d);
    assert x == q * (m * d) + r;
    var t, s := r / d, r % d;
    assert x == (q * m + t) * d + s by {
      assert q * (m * d) == q * m * d;
      assert r == t * d + s;
    }
    DivModUnique(x, d, q * m + t, s);
  }

  lemma {:induction false} LogBound(j: nat, k: nat)
    ensures Pow2(j) <= Pow2(k) <==> j <= k
    decreases j + k
  {
    if j > 0 && k > 0 {
      LogBound(j - 1, k - 1);
    } else if j == 0 && k > 0 {
      LogBound(0, k - 1);
    } else if j > 0 {
      LogBound(j - 1, 0);
    }
  }

  /** A power of two up to 2^k divides 2^k. */
  lemma {:induction false} Pow2Divides(j: nat, k: nat) returns (m: nat)
    requires j <= k
    ensures m > 0 && Pow2(k) == m * Pow2(j)
    decreases k - j
  {
    if j == k {
      m := 1;
    } else {
      var h := Pow2Divides(j, k - 1);
      m := 2 * h;
    }
  }

  /** Two numbers less than `d` apart have different remainders. */
  lemma ModDistinct(a: nat, b: nat, d: nat)
    requires a < b < a + d
    ensures a % d != b % d
  {
    var p, q := a / d, b / d;
    assert a == p * d + a % d && b == q * d + b % d;
    assert (q - p) * d == q * d - p * d;
    assert (p - q) * d == p * d - q * d;
    if q > p {
      MulGap(q - p, d);
    } else if q < p {
      MulGap(p - q, d);
    }
  }

  /** The search ends at a power of two that is large enough, and at most twice too large. */
  lemma {:induction false} NextPowerOfTwoMeaning(n: nat, p: nat)
    requires IsPowerOfTwo(p) && (p == 1 || p / 2 < n)
    ensures var q := NextPowerOfTwo(n, p); IsPowerOfTwo(q) && n <= q && (q == 1 || q / 2 < n)
    decreases if p < n then n - p else 0
  {
    if p < n {
      NextPowerOfTwoMeaning(n, 2 * p);
    }
  }
}
