/** Remainders by a variable divisor, and powers of two. */
module ModArith {

  lemma MulAtLeast(k: int, c: int)
    requires k >= 1 && c > 0
    ensures k * c >= c
  {
  }

  /** The quotient and remainder of a division are the only ones in range. */
  lemma DivModUnique(x: int, c: int, q: int, r: int)
    requires c > 0 && 0 <= r < c && x == q * c + r
    ensures x / c == q && x % c == r
  {
    var d := q - x / c;
    assert d * c == x % c - r;
    if d >= 1 { MulAtLeast(d, c); }
    if -d >= 1 { MulAtLeast(-d, c); }
  }

  /** Dividing twice is dividing by the product. */
  lemma DivideTwice(x: nat, a: nat, b: nat)
    requires a > 0 && b > 0
    ensures a * b > 0 && x / a / b == x / (a * b)
  {
    var q, r := x / a / b, (x / a) % b;
    assert a * b > 0 && x == q * (a * b) + (r * a + x % a) by {
      assert x == (q * b + r) * a + x % a;
    }
    assert r * a + x % a < a * b by {
      assert r * a <= (b - 1) * a;
    }
    DivModUnique(x, a * b, q, r * a + x % a);
  }

  /** Adding a multiple of the divisor changes nothing. */
  lemma ModShift(x: int, k: int, c: int)
    requires c > 0
    ensures (x + k * c) % c == x % c
  {
    DivModUnique(x + k * c, c, x / c + k, x % c);
  }

  lemma ModSmall(x: int, c: int)
    requires 0 <= x < c
    ensures x % c == x
  {
  }

  /** Reducing early is harmless. */
  lemma ModAdd(x: int, y: int, c: int)
    requires c > 0
    ensures (x % c + y) % c == (x + y) % c
  {
    assert x % c + y == (x + y) + (-(x / c)) * c;
    ModShift(x + y, -(x / c), c);
  }

  /** Reducing first by a multiple of the divisor is harmless. */
  lemma ModMod(x: int, k: int, c: int)
    requires c > 0 && k > 0
    ensures k * c > 0 && (x % (k * c)) % c == x % c
  {
    MulAtLeast(k, c);
    var q := x / (k * c);
    assert x % (k * c) == x + (-q * k) * c;
    ModShift(x, -q * k, c);
  }

  /** Two indices within one period that agree modulo the period are equal. */
  lemma ModInjective(x: int, y: int, c: int)
    requires c > 0 && x % c == y % c && -c < x - y < c
    ensures x == y
  {
    var d := x / c - y / c;
    assert x - y == d * c;
    if d >= 1 { MulAtLeast(d, c); }
    if -d >= 1 { MulAtLeast(-d, c); }
  }

  function Pow2(n: nat): (p: nat)
    ensures p > 0
  {
    if n == 0 then 1 else 2 * Pow2(n - 1)
  }

  lemma {:induction false} Pow2Monotone(m: nat, n: nat)
    requires m <= n
    ensures Pow2(m) <= Pow2(n)
  {
    if m < n {
      Pow2Monotone(m, n - 1);
    }
  }

  lemma {:induction false} Pow2Add(m: nat, n: nat)
    ensures Pow2(m + n) == Pow2(m) * Pow2(n)
  {
    if m > 0 {
      Pow2Add(m - 1, n);
    }
  }

  lemma Pow2Divides(m: nat, n: nat)
    requires m <= n
    ensures Pow2(n) == Pow2(n - m) * Pow2(m) && Pow2(m) <= Pow2(n)
  {
    Pow2Add(n - m, m);
    MulAtLeast(Pow2(n - m), Pow2(m));
  }
}
