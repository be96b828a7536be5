/** Multiplication and division facts the solver does not find on its own, and powers of two. */
module Arith {
  lemma MulMono(a: nat, x: int, y: int)
    requires x <= y
    ensures a * x <= a * y
  {
  }

  lemma DivUnique(x: int, m: nat, q: int, r: nat)
    requires r < m && x == m * q + r
    ensures x / m == q && x % m == r
  {
    var d := x / m - q;
    assert m * d == r - x % m;
    if d >= 1 {
      MulMono(m, 1, d);
    } else if d <= -1 {
      MulMono(m, d, -1);
    }
  }

  lemma DivMod(x: int, m: nat)
    requires m > 0
    ensures x == m * (x / m) + x % m && 0 <= x % m < m
  {
  }

  /** The same with the factors the other way round. */
  lemma DivUniqueLeft(x: int, q: int, m: nat, r: nat)
    requires r < m && x == q * m + r
    ensures x / m == q && x % m == r
  {
    DivUnique(x, m, q, r);
  }

  lemma Recompose(x: int, m: nat)
    requires m > 0
    ensures x == (x / m) * m + x % m && 0 <= x % m < m
  {
  }

  lemma DivBelow(x: nat, m: nat, p: nat)
    requires m > 0 && x < p * m
    ensures x / m < p
  {
    Recompose(x, m);
    if x / m >= p {
      MulMono(m, p, x / m);
    }
  }

  lemma MulPositive(a: nat, b: nat)
    requires a > 0 && b > 0
    ensures a * b > 0
  {
    MulMono(a, 1, b);
  }

  /** Dividing twice is dividing by the product; the remainders nest. */
  lemma DivDiv(x: int, a: nat, b: nat)
    requires a > 0 && b > 0
    ensures a * b > 0
    ensures x / a / b == x / (a * b)
    ensures x % (a * b) == a * (x / a % b) + x % a
  {
    var q, r := x / a, x % a;
    var s := q % b;
    MulPositive(a, b);
    assert x == a * (b * (q / b) + s) + r;
    assert a * (b * (q / b)) == (a * b) * (q / b) by { MulAssoc(a, b, q / b); }
    MulMono(a, 0, s);
    MulMono(a, s, b - 1);
    assert a * (b * (q / b) + s) == a * (b * (q / b)) + a * s by { MulDistributes(a, b * (q / b), s); }
    assert a * (b - 1) == a * b - a;
    DivUnique(x, a * b, q / b, a * s + r);
  }

  lemma DivDivLeft(x: int, a: nat, b: nat)
    requires a > 0 && b > 0
    ensures b * a > 0 && x / a / b == x / (b * a)
  {
    DivDiv(x, a, b);
  }

  lemma MulAssoc(a: int, b: int, c: int)
    ensures a * (b * c) == (a * b) * c
  {
  }

  lemma MulDistributes(a: int, b: int, c: int)
    ensures a * (b + c) == a * b + a * c
  {
  }

  /** Scaling numerator and modulus together. */
  lemma ModScale(x: int, m: nat, k: nat)
    requires m > 0 && k > 0
    ensures m * k > 0
    ensures (x * k) % (m * k) == x % m * k && (x * k) / (m * k) == x / m
  {
    MulPositive(m, k);
    var q, r := x / m, x % m;
    assert x * k == (m * k) * q + r * k by {
      assert x * k == (m * q + r) * k;
      MulDistributes(k, m * q, r);
      MulAssoc(k, m, q);
    }
    MulMono(k, 0, r);
    MulMono(k, r, m - 1);
    assert k * (m - 1) == m * k - k;
    DivUnique(x * k, m * k, q, r * k);
  }

  function Pow2(n: nat): (p: nat)
    ensures p > 0
  {
    if n == 0 then 1 else 2 * Pow2(n - 1)
  }

  lemma Pow2Constants()
    ensures Pow2(31) == 0x8000_0000 && Pow2(32) == 0x1_0000_0000
  {
    assert Pow2(8) == 256;
    assert Pow2(16) == 0x1_0000;
    assert Pow2(24) == 0x100_0000;
  }

  lemma {:induction false} Pow2Add(a: nat, b: nat)
    ensures Pow2(a + b) == Pow2(a) * Pow2(b)
  {
    if a > 0 {
      Pow2Add(a - 1, b);
      assert Pow2(a + b) == 2 * Pow2(a - 1 + b);
      MulAssoc(2, Pow2(a - 1), Pow2(b));
    }
  }

  lemma {:induction false} Pow2Mono(a: nat, b: nat)
    requires a <= b
    ensures Pow2(a) <= Pow2(b)
  {
    if a < b {
      Pow2Mono(a, b - 1);
    }
  }

  lemma DivBounds(x: nat, m: nat)
    requires m > 0
    ensures 0 <= x / m <= x
  {
    DivMod(x, m);
    if x / m < 0 {
      MulMono(m, x / m, -1);
    } else {
      MulMono(x / m, 1, m);
    }
  }

  /** Counting whole periods in two instalments, with the remainder carried between them. */
  lemma Instalments(carried: nat, a: nat, b: nat, period: nat)
    requires period > 0
    ensures (carried + a) / period + ((carried + a) % period + b) / period == (carried + a + b) / period
    ensures ((carried + a) % period + b) % period == (carried + a + b) % period
  {
    var q, r := (carried + a) / period, (carried + a) % period;
    var s, t := (r + b) / period, (r + b) % period;
    Recompose(carried + a, period);
    Recompose(r + b, period);
    assert (q + s) * period == q * period + s * period;
    DivUniqueLeft(carried + a + b, q + s, period, t);
  }

  /** `n` whole periods and `rest` make up `total`. */
  predicate Counted(total: nat, period: nat, n: nat, rest: nat) {
    total == n * period + rest
  }

  lemma CountOne(total: nat, period: nat, n: nat, rest: nat)
    requires Counted(total, period, n, rest) && rest >= period
    ensures Counted(total, period, n + 1, rest - period)
  {
  }

  lemma CountEnds(total: nat, period: nat, n: nat, rest: nat)
    requires Counted(total, period, n, rest) && rest < period
    ensures n == total / period && rest == total % period
  {
    DivUniqueLeft(total, n, period, rest);
  }

  /** Mixed-radix digits are determined by the number they make. */
  lemma RadixUnique(x: nat, rest: nat, x': nat, rest': nat, radix: nat)
    requires x < radix && x' < radix && x + radix * rest == x' + radix * rest'
    ensures x == x' && rest == rest'
  {
    DivUnique(x + radix * rest, radix, rest, x);
    DivUnique(x' + radix * rest', radix, rest', x');
  }

  lemma ModSucc(x: nat, m: nat)
    requires m > 0
    ensures (x + 1) % m == if x % m + 1 == m then 0 else x % m + 1
  {
    Recompose(x, m);
    var q, r := x / m, x % m;
    if r + 1 == m {
      assert (q + 1) * m == q * m + m;
      DivUniqueLeft(x + 1, q + 1, m, 0);
    } else {
      DivUniqueLeft(x + 1, q, m, r + 1);
    }
  }

  lemma DivSucc(x: nat, m: nat)
    requires m > 0
    ensures (x + 1) / m == x / m + if x % m + 1 == m then 1 else 0
  {
    Recompose(x, m);
    var q, r := x / m, x % m;
    if r + 1 == m {
      assert (q + 1) * m == q * m + m;
      DivUniqueLeft(x + 1, q + 1, m, 0);
    } else {
      DivUniqueLeft(x + 1, q, m, r + 1);
    }
  }

  lemma SmallMod(x: nat, m: nat)
    requires x < m
    ensures x % m == x
  {
  }

  /** A counter that wraps to zero at `span`, stepped n times. */
  function CountUp(k: nat, n: nat, span: nat): nat {
    if n == 0 then k
    else
      var before := CountUp(k, n - 1, span);
      if before + 1 == span then 0 else before + 1
  }

  lemma {:induction false} CountUpIsMod(k: nat, n: nat, span: nat)
    requires k < span
    ensures CountUp(k, n, span) == (k + n) % span
  {
    if n > 0 {
      CountUpIsMod(k, n - 1, span);
      ModSucc(k + n - 1, span);
    } else {
      SmallMod(k, span);
    }
  }

  /** It is about to wrap, or has gone far enough to have wrapped, exactly when one more step goes far enough. */
  lemma CountUpWraps(k: nat, n: nat, span: nat)
    requires k < span
    ensures k + n >= span || CountUp(k, n, span) + 1 == span <==> k + n + 1 >= span
  {
    CountUpIsMod(k, n, span);
    if k + n < span {
      SmallMod(k + n, span);
    }
  }

  /** Whole multiples of the modulus do not show. */
  lemma ModShift(x: int, q: int, m: nat)
    requires m > 0
    ensures (x + q * m) % m == x % m
  {
    Recompose(x, m);
    assert x + q * m == (x / m + q) * m + x % m;
    DivUniqueLeft(x + q * m, x / m + q, m, x % m);
  }

  /** Reducing early makes no difference to a sum. */
  lemma ModEarly(a: int, b: int, m: nat)
    requires m > 0
    ensures (a % m + b) % m == (a + b) % m
  {
    Recompose(a, m);
    ModShift(a % m + b, a / m, m);
  }

  // ---------------------------------------------------------------------------
  // Binary digits
  // ---------------------------------------------------------------------------

  /** Binary digit `k`: `w & (1 << k) != 0`. */
  predicate BitOf(w: nat, k: nat) {
    w / Pow2(k) % 2 == 1
  }

  /** The number whose `n` binary digits are those of `a` and `b` combined by `op`. */
  function Digitwise(op: (bool, bool) -> bool, a: nat, b: nat, n: nat): (r: nat)
    ensures r < Pow2(n)
  {
    if n == 0 then 0 else 2 * Digitwise(op, a / 2, b / 2, n - 1) + if op(a % 2 == 1, b % 2 == 1) then 1 else 0
  }

  /** A digit-wise operation does to each binary digit what it does to one. */
  lemma {:induction false} DigitByDigit(op: (bool, bool) -> bool, a: nat, b: nat, n: nat, k: nat)
    requires k < n
    ensures BitOf(Digitwise(op, a, b, n), k) <==> op(BitOf(a, k), BitOf(b, k))
    decreases n
  {
    var r := Digitwise(op, a, b, n);
    if k > 0 {
      DigitByDigit(op, a / 2, b / 2, n - 1, k - 1);
      NextDigit(a, k);
      NextDigit(b, k);
      NextDigit(r, k);
    }
  }

  lemma NextDigit(x: nat, k: nat)
    requires k > 0
    ensures BitOf(x, k) <==> BitOf(x / 2, k - 1)
  {
    DivDiv(x, 2, Pow2(k - 1));
  }
}
