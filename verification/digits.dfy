/** Positional numerals, most significant digit first, in any base. */
module Digits {
  import opened Arith

  function Pow(base: nat, n: nat): (p: nat)
    requires base > 0
    ensures p > 0
  {
    if n == 0 then 1
    else
      MulPositive(Pow(base, n - 1), base);
      Pow(base, n - 1) * base
  }

  function Value(base: nat, digits: seq<nat>): nat {
    if digits == [] then 0 else Value(base, digits[..|digits| - 1]) * base + digits[|digits| - 1]
  }

  /** The last `n` digits of `v`. */
  function DigitsOf(base: nat, v: nat, n: nat): (digits: seq<nat>)
    requires base > 0
    ensures |digits| == n
  {
    if n == 0 then []
    else
      DivBounds(v, base);
      DigitsOf(base, v / base, n - 1) + [v % base]
  }

  ghost predicate AreDigits(base: nat, digits: seq<nat>) {
    forall i :: 0 <= i < |digits| ==> digits[i] < base
  }

  lemma ValueAppend(base: nat, digits: seq<nat>, d: nat)
    ensures Value(base, digits + [d]) == Value(base, digits) * base + d
  {
    assert (digits + [d])[..|digits|] == digits;
  }

  lemma {:induction false} PowAdd(base: nat, a: nat, b: nat)
    requires base > 0
    ensures Pow(base, a + b) == Pow(base, a) * Pow(base, b)
  {
    if b > 0 {
      PowAdd(base, a, b - 1);
      MulAssoc(Pow(base, a), Pow(base, b - 1), base);
    }
  }

  lemma {:induction false} ValueBound(base: nat, digits: seq<nat>)
    requires base > 0 && AreDigits(base, digits)
    ensures Value(base, digits) < Pow(base, |digits|)
  {
    if digits != [] {
      var init := digits[..|digits| - 1];
      ValueBound(base, init);
      MulMono(base, Value(base, init), Pow(base, |init|) - 1);
      MulDistributes(base, Pow(base, |init|), -1);
    }
  }

  lemma {:induction false} ValueConcat(base: nat, a: seq<nat>, b: seq<nat>)
    requires base > 0
    ensures Value(base, a + b) == Value(base, a) * Pow(base, |b|) + Value(base, b)
  {
    if b == [] {
      assert a + b == a;
    } else {
      var init := b[..|b| - 1];
      assert (a + b)[..|a + b| - 1] == a + init;
      ValueConcat(base, a, init);
      MulDistributes(base, Value(base, a) * Pow(base, |init|), Value(base, init));
      MulAssoc(Value(base, a), Pow(base, |init|), base);
    }
  }

  /** Dividing by a power drops low digits; the remainder is the digits dropped. */
  lemma ValueSplits(base: nat, a: seq<nat>, b: seq<nat>)
    requires base > 0 && AreDigits(base, b)
    ensures Value(base, a + b) / Pow(base, |b|) == Value(base, a)
    ensures Value(base, a + b) % Pow(base, |b|) == Value(base, b)
  {
    ValueConcat(base, a, b);
    ValueBound(base, b);
    DivUniqueLeft(Value(base, a + b), Value(base, a), Pow(base, |b|), Value(base, b));
  }

  lemma {:induction false} DigitsAreDigits(base: nat, v: nat, n: nat)
    requires base > 0
    ensures AreDigits(base, DigitsOf(base, v, n))
  {
    if n > 0 {
      DivBounds(v, base);
      DigitsAreDigits(base, v / base, n - 1);
      DivMod(v, base);
    }
  }

  lemma {:induction false} DigitsRoundTrip(base: nat, v: nat, n: nat)
    requires base > 0 && v < Pow(base, n)
    ensures Value(base, DigitsOf(base, v, n)) == v
  {
    if n > 0 {
      DivBounds(v, base);
      DivBelow(v, base, Pow(base, n - 1));
      var q, r := v / base, v % base;
      DigitsRoundTrip(base, q, n - 1);
      ValueOfRest(base, DigitsOf(base, q, n - 1), q, r);
      Recompose(v, base);
    }
  }

  lemma ValueOfRest(base: nat, rest: seq<nat>, q: nat, r: nat)
    requires Value(base, rest) == q
    ensures Value(base, rest + [r]) == q * base + r
  {
    ValueAppend(base, rest, r);
  }

  lemma {:induction false} ValueRoundTrip(base: nat, digits: seq<nat>)
    requires base > 0 && AreDigits(base, digits)
    ensures DigitsOf(base, Value(base, digits), |digits|) == digits
  {
    if digits != [] {
      var init := digits[..|digits| - 1];
      ValueRoundTrip(base, init);
      DivUniqueLeft(Value(base, digits), Value(base, init), base, digits[|digits| - 1]);
    }
  }

  /** The k-th digit is the value shifted down by the places after it. */
  lemma {:induction false} DigitAt(base: nat, v: nat, n: nat, k: nat)
    requires base > 0 && k < n
    ensures DigitsOf(base, v, n)[k] == v / Pow(base, n - 1 - k) % base
  {
    DivBounds(v, base);
    if k < n - 1 {
      var q, p := v / base, Pow(base, n - 2 - k);
      DigitAt(base, q, n - 1, k);
      assert DigitsOf(base, v, n)[k] == q / p % base;
      assert Pow(base, n - 1 - k) == p * base;
      DivDivLeft(v, base, p);
    } else {
      assert DigitsOf(base, v, n)[k] == v % base;
    }
  }

  lemma {:induction false} PowMono(base: nat, a: nat, b: nat)
    requires base > 0 && a <= b
    ensures Pow(base, a) <= Pow(base, b)
  {
    if a < b {
      PowMono(base, a, b - 1);
      MulMono(Pow(base, b - 1), 1, base);
    }
  }
}
