/** The ARM barrel shifter on 32-bit words, and its meaning as repeated one-bit shifts. */
module ArmShift {
  import opened Words
  import opened Arith

  const TWO31: nat := 0x8000_0000
  const TWO32: nat := 0x1_0000_0000

  function Wrap(x: int): uint32 {
    x % TWO32
  }

  /** The word as a two's-complement integer. */
  function Signed(w: uint32): int {
    if w >= TWO31 then w - TWO32 else w
  }

  predicate Sign(w: uint32) {
    w >= TWO31
  }

  /** `value.rotate_right(k)`. */
  function RotateRight(w: uint32, k: nat): uint32
    requires k <= 32
  {
    RotateFits(w, k);
    w / Pow2(k) + w % Pow2(k) * Pow2(32 - k)
  }

  /** The shifter: the shifted value and the carry it produces. */
  function Shift(kind: nat, amount: nat, value: uint32, carryIn: bool, immediateForm: bool): (uint32, bool) {
    if amount == 0 then
      if !immediateForm then (value, carryIn)
      else if kind == 0 then (value, carryIn)
      else if kind == 1 then (0, Sign(value))
      else if kind == 2 then (if Sign(value) then TWO32 - 1 else 0, Sign(value))
      else (value / 2 + (if carryIn then TWO31 else 0), value % 2 == 1)
    else if kind == 0 then
      if amount <= 31 then (Wrap(value * Pow2(amount)), BitOf(value, 32 - amount))
      else if amount == 32 then (0, value % 2 == 1)
      else (0, false)
    else if kind == 1 then
      if amount <= 31 then (DivBounds(value, Pow2(amount)); value / Pow2(amount), BitOf(value, amount - 1))
      else if amount == 32 then (0, Sign(value))
      else (0, false)
    else if kind == 2 then
      if amount >= 32 then (if Sign(value) then TWO32 - 1 else 0, Sign(value))
      else (Wrap(Signed(value) / Pow2(amount)), BitOf(value, amount - 1))
    else
      var rotate := amount % 32;
      if rotate == 0 then (value, Sign(value)) else (RotateRight(value, rotate), BitOf(value, rotate - 1))
  }

  /** One clock of the shifter: move one place, the bit pushed out being the carry. */
  function OneBit(kind: nat, value: uint32): (uint32, bool) {
    if kind == 0 then (Wrap(2 * value), Sign(value))
    else if kind == 1 then (value / 2, value % 2 == 1)
    else if kind == 2 then (value / 2 + (if Sign(value) then TWO31 else 0), value % 2 == 1)
    else (value / 2 + value % 2 * TWO31, value % 2 == 1)
  }

  function Repeat(kind: nat, times: nat, value: uint32, carryIn: bool): (uint32, bool) {
    if times == 0 then (value, carryIn) else OneBit(kind, Repeat(kind, times - 1, value, carryIn).0)
  }

  // ---------------------------------------------------------------------------
  // Why the closed forms are repeated one-bit shifts
  // ---------------------------------------------------------------------------

  lemma RotateFits(w: uint32, k: nat)
    requires k <= 32
    ensures 0 <= w / Pow2(k) + w % Pow2(k) * Pow2(32 - k) < TWO32
  {
    Pow2Constants();
    Pow2Add(k, 32 - k);
    DivMod(w, Pow2(k));
    DivBounds(w, Pow2(k));
    RotateBound(w / Pow2(k), w % Pow2(k), Pow2(k), Pow2(32 - k));
  }

  lemma RotateBound(u: nat, r: nat, p: nat, q: nat)
    requires r < p && p * u + r < p * q
    ensures 0 <= u + r * q < p * q
  {
    if u >= q {
      MulMono(p, q, u);
    }
    MulMono(q, 0, r);
    MulMono(q, r, p - 1);
    assert q * (p - 1) == p * q - q;
  }

  lemma Pow2Splits(n: nat)
    requires 1 <= n <= 32
    ensures Pow2(33 - n) * Pow2(n - 1) == TWO32 && Pow2(32 - n) * Pow2(n - 1) == TWO31
    ensures Pow2(33 - n) == 2 * Pow2(32 - n) && Pow2(n) == 2 * Pow2(n - 1)
  {
    Pow2Constants();
    Pow2Add(33 - n, n - 1);
    Pow2Add(32 - n, n - 1);
  }

  /** Bit `32 - n` of `v` is the top bit after shifting left `n - 1` places. */
  lemma LeftCarry(v: uint32, n: nat)
    requires 1 <= n <= 32
    ensures Sign(Wrap(v * Pow2(n - 1))) == BitOf(v, 32 - n)
  {
    Pow2Splits(n);
    TopAfterScaling(v, Pow2(32 - n), Pow2(n - 1));
  }

  /** Bit log2(p) of v is the bit of weight p*k of v*k modulo 2*p*k. */
  lemma TopAfterScaling(v: nat, p: nat, k: nat)
    requires p > 0 && k > 0
    ensures (v * k) % (2 * p * k) >= p * k <==> v / p % 2 == 1
  {
    ModScale(v, 2 * p, k);
    DivDivLeft(v, p, 2);
    var y := v % (2 * p);
    DivDiv(v, p, 2);
    assert y == p * (v / p % 2) + v % p;
    if y >= p {
      MulMono(k, p, y);
    } else {
      MulMono(k, y, p - 1);
      MulDistributes(k, p, -1);
    }
  }

  lemma LeftStep(v: uint32, n: nat)
    requires 1 <= n <= 32
    ensures OneBit(0, Wrap(v * Pow2(n - 1))) == (Wrap(v * Pow2(n)), BitOf(v, 32 - n))
  {
    LeftCarry(v, n);
    LeftDouble(v, Pow2(n - 1), Pow2(n));
  }

  lemma LeftDouble(v: int, p: nat, p2: nat)
    requires p2 == 2 * p
    ensures Wrap(2 * Wrap(v * p)) == Wrap(v * p2)
  {
    assert v * p2 == 2 * (v * p);
  }

  /** Stepping one place at a time along `places` is repeating the one-bit shift. */
  lemma {:induction false} RepeatFollows(kind: nat, places: nat -> (uint32, bool), n: nat, c: bool)
    requires forall k :: 0 < k <= n ==> OneBit(kind, places(k - 1).0) == places(k)
    ensures n > 0 ==> Repeat(kind, n, places(0).0, c) == places(n)
  {
    if n > 1 {
      RepeatFollows(kind, places, n - 1, c);
    }
  }

  function LeftPlace(v: uint32, n: nat): (uint32, bool) {
    (Wrap(v * Pow2(n)), n <= 32 && BitOf(v, 32 - n))
  }

  lemma LeftPlaceStep(v: uint32, n: nat)
    requires 0 < n <= 32
    ensures OneBit(0, LeftPlace(v, n - 1).0) == LeftPlace(v, n)
  {
    LeftStep(v, n);
  }

  lemma LeftRepeats(v: uint32, n: nat, c: bool)
    requires 1 <= n <= 32
    ensures Repeat(0, n, v, c) == LeftPlace(v, n)
  {
    var places := (k: nat) => LeftPlace(v, k);
    forall k | 0 < k <= n ensures OneBit(0, places(k - 1).0) == places(k) {
      LeftPlaceStep(v, k);
    }
    RepeatFollows(0, places, n, c);
    LeftPlaceZero(v);
  }

  lemma LeftPlaceZero(v: uint32)
    ensures LeftPlace(v, 0).0 == v
  {
    assert v * Pow2(0) == v;
  }

  lemma {:induction false} LeftPast32(v: uint32, n: nat, c: bool)
    requires n > 32
    ensures Repeat(0, n, v, c) == (0, false)
  {
    Pow2Constants();
    if n == 33 {
      LeftRepeats(v, 32, c);
    } else {
      LeftPast32(v, n - 1, c);
    }
  }

  lemma {:induction false} LogicalRepeats(v: uint32, n: nat, c: bool)
    requires n >= 1
    ensures Repeat(1, n, v, c) == (v / Pow2(n), BitOf(v, n - 1))
  {
    DivDiv(v, Pow2(n - 1), 2);
    if n > 1 {
      LogicalRepeats(v, n - 1, c);
    }
  }

  lemma {:induction false} Pow2Large(n: nat)
    ensures n >= 32 ==> Pow2(n) >= TWO32
    ensures n >= 31 ==> Pow2(n) >= TWO31
  {
    Pow2Constants();
    if n > 32 {
      Pow2Large(n - 1);
    }
  }

  lemma SmallOverLarge(x: int, p: nat)
    requires 0 <= x + p && x < p
    ensures x / p == if x < 0 then -1 else 0
  {
    if x < 0 {
      DivUnique(x, p, -1, x + p);
    } else {
      DivUnique(x, p, 0, x);
    }
  }

  /** A word halved with its sign kept is the halved integer. */
  lemma SignedHalf(w: uint32)
    ensures Signed(OneBit(2, w).0) == Signed(w) / 2 && OneBit(2, w).1 == (Signed(w) % 2 == 1)
  {
  }

  lemma SignedWrap(x: int)
    requires 0 <= x + TWO31 < TWO32
    ensures Signed(Wrap(x)) == x
  {
  }

  lemma QuotientRange(x: int, p: nat)
    requires p > 0 && 0 <= x + TWO31 < TWO32
    ensures 0 <= x / p + TWO31 < TWO32
  {
    DivMod(x, p);
    if x / p >= TWO31 {
      MulMono(p, TWO31, x / p);
      MulMono(TWO31, 1, p);
    } else if x / p <= 0 - TWO31 - 1 {
      MulMono(p, x / p, 0 - TWO31 - 1);
      MulMono(TWO31, 1, p);
    }
  }

  lemma SignedRange(w: uint32, k: nat)
    ensures Signed(Wrap(Signed(w) / Pow2(k))) == Signed(w) / Pow2(k)
  {
    QuotientRange(Signed(w), Pow2(k));
    SignedWrap(Signed(w) / Pow2(k));
  }

  lemma {:induction false} ArithmeticRepeats(v: uint32, n: nat, c: bool)
    requires n >= 1
    ensures Repeat(2, n, v, c).0 == Wrap(Signed(v) / Pow2(n))
    ensures Repeat(2, n, v, c).1 == (Signed(v) / Pow2(n - 1) % 2 == 1)
  {
    SignedRange(v, n);
    SignedRange(v, n - 1);
    DivDiv(Signed(v), Pow2(n - 1), 2);
    if n > 1 {
      ArithmeticRepeats(v, n - 1, c);
    }
    SignedHalf(Repeat(2, n - 1, v, c).0);
  }

  /** Up to 32 places the bit shifted out does not see the sign. */
  lemma ArithmeticCarry(v: uint32, n: nat)
    requires 1 <= n <= 32
    ensures (Signed(v) / Pow2(n - 1) % 2 == 1) == BitOf(v, n - 1)
  {
    if Sign(v) {
      Pow2Splits(n);
      QuotientShift(v, Pow2(n - 1), Pow2(32 - n));
    }
  }

  lemma QuotientShift(v: nat, p: nat, h: nat)
    requires p > 0 && h * p == TWO31
    ensures (v - TWO32) / p == v / p - 2 * h && (v - TWO32) / p % 2 == v / p % 2
  {
    DivMod(v, p);
    MulDistributes(p, v / p, -2 * h);
    DivUnique(v - TWO32, p, v / p - 2 * h, v % p);
  }

  lemma RotateStep(v: uint32, k: nat)
    requires k <= 31
    ensures OneBit(3, RotateRight(v, k)) == (RotateRight(v, k + 1), BitOf(v, k))
  {
    RotateConstants(k);
    RotateBits(v, Pow2(k), Pow2(k + 1), Pow2(32 - k), Pow2(31 - k), RotateRight(v, k), RotateRight(v, k + 1));
  }

  lemma RotateConstants(k: nat)
    requires k <= 31
    ensures Pow2(k + 1) == 2 * Pow2(k) && Pow2(32 - k) == 2 * Pow2(31 - k) && Pow2(k) * Pow2(31 - k) == TWO31
  {
    Pow2Constants();
    Pow2Add(k, 31 - k);
  }

  /** The arithmetic of one rotation: `p` splits the word, `q` and `h` are what each part is scaled by. */
  lemma RotateBits(v: nat, p: nat, p2: nat, q: nat, h: nat, x: nat, y: nat)
    requires p > 0 && p2 == 2 * p && q == 2 * h && p * h == TWO31
    requires x == v / p + v % p * q && y == v / p2 + v % p2 * h
    ensures x / 2 + x % 2 * TWO31 == y && (x % 2 == 1 <==> v / p % 2 == 1)
  {
    DivDiv(v, p, 2);
    var a, b := v / p, v % p;
    RotateScale(a % 2, b, p, q, h);
  }

  lemma RotateScale(bit: nat, b: nat, p: nat, q: nat, h: nat)
    requires bit < 2 && q == 2 * h && p * h == TWO31
    ensures b * q == 2 * (b * h) && (p * bit + b) * h == bit * TWO31 + b * h
  {
    if bit == 1 {
      MulDistributes(h, p, b);
    }
  }

  lemma RotateWhole(v: uint32)
    ensures RotateRight(v, 0) == v && RotateRight(v, 32) == v
  {
    Pow2Constants();
    assert Pow2(0) == 1;
    DivUniqueLeft(v, v, 1, 0);
    DivUniqueLeft(v, 0, TWO32, v);
  }

  function RotatePlace(v: uint32, n: nat): (uint32, bool) {
    (RotateRight(v, n % 32), if n % 32 == 0 then Sign(v) else BitOf(v, n % 32 - 1))
  }

  lemma RotatePlaceStep(v: uint32, n: nat)
    requires n > 0
    ensures OneBit(3, RotatePlace(v, n - 1).0) == RotatePlace(v, n)
  {
    var k := (n - 1) % 32;
    ModSucc(n - 1, 32);
    RotateStep(v, k);
    if k == 31 {
      RotateWhole(v);
      TopBit(v);
      assert n % 32 == 0;
    } else {
      assert n % 32 == k + 1;
    }
  }

  lemma TopBit(v: uint32)
    ensures BitOf(v, 31) == Sign(v)
  {
    Pow2Constants();
  }

  lemma RotateRepeats(v: uint32, n: nat, c: bool)
    requires n >= 1
    ensures Repeat(3, n, v, c) == RotatePlace(v, n)
  {
    var places := (k: nat) => RotatePlace(v, k);
    forall k | 0 < k <= n ensures OneBit(3, places(k - 1).0) == places(k) {
      RotatePlaceStep(v, k);
    }
    RepeatFollows(3, places, n, c);
    RotateWhole(v);
  }

  /** What a zero written as an immediate stands for. */
  function ZeroImmediate(kind: nat, value: uint32, carryIn: bool): (uint32, bool) {
    if kind == 0 then (value, carryIn)
    else if kind == 3 then ((value + (if carryIn then TWO32 else 0)) / 2, OneBit(3, value).1)
    else Repeat(kind, 32, value, carryIn)
  }

  /**
   * Shifting by any non-zero amount, 32 and beyond included, is that many one-bit shifts, the
   * carry being the last bit out. A zero amount in a register changes nothing; written as an
   * immediate it is LSR or ASR by 32, a rotate through carry, or a plain move.
   */
  lemma ShiftIsRepeatedOneBit(kind: nat, amount: nat, value: uint32, carryIn: bool, immediateForm: bool)
    requires kind < 4
    ensures amount > 0 ==> Shift(kind, amount, value, carryIn, immediateForm) == Repeat(kind, amount, value, carryIn)
    ensures amount == 0 && !immediateForm ==> Shift(kind, 0, value, carryIn, false) == Repeat(kind, 0, value, carryIn)
    ensures amount == 0 && immediateForm ==> Shift(kind, 0, value, carryIn, true) == ZeroImmediate(kind, value, carryIn)
  {
    if kind == 0 {
      LeftShift(amount, value, carryIn);
    } else if kind == 1 {
      LogicalShift(if amount == 0 then 32 else amount, value, carryIn);
    } else if kind == 2 {
      ArithmeticShift(if amount == 0 then 32 else amount, value, carryIn);
    } else if amount > 0 {
      RotateRepeats(value, amount, carryIn);
      RotateWhole(value);
    }
  }

  lemma LeftShift(n: nat, value: uint32, c: bool)
    ensures n > 0 ==> Shift(0, n, value, c, true) == Repeat(0, n, value, c)
  {
    if n > 32 {
      LeftPast32(value, n, c);
    } else if n > 0 {
      LeftRepeats(value, n, c);
      if n == 32 {
        Pow2Constants();
        assert Wrap(value * TWO32) == 0;
      }
    }
  }

  lemma LogicalShift(n: nat, value: uint32, c: bool)
    requires n > 0
    ensures Shift(1, n, value, c, true) == Repeat(1, n, value, c)
  {
    LogicalRepeats(value, n, c);
    if n >= 32 {
      Pow2Large(n);
      SmallOverLarge(value, Pow2(n));
      if n == 32 {
        Pow2Constants();
      } else {
        Pow2Large(n - 1);
        SmallOverLarge(value, Pow2(n - 1));
      }
    }
  }

  lemma ArithmeticShift(n: nat, value: uint32, c: bool)
    requires n > 0
    ensures Shift(2, n, value, c, true) == Repeat(2, n, value, c)
  {
    ArithmeticRepeats(value, n, c);
    if n >= 32 {
      Pow2Large(n);
      Pow2Large(n - 1);
      SmallOverLarge(Signed(value), Pow2(n));
      SmallOverLarge(Signed(value), Pow2(n - 1));
    } else {
      ArithmeticCarry(value, n);
    }
  }
}
