/**
 * The long noise sequence: 32767 shifts, no fewer, from every register that is not empty. The shift is linear
 * and the register's bits are all shifts of its lowest, so that n shifts of anything are fixed by n shifts of 1.
 */
module NoisePeriods {
  import opened Arith
  import opened NoiseSound

  const PERIOD: nat := 32767

  /** One shift in long mode. */
  function Next(x: bv16): bv16 {
    Shifted(x, false)
  }

  function Times(x: bv16, n: nat): bv16 {
    ShiftedTimes(x, false, n)
  }

  // ---------------------------------------------------------------------------
  // Linearity
  // ---------------------------------------------------------------------------

  function Xor(a: bv16, b: bv16): bv16 {
    a ^ b
  }

  lemma NextLinear(a: bv16, b: bv16)
    requires a < 0x8000 && b < 0x8000
    ensures Next(Xor(a, b)) == Xor(Next(a), Next(b)) && Next(a) < 0x8000 && Xor(a, b) < 0x8000
    ensures Next(0) == 0
  {
  }

  lemma {:induction false} TimesFits(a: bv16, n: nat)
    requires a < 0x8000
    ensures Times(a, n) < 0x8000 && (a == 0 ==> Times(a, n) == 0)
  {
    hide Shifted, Xor;
    if n > 0 {
      TimesFits(a, n - 1);
      NextLinear(Times(a, n - 1), 0);
    }
  }

  lemma {:induction false} TimesLinear(a: bv16, b: bv16, n: nat)
    requires a < 0x8000 && b < 0x8000
    ensures Times(Xor(a, b), n) == Xor(Times(a, n), Times(b, n))
  {
    hide Shifted, Xor;
    if n > 0 {
      TimesLinear(a, b, n - 1);
      TimesFits(a, n - 1);
      TimesFits(b, n - 1);
      NextLinear(Times(a, n - 1), Times(b, n - 1));
    }
  }

  /** `v` where `x` has the given bit. */
  function Pick(x: bv16, bit: bv16, v: bv16): bv16 {
    if x & bit != 0 then v else 0
  }

  lemma PickedTimes(x: bv16, bit: bv16, v: bv16, n: nat)
    requires v < 0x8000
    ensures Times(Pick(x, bit, v), n) == Pick(x, bit, Times(v, n)) && Pick(x, bit, v) < 0x8000
  {
    hide ShiftedTimes;
    TimesFits(0, n);
  }

  /** The `k` bits from `bit` down take `v` shifted once, twice and so on. */
  function From(x: bv16, bit: bv16, k: nat, v: bv16): bv16
    decreases k
  {
    if k == 0 then 0 else Xor(Pick(x, bit, Next(v)), From(x, bit >> 1, k - 1, Next(v)))
  }

  /** What `x` makes of `v`, if its lowest bit stands for `v` itself: multiplication, with 1 its unit. */
  function Poly(x: bv16, v: bv16): bv16 {
    var v1 := Next(v);
    var v2 := Next(v1);
    var v3 := Next(v2);
    var v4 := Next(v3);
    var v5 := Next(v4);
    var v6 := Next(v5);
    var v7 := Next(v6);
    var v8 := Next(v7);
    var v9 := Next(v8);
    var v10 := Next(v9);
    var v11 := Next(v10);
    var v12 := Next(v11);
    var v13 := Next(v12);
    var v14 := Next(v13);
    Xor(Pick(x, 0x0001, v), Xor(Pick(x, 0x4000, v1), Xor(Pick(x, 0x2000, v2), Xor(Pick(x, 0x1000, v3),
    Xor(Pick(x, 0x0800, v4), Xor(Pick(x, 0x0400, v5), Xor(Pick(x, 0x0200, v6), Xor(Pick(x, 0x0100, v7),
    Xor(Pick(x, 0x0080, v8), Xor(Pick(x, 0x0040, v9), Xor(Pick(x, 0x0020, v10), Xor(Pick(x, 0x0010, v11),
    Xor(Pick(x, 0x0008, v12), Xor(Pick(x, 0x0004, v13), Xor(Pick(x, 0x0002, v14), 0)))))))))))))))
  }

  lemma PolyIsFrom(x: bv16, v: bv16)
    ensures Poly(x, v) == Xor(Pick(x, 0x0001, v), From(x, 0x4000, 14, v))
  {
    hide Next, Pick, Xor;
    var v1 := Next(v);
    var v2 := Next(v1);
    var v3 := Next(v2);
    var v4 := Next(v3);
    var v5 := Next(v4);
    var v6 := Next(v5);
    var v7 := Next(v6);
    var v8 := Next(v7);
    var v9 := Next(v8);
    var v10 := Next(v9);
    var v11 := Next(v10);
    var v12 := Next(v11);
    var v13 := Next(v12);
    var v14 := Next(v13);
    assert From(x, 0x4000, 14, v) == Xor(Pick(x, 0x4000, v1), From(x, 0x2000, 13, v1));
    assert From(x, 0x2000, 13, v1) == Xor(Pick(x, 0x2000, v2), From(x, 0x1000, 12, v2));
    assert From(x, 0x1000, 12, v2) == Xor(Pick(x, 0x1000, v3), From(x, 0x0800, 11, v3));
    assert From(x, 0x0800, 11, v3) == Xor(Pick(x, 0x0800, v4), From(x, 0x0400, 10, v4));
    assert From(x, 0x0400, 10, v4) == Xor(Pick(x, 0x0400, v5), From(x, 0x0200, 9, v5));
    assert From(x, 0x0200, 9, v5) == Xor(Pick(x, 0x0200, v6), From(x, 0x0100, 8, v6));
    assert From(x, 0x0100, 8, v6) == Xor(Pick(x, 0x0100, v7), From(x, 0x0080, 7, v7));
    assert From(x, 0x0080, 7, v7) == Xor(Pick(x, 0x0080, v8), From(x, 0x0040, 6, v8));
    assert From(x, 0x0040, 6, v8) == Xor(Pick(x, 0x0040, v9), From(x, 0x0020, 5, v9));
    assert From(x, 0x0020, 5, v9) == Xor(Pick(x, 0x0020, v10), From(x, 0x0010, 4, v10));
    assert From(x, 0x0010, 4, v10) == Xor(Pick(x, 0x0010, v11), From(x, 0x0008, 3, v11));
    assert From(x, 0x0008, 3, v11) == Xor(Pick(x, 0x0008, v12), From(x, 0x0004, 2, v12));
    assert From(x, 0x0004, 2, v12) == Xor(Pick(x, 0x0004, v13), From(x, 0x0002, 1, v13));
    assert From(x, 0x0002, 1, v13) == Xor(Pick(x, 0x0002, v14), From(x, 0x0001, 0, v14));
    assert From(x, 0x0001, 0, v14) == 0;
    hide From;
  }

  function Masked(x: bv16, mask: bv16): bv16 {
    x & mask
  }

  /** One more bit of `x`, from below. */
  lemma Gathers(x: bv16, bit: bv16, below: bv16)
    requires bit & (bit - 1) == 0 && below & bit == 0
    ensures Xor(Pick(x, bit, bit), Masked(x, below)) == Masked(x, bit | below)
  {
  }

  lemma MaskEnds(x: bv16)
    requires x < 0x8000
    ensures Masked(x, 0) == 0 && Masked(x, 0x7FFF) == x
  {
  }

  lemma UnitOnTheRight(x: bv16)
    requires x < 0x8000
    ensures Poly(x, 1) == x
  {
    hide Next, Pick, Xor, Masked;
    ShiftsOfOne();
    MaskEnds(x);
    Gathers(x, 0x0002, 0x0000);
    Gathers(x, 0x0004, 0x0002);
    Gathers(x, 0x0008, 0x0006);
    Gathers(x, 0x0010, 0x000E);
    Gathers(x, 0x0020, 0x001E);
    Gathers(x, 0x0040, 0x003E);
    Gathers(x, 0x0080, 0x007E);
    Gathers(x, 0x0100, 0x00FE);
    Gathers(x, 0x0200, 0x01FE);
    Gathers(x, 0x0400, 0x03FE);
    Gathers(x, 0x0800, 0x07FE);
    Gathers(x, 0x1000, 0x0FFE);
    Gathers(x, 0x2000, 0x1FFE);
    Gathers(x, 0x4000, 0x3FFE);
    Gathers(x, 0x0001, 0x7FFE);
  }

  lemma ShiftsOfOne()
    ensures Next(0x0001) == 0x4000
    ensures Next(0x4000) == 0x2000
    ensures Next(0x2000) == 0x1000
    ensures Next(0x1000) == 0x0800
    ensures Next(0x0800) == 0x0400
    ensures Next(0x0400) == 0x0200
    ensures Next(0x0200) == 0x0100
    ensures Next(0x0100) == 0x0080
    ensures Next(0x0080) == 0x0040
    ensures Next(0x0040) == 0x0020
    ensures Next(0x0020) == 0x0010
    ensures Next(0x0010) == 0x0008
    ensures Next(0x0008) == 0x0004
    ensures Next(0x0004) == 0x0002
  {
  }

  lemma {:induction false} FromTimes(x: bv16, bit: bv16, k: nat, v: bv16, n: nat)
    requires v < 0x8000
    ensures From(x, bit, k, v) < 0x8000 && Times(From(x, bit, k, v), n) == From(x, bit, k, Times(v, n))
    decreases k
  {
    hide Xor, Pick, ShiftedTimes, Shifted;
    if k == 0 {
      TimesFits(0, n);
    } else {
      var picked, rest := Pick(x, bit, Next(v)), From(x, bit >> 1, k - 1, Next(v));
      NextLinear(v, 0);
      NextOfTimes(v, n);
      PickedTimes(x, bit, Next(v), n);
      FromTimes(x, bit >> 1, k - 1, Next(v), n);
      TimesLinear(picked, rest, n);
      NextLinear(picked, rest);
    }
  }

  lemma {:induction false} NextOfTimes(v: bv16, n: nat)
    ensures Next(Times(v, n)) == Times(Next(v), n)
  {
    hide Shifted;
    if n > 0 {
      NextOfTimes(v, n - 1);
    }
  }

  /** Shifting anything is multiplying it by the shifted 1. */
  lemma TimesIsPoly(x: bv16, n: nat)
    requires x < 0x8000
    ensures Times(x, n) == Poly(x, Times(1, n))
  {
    hide Poly, From, Pick, Xor, ShiftedTimes;
    UnitOnTheRight(x);
    PolyIsFrom(x, 1);
    PolyIsFrom(x, Times(1, n));
    PickedTimes(x, 0x0001, 1, n);
    FromTimes(x, 0x4000, 14, 1, n);
    TimesLinear(Pick(x, 0x0001, 1), From(x, 0x4000, 14, 1), n);
  }

  // ---------------------------------------------------------------------------
  // Powers of the shift
  // ---------------------------------------------------------------------------

  /** `n` shifts of 1 are `v`. */
  ghost predicate Reaches(n: nat, v: bv16) {
    Times(1, n) == v && v < 0x8000
  }

  lemma Sum(a: nat, u: bv16, b: nat, v: bv16)
    requires Reaches(a, u) && Reaches(b, v)
    ensures Reaches(a + b, Poly(u, v))
  {
    hide Poly;
    ShiftsCompose(1, false, a, b);
    TimesIsPoly(u, b);
    TimesFits(1, a + b);
  }

  lemma Adds(a: nat, u: bv16, b: nat, v: bv16, w: bv16)
    requires Reaches(a, u) && Reaches(b, v) && Poly(u, v) == w
    ensures Reaches(a + b, w)
  {
    hide Poly, Reaches;
    Sum(a, u, b, v);
  }

  lemma PowerOne()
    ensures Reaches(1, 0x4000)
  {
  }

  lemma Powers1()
    ensures Reaches(2, 0x2000)
    ensures Reaches(4, 0x0800)
    ensures Reaches(8, 0x0080)
    ensures Reaches(16, 0x6000)
  {
    hide Reaches;
    PowerOne();
    Adds(1, 0x4000, 1, 0x4000, 0x2000);
    Adds(2, 0x2000, 2, 0x2000, 0x0800);
    Adds(4, 0x0800, 4, 0x0800, 0x0080);
    Adds(8, 0x0080, 8, 0x0080, 0x6000);
  }

  lemma Powers2()
    ensures Reaches(32, 0x2800)
    ensures Reaches(64, 0x0880)
    ensures Reaches(128, 0x6080)
    ensures Reaches(256, 0x4800)
  {
    hide Reaches;
    Powers1();
    Adds(16, 0x6000, 16, 0x6000, 0x2800);
    Adds(32, 0x2800, 32, 0x2800, 0x0880);
    Adds(64, 0x0880, 64, 0x0880, 0x6080);
    Adds(128, 0x6080, 128, 0x6080, 0x4800);
  }

  lemma Powers3()
    ensures Reaches(512, 0x2080)
    ensures Reaches(1024, 0x6800)
    ensures Reaches(2048, 0x2880)
    ensures Reaches(4096, 0x6880)
  {
    hide Reaches;
    Powers2();
    Adds(256, 0x4800, 256, 0x4800, 0x2080);
    Adds(512, 0x2080, 512, 0x2080, 0x6800);
    Adds(1024, 0x6800, 1024, 0x6800, 0x2880);
    Adds(2048, 0x2880, 2048, 0x2880, 0x6880);
  }

  lemma Powers4()
    ensures Reaches(8192, 0x4880)
    ensures Reaches(16384, 0x4080)
    ensures Reaches(192, 0x6668)
    ensures Reaches(208, 0x2AAE)
  {
    hide Reaches;
    Powers1();
    Powers2();
    Powers3();
    Adds(4096, 0x6880, 4096, 0x6880, 0x4880);
    Adds(8192, 0x4880, 8192, 0x4880, 0x4080);
    Adds(128, 0x6080, 64, 0x0880, 0x6668);
    Adds(192, 0x6668, 16, 0x6000, 0x2AAE);
  }

  lemma Powers5()
    ensures Reaches(216, 0x7CAA)
    ensures Reaches(217, 0x7E55)
    ensures Reaches(1056, 0x1C80)
    ensures Reaches(1057, 0x0E40)
  {
    hide Reaches;
    PowerOne();
    Powers1();
    Powers2();
    Powers3();
    Powers4();
    Adds(208, 0x2AAE, 8, 0x0080, 0x7CAA);
    Adds(216, 0x7CAA, 1, 0x4000, 0x7E55);
    Adds(1024, 0x6800, 32, 0x2800, 0x1C80);
    Adds(1056, 0x1C80, 1, 0x4000, 0x0E40);
  }

  lemma Powers6()
    ensures Reaches(4608, 0x7A48)
    ensures Reaches(4672, 0x51DE)
    ensures Reaches(4680, 0x18D1)
    ensures Reaches(4681, 0x4C68)
  {
    hide Reaches;
    PowerOne();
    Powers1();
    Powers2();
    Powers3();
    Adds(4096, 0x6880, 512, 0x2080, 0x7A48);
    Adds(4608, 0x7A48, 64, 0x0880, 0x51DE);
    Adds(4672, 0x51DE, 8, 0x0080, 0x18D1);
    Adds(4680, 0x18D1, 1, 0x4000, 0x4C68);
  }

  lemma Powers7()
    ensures Reaches(16640, 0x2448)
    ensures Reaches(16768, 0x2D12)
    ensures Reaches(16832, 0x177C)
    ensures Reaches(16864, 0x54A8)
  {
    hide Reaches;
    Powers2();
    Powers4();
    Adds(16384, 0x4080, 256, 0x4800, 0x2448);
    Adds(16640, 0x2448, 128, 0x6080, 0x2D12);
    Adds(16768, 0x2D12, 64, 0x0880, 0x177C);
    Adds(16832, 0x177C, 32, 0x2800, 0x54A8);
  }

  lemma Powers8()
    ensures Reaches(16872, 0x7E54)
    ensures Reaches(12288, 0x52A0)
    ensures Reaches(12544, 0x2C7A)
    ensures Reaches(12672, 0x1E8F)
  {
    hide Reaches;
    Powers1();
    Powers2();
    Powers3();
    Powers4();
    Powers7();
    Adds(16864, 0x54A8, 8, 0x0080, 0x7E54);
    Adds(8192, 0x4880, 4096, 0x6880, 0x52A0);
    Adds(12288, 0x52A0, 256, 0x4800, 0x2C7A);
    Adds(12544, 0x2C7A, 128, 0x6080, 0x1E8F);
  }

  lemma Powers9()
    ensures Reaches(12680, 0x641E)
    ensures Reaches(12684, 0x0E41)
    ensures Reaches(13312, 0x38D2)
    ensures Reaches(13824, 0x338C)
  {
    hide Reaches;
    Powers1();
    Powers3();
    Powers8();
    Adds(12672, 0x1E8F, 8, 0x0080, 0x641E);
    Adds(12680, 0x641E, 4, 0x0800, 0x0E41);
    Adds(12288, 0x52A0, 1024, 0x6800, 0x38D2);
    Adds(13312, 0x38D2, 512, 0x2080, 0x338C);
  }

  lemma Powers10()
    ensures Reaches(13952, 0x7016)
    ensures Reaches(14016, 0x61F1)
    ensures Reaches(14032, 0x4884)
    ensures Reaches(14040, 0x6348)
  {
    hide Reaches;
    Powers1();
    Powers2();
    Powers9();
    Adds(13824, 0x338C, 128, 0x6080, 0x7016);
    Adds(13952, 0x7016, 64, 0x0880, 0x61F1);
    Adds(14016, 0x61F1, 16, 0x6000, 0x4884);
    Adds(14032, 0x4884, 8, 0x0080, 0x6348);
  }

  lemma Powers11()
    ensures Reaches(14042, 0x18D2)
    ensures Reaches(14043, 0x4C69)
    ensures Reaches(9362, 0x3EC0)
    ensures Reaches(18724, 0x72A8)
  {
    hide Reaches;
    PowerOne();
    Powers1();
    Powers6();
    Powers10();
    Adds(14040, 0x6348, 2, 0x2000, 0x18D2);
    Adds(14042, 0x18D2, 1, 0x4000, 0x4C69);
    Adds(4681, 0x4C68, 4681, 0x4C68, 0x3EC0);
    Adds(9362, 0x3EC0, 9362, 0x3EC0, 0x72A8);
  }

  lemma Powers12()
    ensures Reaches(28086, 0x3EC1)
    ensures Reaches(32767, 0x0001)
  {
    hide Reaches;
    Powers6();
    Powers11();
    Adds(18724, 0x72A8, 9362, 0x3EC0, 0x3EC1);
    Adds(28086, 0x3EC1, 4681, 0x4C68, 0x0001);
  }

  // ---------------------------------------------------------------------------
  // Returning
  // ---------------------------------------------------------------------------

  lemma Returns(x: bv16)
    requires x < 0x8000
    ensures Times(x, PERIOD) == x
  {
    hide Poly, ShiftedTimes;
    Powers12();
    TimesIsPoly(x, PERIOD);
    UnitOnTheRight(x);
  }

  lemma PickedSum(x: bv16, bit: bv16, a: bv16, b: bv16)
    ensures Pick(x, bit, Xor(a, b)) == Xor(Pick(x, bit, a), Pick(x, bit, b))
  {
  }

  lemma Regroup(a: bv16, b: bv16, c: bv16, d: bv16)
    ensures Xor(Xor(a, b), Xor(c, d)) == Xor(Xor(a, c), Xor(b, d)) && Xor(0, 0) == 0
  {
  }

  lemma {:induction false} FromSum(x: bv16, bit: bv16, k: nat, a: bv16, b: bv16)
    requires a < 0x8000 && b < 0x8000
    ensures From(x, bit, k, Xor(a, b)) == Xor(From(x, bit, k, a), From(x, bit, k, b))
    decreases k
  {
    hide Xor, Pick, Shifted;
    Regroup(0, 0, 0, 0);
    NextLinear(a, b);
    NextLinear(b, a);
    if k > 0 {
      var next := bit >> 1;
      FromSum(x, next, k - 1, Next(a), Next(b));
      PickedSum(x, bit, Next(a), Next(b));
      Regroup(Pick(x, bit, Next(a)), Pick(x, bit, Next(b)), From(x, next, k - 1, Next(a)), From(x, next, k - 1, Next(b)));
    }
  }

  lemma PolySum(x: bv16, a: bv16, b: bv16)
    requires a < 0x8000 && b < 0x8000
    ensures Poly(x, Xor(a, b)) == Xor(Poly(x, a), Poly(x, b))
  {
    hide Poly, From, Pick, Xor;
    PolyIsFrom(x, a);
    PolyIsFrom(x, b);
    PolyIsFrom(x, Xor(a, b));
    FromSum(x, 0x4000, 14, a, b);
    PickedSum(x, 0x0001, a, b);
    Regroup(Pick(x, 0x0001, a), Pick(x, 0x0001, b), From(x, 0x4000, 14, a), From(x, 0x4000, 14, b));
  }

  lemma SelfCancels(a: bv16)
    ensures Xor(a, a) == 0
  {
  }

  /** If d shifts and no shift differ by e shifts, then d shifts bring nothing back: e shifts empty nothing. */
  lemma Moves(x: bv16, d: nat, v: bv16, e: nat)
    requires 0 < x < 0x8000 && Reaches(d, v) && Reaches(e, Xor(v, 1))
    ensures Times(x, d) != x
  {
    hide Poly, Xor, ShiftedTimes;
    TimesIsPoly(x, d);
    TimesIsPoly(x, e);
    UnitOnTheRight(x);
    PolySum(x, v, 1);
    LongModeNeverLocks(x, e);
    SelfCancels(x);
  }

  lemma MovesEarly(x: bv16)
    requires 0 < x < 0x8000
    ensures Times(x, 217) != x && Times(x, 1057) != x && Times(x, 4681) != x
  {
    hide ShiftedTimes;
    Powers5();
    Powers6();
    Powers8();
    Powers9();
    Powers11();
    assert Xor(0x7E55, 1) == 0x7E54 && Xor(0x0E40, 1) == 0x0E41 && Xor(0x4C68, 1) == 0x4C69;
    Moves(x, 217, 0x7E55, 16872);
    Moves(x, 1057, 0x0E40, 12684);
    Moves(x, 4681, 0x4C68, 14043);
  }

  // ---------------------------------------------------------------------------
  // 32767 = 7 * 31 * 151
  // ---------------------------------------------------------------------------

  lemma SmallFactors(r: nat, q: nat)
    requires r * q == PERIOD && r <= 181
    ensures r == 1 || r == 7 || r == 31 || r == 151
  {
  }

  lemma OneIsSmall(r: nat, q: nat)
    requires r * q == PERIOD
    ensures r <= 181 || q <= 181
  {
    if r > 181 && q > 181 {
      MulMono(r, 182, q);
      assert false;
    }
  }

  /** A proper divisor divides a third, a thirty-first or a seventh part: 217, 1057 or 4681. */
  lemma ProperDivisor(r: nat, q: nat) returns (k: nat)
    requires r * q == PERIOD && q > 1
    ensures k * r == 217 || k * r == 1057 || k * r == 4681
  {
    OneIsSmall(r, q);
    if r <= 181 {
      SmallFactors(r, q);
      k := if r == 1 then 217 else if r == 7 then 31 else if r == 31 then 7 else 7;
    } else {
      SmallFactors(q, r);
      k := 1;
    }
  }

  // ---------------------------------------------------------------------------
  // No sooner
  // ---------------------------------------------------------------------------

  lemma {:induction false} ReturnsAgain(x: bv16, n: nat, q: nat)
    requires Times(x, n) == x
    ensures Times(x, q * n) == x
  {
    hide Shifted;
    if q > 0 {
      ReturnsAgain(x, n, q - 1);
      ShiftsCompose(x, false, (q - 1) * n, n);
      MulDistributes(n, q, -1);
    }
  }

  /** The shortest return is a divisor of the period, so there is none before it. */
  lemma {:induction false} NoSooner(x: bv16, n: nat)
    requires 0 < x < 0x8000 && 0 < n < PERIOD
    ensures Times(x, n) != x
    decreases n
  {
    hide ShiftedTimes;
    if Times(x, n) == x {
      var q, r := PERIOD / n, PERIOD % n;
      Recompose(PERIOD, n);
      DivBounds(PERIOD, n);
      if r > 0 {
        Returns(x);
        ReturnsAgain(x, n, q);
        ShiftsCompose(x, false, q * n, r);
        NoSooner(x, r);
      } else {
        var k := ProperDivisor(n, q);
        ReturnsAgain(x, n, k);
        MovesEarly(x);
      }
      assert false;
    }
  }

  /** In long mode the register is back after exactly 32767 shifts, from wherever it is but empty. */
  lemma LongModePeriod(lfsr: bv16, n: nat, m: nat)
    requires 0 < lfsr < 0x8000 && 0 < m < PERIOD
    ensures ShiftedTimes(lfsr, false, n + PERIOD) == ShiftedTimes(lfsr, false, n)
    ensures ShiftedTimes(lfsr, false, n + m) != ShiftedTimes(lfsr, false, n)
  {
    hide ShiftedTimes;
    LongModeNeverLocks(lfsr, n);
    ShiftsCompose(lfsr, false, n, PERIOD);
    ShiftsCompose(lfsr, false, n, m);
    Returns(Times(lfsr, n));
    NoSooner(Times(lfsr, n), m);
  }
}
