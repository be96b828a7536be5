/** The noise channel: a shift register, and what its short mode does to it. */
module NoiseSound {
  import opened Words
  import opened Arith
  import opened SoundUnits
  import opened SoundChannels

  const DIVISORS: seq<nat> := [8, 16, 32, 48, 64, 80, 96, 112]

  /** One step: the new bit is the XOR of the low two, fed back into bit 14 and, in short mode, bit 6. */
  function Shifted(lfsr: bv16, shortMode: bool): bv16 {
    var feedback := (lfsr & 1) ^ ((lfsr >> 1) & 1);
    var long := (lfsr >> 1) | (feedback << 14);
    if shortMode then (long & 0xFFBF) | (feedback << 6) else long
  }

  function ShiftedTimes(lfsr: bv16, shortMode: bool, n: nat): bv16 {
    if n == 0 then lfsr else Shifted(ShiftedTimes(lfsr, shortMode, n - 1), shortMode)
  }

  datatype Noise = Noise(enabled: bool, dacEnabled: bool, lfsr: bv16, shortMode: bool, clockShift: nat, divisorCode: nat,
                         timer: int, length: LengthState, envelope: EnvelopeState)

  function NoisePeriod(c: Noise): (period: nat)
    ensures period > 0
  {
    DIVISORS[c.divisorCode % 8] * Pow2(Min(c.clockShift, 15))
  }

  /** Sixteen cycles for each unit of the divisor code, eight for zero, doubled for each unit of the shift up to fifteen. */
  lemma NoisePeriodInNumbers(c: Noise)
    requires c.divisorCode < 8
    ensures c.clockShift == 0 ==> NoisePeriod(c) == if c.divisorCode == 0 then 8 else 16 * c.divisorCode
    ensures 0 < c.clockShift <= 15 ==> NoisePeriod(c) == 2 * NoisePeriod(c.(clockShift := c.clockShift - 1))
    ensures c.clockShift > 15 ==> NoisePeriod(c) == NoisePeriod(c.(clockShift := 15))
  {
    if c.clockShift > 0 {
      MulAssoc(DIVISORS[c.divisorCode], 2, Pow2(c.clockShift - 1));
    }
  }

  function NoiseTicked(c: Noise, cycles: nat): Noise {
    var period := NoisePeriod(c);
    c.(timer := TimerAfter(c.timer, cycles, period), lfsr := ShiftedTimes(c.lfsr, c.shortMode, Reloads(c.timer, cycles, period)))
  }

  function NoiseTriggered(c: Noise): Noise {
    c.(enabled := c.dacEnabled, timer := NoisePeriod(c), lfsr := 0x7FFF,
       envelope := EnvelopeTriggered(c.envelope), length := LengthTriggered(c.length))
  }

  /** The inverse of the register's low bit. */
  function NoiseOutput(c: Noise): nat {
    if c.enabled && c.dacEnabled && c.lfsr & 1 == 0 then c.envelope.volume else 0
  }

  class NoiseChannel {
    var enabled: bool
    var dacEnabled: bool
    var lfsr: bv16
    var shortMode: bool
    var clockShift: nat
    var divisorCode: nat
    var timer: int
    const length: LengthCounter
    const envelope: Envelope

    function View(): Noise
      reads this, length, envelope
    {
      Noise(enabled, dacEnabled, lfsr, shortMode, clockShift, divisorCode, timer, length.View(), envelope.View())
    }

    constructor ()
      ensures View() == Noise(false, false, 0x7FFF, false, 0, 0, 1, LengthState(0, 64, false), SILENT_ENVELOPE)
      ensures fresh(length) && fresh(envelope)
    {
      enabled, dacEnabled, shortMode := false, false, false;
      lfsr := 0x7FFF;
      clockShift, divisorCode, timer := 0, 0, 1;
      length := new LengthCounter(64);
      envelope := new Envelope();
    }

    method Tick(cycles: nat)
      modifies this`timer, this`lfsr
      ensures View() == NoiseTicked(old(View()), cycles)
    {
      var period := NoisePeriod(View());
      ghost var n, start, register := 0, timer, lfsr;
      timer := timer - cycles;
      while timer <= 0
        modifies this`timer, this`lfsr
        invariant Reloading(start, cycles, period, n, timer) && lfsr == ShiftedTimes(register, shortMode, n)
        decreases 1 - timer
      {
        ReloadOnce(start, cycles, period, n, timer);
        timer := timer + period;
        lfsr := Shifted(lfsr, shortMode);
        n := n + 1;
      }
      ReloadsEnd(start, cycles, period, n, timer);
    }

    method Trigger()
      modifies this`enabled, this`timer, this`lfsr, length, envelope
      ensures View() == NoiseTriggered(old(View()))
    {
      enabled := dacEnabled;
      timer := NoisePeriod(View());
      lfsr := 0x7FFF;
      envelope.Trigger();
      length.Trigger();
    }

    method Output() returns (level: nat)
      ensures level == NoiseOutput(View())
    {
      if !enabled || !dacEnabled {
        return 0;
      }
      level := if lfsr & 1 == 0 then envelope.volume else 0;
    }
  }

  // ---------------------------------------------------------------------------
  // Ticks and the long mode
  // ---------------------------------------------------------------------------

  lemma {:induction false} ShiftsCompose(lfsr: bv16, shortMode: bool, n: nat, m: nat)
    ensures ShiftedTimes(ShiftedTimes(lfsr, shortMode, n), shortMode, m) == ShiftedTimes(lfsr, shortMode, n + m)
  {
    if m > 0 {
      ShiftsCompose(lfsr, shortMode, n, m - 1);
    }
  }

  /** Ticking in two goes is ticking once. */
  lemma NoiseTicksCompose(c: Noise, a: nat, b: nat)
    ensures NoiseTicked(NoiseTicked(c, a), b) == NoiseTicked(c, a + b)
  {
    var period := NoisePeriod(c);
    TimerSplits(c.timer, a, b, period);
    ShiftsCompose(c.lfsr, c.shortMode, Reloads(c.timer, a, period), Reloads(TimerAfter(c.timer, a, period), b, period));
  }

  lemma LongStep(lfsr: bv16)
    requires 0 < lfsr < 0x8000
    ensures 0 < Shifted(lfsr, false) < 0x8000
  {
  }

  /** The long register never empties, so long-mode noise never locks up. */
  lemma {:induction false} LongModeNeverLocks(lfsr: bv16, n: nat)
    requires 0 < lfsr < 0x8000
    ensures 0 < ShiftedTimes(lfsr, false, n) < 0x8000
  {
    if n > 0 {
      LongModeNeverLocks(lfsr, n - 1);
      LongStep(ShiftedTimes(lfsr, false, n - 1));
    }
  }

  // ---------------------------------------------------------------------------
  // The short mode
  // ---------------------------------------------------------------------------

  /** The seven-bit register the short mode runs inside the long one. */
  function Shifted7(x: bv16): bv16 {
    (x >> 1) | (((x & 1) ^ ((x >> 1) & 1)) << 6)
  }

  function Shifted7Times(x: bv16, n: nat): bv16 {
    if n == 0 then x else Shifted7(Shifted7Times(x, n - 1))
  }

  lemma LowSeven(lfsr: bv16)
    requires lfsr < 0x8000
    ensures Shifted(lfsr, true) < 0x8000 && Shifted(lfsr, true) & 0x7F == Shifted7(lfsr & 0x7F)
  {
  }

  /** In short mode the low seven bits go through that register's states whatever is above them. */
  lemma {:induction false} ShortModeIsSevenBits(lfsr: bv16, n: nat)
    requires lfsr < 0x8000
    ensures ShiftedTimes(lfsr, true, n) < 0x8000 && ShiftedTimes(lfsr, true, n) & 0x7F == Shifted7Times(lfsr & 0x7F, n)
  {
    if n > 0 {
      ShortModeIsSevenBits(lfsr, n - 1);
      LowSeven(ShiftedTimes(lfsr, true, n - 1));
    }
  }

  /** The step can be undone, so no two states lead to the same one. */
  function Unshifted7(y: bv16): bv16 {
    ((y << 1) & 0x7E) | (((y >> 6) ^ y) & 1)
  }

  lemma StepUndone(x: bv16)
    requires x < 0x80
    ensures Shifted7(x) < 0x80 && Unshifted7(Shifted7(x)) == x && (Shifted7(x) == x <==> x == 0) && (Shifted7(x) == 0 <==> x == 0)
  {
  }

  /** A linear map of seven bits, by its columns. */
  function Combine(c0: bv16, c1: bv16, c2: bv16, c3: bv16, c4: bv16, c5: bv16, c6: bv16, x: bv16): bv16 {
    (if x & 0x01 != 0 then c0 else 0) ^ (if x & 0x02 != 0 then c1 else 0) ^ (if x & 0x04 != 0 then c2 else 0) ^
    (if x & 0x08 != 0 then c3 else 0) ^ (if x & 0x10 != 0 then c4 else 0) ^ (if x & 0x20 != 0 then c5 else 0) ^
    (if x & 0x40 != 0 then c6 else 0)
  }

  function Step1(x: bv16): bv16 { Combine(0x40, 0x41, 0x02, 0x04, 0x08, 0x10, 0x20, x) }
  function Step2(x: bv16): bv16 { Combine(0x20, 0x60, 0x41, 0x02, 0x04, 0x08, 0x10, x) }
  function Step4(x: bv16): bv16 { Combine(0x08, 0x18, 0x30, 0x60, 0x41, 0x02, 0x04, x) }
  function Step8(x: bv16): bv16 { Combine(0x60, 0x21, 0x43, 0x06, 0x0C, 0x18, 0x30, x) }
  function Step16(x: bv16): bv16 { Combine(0x28, 0x78, 0x71, 0x62, 0x45, 0x0A, 0x14, x) }
  function Step32(x: bv16): bv16 { Combine(0x68, 0x39, 0x73, 0x66, 0x4D, 0x1A, 0x34, x) }
  function Step64(x: bv16): bv16 { Combine(0x48, 0x59, 0x32, 0x64, 0x49, 0x12, 0x24, x) }
  function Step128(x: bv16): bv16 { Combine(0x40, 0x41, 0x02, 0x04, 0x08, 0x10, 0x20, x) }

  lemma StepIsLinear(x: bv16)
    requires x < 0x80
    ensures Shifted7(x) == Step1(x) && Step128(x) == Step1(x)
  {
  }

  lemma Doubled2(x: bv16)
    requires x < 0x80
    ensures Step1(x) < 0x80 && Step2(x) == Step1(Step1(x))
  {
  }

  lemma Doubled4(x: bv16)
    requires x < 0x80
    ensures Step2(x) < 0x80 && Step4(x) == Step2(Step2(x))
  {
  }

  lemma Doubled8(x: bv16)
    requires x < 0x80
    ensures Step4(x) < 0x80 && Step8(x) == Step4(Step4(x))
  {
  }

  lemma Doubled16(x: bv16)
    requires x < 0x80
    ensures Step8(x) < 0x80 && Step16(x) == Step8(Step8(x))
  {
  }

  lemma Doubled32(x: bv16)
    requires x < 0x80
    ensures Step16(x) < 0x80 && Step32(x) == Step16(Step16(x))
  {
  }

  lemma Doubled64(x: bv16)
    requires x < 0x80
    ensures Step32(x) < 0x80 && Step64(x) == Step32(Step32(x))
  {
  }

  lemma Doubled128(x: bv16)
    requires x < 0x80
    ensures Step64(x) < 0x80 && Step128(x) == Step64(Step64(x))
  {
  }

  lemma {:induction false} Steps7Compose(x: bv16, n: nat, m: nat)
    ensures Shifted7Times(Shifted7Times(x, n), m) == Shifted7Times(x, n + m)
  {
    if m > 0 {
      Steps7Compose(x, n, m - 1);
    }
  }

  lemma {:induction false} StaysSeven(x: bv16, n: nat)
    requires x < 0x80
    ensures Shifted7Times(x, n) < 0x80 && (Shifted7Times(x, n) == 0 <==> x == 0)
  {
    if n > 0 {
      StaysSeven(x, n - 1);
      StepUndone(Shifted7Times(x, n - 1));
    }
  }

  lemma After1(x: bv16)
    requires x < 0x80
    ensures Shifted7Times(x, 1) == Step1(x) && Step1(x) < 0x80
  {
    StepIsLinear(x);
    StepUndone(x);
    assert Shifted7Times(x, 0) == x;
  }

  lemma After2(x: bv16)
    requires x < 0x80
    ensures Shifted7Times(x, 2) == Step2(x) && Step2(x) < 0x80
  {
    After1(x);
    After1(Step1(x));
    Steps7Compose(x, 1, 1);
    Doubled2(x);
  }

  lemma After4(x: bv16)
    requires x < 0x80
    ensures Shifted7Times(x, 4) == Step4(x) && Step4(x) < 0x80
  {
    After2(x);
    After2(Step2(x));
    Steps7Compose(x, 2, 2);
    Doubled4(x);
  }

  lemma After8(x: bv16)
    requires x < 0x80
    ensures Shifted7Times(x, 8) == Step8(x) && Step8(x) < 0x80
  {
    After4(x);
    After4(Step4(x));
    Steps7Compose(x, 4, 4);
    Doubled8(x);
  }

  lemma After16(x: bv16)
    requires x < 0x80
    ensures Shifted7Times(x, 16) == Step16(x) && Step16(x) < 0x80
  {
    After8(x);
    After8(Step8(x));
    Steps7Compose(x, 8, 8);
    Doubled16(x);
  }

  lemma After32(x: bv16)
    requires x < 0x80
    ensures Shifted7Times(x, 32) == Step32(x) && Step32(x) < 0x80
  {
    After16(x);
    After16(Step16(x));
    Steps7Compose(x, 16, 16);
    Doubled32(x);
  }

  lemma After64(x: bv16)
    requires x < 0x80
    ensures Shifted7Times(x, 64) == Step64(x) && Step64(x) < 0x80
  {
    After32(x);
    After32(Step32(x));
    Steps7Compose(x, 32, 32);
    Doubled64(x);
  }

  lemma After128(x: bv16)
    requires x < 0x80
    ensures Shifted7Times(x, 128) == Step128(x) && Step128(x) < 0x80
  {
    After64(x);
    After64(Step64(x));
    Steps7Compose(x, 64, 64);
    Doubled128(x);
  }

  /** After 127 steps the seven bits are back where they were. */
  lemma Returns(x: bv16)
    requires x < 0x80
    ensures Shifted7Times(x, 127) == x
  {
    After128(x);
    StepIsLinear(x);
    StaysSeven(x, 127);
    StepUndone(Shifted7Times(x, 127));
    StepUndone(x);
  }

  lemma {:induction false} ReturnsAgain(x: bv16, n: nat, q: nat)
    requires Shifted7Times(x, n) == x
    ensures Shifted7Times(x, q * n) == x
  {
    if q > 0 {
      ReturnsAgain(x, n, q - 1);
      Steps7Compose(x, (q - 1) * n, n);
      MulDistributes(n, q, -1);
    }
  }

  /** 127 is prime. */
  lemma NoDivisor(n: nat, q: nat)
    requires 1 < n < 127
    ensures 127 != q * n
  {
  }

  /** And no sooner, unless they are all zero. */
  lemma {:induction false} NoSooner(x: bv16, n: nat)
    requires 0 < x < 0x80 && 0 < n < 127
    ensures Shifted7Times(x, n) != x
    decreases n
  {
    if Shifted7Times(x, n) == x {
      if n == 1 {
        StepUndone(x);
        assert Shifted7Times(x, 0) == x;
        assert false;
      } else {
        var q, r := 127 / n, 127 % n;
        Recompose(127, n);
        DivBounds(127, n);
        NoDivisor(n, q);
        Returns(x);
        ReturnsAgain(x, n, q);
        Steps7Compose(x, q * n, r);
        NoSooner(x, r);
        assert false;
      }
    }
  }

  /**
   * Short mode repeats after exactly 127 steps from any register whose low seven bits are not all zero: the
   * output bit is the same 127 steps later, and the seven bits are not back before.
   */
  lemma ShortModePeriod(lfsr: bv16, n: nat, m: nat)
    requires lfsr < 0x8000 && lfsr & 0x7F != 0 && 0 < m < 127
    ensures ShiftedTimes(lfsr, true, n + 127) & 1 == ShiftedTimes(lfsr, true, n) & 1
    ensures ShiftedTimes(lfsr, true, n + m) & 0x7F != ShiftedTimes(lfsr, true, n) & 0x7F
  {
    var x := lfsr & 0x7F;
    ShortModeIsSevenBits(lfsr, n);
    ShortModeIsSevenBits(lfsr, n + m);
    ShortModeIsSevenBits(lfsr, n + 127);
    StaysSeven(x, n);
    Steps7Compose(x, n, m);
    Steps7Compose(x, n, 127);
    Returns(Shifted7Times(x, n));
    NoSooner(Shifted7Times(x, n), m);
    LowBit(ShiftedTimes(lfsr, true, n), ShiftedTimes(lfsr, true, n + 127));
  }

  lemma LowBit(a: bv16, b: bv16)
    requires a & 0x7F == b & 0x7F
    ensures a & 1 == b & 1
  {
  }

  /** Short mode locks up, its output never changing again, exactly when it starts with the low seven bits all zero. */
  lemma ShortModeLocksWhen(lfsr: bv16, n: nat)
    requires lfsr < 0x8000
    ensures ShiftedTimes(lfsr, true, n) & 0x7F == 0 <==> lfsr & 0x7F == 0
  {
    ShortModeIsSevenBits(lfsr, n);
    StaysSeven(lfsr & 0x7F, n);
  }

  /** That can happen: fifteen long-mode steps after a trigger the low seven bits are all zero. */
  lemma SwitchingCanLock()
    ensures ShiftedTimes(0x7FFF, false, 15) & 0x7F == 0
  {
    assert ShiftedTimes(0x7FFF, false, 4) == 0x07FF;
    ShiftsCompose(0x7FFF, false, 4, 4);
    assert ShiftedTimes(0x07FF, false, 4) == 0x007F;
    ShiftsCompose(0x7FFF, false, 8, 4);
    assert ShiftedTimes(0x007F, false, 4) == 0x0007;
    ShiftsCompose(0x7FFF, false, 12, 3);
    assert ShiftedTimes(0x0007, false, 3) == 0x4000;
  }
}
