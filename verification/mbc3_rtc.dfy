/** The MBC3 cartridge clock: a mixed-radix binary counter of days, hours, minutes and seconds. */
module Mbc3Clock {
  import opened Words
  import opened Arith

  datatype Time = Time(seconds: nat, minutes: nat, hours: nat, days: nat)

  datatype Clock = Clock(live: Time, latched: Time, dayCarry: bool, latchedDayCarry: bool,
                         halted: bool, latchedHalted: bool, armed: bool, accumulator: nat)

  const MIDNIGHT_ZERO := Time(0, 0, 0, 0)
  const NEW_CLOCK := Clock(MIDNIGHT_ZERO, MIDNIGHT_ZERO, false, false, false, false, false, 0)

  /** 512 days of seconds. */
  const SPAN: nat := 512 * 86400

  predicate InRange(t: Time) {
    t.seconds < 60 && t.minutes < 60 && t.hours < 24 && t.days < 512
  }

  predicate ValidClock(c: Clock) {
    InRange(c.live) && InRange(c.latched)
  }

  /** The time as one count of seconds. */
  function Total(t: Time): nat {
    t.seconds + 60 * (t.minutes + 60 * (t.hours + 24 * t.days))
  }

  // ---------------------------------------------------------------------------
  // Counting
  // ---------------------------------------------------------------------------

  function NextTime(t: Time): Time {
    if t.seconds + 1 < 60 then t.(seconds := t.seconds + 1)
    else if t.minutes + 1 < 60 then t.(seconds := 0, minutes := t.minutes + 1)
    else if t.hours + 1 < 24 then t.(seconds := 0, minutes := 0, hours := t.hours + 1)
    else if t.days + 1 <= 0x1FF then Time(0, 0, 0, t.days + 1)
    else MIDNIGHT_ZERO
  }

  predicate IsLast(t: Time) {
    t.seconds >= 59 && t.minutes >= 59 && t.hours >= 23 && t.days >= 0x1FF
  }

  /** The carry is set by leaving the last second of day 511, and stays. */
  function NextSecond(c: Clock): Clock {
    c.(live := NextTime(c.live),
       dayCarry := c.dayCarry || IsLast(c.live))
  }

  function Seconds(c: Clock, n: nat): Clock {
    if n == 0 then c else NextSecond(Seconds(c, n - 1))
  }

  /** A tick: whole seconds count, the rest is kept for later; a halted clock keeps even that as it is. */
  function Ticked(c: Clock, cycles: nat, hz: nat): Clock {
    if c.halted || hz == 0 then c
    else
      DivBounds(c.accumulator + cycles, hz);
      Seconds(c, (c.accumulator + cycles) / hz).(accumulator := (c.accumulator + cycles) % hz)
  }

  // ---------------------------------------------------------------------------
  // Registers
  // ---------------------------------------------------------------------------

  function DayHigh(days: nat, carry: bool, halted: bool): (b: uint8) {
    days / 256 % 2 + (if halted then 64 else 0) + if carry then 128 else 0
  }

  /** Ninth day bit, carry, halted. */
  function SplitDayHigh(b: uint8): (nat, bool, bool) {
    (b % 2, b / 128 == 1, b / 64 % 2 == 1)
  }

  function ReadReg(c: Clock, register: uint8): uint8
    requires InRange(c.latched)
  {
    if register == 0x08 then c.latched.seconds
    else if register == 0x09 then c.latched.minutes
    else if register == 0x0A then c.latched.hours
    else if register == 0x0B then c.latched.days % 256
    else if register == 0x0C then DayHigh(c.latched.days, c.latchedDayCarry, c.latchedHalted)
    else 0xFF
  }

  /** The live half of a register write; `None` for a register the clock does not have. */
  function WriteLive(c: Clock, register: uint8, value: uint8): Option<Clock> {
    if register == 0x08 then Some(c.(live := c.live.(seconds := value % 60), accumulator := 0))
    else if register == 0x09 then Some(c.(live := c.live.(minutes := value % 60)))
    else if register == 0x0A then Some(c.(live := c.live.(hours := value % 24)))
    else if register == 0x0B then Some(c.(live := c.live.(days := c.live.days / 256 % 2 * 256 + value)))
    else if register == 0x0C then
      var (bit, carry, halted) := SplitDayHigh(value);
      Some(c.(live := c.live.(days := c.live.days % 256 + bit * 256), halted := halted, dayCarry := carry))
    else None
  }

  function Snapshot(c: Clock): Clock {
    c.(latched := c.live, latchedDayCarry := c.dayCarry, latchedHalted := c.halted)
  }

  function WriteReg(c: Clock, register: uint8, value: uint8): Clock {
    match WriteLive(c, register, value)
    case Some(written) => Snapshot(written)
    case None => c
  }

  function WriteLatchReg(c: Clock, value: uint8): Clock {
    if value == 0 then c.(armed := true)
    else if value == 1 && c.armed then Snapshot(c).(armed := false)
    else c.(armed := false)
  }

  // ---------------------------------------------------------------------------
  // The `.sav` trailer
  // ---------------------------------------------------------------------------

  const TRAILER_LENGTH: nat := 48

  /** Ten little-endian 32-bit fields, live registers then latched, and a 64-bit timestamp. */
  function ToTrailer(c: Clock, unixTime: uint64): (bytes: seq<uint8>)
    requires ValidClock(c)
    ensures |bytes| == TRAILER_LENGTH
  {
    Fields([c.live.seconds, c.live.minutes, c.live.hours, c.live.days % 256, DayHigh(c.live.days, c.dayCarry, c.halted),
            c.latched.seconds, c.latched.minutes, c.latched.hours, c.latched.days % 256,
            DayHigh(c.latched.days, c.latchedDayCarry, c.latchedHalted)]) +
    ToLittleEndian(unixTime, 8)
  }

  /** One byte to each 32-bit field. */
  function Fields(f: seq<uint8>): (bytes: seq<uint8>)
    ensures |bytes| == 4 * |f|
  {
    if f == [] then [] else Fields(f[..|f| - 1]) + Pad(f[|f| - 1])
  }

  function Pad(value: uint8): (field: seq<uint8>)
    ensures |field| == 4
  {
    ToLittleEndian(value, 4)
  }

  function Get(bytes: seq<uint8>, offset: nat): uint8
    requires offset + 4 <= |bytes|
  {
    FromLittleEndian(bytes[offset..offset + 4]) % 256
  }

  /** The timestamp is not read, and the clock restarts on a second boundary. */
  function FromTrailer(bytes: seq<uint8>): Clock
    requires |bytes| == TRAILER_LENGTH
  {
    var (liveBit, liveCarry, liveHalted) := SplitDayHigh(Get(bytes, 16));
    var (latchedBit, latchedCarry, latchedHalted) := SplitDayHigh(Get(bytes, 36));
    Clock(Time(Get(bytes, 0) % 60, Get(bytes, 4) % 60, Get(bytes, 8) % 24, liveBit * 256 + Get(bytes, 12)),
          Time(Get(bytes, 20) % 60, Get(bytes, 24) % 60, Get(bytes, 28) % 24, latchedBit * 256 + Get(bytes, 32)),
          liveCarry, latchedCarry, liveHalted, latchedHalted, false, 0)
  }

  // ---------------------------------------------------------------------------
  // The clock
  // ---------------------------------------------------------------------------

  class Mbc3Rtc {
    var live: Time
    var latched: Time
    var dayCarry: bool
    var latchedDayCarry: bool
    var halted: bool
    var latchedHalted: bool
    var armed: bool
    var accumulator: nat

    function View(): Clock
      reads this
    {
      Clock(live, latched, dayCarry, latchedDayCarry, halted, latchedHalted, armed, accumulator)
    }

    ghost predicate Valid()
      reads this
    {
      ValidClock(View())
    }

    constructor ()
      ensures Valid() && View() == NEW_CLOCK
    {
      live, latched := MIDNIGHT_ZERO, MIDNIGHT_ZERO;
      dayCarry, latchedDayCarry, halted, latchedHalted, armed := false, false, false, false, false;
      accumulator := 0;
    }

    method Tick(cycles: nat, hz: nat)
      requires Valid()
      modifies this`live, this`dayCarry, this`accumulator
      ensures Valid() && View() == Ticked(old(View()), cycles, hz)
    {
      if halted || hz == 0 {
        return;
      }
      ghost var n, total, counted := 0, accumulator + cycles, View();
      accumulator := accumulator + cycles;
      while accumulator >= hz
        invariant Valid() && Counted(total, hz, n, accumulator)
        invariant counted == Seconds(old(View()), n) && View() == counted.(accumulator := accumulator)
        decreases accumulator
      {
        CountOne(total, hz, n, accumulator);
        accumulator := accumulator - hz;
        NextSecondKeepsPhase(counted, accumulator);
        AdvanceOneSecond();
        n, counted := n + 1, NextSecond(counted);
      }
      CountEnds(total, hz, n, accumulator);
    }

    method AdvanceOneSecond()
      requires Valid()
      modifies this`live, this`dayCarry
      ensures Valid() && View() == NextSecond(old(View()))
    {
      live := live.(seconds := live.seconds + 1);
      if live.seconds < 60 {
        return;
      }
      live := live.(seconds := 0);
      live := live.(minutes := live.minutes + 1);
      if live.minutes < 60 {
        return;
      }
      live := live.(minutes := 0);
      live := live.(hours := live.hours + 1);
      if live.hours < 24 {
        return;
      }
      live := live.(hours := 0);
      live := live.(days := live.days + 1);
      if live.days > 0x1FF {
        live := live.(days := 0);
        dayCarry := true;
      }
    }

    method WriteLatch(value: uint8)
      requires Valid()
      modifies this`armed, this`latched, this`latchedDayCarry, this`latchedHalted
      ensures Valid() && View() == WriteLatchReg(old(View()), value)
    {
      if value == 0 {
        armed := true;
      } else if value == 1 && armed {
        armed := false;
        latched := live;
        latchedDayCarry := dayCarry;
        latchedHalted := halted;
      } else {
        armed := false;
      }
    }

    method ReadRegister(register: uint8) returns (value: uint8)
      requires Valid()
      ensures value == ReadReg(View(), register)
      ensures register == 0x0C ==> SplitDayHigh(value) == (latched.days / 256, latchedDayCarry, latchedHalted)
    {
      match register
      case 0x08 => value := latched.seconds;
      case 0x09 => value := latched.minutes;
      case 0x0A => value := latched.hours;
      case 0x0B => value := latched.days % 256;
      case 0x0C => value := DayHigh(latched.days, latchedDayCarry, latchedHalted);
      case _ => value := 0xFF;
    }

    /** Writes go to the live counter and the latch, so setting the clock takes effect at once. */
    method WriteRegister(register: uint8, value: uint8)
      requires Valid()
      modifies this
      ensures Valid() && View() == WriteReg(old(View()), register, value)
    {
      if register == 0x08 {
        live := live.(seconds := value % 60);
        accumulator := 0;
      } else if register == 0x09 {
        live := live.(minutes := value % 60);
      } else if register == 0x0A {
        live := live.(hours := value % 24);
      } else if register == 0x0B {
        live := live.(days := live.days / 256 % 2 * 256 + value);
      } else if register == 0x0C {
        var (bit, carry, halt) := SplitDayHigh(value);
        live := live.(days := live.days % 256 + bit * 256);
        halted := halt;
        dayCarry := carry;
      } else {
        return;
      }
      latched := live;
      latchedHalted := halted;
      latchedDayCarry := dayCarry;
    }

    method FromTrailerBytes(bytes: seq<uint8>)
      requires |bytes| == TRAILER_LENGTH
      modifies this
      ensures Valid() && View() == FromTrailer(bytes)
    {
      var c := FromTrailer(bytes);
      live, dayCarry, halted := c.live, c.dayCarry, c.halted;
      latched, latchedDayCarry, latchedHalted := c.latched, c.latchedDayCarry, c.latchedHalted;
      armed, accumulator := false, 0;
    }
  }

  // ---------------------------------------------------------------------------
  // What the counting amounts to
  // ---------------------------------------------------------------------------

  lemma NextSecondKeepsPhase(c: Clock, accumulator: nat)
    ensures NextSecond(c.(accumulator := accumulator)) == NextSecond(c).(accumulator := accumulator)
  {
  }

  /** A time in range is its count of seconds. */
  lemma TotalIsUnique(t: Time, u: Time)
    requires InRange(t) && InRange(u) && Total(t) == Total(u)
    ensures t == u
  {
    RadixUnique(t.seconds, t.minutes + 60 * (t.hours + 24 * t.days), u.seconds, u.minutes + 60 * (u.hours + 24 * u.days), 60);
    RadixUnique(t.minutes, t.hours + 24 * t.days, u.minutes, u.hours + 24 * u.days, 60);
    RadixUnique(t.hours, t.days, u.hours, u.days, 24);
  }

  lemma LastSecond(t: Time)
    requires InRange(t)
    ensures Total(t) < SPAN && (Total(t) + 1 == SPAN <==> IsLast(t))
  {
    if Total(t) + 1 == SPAN {
      TotalIsUnique(t, Time(59, 59, 23, 511));
    }
  }

  lemma NextTimeAdds(t: Time)
    requires InRange(t)
    ensures InRange(NextTime(t)) && Total(NextTime(t)) == if IsLast(t) then 0 else Total(t) + 1
  {
  }

  lemma NextCount(t: Time)
    requires InRange(t)
    ensures InRange(NextTime(t)) && Total(NextTime(t)) < SPAN && (IsLast(t) <==> Total(t) + 1 == SPAN)
    ensures Total(NextTime(t)) == if Total(t) + 1 == SPAN then 0 else Total(t) + 1
  {
    NextTimeAdds(t);
    LastSecond(t);
    LastSecond(NextTime(t));
  }

  /** `count` numbers the seconds of 512 days in the order the clock goes through them. */
  ghost predicate NumbersSeconds(count: Time -> nat) {
    forall t {:trigger NextTime(t)} :: InRange(t) ==>
      InRange(NextTime(t)) && count(t) < SPAN && (IsLast(t) <==> count(t) + 1 == SPAN) &&
      count(NextTime(t)) == if count(t) + 1 == SPAN then 0 else count(t) + 1
  }

  lemma TotalNumbersSeconds()
    ensures NumbersSeconds(Total)
  {
    forall t | InRange(t)
      ensures InRange(NextTime(t)) && Total(t) < SPAN && (IsLast(t) <==> Total(t) + 1 == SPAN) &&
        Total(NextTime(t)) == if Total(t) + 1 == SPAN then 0 else Total(t) + 1
    {
      NextCount(t);
      LastSecond(t);
    }
  }

  /** n seconds are n steps of one wrapping counter; the carry is set exactly by wrapping, and stays. */
  lemma {:induction false} SecondsCountUp(count: Time -> nat, c: Clock, n: nat)
    requires ValidClock(c) && NumbersSeconds(count)
    ensures var after := Seconds(c, n);
      ValidClock(after) && count(c.live) < SPAN && count(after.live) == CountUp(count(c.live), n, SPAN) &&
      after == c.(live := after.live, dayCarry := c.dayCarry || count(c.live) + n >= SPAN)
  {
    var _ := NextTime(c.live);
    if n > 0 {
      SecondsCountUp(count, c, n - 1);
      CountUpWraps(count(c.live), n - 1, SPAN);
    }
  }

  /** That is, n more seconds modulo 512 days. */
  lemma SecondsAdd(c: Clock, n: nat)
    requires ValidClock(c)
    ensures var after := Seconds(c, n);
      ValidClock(after) && Total(after.live) == (Total(c.live) + n) % SPAN &&
      after == c.(live := after.live, dayCarry := c.dayCarry || Total(c.live) + n >= SPAN)
  {
    TotalNumbersSeconds();
    SecondsCountUp(Total, c, n);
    CountUpIsMod(Total(c.live), n, SPAN);
  }

  /** A running clock counts floor((accumulated + cycles) / hz) seconds and keeps the remainder. */
  lemma TickAdds(c: Clock, cycles: nat, hz: nat)
    requires ValidClock(c) && !c.halted && hz > 0
    ensures var after, n := Ticked(c, cycles, hz), (c.accumulator + cycles) / hz;
      ValidClock(after) && Total(after.live) == (Total(c.live) + n) % SPAN &&
      (after.dayCarry <==> c.dayCarry || Total(c.live) + n >= SPAN) &&
      after.accumulator == (c.accumulator + cycles) % hz &&
      after == c.(live := after.live, dayCarry := after.dayCarry, accumulator := after.accumulator)
  {
    DivBounds(c.accumulator + cycles, hz);
    SecondsAdd(c, (c.accumulator + cycles) / hz);
  }

  /** Ticking in instalments is ticking once, for any split, rate and state. */
  lemma TicksCompose(c: Clock, a: nat, b: nat, hz: nat)
    requires ValidClock(c)
    ensures Ticked(Ticked(c, a, hz), b, hz) == Ticked(c, a + b, hz)
  {
    if !c.halted && hz > 0 {
      DivBounds(c.accumulator + a, hz);
      var n, r := (c.accumulator + a) / hz, (c.accumulator + a) % hz;
      DivBounds(r + b, hz);
      SecondsCompose(c, n, (r + b) / hz);
      SecondsKeepPhase(Seconds(c, n), (r + b) / hz, r);
      SecondsAdd(c, n);
      assert Ticked(c, a, hz) == Seconds(c, n).(accumulator := r);
      Instalments(c.accumulator, a, b, hz);
    }
  }

  lemma {:induction false} SecondsCompose(c: Clock, n: nat, m: nat)
    ensures Seconds(Seconds(c, n), m) == Seconds(c, n + m)
  {
    if m > 0 {
      SecondsCompose(c, n, m - 1);
    }
  }

  lemma {:induction false} SecondsKeepPhase(c: Clock, n: nat, accumulator: nat)
    ensures Seconds(c.(accumulator := accumulator), n) == Seconds(c, n).(accumulator := accumulator)
  {
    if n > 0 {
      SecondsKeepPhase(c, n - 1, accumulator);
    }
  }

  /** A halted clock, and one with no rate, stands still. */
  lemma HaltedStandsStill(c: Clock, cycles: nat, hz: nat)
    ensures c.halted || hz == 0 ==> Ticked(c, cycles, hz) == c
  {
  }

  // ---------------------------------------------------------------------------
  // The latch and the registers
  // ---------------------------------------------------------------------------

  /** What is read is one instant: ticks change nothing until the next 0-then-1, which shows the time of that moment. */
  lemma LatchShowsOneInstant(c: Clock, cycles: nat, hz: nat, register: uint8)
    requires ValidClock(c)
    ensures var later := Ticked(c, cycles, hz);
      ValidClock(later) && ReadReg(later, register) == ReadReg(c, register) &&
      var latched := WriteLatchReg(WriteLatchReg(later, 0), 1);
      latched.latched == later.live && latched.live == later.live && latched.latchedDayCarry == later.dayCarry
  {
    if !c.halted && hz > 0 {
      TickAdds(c, cycles, hz);
    }
  }

  /** The five registers give back the whole latched time and both flags; any other register reads as open bus. */
  lemma RegistersGiveTheLatch(c: Clock, other: uint8)
    requires ValidClock(c) && !(0x08 <= other <= 0x0C)
    ensures var (bit, carry, halted) := SplitDayHigh(ReadReg(c, 0x0C));
      Time(ReadReg(c, 0x08), ReadReg(c, 0x09), ReadReg(c, 0x0A), bit * 256 + ReadReg(c, 0x0B)) == c.latched &&
      carry == c.latchedDayCarry && halted == c.latchedHalted && ReadReg(c, other) == 0xFF
  {
  }

  /** What reads show is the latched half of the clock, all of it, and nothing else. */
  lemma ReadsShowExactlyTheLatch(c: Clock, d: Clock)
    requires ValidClock(c) && ValidClock(d)
    ensures (forall register: uint8 :: ReadReg(c, register) == ReadReg(d, register)) <==>
      (c.latched, c.latchedDayCarry, c.latchedHalted) == (d.latched, d.latchedDayCarry, d.latchedHalted)
  {
    RegistersGiveTheLatch(c, 0);
    RegistersGiveTheLatch(d, 0);
  }

  /** Setting the five registers, in any values, sets the live clock to what is read back. */
  lemma SettingTheClock(c: Clock, s: uint8, m: uint8, h: uint8, low: uint8, high: uint8)
    requires ValidClock(c)
    ensures var fixed := WriteReg(WriteReg(WriteReg(WriteReg(WriteReg(c, 0x0C, high), 0x0B, low), 0x0A, h), 0x09, m), 0x08, s);
      fixed.live == Time(s % 60, m % 60, h % 24, high % 2 * 256 + low) && fixed.latched == fixed.live && InRange(fixed.live) &&
      ReadReg(fixed, 0x08) == s % 60 && ReadReg(fixed, 0x09) == m % 60 && ReadReg(fixed, 0x0A) == h % 24 && ReadReg(fixed, 0x0B) == low &&
      (ReadReg(fixed, 0x0C) == high <==> high % 64 < 2) && fixed.accumulator == 0
  {
  }

  // ---------------------------------------------------------------------------
  // The trailer
  // ---------------------------------------------------------------------------

  lemma PadThenGet(bytes: seq<uint8>, before: seq<uint8>, value: uint8, after: seq<uint8>)
    requires bytes == before + Pad(value) + after
    ensures Get(bytes, |before|) == value
  {
    assert bytes[|before|..|before| + 4] == Pad(value);
    assert Pow256(4) == 0x1_0000_0000;
    LittleEndianRoundTrip(value, 4);
  }

  lemma DayHighRoundTrip(days: nat, carry: bool, halted: bool)
    requires days < 512
    ensures SplitDayHigh(DayHigh(days, carry, halted)) == (days / 256, carry, halted)
  {
  }

  /** Everything but the latch sequence and the sub-second phase survives the trailer. */
  lemma TrailerRoundTrip(c: Clock, unixTime: uint64)
    requires ValidClock(c)
    ensures FromTrailer(ToTrailer(c, unixTime)) == c.(armed := false, accumulator := 0)
  {
    DayHighRoundTrip(c.live.days, c.dayCarry, c.halted);
    DayHighRoundTrip(c.latched.days, c.latchedDayCarry, c.latchedHalted);
    FieldsInRange(c.live);
    FieldsInRange(c.latched);
    var f := [c.live.seconds, c.live.minutes, c.live.hours, c.live.days % 256, DayHigh(c.live.days, c.dayCarry, c.halted),
              c.latched.seconds, c.latched.minutes, c.latched.hours, c.latched.days % 256,
              DayHigh(c.latched.days, c.latchedDayCarry, c.latchedHalted)];
    TenFields(f, ToLittleEndian(unixTime, 8));
  }

  lemma FieldsInRange(t: Time)
    requires InRange(t)
    ensures Time(t.seconds % 60, t.minutes % 60, t.hours % 24, t.days / 256 * 256 + t.days % 256) == t
  {
  }

  lemma TenFields(f: seq<uint8>, rest: seq<uint8>)
    requires |f| == 10
    ensures var b := Fields(f) + rest;
      Get(b, 0) == f[0] && Get(b, 4) == f[1] && Get(b, 8) == f[2] && Get(b, 12) == f[3] && Get(b, 16) == f[4] &&
      Get(b, 20) == f[5] && Get(b, 24) == f[6] && Get(b, 28) == f[7] && Get(b, 32) == f[8] && Get(b, 36) == f[9]
  {
    FieldRoundTrip(f, 0, rest);
    FieldRoundTrip(f, 1, rest);
    FieldRoundTrip(f, 2, rest);
    FieldRoundTrip(f, 3, rest);
    FieldRoundTrip(f, 4, rest);
    FieldRoundTrip(f, 5, rest);
    FieldRoundTrip(f, 6, rest);
    FieldRoundTrip(f, 7, rest);
    FieldRoundTrip(f, 8, rest);
    FieldRoundTrip(f, 9, rest);
  }

  lemma {:induction false} FieldRoundTrip(f: seq<uint8>, k: nat, rest: seq<uint8>)
    requires k < |f|
    ensures Get(Fields(f) + rest, 4 * k) == f[k]
  {
    var init, last := f[..|f| - 1], f[|f| - 1];
    assert Fields(f) + rest == Fields(init) + (Pad(last) + rest);
    if k == |f| - 1 {
      PadThenGet(Fields(f) + rest, Fields(init), last, rest);
    } else {
      FieldRoundTrip(init, k, Pad(last) + rest);
    }
  }
}
