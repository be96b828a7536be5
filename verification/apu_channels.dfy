/** The square channel: a timer driven by cycles, and the units that the sequencer clocks. */
module SoundChannels {
  import opened Words
  import opened Arith
  import opened SoundUnits

  // ---------------------------------------------------------------------------
  // Timers
  // ---------------------------------------------------------------------------

  /** Reloads made by counting `cycles` off a timer at `timer` with the given period. */
  function Reloads(timer: int, cycles: nat, period: nat): nat
    requires period > 0
  {
    if cycles < timer then 0
    else
      DivBounds(cycles - timer, period);
      (cycles - timer) / period + 1
  }

  function TimerAfter(timer: int, cycles: nat, period: nat): int
    requires period > 0
  {
    timer - cycles + Reloads(timer, cycles, period) * period
  }

  /** After n reloads, none made before it was needed, a timer is at `now`. */
  predicate Reloading(timer: int, cycles: nat, period: nat, n: nat, now: int) {
    now == timer - cycles + n * period && (n > 0 ==> now <= period)
  }

  lemma ReloadOnce(timer: int, cycles: nat, period: nat, n: nat, now: int)
    requires Reloading(timer, cycles, period, n, now) && now <= 0
    ensures Reloading(timer, cycles, period, n + 1, now + period)
  {
    MulDistributes(period, n, 1);
  }

  lemma ReloadsEnd(timer: int, cycles: nat, period: nat, n: nat, now: int)
    requires period > 0 && Reloading(timer, cycles, period, n, now) && now > 0
    ensures n == Reloads(timer, cycles, period) && now == TimerAfter(timer, cycles, period)
  {
    MulDistributes(period, n, -1);
    if cycles < timer {
      if n > 0 {
        MulMono(period, 0, n - 1);
      }
    } else if n > 0 {
      DivUniqueLeft(cycles - timer, n - 1, period, period - now);
    }
  }

  /** A timer reloads only as far as needed: it ends in reach of the period, or where it was going anyway. */
  lemma TimerInRange(timer: int, cycles: nat, period: nat)
    requires period > 0
    ensures TimerAfter(timer, cycles, period) > 0
    ensures Reloads(timer, cycles, period) > 0 ==> TimerAfter(timer, cycles, period) <= period
  {
    if cycles >= timer {
      var x := cycles - timer;
      Recompose(x, period);
      MulDistributes(period, x / period, 1);
    }
  }

  /** Counting in two goes is counting once. */
  lemma TimerSplits(timer: int, a: nat, b: nat, period: nat)
    requires period > 0
    ensures var between := TimerAfter(timer, a, period);
      Reloads(timer, a, period) + Reloads(between, b, period) == Reloads(timer, a + b, period) &&
      TimerAfter(between, b, period) == TimerAfter(timer, a + b, period)
  {
    var n, between := Reloads(timer, a, period), TimerAfter(timer, a, period);
    var m := Reloads(between, b, period);
    TimerInRange(timer, a, period);
    TimerInRange(between, b, period);
    MulDistributes(period, n, m);
    ReloadsEnd(timer, a + b, period, n + m, TimerAfter(between, b, period));
  }

  // ---------------------------------------------------------------------------
  // The square channel
  // ---------------------------------------------------------------------------

  datatype Square = Square(enabled: bool, dacEnabled: bool, duty: nat, dutyStep: nat, frequency: nat, timer: int,
                           length: LengthState, envelope: EnvelopeState, sweep: Option<SweepState>)

  predicate ValidSquare(c: Square) {
    c.frequency <= MAX_FREQUENCY && c.timer > 0 && c.dutyStep < 8 && c.duty < 4 &&
    ValidLength(c.length) && ValidEnvelope(c.envelope) && (c.sweep.Some? ==> ValidSweep(c.sweep.value)) &&
    (c.enabled ==> c.dacEnabled)
  }

  /** T-cycles between duty steps; a frequency in the field leaves at least four. */
  function SquarePeriod(c: Square): (period: nat)
    requires c.frequency <= MAX_FREQUENCY
    ensures period >= 4
  {
    (MAX_FREQUENCY + 1 - c.frequency) * 4
  }

  function SquareTicked(c: Square, cycles: nat): Square
    requires c.frequency <= MAX_FREQUENCY
  {
    var period := SquarePeriod(c);
    c.(timer := TimerAfter(c.timer, cycles, period), dutyStep := (c.dutyStep + Reloads(c.timer, cycles, period)) % 8)
  }

  function SquareTriggered(c: Square): Square
    requires c.frequency <= MAX_FREQUENCY
  {
    var t := c.(enabled := c.dacEnabled, timer := SquarePeriod(c), envelope := EnvelopeTriggered(c.envelope),
                length := LengthTriggered(c.length));
    match c.sweep
    case None => t
    case Some(s) =>
      var (alive, armed) := SweepTriggered(s, c.frequency);
      t.(sweep := Some(armed), enabled := t.enabled && alive)
  }

  function SquareLengthClocked(c: Square): Square {
    var (expired, l) := LengthClocked(c.length);
    c.(length := l, enabled := c.enabled && !expired)
  }

  function SquareSweepClocked(c: Square): Square {
    match c.sweep
    case None => c
    case Some(s) =>
      var (written, alive, after) := SweepClocked(s);
      c.(sweep := Some(after), frequency := (match written case Some(f) => f case None => c.frequency),
         enabled := c.enabled && alive)
  }

  function SquareEnvelopeWritten(c: Square, value: uint8): Square {
    var e := EnvelopeWritten(c.envelope, value);
    c.(envelope := e, dacEnabled := DacOn(e), enabled := c.enabled && DacOn(e))
  }

  function SquareSweepWritten(c: Square, value: uint8): Square {
    match c.sweep
    case None => c
    case Some(s) =>
      var (alive, after) := SweepWritten(s, value);
      c.(sweep := Some(after), enabled := c.enabled && alive)
  }

  function SquareDutyLengthWritten(c: Square, value: uint8): Square
    requires c.length.max > 0
  {
    c.(duty := value / 64, length := LengthWritten(c.length, value % 64))
  }

  /** The field's low eight bits, or its upper three. */
  function SquareFrequencyWritten(c: Square, high: bool, value: uint8): Square {
    c.(frequency := if high then c.frequency % 256 + value % 8 * 256 else c.frequency / 256 % 8 * 256 + value)
  }

  /** The four duty cycles, as eight-step waveforms. */
  const DUTY_PATTERNS: seq<seq<nat>> :=
    [[0, 0, 0, 0, 0, 0, 0, 1], [1, 0, 0, 0, 0, 0, 0, 1], [1, 0, 0, 0, 0, 1, 1, 1], [0, 1, 1, 1, 1, 1, 1, 0]]

  /** The digital level. */
  function SquareOutput(c: Square): nat
    requires c.dutyStep < 8
  {
    if c.enabled && c.dacEnabled then DUTY_PATTERNS[c.duty % 4][c.dutyStep] * c.envelope.volume else 0
  }

  lemma NextStep(step: nat, n: nat)
    requires step < 8
    ensures CountUp(step, n + 1, 8) == (CountUp(step, n, 8) + 1) % 8
  {
    CountUpIsMod(step, n, 8);
  }

  class SquareChannel {
    var enabled: bool
    var dacEnabled: bool
    var duty: nat
    var dutyStep: nat
    var frequency: nat
    var timer: int
    const length: LengthCounter
    const envelope: Envelope
    const sweep: Option<Sweep>

    function View(): Square
      reads this, length, envelope, match sweep case Some(s) => {s} case None => {}
    {
      Square(enabled, dacEnabled, duty, dutyStep, frequency, timer, length.View(), envelope.View(),
             match sweep case Some(s) => Some(s.View()) case None => None)
    }

    constructor (hasSweep: bool)
      ensures View() == Square(false, false, 2, 0, 0, 1, LengthState(0, 64, false), SILENT_ENVELOPE,
                               if hasSweep then Some(IDLE_SWEEP) else None)
      ensures fresh(length) && fresh(envelope) && (sweep.Some? ==> fresh(sweep.value))
    {
      enabled, dacEnabled := false, false;
      duty, dutyStep, frequency, timer := 2, 0, 0, 1;
      length := new LengthCounter(64);
      envelope := new Envelope();
      if hasSweep {
        var s := new Sweep();
        sweep := Some(s);
      } else {
        sweep := None;
      }
    }

    /** The loop ends because the period is positive, which it is because the frequency stays in its field. */
    method Tick(cycles: nat)
      requires frequency <= MAX_FREQUENCY && dutyStep < 8
      modifies this`timer, this`dutyStep
      ensures View() == SquareTicked(old(View()), cycles)
    {
      var period := (MAX_FREQUENCY + 1 - frequency) * 4;
      ghost var n, start, step := 0, timer, dutyStep;
      timer := timer - cycles;
      while timer <= 0
        modifies this`timer, this`dutyStep
        invariant Reloading(start, cycles, period, n, timer) && dutyStep == CountUp(step, n, 8)
        decreases 1 - timer
      {
        ReloadOnce(start, cycles, period, n, timer);
        NextStep(step, n);
        timer := timer + period;
        dutyStep := (dutyStep + 1) % 8;
        n := n + 1;
      }
      ReloadsEnd(start, cycles, period, n, timer);
      CountUpIsMod(step, n, 8);
    }

    method Trigger()
      requires frequency <= MAX_FREQUENCY
      modifies this`enabled, this`timer, length, envelope, match sweep case Some(s) => {s} case None => {}
      ensures View() == SquareTriggered(old(View()))
    {
      enabled := dacEnabled;
      timer := (MAX_FREQUENCY + 1 - frequency) * 4;
      envelope.Trigger();
      length.Trigger();
      match sweep
      case Some(s) =>
        var alive := s.Trigger(frequency);
        if !alive {
          enabled := false;
        }
      case None =>
    }

    method ClockLength()
      modifies this`enabled, length
      ensures View() == SquareLengthClocked(old(View()))
    {
      var expired := length.Clock();
      if expired {
        enabled := false;
      }
    }

    method ClockEnvelope()
      modifies envelope
      ensures View() == old(View()).(envelope := EnvelopeClocked(old(View()).envelope))
    {
      envelope.Clock();
    }

    method ClockSweep()
      modifies this`enabled, this`frequency, match sweep case Some(s) => {s} case None => {}
      ensures View() == SquareSweepClocked(old(View()))
    {
      match sweep
      case None =>
      case Some(s) =>
        var newFrequency, alive := s.Clock();
        match newFrequency {
          case Some(f) => frequency := f;
          case None =>
        }
        if !alive {
          enabled := false;
        }
    }

    method WriteSweep(value: uint8)
      modifies this`enabled, match sweep case Some(s) => {s} case None => {}
      ensures View() == SquareSweepWritten(old(View()), value)
    {
      match sweep
      case None =>
      case Some(s) =>
        var alive := s.WriteRegister(value);
        if !alive {
          enabled := false;
        }
    }

    method WriteDutyLength(value: uint8)
      requires length.max > 0
      modifies this`duty, length
      ensures View() == SquareDutyLengthWritten(old(View()), value)
    {
      duty := value / 0x40;
      length.WriteLength(value % 0x40);
    }

    method WriteFrequencyLow(value: uint8)
      modifies this`frequency
      ensures View() == SquareFrequencyWritten(old(View()), false, value)
    {
      frequency := frequency / 0x100 % 8 * 0x100 + value;
    }

    method WriteFrequencyHigh(value: uint8)
      modifies this`frequency
      ensures View() == SquareFrequencyWritten(old(View()), true, value)
    {
      frequency := frequency % 0x100 + value % 8 * 0x100;
    }

    method Output() returns (level: nat)
      requires dutyStep < 8
      ensures level == SquareOutput(View())
    {
      if !enabled || !dacEnabled {
        return 0;
      }
      level := DUTY_PATTERNS[duty % 4][dutyStep] * envelope.volume;
    }

    method WriteEnvelope(value: uint8)
      modifies this`enabled, this`dacEnabled, envelope
      ensures View() == SquareEnvelopeWritten(old(View()), value)
    {
      envelope.WriteRegister(value);
      dacEnabled := envelope.initialVolume != 0 || envelope.increasing;
      if !dacEnabled {
        enabled := false;
      }
    }
  }

  // ---------------------------------------------------------------------------
  // Runs of a square channel
  // ---------------------------------------------------------------------------

  /** What the system does to the first square channel: its registers, its triggers, and the clocks. */
  datatype Operation =
    | Tick(cycles: nat) | Trigger | ClockLength | ClockEnvelope | ClockSweep
    | WriteSweep(value: uint8) | WriteDutyLength(value: uint8) | WriteEnvelope(value: uint8)
    | WriteFrequencyLow(value: uint8) | WriteFrequencyHigh(value: uint8)

  function Perform(c: Square, op: Operation): Square
    requires ValidSquare(c)
  {
    match op
    case Tick(cycles) => SquareTicked(c, cycles)
    case Trigger => SquareTriggered(c)
    case ClockLength => SquareLengthClocked(c)
    case ClockEnvelope => c.(envelope := EnvelopeClocked(c.envelope))
    case ClockSweep => SquareSweepClocked(c)
    case WriteSweep(value) => SquareSweepWritten(c, value)
    case WriteDutyLength(value) => SquareDutyLengthWritten(c, value)
    case WriteEnvelope(value) => SquareEnvelopeWritten(c, value)
    case WriteFrequencyLow(value) => SquareFrequencyWritten(c, false, value)
    case WriteFrequencyHigh(value) => SquareFrequencyWritten(c, true, value)
  }

  lemma OperationKeepsValid(c: Square, op: Operation)
    requires ValidSquare(c)
    ensures ValidSquare(Perform(c, op))
  {
    match op
    case Tick(cycles) => TimerInRange(c.timer, cycles, SquarePeriod(c));
    case ClockSweep =>
      if c.sweep.Some? {
        SweepStaysInField(c.sweep.value);
      }
    case WriteDutyLength(value) => Recompose(value % 64, c.length.max);
    case _ =>
  }

  function PerformAll(c: Square, ops: seq<Operation>): (after: Square)
    requires ValidSquare(c)
    ensures ValidSquare(after)
    decreases |ops|
  {
    if ops == [] then c
    else
      OperationKeepsValid(c, ops[0]);
      PerformAll(Perform(c, ops[0]), ops[1..])
  }

  /**
   * Over every run of ticks, clocks, triggers and register writes, the frequency and the sweep's copy of it
   * stay in eleven bits, so every tick's loop has a period of at least four and ends; and the channel never
   * sounds with its DAC off.
   */
  lemma RunsStayInField(ops: seq<Operation>, hasSweep: bool)
    ensures var fresh0 := Square(false, false, 2, 0, 0, 1, LengthState(0, 64, false), SILENT_ENVELOPE,
                                 if hasSweep then Some(IDLE_SWEEP) else None);
      ValidSquare(fresh0) && var after := PerformAll(fresh0, ops);
      after.frequency <= 2047 && SquarePeriod(after) == 4 * (2048 - after.frequency) >= 4 && after.timer > 0 && (after.enabled ==> after.dacEnabled)
  {
  }

  /** The two frequency registers, written in either order, set the whole eleven-bit field. */
  lemma FrequencyIsWritten(c: Square, low: uint8, high: uint8)
    ensures var lowFirst := SquareFrequencyWritten(SquareFrequencyWritten(c, false, low), true, high);
      var highFirst := SquareFrequencyWritten(SquareFrequencyWritten(c, true, high), false, low);
      lowFirst == highFirst == c.(frequency := high % 8 * 256 + low)
  {
  }

  /** The duty is the register's top two bits, and its low six count up to the length's end. */
  lemma DutyLengthIsWritten(c: Square, value: uint8)
    requires c.length.max == 64
    ensures var after := SquareDutyLengthWritten(c, value);
      value == 64 * after.duty + (64 - after.length.counter) && 0 < after.length.counter <= 64 && after.duty < 4
  {
  }

  /** Steps of the eight from the first `n` in which a duty cycle is high. */
  function HighSteps(duty: nat, n: nat): nat
    requires duty < 4 && n <= 8
  {
    if n == 0 then 0 else HighSteps(duty, n - 1) + DUTY_PATTERNS[duty][n - 1]
  }

  /** The duty cycles are high an eighth, a quarter, a half and three quarters of the time; the last is the second, inverted. */
  lemma DutyCycles(step: nat)
    requires step < 8
    ensures HighSteps(0, 8) == 1 && HighSteps(1, 8) == 2 && HighSteps(2, 8) == 4 && HighSteps(3, 8) == 6
    ensures DUTY_PATTERNS[3][step] == 1 - DUTY_PATTERNS[1][step]
    ensures forall duty :: 0 <= duty < 4 ==> DUTY_PATTERNS[duty][step] <= 1
  {
    HighInEighths(0);
    HighInEighths(1);
    HighInEighths(2);
    HighInEighths(3);
  }

  lemma HighInEighths(duty: nat)
    requires duty < 4
    ensures var p := DUTY_PATTERNS[duty]; HighSteps(duty, 8) == p[0] + p[1] + p[2] + p[3] + p[4] + p[5] + p[6] + p[7]
  {
    assert HighSteps(duty, 4) == DUTY_PATTERNS[duty][0] + DUTY_PATTERNS[duty][1] + DUTY_PATTERNS[duty][2] + DUTY_PATTERNS[duty][3];
  }

  /** Ticking in two goes is ticking once. */
  lemma SquareTicksCompose(c: Square, a: nat, b: nat)
    requires c.frequency <= MAX_FREQUENCY
    ensures SquareTicked(SquareTicked(c, a), b) == SquareTicked(c, a + b)
  {
    var period := SquarePeriod(c);
    TimerSplits(c.timer, a, b, period);
    var n, m := Reloads(c.timer, a, period), Reloads(TimerAfter(c.timer, a, period), b, period);
    Instalments(c.dutyStep, n, m, 8);
  }

  /** Eight periods are one whole cycle of the waveform: the channel is back exactly where it was. */
  lemma WholeWaveform(c: Square)
    requires ValidSquare(c)
    ensures c.timer <= SquarePeriod(c) ==> SquareTicked(c, 8 * SquarePeriod(c)) == c
  {
    var period := SquarePeriod(c);
    var x := 8 * period - c.timer;
    if c.timer <= period {
      DivUniqueLeft(x, 7, period, period - c.timer);
      SmallMod(c.dutyStep, 8);
      if c.timer == period {
        DivUniqueLeft(x, 7, period, 0);
      }
    }
  }

  /** `n` sequencer clocks of the sweep. */
  function SweepClockedTimes(c: Square, n: nat): Square {
    if n == 0 then c else SquareSweepClocked(SweepClockedTimes(c, n - 1))
  }

  lemma {:induction false} SweepKillsChannel(c: Square, n: nat)
    requires c.sweep.Some?
    ensures var after := SweepClockedTimes(c, n);
      after.sweep == Some(SweepClocks(c.sweep.value, n).1) && (after.enabled <==> c.enabled && SweepClocks(c.sweep.value, n).0)
  {
    if n > 0 {
      SweepKillsChannel(c, n - 1);
    }
  }

  /** A note triggered on a rising sweep that moves is off within period * (2048 - frequency) sweep clocks. */
  lemma RisingNoteEnds(c: Square, n: nat)
    requires ValidSquare(c) && c.sweep.Some?
    requires var s := c.sweep.value;
      !s.decreasing && 0 < s.period && 0 < s.shift && c.frequency / Pow2(s.shift) > 0 &&
      n >= s.period * (MAX_FREQUENCY + 1 - c.frequency)
    ensures !SweepClockedTimes(SquareTriggered(c), n).enabled
  {
    RisingSweepEnds(c.sweep.value, c.frequency, n);
    SweepKillsChannel(SquareTriggered(c), n);
  }
}
