/** The sub-units the sound channels share: envelope, length counter and frequency sweep. */
module SoundUnits {
  import opened Words
  import opened Arith

  // ---------------------------------------------------------------------------
  // Envelope
  // ---------------------------------------------------------------------------

  datatype EnvelopeState = EnvelopeState(volume: nat, initialVolume: nat, increasing: bool, period: nat, timer: nat)

  const SILENT_ENVELOPE := EnvelopeState(0, 0, false, 0, 0)

  predicate ValidEnvelope(e: EnvelopeState) {
    e.volume <= 15 && e.initialVolume <= 15 && e.period <= 7 && e.timer <= 7
  }

  function EnvelopeWritten(e: EnvelopeState, value: uint8): EnvelopeState {
    e.(initialVolume := value / 16, increasing := value / 8 % 2 == 1, period := value % 8)
  }

  /** Zero volume counting down can produce nothing, and switches the DAC off. */
  predicate DacOn(e: EnvelopeState) {
    e.initialVolume != 0 || e.increasing
  }

  function EnvelopeTriggered(e: EnvelopeState): EnvelopeState {
    e.(volume := e.initialVolume, timer := e.period)
  }

  function EnvelopeClocked(e: EnvelopeState): EnvelopeState {
    if e.period == 0 then e
    else
      var timer := if e.timer > 0 then e.timer - 1 else 0;
      if timer != 0 then e.(timer := timer)
      else if e.increasing && e.volume < 15 then e.(timer := e.period, volume := e.volume + 1)
      else if !e.increasing && e.volume > 0 then e.(timer := e.period, volume := e.volume - 1)
      else e.(timer := e.period)
  }

  class Envelope {
    var volume: nat
    var initialVolume: nat
    var increasing: bool
    var period: nat
    var timer: nat

    function View(): EnvelopeState
      reads this
    {
      EnvelopeState(volume, initialVolume, increasing, period, timer)
    }

    constructor ()
      ensures View() == SILENT_ENVELOPE
    {
      volume, initialVolume, increasing, period, timer := 0, 0, false, 0, 0;
    }

    method WriteRegister(value: uint8)
      modifies this
      ensures View() == EnvelopeWritten(old(View()), value)
    {
      initialVolume := value / 16;
      increasing := value / 8 % 2 == 1;
      period := value % 8;
    }

    method Trigger()
      modifies this
      ensures View() == EnvelopeTriggered(old(View()))
    {
      volume := initialVolume;
      timer := period;
    }

    /** One 64 Hz step. */
    method Clock()
      modifies this
      ensures View() == EnvelopeClocked(old(View()))
    {
      if period == 0 {
        return;
      }
      if timer > 0 {
        timer := timer - 1;
      }
      if timer != 0 {
        return;
      }
      timer := period;
      if increasing && volume < 15 {
        volume := volume + 1;
      } else if !increasing && volume > 0 {
        volume := volume - 1;
      }
    }
  }

  function EnvelopeClocks(e: EnvelopeState, n: nat): EnvelopeState {
    if n == 0 then e else EnvelopeClocked(EnvelopeClocks(e, n - 1))
  }

  function Moved(from: nat, steps: nat, up: bool): nat {
    if up then if from + steps > 15 then 15 else from + steps else if steps > from then 0 else from - steps
  }

  /**
   * n steps after a trigger the level has moved one for each whole period, and stopped at the end it was
   * heading for; with period zero it never moves.
   */
  lemma {:induction false} EnvelopeLevel(e: EnvelopeState, n: nat)
    requires ValidEnvelope(e)
    ensures var after := EnvelopeClocks(EnvelopeTriggered(e), n);
      after == if e.period == 0 then EnvelopeTriggered(e)
        else e.(volume := Moved(e.initialVolume, n / e.period, e.increasing), timer := e.period - n % e.period)
  {
    if n > 0 {
      EnvelopeLevel(e, n - 1);
      if e.period > 0 {
        ModSucc(n - 1, e.period);
        DivSucc(n - 1, e.period);
      }
    } else if e.period > 0 {
      SmallMod(0, e.period);
      DivUnique(0, e.period, 0, 0);
    }
  }

  // ---------------------------------------------------------------------------
  // Length
  // ---------------------------------------------------------------------------

  datatype LengthState = LengthState(counter: nat, max: nat, enabled: bool)

  predicate ValidLength(l: LengthState) {
    l.max > 0 && l.counter <= l.max
  }

  function LengthWritten(l: LengthState, value: nat): LengthState
    requires l.max > 0
  {
    l.(counter := l.max - value % l.max)
  }

  function LengthClocked(l: LengthState): (bool, LengthState) {
    if !l.enabled || l.counter == 0 then (false, l) else (l.counter == 1, l.(counter := l.counter - 1))
  }

  function LengthTriggered(l: LengthState): LengthState {
    if l.counter == 0 then l.(counter := l.max) else l
  }

  class LengthCounter {
    var counter: nat
    var max: nat
    var enabled: bool

    function View(): LengthState
      reads this
    {
      LengthState(counter, max, enabled)
    }

    constructor (max: nat)
      ensures View() == LengthState(0, max, false)
    {
      counter, enabled := 0, false;
      this.max := max;
    }

    /** The register holds the value to count up from. */
    method WriteLength(value: nat)
      requires max > 0
      modifies this
      ensures View() == LengthWritten(old(View()), value)
    {
      counter := max - value % max;
    }

    /** One 256 Hz step; true when the channel should be switched off. */
    method Clock() returns (expired: bool)
      modifies this
      ensures (expired, View()) == LengthClocked(old(View()))
    {
      if !enabled || counter == 0 {
        return false;
      }
      counter := counter - 1;
      expired := counter == 0;
    }

    method Trigger()
      modifies this
      ensures View() == LengthTriggered(old(View()))
    {
      if counter == 0 {
        counter := max;
      }
    }
  }

  /** `n` clocks, and whether the last of them switched the channel off. */
  function LengthClocks(l: LengthState, n: nat): (bool, LengthState) {
    if n == 0 then (false, l) else LengthClocked(LengthClocks(l, n - 1).1)
  }

  /** An enabled counter switches its channel off at exactly the clock that uses it up, and only once. */
  lemma {:induction false} LengthRunsOut(l: LengthState, n: nat)
    requires l.enabled
    ensures LengthClocks(l, n) == (n > 0 && n == l.counter, l.(counter := if n < l.counter then l.counter - n else 0))
  {
    if n > 0 {
      LengthRunsOut(l, n - 1);
    }
  }

  // ---------------------------------------------------------------------------
  // Sweep
  // ---------------------------------------------------------------------------

  const MAX_FREQUENCY: nat := 2047

  datatype SweepState = SweepState(period: nat, decreasing: bool, shift: nat, timer: nat, shadow: nat,
                                   active: bool, negateCalculated: bool)

  const IDLE_SWEEP := SweepState(0, false, 0, 0, 0, false, false)

  predicate ValidSweep(s: SweepState) {
    s.period <= 7 && s.shift <= 7 && s.timer <= 8 && s.shadow <= MAX_FREQUENCY
  }

  /** A register write; false when leaving negate mode after a negate calculation strands the unit. */
  function SweepWritten(s: SweepState, value: uint8): (bool, SweepState) {
    var next := s.(period := value / 16 % 8, decreasing := value / 8 % 2 == 1, shift := value % 8);
    if s.decreasing && !next.decreasing && s.negateCalculated then (false, next.(negateCalculated := false)) else (true, next)
  }

  /** One step away; a rising step may leave the 11-bit field, which is how overflow shows. */
  function NextFrequency(s: SweepState): nat {
    DivBounds(s.shadow, Pow2(s.shift));
    var delta := s.shadow / Pow2(s.shift);
    if s.decreasing then s.shadow - delta else s.shadow + delta
  }

  function Calculated(s: SweepState): SweepState {
    s.(negateCalculated := s.negateCalculated || s.decreasing)
  }

  function Reload(s: SweepState): nat {
    if s.period == 0 then 8 else s.period
  }

  function SweepTriggered(s: SweepState, frequency: nat): (bool, SweepState) {
    var armed := s.(shadow := frequency, timer := Reload(s), active := s.period != 0 || s.shift != 0, negateCalculated := false);
    if s.shift != 0 then (NextFrequency(armed) <= MAX_FREQUENCY, Calculated(armed)) else (true, armed)
  }

  /** One clock: the frequency to write back, and whether the channel survives. */
  function SweepClocked(s: SweepState): (Option<nat>, bool, SweepState) {
    if !s.active then (None, true, s)
    else
      var timer := if s.timer > 0 then s.timer - 1 else 0;
      if timer != 0 then (None, true, s.(timer := timer))
      else
        var t := s.(timer := Reload(s));
        if s.period == 0 then (None, true, t)
        else
          var c := Calculated(t);
          var frequency := NextFrequency(c);
          if frequency > MAX_FREQUENCY then (None, false, c)
          else if s.shift == 0 then (None, true, c)
          else
            var swept := c.(shadow := frequency);
            (Some(frequency), NextFrequency(swept) <= MAX_FREQUENCY, swept)
  }

  class Sweep {
    var period: nat
    var decreasing: bool
    var shift: nat
    var timer: nat
    var shadow: nat
    var active: bool
    var negateCalculated: bool

    function View(): SweepState
      reads this
    {
      SweepState(period, decreasing, shift, timer, shadow, active, negateCalculated)
    }

    constructor ()
      ensures View() == IDLE_SWEEP
    {
      period, shift, timer, shadow := 0, 0, 0, 0;
      decreasing, active, negateCalculated := false, false, false;
    }

    method WriteRegister(value: uint8) returns (alive: bool)
      modifies this
      ensures (alive, View()) == SweepWritten(old(View()), value)
    {
      var wasDecreasing := decreasing;
      period := value / 16 % 8;
      decreasing := value / 8 % 2 == 1;
      shift := value % 8;
      if wasDecreasing && !decreasing && negateCalculated {
        negateCalculated := false;
        return false;
      }
      return true;
    }

    method Calculate() returns (frequency: nat)
      modifies this`negateCalculated
      ensures View() == Calculated(old(View())) && frequency == NextFrequency(View())
    {
      negateCalculated := negateCalculated || decreasing;
      frequency := NextFrequency(View());
    }

    method Trigger(frequency: nat) returns (alive: bool)
      modifies this
      ensures (alive, View()) == SweepTriggered(old(View()), frequency)
    {
      shadow := frequency;
      timer := if period == 0 then 8 else period;
      active := period != 0 || shift != 0;
      negateCalculated := false;
      if shift != 0 {
        var next := Calculate();
        return next <= MAX_FREQUENCY;
      }
      return true;
    }

    /** One 128 Hz step. */
    method Clock() returns (newFrequency: Option<nat>, alive: bool)
      modifies this
      ensures (newFrequency, alive, View()) == SweepClocked(old(View()))
    {
      if !active {
        return None, true;
      }
      if timer > 0 {
        timer := timer - 1;
      }
      if timer != 0 {
        return None, true;
      }
      timer := if period == 0 then 8 else period;
      if period == 0 {
        return None, true;
      }
      var frequency := Calculate();
      if frequency > MAX_FREQUENCY {
        return None, false;
      }
      if shift == 0 {
        return None, true;
      }
      shadow := frequency;
      // The second check, on the frequency after this one.
      var overflows := NextFrequency(View()) > MAX_FREQUENCY;
      return Some(frequency), !overflows;
    }
  }

  /** The sweep's own copy stays in the field, and so does whatever it writes back. */
  lemma SweepStaysInField(s: SweepState)
    requires ValidSweep(s)
    ensures var (written, _, after) := SweepClocked(s);
      ValidSweep(after) && (written.Some? ==> written.value <= MAX_FREQUENCY && written.value == after.shadow)
  {
  }

  /** The step is the shadow's quotient by two to the shift, up or down; above 2047 it ends the note. */
  lemma SweepInNumbers(s: SweepState)
    requires ValidSweep(s)
    ensures var next, unit := NextFrequency(s), Pow2(s.shift);
      var step := if s.decreasing then s.shadow - next else next - s.shadow;
      unit * step <= s.shadow < unit * (step + 1) && (s.decreasing ==> next <= s.shadow)
    ensures var (written, alive, _) := SweepClocked(s);
      s.active && s.timer <= 1 && s.period > 0 && NextFrequency(s) > 2047 ==> !alive && written == None
    ensures WritesBack(s) ==> SweepClocked(s).0 == Some(NextFrequency(s))
  {
    var unit := Pow2(s.shift);
    Recompose(s.shadow, unit);
    MulDistributes(unit, s.shadow / unit, 1);
    DivBounds(s.shadow, unit);
  }

  /** A clock that writes a frequency back. */
  predicate WritesBack(s: SweepState) {
    s.active && s.timer <= 1 && s.period > 0 && s.shift > 0 && NextFrequency(s) <= 2047
  }

  /** A falling sweep never ends its note, and never raises its frequency. */
  lemma {:induction false} FallingSweepNeverEnds(s: SweepState, n: nat)
    requires ValidSweep(s) && s.decreasing
    ensures SweepClocks(s, n).0 && var after := SweepClocks(s, n).1;
      ValidSweep(after) && after.decreasing && after.shadow <= s.shadow
  {
    if n > 0 {
      FallingSweepNeverEnds(s, n - 1);
      var before := SweepClocks(s, n - 1).1;
      SweepInNumbers(before);
      SweepInNumbers(before.(shadow := NextFrequency(before)));
    }
  }

  // ---------------------------------------------------------------------------
  // A rising sweep ends its note
  // ---------------------------------------------------------------------------

  predicate Rising(s: SweepState) {
    ValidSweep(s) && s.active && !s.decreasing && 0 < s.period && 0 < s.shift && s.shadow / Pow2(s.shift) > 0 &&
    0 < s.timer <= s.period
  }

  /** `n` clocks; whether the channel survived them all. */
  function SweepClocks(s: SweepState, n: nat): (bool, SweepState) {
    if n == 0 then (true, s)
    else
      var before := SweepClocks(s, n - 1);
      var (_, alive, after) := SweepClocked(before.1);
      (before.0 && alive, after)
  }

  lemma DivMono(x: nat, y: nat, m: nat)
    requires x <= y && m > 0
    ensures x / m <= y / m
  {
    Recompose(x, m);
    Recompose(y, m);
    if x / m > y / m {
      MulMono(m, y / m + 1, x / m);
    }
  }

  /** Clocks left, at most, before a rising sweep must end its note. */
  function ClocksLeft(s: SweepState): int {
    s.timer + s.period * (MAX_FREQUENCY - s.shadow)
  }

  /** Each clock of a rising sweep counts its timer down, or raises the frequency, or ends the note: one less is left. */
  lemma RisingStep(s: SweepState)
    requires Rising(s)
    ensures var (_, alive, after) := SweepClocked(s); alive ==> Rising(after) && ClocksLeft(after) < ClocksLeft(s)
  {
    var (_, alive, after) := SweepClocked(s);
    if s.timer == 1 && alive {
      DivMono(s.shadow, after.shadow, Pow2(s.shift));
      MulMono(s.period, 1, after.shadow - s.shadow);
      MulDistributes(s.period, MAX_FREQUENCY - after.shadow, after.shadow - s.shadow);
    }
  }

  lemma {:induction false} RisingSurvives(s: SweepState, n: nat)
    requires Rising(s) && SweepClocks(s, n).0
    ensures var after := SweepClocks(s, n).1; Rising(after) && ClocksLeft(after) + n <= ClocksLeft(s)
  {
    if n > 0 {
      RisingSurvives(s, n - 1);
      RisingStep(SweepClocks(s, n - 1).1);
    }
  }

  /**
   * A rising sweep that moves at all does not outlive period * (2048 - frequency) clocks of its trigger: it
   * is switched off at the trigger or by then.
   */
  lemma RisingSweepEnds(s: SweepState, frequency: nat, n: nat)
    requires ValidSweep(s) && frequency <= MAX_FREQUENCY && !s.decreasing && 0 < s.period && 0 < s.shift
    requires frequency / Pow2(s.shift) > 0 && n >= s.period * (MAX_FREQUENCY + 1 - frequency)
    ensures var (alive, armed) := SweepTriggered(s, frequency); !(alive && SweepClocks(armed, n).0)
  {
    var (alive, armed) := SweepTriggered(s, frequency);
    if SweepClocks(armed, n).0 {
      RisingSurvives(armed, n);
      var after := SweepClocks(armed, n).1;
      MulMono(after.period, 0, MAX_FREQUENCY - after.shadow);
      MulDistributes(s.period, 1, MAX_FREQUENCY - frequency);
    }
  }

  /** A sweep with nothing to add never moves, so such a note is never ended by it. */
  lemma {:induction false} StillSweepNeverEnds(s: SweepState, n: nat)
    requires ValidSweep(s) && !s.decreasing && s.shift > 0 && s.shadow / Pow2(s.shift) == 0
    ensures SweepClocks(s, n).0 && var after := SweepClocks(s, n).1;
      ValidSweep(after) && !after.decreasing && after.shift == s.shift && after.shadow == s.shadow
  {
    if n > 0 {
      StillSweepNeverEnds(s, n - 1);
    }
  }
}
