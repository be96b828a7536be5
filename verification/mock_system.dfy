/** The canonical frame loop: run the CPU up to the next event, drain what is due, repeat. */
module MockSystems {
  import opened Words
  import opened Scheduling
  import opened SchedulerRuns

  const WRAM_LEN: nat := 0x1000
  const SAVE_BASE: nat := 0x2000
  const SAVE_LEN: nat := 0x20
  const MMIO_BASE: nat := 0x4000
  const MMIO_LEN: nat := 0x10

  const SCREEN_H: nat := 8
  const CYCLES_PER_SCANLINE: nat := 100
  const CYCLES_PER_AUDIO_SAMPLE: nat := 50
  const FRAME_CYCLES: nat := CYCLES_PER_SCANLINE * SCREEN_H

  datatype MockEvent = FrameEnd | Scanline(row: uint8) | AudioTick

  function EncodeEvent(e: MockEvent): seq<uint8> {
    match e
    case FrameEnd => [0]
    case Scanline(row) => [1, row]
    case AudioTick => [2]
  }

  function DecodeEvent(bytes: seq<uint8>): Option<(MockEvent, seq<uint8>)> {
    if bytes == [] then None
    else if bytes[0] == 0 then Some((FrameEnd, bytes[1..]))
    else if bytes[0] == 1 then if |bytes| < 2 then None else Some((Scanline(bytes[1]), bytes[2..]))
    else if bytes[0] == 2 then Some((AudioTick, bytes[1..]))
    else None
  }

  const MOCK_CODEC: Codec<MockEvent> := Codec(EncodeEvent, DecodeEvent)

  lemma MockCodecIsFaithful()
    ensures Faithful(MOCK_CODEC)
  {
    forall e, tail ensures MOCK_CODEC.dec(MOCK_CODEC.enc(e) + tail) == Some((e, tail)) {
      var bytes := EncodeEvent(e) + tail;
      if e.Scanline? {
        assert bytes[2..] == tail;
      } else {
        assert bytes[1..] == tail;
      }
    }
  }

  // ---------------------------------------------------------------------------
  // Bus and CPU
  // ---------------------------------------------------------------------------

  datatype BusState = BusState(wram: seq<uint8>, saveRam: seq<uint8>, mmio: seq<uint8>, last: uint8, dirty: bool, buttons: nat)

  predicate ValidBus(b: BusState) {
    |b.wram| == WRAM_LEN && |b.saveRam| == SAVE_LEN && |b.mmio| == MMIO_LEN
  }

  const CLEAR_BUS: BusState :=
    BusState(seq(WRAM_LEN, _ => 0), seq(SAVE_LEN, _ => 0), seq(MMIO_LEN, _ => 0), 0xFF, false, 0)

  /** Registers before memory, the input register first of them; where nothing answers, the last value seen. */
  function ReadFrom(b: BusState, addr: uint16): uint8
    requires ValidBus(b)
  {
    if MMIO_BASE <= addr < MMIO_BASE + MMIO_LEN then if addr == MMIO_BASE then b.buttons % 256 else b.mmio[addr - MMIO_BASE]
    else if addr < WRAM_LEN then b.wram[addr]
    else if SAVE_BASE <= addr < SAVE_BASE + SAVE_LEN then b.saveRam[addr - SAVE_BASE]
    else b.last
  }

  function WrittenTo(b: BusState, addr: uint16, value: uint8): (after: BusState)
    requires ValidBus(b)
    ensures ValidBus(after) && after.buttons == b.buttons
    ensures after.dirty == (b.dirty || SAVE_BASE <= addr < SAVE_BASE + SAVE_LEN)
  {
    var seen := b.(last := value);
    if MMIO_BASE <= addr < MMIO_BASE + MMIO_LEN then seen.(mmio := b.mmio[addr - MMIO_BASE := value])
    else if addr < WRAM_LEN then seen.(wram := b.wram[addr := value])
    else if SAVE_BASE <= addr < SAVE_BASE + SAVE_LEN then seen.(saveRam := b.saveRam[addr - SAVE_BASE := value], dirty := true)
    else seen
  }

  /** Work memory, the sixteen registers but the input register, and save memory. */
  predicate IsStored(addr: uint16) {
    addr < 0x1000 || 0x4001 <= addr < 0x4010 || 0x2000 <= addr < 0x2020
  }

  /**
   * Each stored address is a byte of its own: it reads as last written, whatever else is. The input register reads
   * as the input, every other address as the last value seen on the bus, and only save memory is marked dirty.
   */
  lemma StoredBytesAreApart(b: BusState, addr: uint16, value: uint8, other: uint16)
    requires ValidBus(b)
    ensures var after := WrittenTo(b, addr, value);
      ReadFrom(after, other) == (if other == 0x4000 then b.buttons % 256
        else if !IsStored(other) then value
        else if other == addr then value
        else ReadFrom(b, other)) &&
      (after.dirty <==> b.dirty || 0x2000 <= addr < 0x2020)
  {
  }

  class MockBus {
    var wram: seq<uint8>
    var saveRam: seq<uint8>
    var mmio: seq<uint8>
    var lastValue: uint8
    var saveRamDirty: bool
    var buttons: nat

    function View(): BusState
      reads this
    {
      BusState(wram, saveRam, mmio, lastValue, saveRamDirty, buttons)
    }

    ghost predicate Valid()
      reads this
    {
      ValidBus(View())
    }

    constructor ()
      ensures View() == CLEAR_BUS
    {
      wram := seq(WRAM_LEN, _ => 0);
      saveRam := seq(SAVE_LEN, _ => 0);
      mmio := seq(MMIO_LEN, _ => 0);
      lastValue, saveRamDirty, buttons := 0xFF, false, 0;
    }

    method Clear()
      modifies this
      ensures View() == CLEAR_BUS
    {
      wram := seq(WRAM_LEN, _ => 0);
      saveRam := seq(SAVE_LEN, _ => 0);
      mmio := seq(MMIO_LEN, _ => 0);
      lastValue, saveRamDirty, buttons := 0xFF, false, 0;
    }

    method Read8(addr: uint16) returns (value: uint8)
      requires Valid()
      modifies this`lastValue
      ensures value == ReadFrom(old(View()), addr) && View() == old(View()).(last := value)
    {
      if addr == MMIO_BASE {
        value := buttons % 256;
      } else if MMIO_BASE <= addr < MMIO_BASE + MMIO_LEN {
        value := mmio[addr - MMIO_BASE];
      } else if addr < WRAM_LEN {
        value := wram[addr];
      } else if SAVE_BASE <= addr < SAVE_BASE + SAVE_LEN {
        value := saveRam[addr - SAVE_BASE];
      } else {
        value := lastValue; // open bus
      }
      lastValue := value;
    }

    method Write8(addr: uint16, value: uint8)
      requires Valid()
      modifies this
      ensures View() == WrittenTo(old(View()), addr, value)
    {
      lastValue := value;
      if MMIO_BASE <= addr < MMIO_BASE + MMIO_LEN {
        mmio := mmio[addr - MMIO_BASE := value];
      } else if addr < WRAM_LEN {
        wram := wram[addr := value];
      } else if SAVE_BASE <= addr < SAVE_BASE + SAVE_LEN {
        saveRam := saveRam[addr - SAVE_BASE := value];
        saveRamDirty := true;
      }
    }
  }

  datatype TinyState = TinyState(a: uint8, pc: uint16, halted: bool)

  function Fetched(c: TinyState, b: BusState): (uint8, TinyState, BusState)
    requires ValidBus(b)
  {
    var value := ReadFrom(b, c.pc);
    (value, c.(pc := (c.pc + 1) % 0x1_0000), b.(last := value))
  }

  function FetchedWord(c: TinyState, b: BusState): (uint16, TinyState, BusState)
    requires ValidBus(b)
  {
    var (lo, c1, b1) := Fetched(c, b);
    var (hi, c2, b2) := Fetched(c1, b1);
    ((lo as int) + 256 * (hi as int), c2, b2)
  }

  /** One instruction of the toy core: a halted core burns time too, and every instruction costs 4 to 16 cycles. */
  function TinyStepped(c: TinyState, b: BusState): (r: (TinyState, BusState, nat))
    requires ValidBus(b)
    ensures ValidBus(r.1) && r.1.buttons == b.buttons && 4 <= r.2 <= 16 && r.2 % 4 == 0
  {
    if c.halted then (c, b, 4)
    else
      var (opcode, c1, b1) := Fetched(c, b);
      if opcode == 0x01 then
        var (imm, c2, b2) := Fetched(c1, b1);
        (c2.(a := imm), b2, 8)
      else if opcode == 0x02 then
        var (addr, c2, b2) := FetchedWord(c1, b1);
        (c2, WrittenTo(b2, addr, c.a), 12)
      else if opcode == 0x03 then
        var (addr, c2, b2) := FetchedWord(c1, b1);
        var value := ReadFrom(b2, addr);
        (c2.(a := value), b2.(last := value), 12)
      else if opcode == 0x04 then (c1.(a := (c.a + 1) % 256), b1, 4)
      else if opcode == 0x05 then
        var (target, c2, b2) := FetchedWord(c1, b1);
        (c2.(pc := target), b2, 16)
      else (c1.(halted := opcode == 0x76), b1, 4)
  }

  /** A one-accumulator toy core whose instructions cost 4 to 16 cycles. */
  class TinyCpu {
    var a: uint8
    var pc: uint16
    var halted: bool

    function View(): TinyState
      reads this
    {
      TinyState(a, pc, halted)
    }

    constructor ()
      ensures View() == TinyState(0, 0, false)
    {
      a, pc, halted := 0, 0, false;
    }

    method Reset()
      modifies this
      ensures View() == TinyState(0, 0, false)
    {
      a, pc, halted := 0, 0, false;
    }

    method Fetch8(bus: MockBus) returns (value: uint8)
      requires bus.Valid()
      modifies this`pc, bus`lastValue
      ensures (value, View(), bus.View()) == Fetched(old(View()), old(bus.View()))
    {
      value := bus.Read8(pc);
      pc := (pc + 1) % 0x1_0000;
    }

    method Fetch16(bus: MockBus) returns (value: uint16)
      requires bus.Valid()
      modifies this`pc, bus`lastValue
      ensures (value, View(), bus.View()) == FetchedWord(old(View()), old(bus.View()))
    {
      var lo: nat := Fetch8(bus);
      var hi: nat := Fetch8(bus);
      value := lo + 256 * hi;
    }

    method Step(bus: MockBus) returns (cost: nat)
      requires bus.Valid()
      modifies this, bus
      ensures (View(), bus.View(), cost) == TinyStepped(old(View()), old(bus.View()))
    {
      hide ReadFrom, WrittenTo;
      if halted {
        return 4;
      }
      var opcode := Fetch8(bus);
      if opcode == 0x01 { // LD A, imm8
        a := Fetch8(bus);
        return 8;
      } else if opcode == 0x02 { // ST (addr16), A
        var addr := Fetch16(bus);
        bus.Write8(addr, a);
        return 12;
      } else if opcode == 0x03 { // LD A, (addr16)
        var addr := Fetch16(bus);
        a := bus.Read8(addr);
        return 12;
      } else if opcode == 0x04 { // INC A
        a := (a + 1) % 256;
        return 4;
      } else if opcode == 0x05 { // JP addr16
        pc := Fetch16(bus);
        return 16;
      } else if opcode == 0x76 { // HALT
        halted := true;
        return 4;
      }
      return 4;
    }
  }

  // ---------------------------------------------------------------------------
  // The queue as timestamps and events
  // ---------------------------------------------------------------------------

  function Kind(e: MockEvent): nat {
    match e
    case FrameEnd => 0
    case Scanline(_) => 1
    case AudioTick => 2
  }

  /** Where each kind of event belongs: the next multiple of its period, or the frame's end. */
  predicate Placed(e: Entry<MockEvent>, lines: nat, ticks: nat, end: Option<nat>) {
    match e.event
    case FrameEnd => end == Some(e.when)
    case Scanline(row) => e.when == 100 * (lines + 1) && row == lines % 8
    case AudioTick => e.when == 50 * (ticks + 1)
  }

  /** Exactly one entry of each kind, each in its place; a frame end only if one is queued. */
  ghost predicate Shape(p: seq<Entry<MockEvent>>, lines: nat, ticks: nat, end: Option<nat>) {
    && |p| == (if end.Some? then 3 else 2)
    && (forall i :: 0 <= i < |p| ==> Placed(p[i], lines, ticks, end))
    && (forall i, j :: 0 <= i < j < |p| ==> Kind(p[i].event) != Kind(p[j].event))
  }

  lemma {:induction false} InsertPosition(p: seq<Entry<MockEvent>>, e: Entry<MockEvent>) returns (k: nat)
    ensures k <= |p| && Insert(p, e) == p[..k] + [e] + p[k..]
  {
    if p == [] || Sooner(e, p[0]) {
      k := 0;
    } else {
      k := InsertPosition(p[1..], e);
      k := k + 1;
      assert p == [p[0]] + p[1..];
    }
  }

  /** No event is due before the head, whichever kind the head is. */
  lemma HeadIsEarliest(p: seq<Entry<MockEvent>>, lines: nat, ticks: nat, end: Option<nat>)
    requires Ordered(p) && Shape(p, lines, ticks, end)
    ensures p[0].when <= 100 * (lines + 1) && p[0].when <= 50 * (ticks + 1) && (end.Some? ==> p[0].when <= end.value)
  {
    assert Sooner(p[0], p[1]);
    assert Placed(p[0], lines, ticks, end) && Placed(p[1], lines, ticks, end);
    assert Kind(p[0].event) != Kind(p[1].event);
    if end.Some? {
      assert Sooner(p[0], p[2]);
      assert Placed(p[2], lines, ticks, end);
      assert Kind(p[0].event) != Kind(p[2].event) && Kind(p[1].event) != Kind(p[2].event);
    }
  }

  /** Popping a recurring event and rescheduling it restores the shape one period on. */
  lemma Rescheduled(p: seq<Entry<MockEvent>>, e: Entry<MockEvent>, lines: nat, ticks: nat, end: Option<nat>)
    requires Shape(p, lines, ticks, end) && !p[0].event.FrameEnd? && Kind(e.event) == Kind(p[0].event)
    requires Placed(e, if e.event.Scanline? then lines + 1 else lines, if e.event.AudioTick? then ticks + 1 else ticks, end)
    ensures Shape(Insert(p[1..], e), if e.event.Scanline? then lines + 1 else lines, if e.event.AudioTick? then ticks + 1 else ticks, end)
  {
    var k := InsertPosition(p[1..], e);
    assert Kind(p[0].event) != Kind(p[1].event);
    assert Placed(p[1], lines, ticks, end);
    if end.Some? {
      assert Placed(p[2], lines, ticks, end);
      assert Kind(p[0].event) != Kind(p[2].event) && Kind(p[1].event) != Kind(p[2].event);
    }
  }

  lemma FrameEndQueued(p: seq<Entry<MockEvent>>, e: Entry<MockEvent>, lines: nat, ticks: nat)
    requires Shape(p, lines, ticks, None) && e.event.FrameEnd?
    ensures Shape(Insert(p, e), lines, ticks, Some(e.when))
  {
    var k := InsertPosition(p, e);
  }

  lemma FrameEndPopped(p: seq<Entry<MockEvent>>, lines: nat, ticks: nat, end: Option<nat>)
    requires Shape(p, lines, ticks, end) && p[0].event.FrameEnd?
    ensures end == Some(p[0].when) && Shape(p[1..], lines, ticks, None)
  {
    assert Placed(p[0], lines, ticks, end);
    forall i | 0 <= i < |p[1..]| ensures Placed(p[1..][i], lines, ticks, None) {
      assert p[1..][i] == p[i + 1];
      assert Kind(p[0].event) != Kind(p[i + 1].event);
      assert Placed(p[i + 1], lines, ticks, end);
    }
  }

  /** The queue after its head is popped and, unless it ends the frame, rescheduled. */
  ghost function Requeued(p: seq<Entry<MockEvent>>, n: nat): seq<Entry<MockEvent>>
    requires p != []
  {
    match p[0].event
    case FrameEnd => p[1..]
    case Scanline(y) => Insert(p[1..], Entry(p[0].when + 100, n, Scanline((y + 1) % 8)))
    case AudioTick => Insert(p[1..], Entry(p[0].when + 50, n, AudioTick))
  }

  lemma ShapeAfter(p: seq<Entry<MockEvent>>, n: nat, lines: nat, ticks: nat, end: Option<nat>)
    requires Shape(p, lines, ticks, end)
    ensures match p[0].event
      case FrameEnd => end == Some(p[0].when) && Shape(Requeued(p, n), lines, ticks, None)
      case Scanline(_) => Shape(Requeued(p, n), lines + 1, ticks, end)
      case AudioTick => Shape(Requeued(p, n), lines, ticks + 1, end)
  {
    assert Placed(p[0], lines, ticks, end);
    match p[0].event
    case FrameEnd => FrameEndPopped(p, lines, ticks, end);
    case Scanline(y) => Rescheduled(p, Entry(p[0].when + 100, n, Scanline((y + 1) % 8)), lines, ticks, end);
    case AudioTick => Rescheduled(p, Entry(p[0].when + 50, n, AudioTick), lines, ticks, end);
  }

  /** One handled event: its timestamp, the cycle it was handled at, and what it was. */
  datatype Fired = Fired(when: nat, at: nat, event: MockEvent)

  /** Timestamps of the audio ticks handled, in order. */
  ghost function Ticks(log: seq<Fired>): seq<nat> {
    if log == [] then [] else
      var f := log[|log| - 1];
      Ticks(log[..|log| - 1]) + (if f.event.AudioTick? then [f.when] else [])
  }

  /** Timestamps and rows of the scanlines handled, in order. */
  ghost function Lines(log: seq<Fired>): seq<(nat, uint8)> {
    if log == [] then [] else
      var f := log[|log| - 1];
      Lines(log[..|log| - 1]) + (if f.event.Scanline? then [(f.when, f.event.row)] else [])
  }

  /** Nothing handled drifted or was a whole instruction late. */
  ghost predicate OnTime(log: seq<Fired>, lines: nat, ticks: nat) {
    && (forall i :: 0 <= i < |log| ==> log[i].when <= log[i].at < log[i].when + 16)
    && |Ticks(log)| == ticks && (forall n :: 0 <= n < ticks ==> Ticks(log)[n] == 50 * (n + 1))
    && |Lines(log)| == lines && (forall n :: 0 <= n < lines ==> Lines(log)[n] == (100 * (n + 1), n % 8))
  }

  ghost function LinesAfter(lines: nat, e: MockEvent): nat {
    if e.Scanline? then lines + 1 else lines
  }

  ghost function TicksAfter(ticks: nat, e: MockEvent): nat {
    if e.AudioTick? then ticks + 1 else ticks
  }

  ghost function EndAfter(end: Option<nat>, e: MockEvent): Option<nat> {
    if e.FrameEnd? then None else end
  }

  /** While draining at `now`: the queue has its shape and nothing queued is a whole instruction overdue. */
  ghost predicate OnSchedule(p: seq<Entry<MockEvent>>, log: seq<Fired>, lines: nat, ticks: nat, now: nat, end: Option<nat>) {
    && OnTime(log, lines, ticks) && Shape(p, lines, ticks, end)
    && 100 * lines <= now < 100 * (lines + 1) + 16
    && 50 * ticks <= now < 50 * (ticks + 1) + 16
    && (end.Some? ==> now < end.value + 16)
  }

  lemma OnScheduleStep(p: seq<Entry<MockEvent>>, n: nat, log: seq<Fired>, lines: nat, ticks: nat, now: nat, end: Option<nat>)
    requires Ordered(p) && OnSchedule(p, log, lines, ticks, now, end)
    ensures p[0].event.Scanline? ==> p[0].event.row < SCREEN_H
    ensures p[0].event.FrameEnd? ==> end == Some(p[0].when)
    ensures p[0].when <= now ==>
      var e := p[0].event;
      OnSchedule(Requeued(p, n), log + [Fired(p[0].when, now, e)], LinesAfter(lines, e), TicksAfter(ticks, e), now, EndAfter(end, e))
  {
    assert Placed(p[0], lines, ticks, end);
    if p[0].when <= now {
      LogOneMore(log, Fired(p[0].when, now, p[0].event), lines, ticks);
      ShapeAfter(p, n, lines, ticks, end);
    }
  }

  lemma LogOneMore(log: seq<Fired>, f: Fired, lines: nat, ticks: nat)
    requires OnTime(log, lines, ticks) && f.when <= f.at < f.when + 16
    requires f.event.Scanline? ==> f.when == 100 * (lines + 1) && f.event.row == lines % 8
    requires f.event.AudioTick? ==> f.when == 50 * (ticks + 1)
    ensures OnTime(log + [f], if f.event.Scanline? then lines + 1 else lines, if f.event.AudioTick? then ticks + 1 else ticks)
  {
    assert (log + [f])[..|log|] == log;
  }

  // ---------------------------------------------------------------------------
  // The system
  // ---------------------------------------------------------------------------

  class MockSystem {
    const cpu: TinyCpu
    const bus: MockBus
    const scheduler: Scheduler<MockEvent>
    var now: nat
    var rows: seq<uint8>
    var frameCount: nat
    var audio: seq<uint8>
    /** Everything handled since reset. */
    ghost var log: seq<Fired>
    /** Scanlines and audio ticks handled since reset. */
    ghost var lines: nat
    ghost var ticks: nat
    /** When the queue was last drained. */
    ghost var drainedAt: nat
    /** Samples handed out since reset. */
    ghost var taken: nat

    ghost predicate Structure()
      reads this, bus, scheduler
    {
      bus.Valid() && scheduler.Valid() && |rows| == SCREEN_H
    }

    ghost predicate Valid()
      reads this, bus, scheduler
    {
      && Structure() && OnTime(log, lines, ticks) && taken + |audio| == ticks
      && Shape(scheduler.Pending(), lines, ticks, None)
      && 100 * lines <= drainedAt < 100 * (lines + 1)
      && 50 * ticks <= drainedAt < 50 * (ticks + 1)
      && drainedAt <= now <= drainedAt + 16
    }

    constructor ()
      ensures Valid() && fresh(cpu) && fresh(bus) && fresh(scheduler)
      ensures now == 0 && log == [] && frameCount == 0
    {
      cpu := new TinyCpu();
      bus := new MockBus();
      scheduler := new Scheduler<MockEvent>();
      rows := seq(SCREEN_H, _ => 0);
      now, frameCount, audio, log, drainedAt, lines, ticks, taken := 0, 0, [], [], 0, 0, 0, 0;
      new;
      ScheduleStartupEvents();
    }

    method ScheduleStartupEvents()
      requires scheduler.Valid() && now == 0
      modifies scheduler
      ensures scheduler.Valid() && Shape(scheduler.Pending(), 0, 0, None)
    {
      scheduler.Clear();
      ghost var k := InsertPosition([], Entry(100, scheduler.nextSeq, Scanline(0)));
      var _ := scheduler.Schedule(now + CYCLES_PER_SCANLINE, Scanline(0));
      k := InsertPosition(scheduler.Pending(), Entry(50, scheduler.nextSeq, AudioTick));
      var _ := scheduler.Schedule(now + CYCLES_PER_AUDIO_SAMPLE, AudioTick);
    }

    /** Back to power-on, keeping the objects. */
    method Reset()
      requires scheduler.Valid()
      modifies this, cpu, bus, scheduler
      ensures Valid() && now == 0 && log == [] && frameCount == 0
    {
      cpu.Reset();
      bus.Clear();
      now, frameCount, audio := 0, 0, [];
      rows := seq(SCREEN_H, _ => 0);
      log, drainedAt, lines, ticks, taken := [], 0, 0, 0, 0;
      ScheduleStartupEvents();
    }

    /** Load a program and restart; a ROM too small or too large is refused and changes nothing. */
    method LoadCartridge(rom: seq<uint8>) returns (loaded: bool)
      requires Valid()
      modifies this, cpu, bus, scheduler
      ensures Valid()
      ensures loaded <==> 4 <= |rom| <= WRAM_LEN
      ensures loaded ==> now == 0 && log == [] && bus.wram[..|rom|] == rom
      ensures !loaded ==> now == old(now) && log == old(log) && bus.wram == old(bus.wram)
    {
      if |rom| < 4 || |rom| > WRAM_LEN {
        return false;
      }
      Reset();
      bus.wram := rom + bus.wram[|rom|..];
      loaded := true;
    }

    /** Handle one event, rescheduling a recurring one from its own timestamp. */
    method Handle(when: nat, event: MockEvent) returns (frameDone: bool)
      requires scheduler.Valid() && |rows| == SCREEN_H && (event.Scanline? ==> event.row < SCREEN_H)
      modifies this`rows, this`audio, scheduler
      ensures scheduler.Valid() && |rows| == SCREEN_H && frameDone == event.FrameEnd?
      ensures var p, n := old(scheduler.Pending()), old(scheduler.nextSeq);
        scheduler.Pending() == match event {
          case FrameEnd => p
          case Scanline(y) => Insert(p, Entry(when + 100, n, Scanline((y + 1) % 8)))
          case AudioTick => Insert(p, Entry(when + 50, n, AudioTick))
        }
      ensures audio == old(audio) + if event.AudioTick? then [cpu.a] else []
      ensures rows == if event.Scanline? then old(rows)[event.row := (cpu.a + event.row) % 256] else old(rows)
    {
      frameDone := false;
      match event {
        case FrameEnd => frameDone := true;
        case Scanline(y) =>
          rows := rows[y := (cpu.a + y) % 256];
          var _ := scheduler.Schedule(when + CYCLES_PER_SCANLINE, Scanline((y + 1) % SCREEN_H));
        case AudioTick =>
          audio := audio + [cpu.a];
          var _ := scheduler.Schedule(when + CYCLES_PER_AUDIO_SAMPLE, AudioTick);
      }
    }

    ghost predicate Draining(end: Option<nat>)
      reads this, bus, scheduler
    {
      Structure() && OnSchedule(scheduler.Pending(), log, lines, ticks, now, end) && taken + |audio| == ticks
    }

    /** Pop the head if it is due, and handle it. */
    method PopAndHandle() returns (due: Option<(nat, MockEvent)>, frameDone: bool)
      requires scheduler.Valid() && |rows| == SCREEN_H
      requires scheduler.Pending() != [] && scheduler.Pending()[0].event.Scanline? ==> scheduler.Pending()[0].event.row < SCREEN_H
      modifies this`rows, this`audio, scheduler
      ensures scheduler.Valid() && |rows| == SCREEN_H
      ensures var p := old(scheduler.Pending());
        if p != [] && p[0].when <= now then
          due == Some((p[0].when, p[0].event)) && scheduler.Pending() == Requeued(p, old(scheduler.nextSeq)) &&
          frameDone == p[0].event.FrameEnd? && audio == old(audio) + if p[0].event.AudioTick? then [cpu.a] else []
        else
          due == None && !frameDone && scheduler.Pending() == p && rows == old(rows) && audio == old(audio)
    {
      due := scheduler.PopDue(now);
      frameDone := false;
      match due {
        case None =>
        case Some((when, event)) => frameDone := Handle(when, event);
      }
    }

    /** One turn of the drain loop. */
    method DrainOne(ghost end: Option<nat>) returns (due: Option<(nat, MockEvent)>, frameDone: bool, ghost end': Option<nat>)
      requires Draining(end)
      modifies this`rows, this`audio, this`log, this`lines, this`ticks, scheduler
      ensures Draining(end')
      ensures frameDone ==> due.Some? && end.Some? && end.value <= now && end' == None
      ensures !frameDone ==> end' == end
      ensures due.None? ==> now < 100 * (lines + 1) && now < 50 * (ticks + 1) && (end.Some? ==> now < end.value)
      ensures due.None? ==> log == old(log) && rows == old(rows) && audio == old(audio)
      ensures due.Some? ==> log == old(log) + [Fired(due.value.0, now, due.value.1)]
      ensures lines >= old(lines) && ticks >= old(ticks)
      ensures due.Some? && !frameDone ==> lines > old(lines) || ticks > old(ticks)
    {
      ghost var p, n := scheduler.Pending(), scheduler.nextSeq;
      scheduler.PendingFacts();
      HeadIsEarliest(p, lines, ticks, end);
      OnScheduleStep(p, n, log, lines, ticks, now, end);
      hide OnTime, Shape, Requeued, ValidBus;
      due, frameDone := PopAndHandle();
      end' := if frameDone then None else end;
      if due.Some? {
        log := log + [Fired(due.value.0, now, due.value.1)];
        lines, ticks := LinesAfter(lines, p[0].event), TicksAfter(ticks, p[0].event);
      }
    }

    /** `while let Some((when, event)) = scheduler.pop_due(now) { handle(when, event) }`. */
    method Drain(ghost end: Option<nat>) returns (frameDone: bool)
      requires Draining(end)
      modifies this`rows, this`audio, this`log, this`lines, this`ticks, scheduler
      ensures Draining(if frameDone then None else end)
      ensures frameDone <==> end.Some? && end.value <= now
      ensures now < 100 * (lines + 1) && now < 50 * (ticks + 1)
      ensures old(log) <= log
    {
      ghost var queued := end;
      var due, done;
      frameDone := false;
      due, frameDone, queued := DrainOne(queued);
      while due.Some?
        invariant Draining(queued) && old(log) <= log
        invariant queued == if frameDone then None else end
        invariant frameDone ==> end.Some? && end.value <= now
        invariant due.None? ==>
          now < 100 * (lines + 1) && now < 50 * (ticks + 1) && (queued.Some? ==> now < queued.value)
        decreases due.Some?, now - 100 * lines + now - 50 * ticks + if frameDone then 0 else 1
      {
        due, done, queued := DrainOne(queued);
        frameDone := frameDone || done;
      }
    }

    /** `take_audio_samples`: what has accumulated, once. */
    method TakeAudioSamples() returns (samples: seq<uint8>)
      requires Valid()
      modifies this`audio, this`taken
      ensures Valid() && samples == old(audio) && audio == [] && taken == old(taken) + |samples|
    {
      samples := audio;
      taken := taken + |audio|;
      audio := [];
    }

    method SetInput(buttons: nat)
      modifies bus`buttons
      ensures bus.buttons == buttons
    {
      bus.buttons := buttons;
    }

    /** One instruction, with the queue drained first. */
    method StepInstruction() returns (elapsed: nat)
      requires Valid()
      modifies this, cpu, bus, scheduler
      ensures Valid() && old(log) <= log
      ensures now == old(now) + elapsed && 4 <= elapsed <= 16
      ensures drainedAt == old(now) && ticks == old(now) / 50 && lines == old(now) / 100
      ensures (cpu.View(), bus.View(), elapsed) == TinyStepped(old(cpu.View()), old(bus.View()))
    {
      hide OnTime, Shape, ValidBus, TinyStepped;
      var start := now;
      var _ := Drain(None);
      drainedAt := now;
      var cost := cpu.Step(bus);
      now := now + cost;
      elapsed := now - start;
    }

    /**
     * The canonical frame loop. It terminates 800 to 815 cycles later with every event due by
     * then handled, each fewer than 16 cycles late.
     */
    method StepFrame(input: nat) returns (elapsed: nat, dirty: bool)
      requires Valid()
      modifies this, cpu, bus, scheduler
      ensures Valid() && old(log) <= log && frameCount == old(frameCount) + 1
      ensures now == old(now) + elapsed && 800 <= elapsed < 816
      ensures OnTime(log, lines, ticks) && ticks == now / 50 && lines == now / 100
      ensures taken == old(taken) && taken + |audio| == now / 50
      ensures dirty == bus.saveRamDirty && bus.buttons == input
    {
      hide OnTime, Shape, ValidBus;
      var start := now;
      ghost var end := Some(now + FRAME_CYCLES);
      BeginFrame(input);
      RunFrame(end);
      frameCount := frameCount + 1;
      drainedAt := now;
      elapsed := now - start;
      dirty := bus.saveRamDirty;
    }

    method BeginFrame(input: nat)
      requires Valid()
      modifies bus, scheduler
      ensures Draining(Some(now + FRAME_CYCLES)) && bus.buttons == input
    {
      hide OnTime;
      FrameEndQueued(scheduler.Pending(), Entry(now + FRAME_CYCLES, scheduler.nextSeq, FrameEnd), lines, ticks);
      SetInput(input);
      bus.saveRamDirty := false;
      var _ := scheduler.Schedule(now + FRAME_CYCLES, FrameEnd);
    }

    /** Drain, and until the frame ends run the CPU up to the next event. */
    method RunFrame(ghost end: Option<nat>)
      requires Draining(end) && end.Some? && now < end.value
      modifies this`now, this`rows, this`audio, this`log, this`lines, this`ticks, cpu, bus, scheduler
      ensures Draining(None) && end.value <= now < end.value + 16 && bus.buttons == old(bus.buttons)
      ensures now < 100 * (lines + 1) && now < 50 * (ticks + 1) && old(log) <= log
    {
      var frameDone := false;
      while !frameDone
        invariant !frameDone && Draining(end) && old(log) <= log && bus.buttons == old(bus.buttons)
        decreases end.value + 16 - now
      {
        frameDone := Drain(end);
        if frameDone {
          break;
        }
        RunSlice(end);
      }
    }

    /** Run the CPU up to the next event; the last instruction may overshoot it. */
    method RunSlice(ghost end: Option<nat>)
      requires Draining(end) && end.Some?
      requires now < 100 * (lines + 1) && now < 50 * (ticks + 1) && now < end.value
      modifies this`now, cpu, bus
      ensures Draining(end) && old(now) < now && bus.buttons == old(bus.buttons)
    {
      scheduler.PendingFacts();
      HeadIsEarliest(scheduler.Pending(), lines, ticks, end);
      assert Placed(scheduler.Pending()[0], lines, ticks, end);
      var slice := scheduler.CyclesUntilNext(now);
      var target := now + if slice.Some? then slice.value else FRAME_CYCLES;
      RunUntil(target);
    }

    /** `while now < target { now += cpu.step(bus) }`: overshoots by less than one instruction. */
    method RunUntil(target: nat)
      requires Structure() && now < target
      modifies this`now, cpu, bus
      ensures Structure() && target <= now < target + 16 && bus.buttons == old(bus.buttons)
    {
      while now < target
        invariant bus.Valid() && now < target + 16 && bus.buttons == old(bus.buttons)
      {
        var cost := cpu.Step(bus);
        now := now + cost;
      }
    }
  }

  /** What a frontend asks of a system. */
  datatype Command = Frame(input: nat) | Instruction | Cartridge(rom: seq<uint8>) | Audio

  /**
   * After every command of every run each event handled was fewer than 16 cycles late, none drifted, and every
   * audio tick's sample is waiting or was handed out, once.
   */
  method RunCommands(sys: MockSystem, commands: seq<Command>)
    requires sys.Valid()
    modifies sys, sys.cpu, sys.bus, sys.scheduler
    ensures sys.Valid() && OnTime(sys.log, sys.lines, sys.ticks) && sys.taken + |sys.audio| == sys.ticks
    ensures commands != [] && commands[|commands| - 1].Frame? ==>
      sys.ticks == sys.now / 50 && sys.lines == sys.now / 100
  {
    for i := 0 to |commands|
      invariant sys.Valid()
      invariant i > 0 && commands[i - 1].Frame? ==> sys.ticks == sys.now / 50 && sys.lines == sys.now / 100
    {
      match commands[i] {
        case Frame(input) => var _, _ := sys.StepFrame(input);
        case Instruction => var _ := sys.StepInstruction();
        case Cartridge(rom) => var _ := sys.LoadCartridge(rom);
        case Audio => var _ := sys.TakeAudioSamples();
      }
    }
  }
}
