/** The Flash save chip: a command recogniser in front of memory that can only clear bits or erase. */
module FlashChip {
  import opened Words
  import opened Arith

  datatype FlashState = Ready | Unlock1 | Unlock2 | EraseUnlock1 | EraseUnlock2 | WriteByte | SelectBank

  /** Everything a write can change. */
  datatype Chip = Chip(bytes: seq<bv8>, state: FlashState, identify: bool, bank: nat, dirty: bool)

  /** One write on the bus. */
  datatype BusWrite = BusWrite(addr: uint32, value: bv8)

  const BANK_SIZE: nat := 0x1_0000
  const SECTOR_SIZE: nat := 0x1000

  function NewChip(size: nat): Chip {
    Chip(seq(size, _ => 0xFF), Ready, false, 0, false)
  }

  // ---------------------------------------------------------------------------
  // One write
  // ---------------------------------------------------------------------------

  function Low(addr: uint32): nat {
    addr % 0x1_0000
  }

  function Offset(size: nat, bank: nat, addr: uint32): (offset: nat)
    requires size > 0
    ensures offset < size
  {
    (bank * BANK_SIZE + Low(addr)) % size
  }

  function SectorBase(offset: nat): nat {
    offset - offset % SECTOR_SIZE
  }

  /** `bytes` with `from`..`to` erased. */
  function Erased(bytes: seq<bv8>, from: nat, to: nat): (erased: seq<bv8>)
    ensures |erased| == |bytes|
  {
    seq(|bytes|, i requires 0 <= i < |bytes| => if from <= i < to then 0xFF else bytes[i])
  }

  /** Where an address lies: in the one bank of a 64 KiB chip, or in the selected bank of a 128 KiB one. */
  lemma CellsInNumbers(bank: nat, addr: uint32)
    ensures Offset(0x1_0000, bank, addr) == addr % 0x1_0000
    ensures bank < 2 ==> Offset(0x2_0000, bank, addr) == 0x1_0000 * bank + addr % 0x1_0000
  {
    SmallMod(addr % 0x1_0000, 0x1_0000);
    DivUniqueLeft(0x1_0000 * bank + addr % 0x1_0000, bank, 0x1_0000, addr % 0x1_0000);
    if bank < 2 {
      SmallMod(0x1_0000 * bank + addr % 0x1_0000, 0x2_0000);
    }
  }

  /** What a write does to the stored bytes. */
  datatype Effect = Nothing | Program(index: nat, value: bv8) | Erase(from: nat, to: nat)

  function EffectOf(c: Chip, w: BusWrite): Effect
    requires |c.bytes| > 0
  {
    var offset := Offset(|c.bytes|, c.bank, w.addr);
    if c.state.WriteByte? then Program(offset, w.value)
    else if c.state.Ready? && Low(w.addr) == 0x5555 && w.value == 0x10 then Erase(0, |c.bytes|)
    else if c.state.Ready? && w.value == 0x30 then Erase(SectorBase(offset), Min(SectorBase(offset) + SECTOR_SIZE, |c.bytes|))
    else Nothing
  }

  /** Where the recogniser goes. */
  function NextState(state: FlashState, low: nat, value: bv8): FlashState {
    match state
    case Ready => if low == 0x5555 && value == 0xAA then Unlock1 else Ready
    case Unlock1 => if low == 0x2AAA && value == 0x55 then Unlock2 else Ready
    case Unlock2 =>
      if low != 0x5555 then Ready
      else if value == 0xA0 then WriteByte
      else if value == 0xB0 then SelectBank
      else if value == 0x80 then EraseUnlock1
      else Ready
    case EraseUnlock1 => if low == 0x5555 && value == 0xAA then EraseUnlock2 else Ready
    case EraseUnlock2 => Ready
    case WriteByte => Ready
    case SelectBank => Ready
  }

  function Apply(bytes: seq<bv8>, effect: Effect): (after: seq<bv8>)
    ensures |after| == |bytes|
  {
    match effect
    case Nothing => bytes
    case Program(index, value) => if index < |bytes| then bytes[index := bytes[index] & value] else bytes
    case Erase(from, to) => Erased(bytes, from, to)
  }

  function Write(c: Chip, w: BusWrite): (c': Chip)
    requires |c.bytes| > 0
    ensures |c'.bytes| == |c.bytes|
  {
    var command := c.state.Unlock2? && Low(w.addr) == 0x5555;
    Chip(Apply(c.bytes, EffectOf(c, w)),
         NextState(c.state, Low(w.addr), w.value),
         if command && w.value == 0x90 then true else if command && w.value == 0xF0 then false else c.identify,
         if c.state.SelectBank? then (w.value & 1) as nat else c.bank,
         c.dirty || EffectOf(c, w) != Nothing)
  }

  function ReadData(c: Chip, id: (bv8, bv8), addr: uint32): bv8
    requires |c.bytes| > 0
  {
    if c.identify && Low(addr) == 0 then id.0
    else if c.identify && Low(addr) == 1 then id.1
    else c.bytes[Offset(|c.bytes|, c.bank, addr)]
  }

  /** A sector erase of an idle chip clears exactly the 4 KiB that hold the addressed byte. */
  lemma SectorEraseInNumbers(c: Chip, w: BusWrite, i: nat)
    requires (|c.bytes| == 0x1_0000 || |c.bytes| == 0x2_0000) && c.bank < 2 && i < |c.bytes|
    requires c.state.Ready? && w.value == 0x30
    ensures var offset := if |c.bytes| == 0x1_0000 then w.addr % 0x1_0000 else 0x1_0000 * c.bank + w.addr % 0x1_0000;
      Write(c, w).bytes[i] == if i / 0x1000 == offset / 0x1000 then 0xFF else c.bytes[i]
  {
    CellsInNumbers(c.bank, w.addr);
    var offset := Offset(|c.bytes|, c.bank, w.addr);
    Recompose(offset, 0x1000);
    Recompose(i, 0x1000);
  }

  // ---------------------------------------------------------------------------
  // The chip
  // ---------------------------------------------------------------------------

  class Flash {
    const bytes: array<bv8>
    var state: FlashState
    var identify: bool
    var bank: nat
    var dirty: bool
    /** Manufacturer and device, which games check to decide the chip's size. */
    const id: (bv8, bv8)

    ghost predicate Valid() {
      bytes.Length > 0
    }

    ghost function View(): Chip
      reads this, bytes
    {
      Chip(bytes[..], state, identify, bank, dirty)
    }

    constructor (size: nat)
      requires size > 0
      ensures Valid() && fresh(bytes) && View() == NewChip(size)
      ensures id == if size > BANK_SIZE then (0xC2, 0x09) else (0x32, 0x1B)
    {
      id := if size > BANK_SIZE then (0xC2, 0x09) else (0x32, 0x1B);
      bytes := new bv8[size](_ => 0xFF);
      state := Ready;
      identify, bank, dirty := false, 0, false;
      new;
      assert bytes[..] == NewChip(size).bytes;
    }

    method ReadByte(addr: uint32) returns (value: bv8)
      requires Valid()
      ensures value == ReadData(View(), id, addr)
    {
      if identify {
        if Low(addr) == 0 {
          return id.0;
        }
        if Low(addr) == 1 {
          return id.1;
        }
      }
      value := bytes[Offset(bytes.Length, bank, addr)];
    }

    method Fill(from: nat, to: nat)
      requires Valid() && from <= to <= bytes.Length
      modifies bytes
      ensures bytes[..] == Erased(old(bytes[..]), from, to)
    {
      forall k | from <= k < to {
        bytes[k] := 0xFF;
      }
    }

    method EraseAll()
      requires Valid()
      modifies bytes, this`dirty
      ensures bytes[..] == Erased(old(bytes[..]), 0, bytes.Length) && dirty
    {
      Fill(0, bytes.Length);
      dirty := true;
    }

    /** One 4 KiB sector, the granularity the chip supports. */
    method EraseSector(addr: uint32)
      requires Valid()
      modifies bytes, this`dirty
      ensures var base := SectorBase(Offset(bytes.Length, bank, addr));
        bytes[..] == Erased(old(bytes[..]), base, Min(base + SECTOR_SIZE, bytes.Length))
      ensures dirty
    {
      var offset := Offset(bytes.Length, bank, addr);
      var base := offset - offset % SECTOR_SIZE;
      var end := Min(base + SECTOR_SIZE, bytes.Length);
      Fill(base, end);
      dirty := true;
    }

    method WriteByte(addr: uint32, value: bv8)
      requires Valid()
      modifies this`state, this`identify, this`bank, this`dirty, bytes
      ensures View() == Write(old(View()), BusWrite(addr, value))
    {
      var low := Low(addr);
      if state.WriteByte? {
        // Flash can only clear bits, so programming is an AND.
        var index := Offset(bytes.Length, bank, addr);
        bytes[index] := bytes[index] & value;
        dirty := true;
        state := Ready;
      } else if state.SelectBank? {
        bank := (value & 1) as nat;
        state := Ready;
      } else if state.Ready? && low == 0x5555 && value == 0xAA {
        state := Unlock1;
      } else if state.Unlock1? && low == 0x2AAA && value == 0x55 {
        state := Unlock2;
      } else if state.Unlock2? && low == 0x5555 {
        state := Ready;
        if value == 0x90 {
          identify := true;
        } else if value == 0xF0 {
          identify := false;
        } else if value == 0xA0 {
          state := FlashState.WriteByte;
        } else if value == 0xB0 {
          state := SelectBank;
        } else if value == 0x80 {
          state := EraseUnlock1;
        }
      } else if state.EraseUnlock1? && low == 0x5555 && value == 0xAA {
        state := EraseUnlock2;
      } else if state.EraseUnlock2? && low == 0x2AAA && value == 0x55 {
        state := Ready;
      } else if state.Ready? && low == 0x5555 && value == 0x10 {
        EraseAll();
      } else if state.Ready? && value == 0x30 {
        EraseSector(addr);
      } else {
        state := Ready;
      }
    }

    /** A `.sav` file of the wrong size is refused and changes nothing. */
    method LoadFromBytes(data: seq<bv8>) returns (ok: bool)
      requires Valid()
      modifies bytes, this`dirty
      ensures ok == (|data| == bytes.Length)
      ensures View() == if ok then old(View()).(bytes := data, dirty := false) else old(View())
    {
      if |data| != bytes.Length {
        return false;
      }
      forall k | 0 <= k < bytes.Length {
        bytes[k] := data[k];
      }
      dirty := false;
      return true;
    }
  }

  // ---------------------------------------------------------------------------
  // Runs
  // ---------------------------------------------------------------------------

  function Run(c: Chip, writes: seq<BusWrite>): (c': Chip)
    requires |c.bytes| > 0
    ensures |c'.bytes| == |c.bytes|
    decreases |writes|
  {
    if writes == [] then c else Write(Run(c, writes[..|writes| - 1]), writes[|writes| - 1])
  }

  /** The effects of a run, in order. */
  function Log(c: Chip, writes: seq<BusWrite>): (log: seq<Effect>)
    requires |c.bytes| > 0
    ensures |log| == |writes|
    decreases |writes|
  {
    if writes == [] then []
    else Log(c, writes[..|writes| - 1]) + [EffectOf(Run(c, writes[..|writes| - 1]), writes[|writes| - 1])]
  }

  predicate Covers(e: Effect, i: nat) {
    e.Erase? && e.from <= i < e.to
  }

  /** How many effects up to and including the last erase of byte i. */
  function LastErase(log: seq<Effect>, i: nat): (n: nat)
    ensures n <= |log|
    ensures n > 0 ==> Covers(log[n - 1], i)
    ensures forall k :: n <= k < |log| ==> !Covers(log[k], i)
  {
    if log == [] then 0
    else if Covers(log[|log| - 1], i) then |log|
    else LastErase(log[..|log| - 1], i)
  }

  /** The values programmed at byte i, in order. */
  function Programmed(log: seq<Effect>, i: nat): seq<bv8> {
    if log == [] then []
    else
      var last := log[|log| - 1];
      Programmed(log[..|log| - 1], i) + if last.Program? && last.index == i then [last.value] else []
  }

  function AndAll(start: bv8, values: seq<bv8>): bv8 {
    if values == [] then start else AndAll(start, values[..|values| - 1]) & values[|values| - 1]
  }

  lemma AndAllAppend(start: bv8, values: seq<bv8>, v: bv8)
    ensures AndAll(start, values + [v]) == AndAll(start, values) & v
  {
    assert (values + [v])[..|values|] == values;
  }

  /** What byte i holds after the effects of `log`. */
  function Contents(start: bv8, log: seq<Effect>, i: nat): bv8 {
    var n := LastErase(log, i);
    AndAll(if n > 0 then 0xFF else start, Programmed(log[n..], i))
  }

  lemma LastEraseAppend(log: seq<Effect>, e: Effect, i: nat)
    ensures LastErase(log + [e], i) == if Covers(e, i) then |log| + 1 else LastErase(log, i)
  {
    assert (log + [e])[..|log|] == log;
  }

  lemma ProgrammedAppend(log: seq<Effect>, e: Effect, i: nat)
    ensures Programmed(log + [e], i) == Programmed(log, i) + if e.Program? && e.index == i then [e.value] else []
  {
    assert (log + [e])[..|log|] == log;
  }

  lemma ContentsAppend(start: bv8, log: seq<Effect>, e: Effect, i: nat)
    ensures Contents(start, log + [e], i) ==
      if Covers(e, i) then 0xFF
      else if e.Program? && e.index == i then Contents(start, log, i) & e.value
      else Contents(start, log, i)
  {
    LastEraseAppend(log, e, i);
    var n := LastErase(log, i);
    var first := if n > 0 then 0xFF else start;
    if Covers(e, i) {
      assert (log + [e])[|log| + 1..] == [];
    } else {
      assert (log + [e])[n..] == log[n..] + [e];
      ProgrammedAppend(log[n..], e, i);
      if e.Program? && e.index == i {
        AndAllAppend(first, Programmed(log[n..], i), e.value);
      } else {
        assert Programmed(log[n..], i) + [] == Programmed(log[n..], i);
      }
    }
  }

  /**
   * After any run of writes, each byte is every value programmed at its offset since the last erase that
   * covered it, ANDed together from 0xFF; from what it held at first if no erase has.
   */
  lemma {:induction false} BytesAreTheirHistory(c: Chip, writes: seq<BusWrite>, i: nat)
    requires i < |c.bytes|
    ensures Run(c, writes).bytes[i] == Contents(c.bytes[i], Log(c, writes), i)
    decreases |writes|
  {
    if writes != [] {
      var before := writes[..|writes| - 1];
      BytesAreTheirHistory(c, before, i);
      var e := EffectOf(Run(c, before), writes[|writes| - 1]);
      ContentsAppend(c.bytes[i], Log(c, before), e, i);
    }
  }

  /** A bit never comes back on its own: without an erase a byte only loses bits. */
  lemma {:induction false} BitsOnlyClear(c: Chip, writes: seq<BusWrite>, i: nat)
    requires i < |c.bytes| && forall k :: 0 <= k < |writes| ==> !Covers(Log(c, writes)[k], i)
    ensures Run(c, writes).bytes[i] & c.bytes[i] == Run(c, writes).bytes[i]
    decreases |writes|
  {
    if writes != [] {
      var before := writes[..|writes| - 1];
      forall k | 0 <= k < |before| ensures !Covers(Log(c, before)[k], i) {
        assert Log(c, writes)[k] == Log(c, before)[k];
      }
      BitsOnlyClear(c, before, i);
      assert !Covers(Log(c, writes)[|before|], i);
    }
  }

  // ---------------------------------------------------------------------------
  // When anything happens at all
  // ---------------------------------------------------------------------------

  predicate IsWrite(w: BusWrite, low: nat, value: bv8) {
    Low(w.addr) == low && w.value == value
  }

  /** The unlock pair followed by a command, as the last three writes, begun when nothing else was under way. */
  predicate Commanded(c: Chip, writes: seq<BusWrite>, command: bv8)
    requires |c.bytes| > 0
  {
    var n := |writes|;
    n >= 3 && IsWrite(writes[n - 3], 0x5555, 0xAA) && IsWrite(writes[n - 2], 0x2AAA, 0x55) &&
    IsWrite(writes[n - 1], 0x5555, command) && Run(c, writes[..n - 3]).state.Ready?
  }

  lemma LastTwo(c: Chip, writes: seq<BusWrite>)
    requires |c.bytes| > 0 && c.state.Ready?
    ensures Run(c, writes).state.Unlock2? <==>
      |writes| >= 2 && IsWrite(writes[|writes| - 2], 0x5555, 0xAA) && IsWrite(writes[|writes| - 1], 0x2AAA, 0x55) &&
      Run(c, writes[..|writes| - 2]).state.Ready?
  {
    if |writes| >= 2 {
      var before := writes[..|writes| - 1];
      assert before[..|before| - 1] == writes[..|writes| - 2];
    }
  }

  lemma LastThree(c: Chip, writes: seq<BusWrite>, command: bv8)
    requires |c.bytes| > 0 && c.state.Ready? && |writes| > 0
    ensures Run(c, writes[..|writes| - 1]).state.Unlock2? && IsWrite(writes[|writes| - 1], 0x5555, command) <==> Commanded(c, writes, command)
  {
    var before := writes[..|writes| - 1];
    LastTwo(c, before);
    if |writes| >= 3 {
      assert before[..|before| - 2] == writes[..|writes| - 3];
    }
  }

  /**
   * From an idle chip, a write programs a byte if and only if the three before it were exactly
   * (5555, AA), (2AAA, 55), (5555, A0) and no other command was under way when they began.
   */
  lemma ProgramsOnlyWhenUnlocked(c: Chip, writes: seq<BusWrite>, w: BusWrite)
    requires |c.bytes| > 0 && c.state.Ready?
    ensures EffectOf(Run(c, writes), w).Program? <==> Commanded(c, writes, 0xA0)
  {
    if |writes| > 0 {
      LastThree(c, writes, 0xA0);
    }
  }

  /** Likewise the bank changes only on the write after (5555, AA), (2AAA, 55), (5555, B0). */
  lemma BankChangesOnlyWhenUnlocked(c: Chip, writes: seq<BusWrite>, w: BusWrite)
    requires |c.bytes| > 0 && c.state.Ready?
    ensures Run(c, writes + [w]).bank == if Commanded(c, writes, 0xB0) then (w.value & 1) as nat else Run(c, writes).bank
  {
    RunAppend(c, writes, w);
    if |writes| > 0 {
      LastThree(c, writes, 0xB0);
    }
  }

  /** The five writes meant to precede an erase. */
  function EraseUnlock(): seq<BusWrite> {
    [BusWrite(0x5555, 0xAA), BusWrite(0x2AAA, 0x55), BusWrite(0x5555, 0x80), BusWrite(0x5555, 0xAA), BusWrite(0x2AAA, 0x55)]
  }

  /**
   * The erase unlock unlocks nothing: an idle chip is afterwards exactly as it was before, so whatever a
   * following write does it would have done without.
   */
  lemma EraseUnlockChangesNothing(c: Chip)
    requires |c.bytes| > 0 && c.state.Ready?
    ensures Run(c, EraseUnlock()) == c
  {
    var u := EraseUnlock();
    var u1 := [] + [u[0]];
    var u2 := u1 + [u[1]];
    var u3 := u2 + [u[2]];
    var u4 := u3 + [u[3]];
    assert u == u4 + [u[4]];
    RecognisedOnly(c, [], u[0]);
    RecognisedOnly(c, u1, u[1]);
    RecognisedOnly(c, u2, u[2]);
    RecognisedOnly(c, u3, u[3]);
    RecognisedOnly(c, u4, u[4]);
  }

  /** A write that takes no effect yet only moves the recogniser on. */
  lemma RecognisedOnly(c: Chip, writes: seq<BusWrite>, w: BusWrite)
    requires |c.bytes| > 0
    requires var before := Run(c, writes);
      EffectOf(before, w) == Nothing && !before.state.SelectBank? && w.value != 0x90 && w.value != 0xF0
    ensures var before := Run(c, writes);
      Run(c, writes + [w]) == before.(state := NextState(before.state, Low(w.addr), w.value))
  {
    RunAppend(c, writes, w);
  }

  lemma RunAppend(c: Chip, writes: seq<BusWrite>, w: BusWrite)
    requires |c.bytes| > 0
    ensures Run(c, writes + [w]) == Write(Run(c, writes), w)
  {
    assert (writes + [w])[..|writes|] == writes;
  }

  /** A write erases if and only if the chip is idle and the write is the erase command itself. */
  lemma ErasesExactlyWhenIdle(c: Chip, w: BusWrite)
    requires |c.bytes| > 0
    ensures EffectOf(c, w).Erase? <==> c.state.Ready? && (w.value == 0x30 || IsWrite(w, 0x5555, 0x10))
    ensures EffectOf(c, w).Erase? ==> exists i :: 0 <= i < |c.bytes| && Covers(EffectOf(c, w), i)
  {
    if EffectOf(c, w).Erase? {
      var i := if IsWrite(w, 0x5555, 0x10) then 0 else Offset(|c.bytes|, c.bank, w.addr);
      assert Covers(EffectOf(c, w), i);
    }
  }

  /** One stray 0x30 to a fresh chip with something programmed at 0 loses it, with no unlock at all. */
  lemma StrayEraseNeedsNoUnlock(c: Chip)
    requires |c.bytes| > 0 && c.state.Ready? && c.bank == 0 && c.bytes[0] != 0xFF
    ensures Run(c, [BusWrite(0, 0x30)]).bytes[0] != c.bytes[0]
  {
    var w := BusWrite(0, 0x30);
    assert [] + [w] == [w];
    RunAppend(c, [], w);
    SmallMod(0, |c.bytes|);
    assert Covers(EffectOf(c, w), 0);
  }

  // ---------------------------------------------------------------------------
  // Banks
  // ---------------------------------------------------------------------------

  /** On a two-bank chip, each bank and window address is a byte of its own. */
  lemma BanksAreSeparate(b: nat, addr: uint32, b': nat, addr': uint32)
    requires b <= 1 && b' <= 1
    ensures Offset(2 * BANK_SIZE, b, addr) == Offset(2 * BANK_SIZE, b', addr') <==> b == b' && Low(addr) == Low(addr')
  {
  }

  /** A byte programmed on a two-bank chip is read back in its own bank, ANDed in, and no other byte changes. */
  lemma ProgramThenRead(c: Chip, id: (bv8, bv8), w: BusWrite, addr: uint32, bank: nat)
    requires |c.bytes| == 2 * BANK_SIZE && c.state.WriteByte? && c.bank <= 1 && bank <= 1 && !c.identify
    ensures var after := Write(c, w);
      ReadData(after.(bank := bank), id, addr) ==
        if bank == c.bank && Low(addr) == Low(w.addr) then ReadData(c, id, addr) & w.value
        else ReadData(c.(bank := bank), id, addr)
  {
    BanksAreSeparate(c.bank, w.addr, bank, addr);
  }
}
