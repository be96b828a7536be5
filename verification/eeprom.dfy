/** The serial EEPROM: a shift register in front of a store of 64-bit blocks. */
module EepromChip {
  import opened Words
  import opened Arith
  import opened Digits

  type bit = x: nat | x < 2

  datatype EepromState = ReceivingCommand | SendingData | ReceivingData

  datatype Chip = Chip(bytes: seq<uint8>, state: EepromState, shiftIn: nat, received: nat,
                       shiftOut: nat, sent: nat, block: nat, dirty: bool)

  const TWO64: nat := 0x1_0000_0000_0000_0000

  /** Six address bits for a 512-byte chip, fourteen for a larger one. */
  function AddressBits(size: nat): (n: nat)
    ensures n == 6 || n == 14
  {
    if size > 512 then 14 else 6
  }

  /** Two command bits, the address and a trailing bit. */
  function CommandBits(size: nat): nat {
    2 + AddressBits(size) + 1
  }

  /** Nine bits for a chip of 512 bytes, seventeen for a larger one. */
  lemma CommandLength(size: nat)
    ensures CommandBits(size) == if size <= 512 then 9 else 17
  {
  }

  /** What every access keeps of the counters. */
  predicate InStep(c: Chip) {
    |c.bytes| > 0 &&
    match c.state
    case ReceivingCommand => c.received < CommandBits(|c.bytes|)
    case ReceivingData => c.received < 64
    case SendingData => c.sent < 68
  }

  predicate Idle(c: Chip) {
    |c.bytes| > 0 && c.state.ReceivingCommand? && c.shiftIn == 0 && c.received == 0
  }

  // ---------------------------------------------------------------------------
  // One access
  // ---------------------------------------------------------------------------

  function BaseOf(size: nat, block: nat): (base: nat)
    requires size > 0
    ensures base < size
  {
    (block * 8) % size
  }

  /** The eight bytes of a block, wrapping at the end of the chip. */
  function BlockBytes(bytes: seq<uint8>, block: nat): seq<nat>
    requires |bytes| > 0
  {
    seq(8, k requires 0 <= k < 8 => bytes[(BaseOf(|bytes|, block) + k) % |bytes|])
  }

  /** `bytes` after storing the first `k` bytes of `value` at `base`. */
  function Stored(bytes: seq<uint8>, base: nat, value: nat, k: nat): (after: seq<uint8>)
    requires |bytes| > 0 && k <= 8
    ensures |after| == |bytes|
  {
    if k == 0 then bytes
    else Stored(bytes, base, value, k - 1)[(base + k - 1) % |bytes| := value / Pow(2, 56 - 8 * (k - 1)) % 256]
  }

  function BeginRead(c: Chip, block: nat): Chip
    requires |c.bytes| > 0
  {
    c.(block := block, shiftOut := Value(256, BlockBytes(c.bytes, block)), sent := 0, state := SendingData)
  }

  function Commit(c: Chip): Chip
    requires |c.bytes| > 0
  {
    c.(bytes := Stored(c.bytes, BaseOf(|c.bytes|, c.block), c.shiftIn, 8),
       dirty := true, state := ReceivingCommand, shiftIn := 0, received := 0)
  }

  /** A whole command has been shifted in. */
  function Dispatch(c: Chip): Chip
    requires |c.bytes| > 0
  {
    var n := AddressBits(|c.bytes|);
    var command := c.shiftIn / Pow(2, n + 1) % 4;
    var block := c.shiftIn / 2 % Pow(2, n);
    var cleared := c.(shiftIn := 0, received := 0);
    if command == 3 then BeginRead(cleared, block)
    else if command == 2 then cleared.(block := block, state := ReceivingData)
    else cleared.(state := ReceivingCommand)
  }

  function ShiftIn(c: Chip, b: bit): Chip {
    c.(shiftIn := c.shiftIn * 2 % TWO64 + b, received := c.received + 1)
  }

  function WriteBit(c: Chip, b: bit): (c': Chip)
    requires |c.bytes| > 0
    ensures |c'.bytes| == |c.bytes|
  {
    match c.state
    case ReceivingCommand =>
      var s := ShiftIn(c, b);
      if s.received == CommandBits(|c.bytes|) then Dispatch(s) else s
    case ReceivingData =>
      var s := ShiftIn(c, b);
      if s.received == 64 then Commit(s) else s
    case SendingData => c
  }

  function ReadBit(c: Chip): (r: (bit, Chip))
    requires InStep(c)
    ensures |r.1.bytes| == |c.bytes|
  {
    if !c.state.SendingData? then (1, c)
    else
      var b := if c.sent < 4 then 0 else c.shiftOut / Pow(2, 63 - (c.sent - 4)) % 2;
      var s := c.(sent := c.sent + 1);
      (b, if s.sent >= 68 then s.(state := ReceivingCommand, shiftIn := 0, received := 0) else s)
  }

  // ---------------------------------------------------------------------------
  // The chip
  // ---------------------------------------------------------------------------

  class Eeprom {
    const bytes: array<uint8>
    var state: EepromState
    var shiftIn: nat
    var received: nat
    var shiftOut: nat
    var sent: nat
    var block: nat
    var dirty: bool

    ghost function View(): Chip
      reads this, bytes
    {
      Chip(bytes[..], state, shiftIn, received, shiftOut, sent, block, dirty)
    }

    ghost predicate Valid()
      reads this, bytes
    {
      InStep(View())
    }

    constructor (size: nat)
      requires size > 0
      ensures Valid() && fresh(bytes) && Idle(View())
      ensures bytes[..] == seq(size, _ => 0xFF) && !dirty
    {
      bytes := new uint8[size](_ => 0xFF);
      state := ReceivingCommand;
      shiftIn, received, shiftOut, sent, block := 0, 0, 0, 0, 0;
      dirty := false;
      new;
      assert bytes[..] == seq(size, _ => 0xFF);
    }

    method StartRead(from: nat)
      requires bytes.Length > 0
      modifies this`block, this`shiftOut, this`sent, this`state
      ensures View() == BeginRead(old(View()), from)
    {
      ghost var content := bytes[..];
      ghost var all := BlockBytes(content, from);
      block := from;
      var base := BaseOf(bytes.Length, from);
      var value := 0;
      for i := 0 to 8
        modifies {}
        invariant value == Value(256, all[..i])
      {
        ShiftByte(content, from, i);
        value := value * 256 % TWO64 + bytes[(base + i) % bytes.Length];
      }
      assert all[..8] == all && bytes[..] == content;
      shiftOut := value;
      sent := 0;
      state := SendingData;
    }

    method CommitWrite()
      requires bytes.Length > 0
      modifies this`dirty, this`state, this`shiftIn, this`received, bytes
      ensures View() == Commit(old(View()))
    {
      var base := BaseOf(bytes.Length, block);
      for i := 0 to 8
        modifies bytes
        invariant bytes[..] == Stored(old(bytes[..]), base, shiftIn, i)
      {
        bytes[(base + i) % bytes.Length] := shiftIn / Pow(2, 56 - i * 8) % 256;
      }
      dirty := true;
      state := ReceivingCommand;
      shiftIn, received := 0, 0;
    }

    /** Shift one bit out; outside a read the line idles high. */
    method ReadByte() returns (b: bit)
      requires Valid()
      modifies this`sent, this`state, this`shiftIn, this`received
      ensures (b, View()) == ReadBit(old(View())) && Valid()
    {
      if !state.SendingData? {
        return 1;
      }
      b := if sent < 4 then 0 else shiftOut / Pow(2, 63 - (sent - 4)) % 2;
      sent := sent + 1;
      if sent >= 68 {
        state := ReceivingCommand;
        shiftIn, received := 0, 0;
      }
    }

    /** Shift one bit in: bit 0 of the written value. */
    method WriteByte(value: uint8)
      requires Valid()
      modifies this, bytes
      ensures View() == WriteBit(old(View()), value % 2) && Valid()
    {
      var b: bit := value % 2;
      match state
      case ReceivingCommand =>
        shiftIn := shiftIn * 2 % TWO64 + b;
        received := received + 1;
        if received == CommandBits(bytes.Length) {
          var addressBits := AddressBits(bytes.Length);
          var command := shiftIn / Pow(2, addressBits + 1) % 4;
          var target := shiftIn / 2 % Pow(2, addressBits);
          shiftIn, received := 0, 0;
          if command == 3 {
            StartRead(target);
          } else if command == 2 {
            block := target;
            state := ReceivingData;
          } else {
            state := ReceivingCommand;
          }
        }
      case ReceivingData =>
        shiftIn := shiftIn * 2 % TWO64 + b;
        received := received + 1;
        if received == 64 {
          CommitWrite();
        }
      case SendingData =>
    }
  }

  /** Shifting in a block's next byte loses nothing. */
  lemma ShiftByte(bytes: seq<uint8>, block: nat, i: nat)
    requires |bytes| > 0 && i < 8
    ensures var all := BlockBytes(bytes, block);
      Value(256, all[..i + 1]) == Value(256, all[..i]) * 256 % TWO64 + bytes[(BaseOf(|bytes|, block) + i) % |bytes|]
  {
    var all := BlockBytes(bytes, block);
    var before := all[..i];
    assert all[..i + 1] == before + [all[i]];
    ValueAppend(256, before, all[i]);
    ByteFits(before);
  }

  lemma ByteFits(digits: seq<nat>)
    requires AreDigits(256, digits) && |digits| < 8
    ensures Value(256, digits) * 256 % TWO64 == Value(256, digits) * 256
  {
    ValueBound(256, digits);
    PowMono(256, |digits|, 7);
    Pow256To7();
  }

  lemma Pow256To7()
    ensures Pow(256, 7) == TWO64 / 256
  {
    assert Pow(256, 4) == 0x1_0000_0000;
  }

  // ---------------------------------------------------------------------------
  // Bit streams
  // ---------------------------------------------------------------------------

  /** `n` bits of `v`, most significant first. */
  function BitsOf(v: nat, n: nat): (bits: seq<bit>)
    ensures |bits| == n && bits == DigitsOf(2, v, n)
  {
    DigitsAreDigits(2, v, n);
    DigitsOf(2, v, n)
  }

  function Send(c: Chip, bits: seq<bit>): (c': Chip)
    requires |c.bytes| > 0
    ensures |c'.bytes| == |c.bytes|
    decreases |bits|
  {
    if bits == [] then c else WriteBit(Send(c, bits[..|bits| - 1]), bits[|bits| - 1])
  }

  function Receive(c: Chip, n: nat): (r: (seq<bit>, Chip))
    requires InStep(c)
    ensures InStep(r.1) && |r.1.bytes| == |c.bytes| && |r.0| == n
    decreases n
  {
    if n == 0 then ([], c)
    else
      var before := Receive(c, n - 1);
      var (b, after) := ReadBit(before.1);
      (before.0 + [b], after)
  }

  lemma {:induction false} SendConcat(c: Chip, a: seq<bit>, b: seq<bit>)
    requires |c.bytes| > 0
    ensures Send(c, a + b) == Send(Send(c, a), b)
    decreases |b|
  {
    if b == [] {
      assert a + b == a;
    } else {
      assert (a + b)[..|a + b| - 1] == a + b[..|b| - 1];
      SendConcat(c, a, b[..|b| - 1]);
    }
  }

  lemma Pow2To63()
    ensures Pow(2, 63) == TWO64 / 2 && Pow(2, 64) == TWO64
  {
    assert Pow(2, 8) == 256;
    PowAdd(2, 8, 8);
    PowAdd(2, 16, 16);
    PowAdd(2, 32, 32);
  }

  lemma BitFits(bits: seq<bit>)
    requires |bits| < 64
    ensures Value(2, bits) * 2 % TWO64 == Value(2, bits) * 2
  {
    ValueBound(2, bits);
    PowMono(2, |bits|, 63);
    Pow2To63();
  }

  /** Bits pile up in the shift register until the last of them. */
  lemma {:induction false} Collects(c: Chip, bits: seq<bit>)
    requires |c.bytes| > 0 && c.shiftIn == 0 && c.received == 0
    requires !c.state.SendingData? && |bits| < if c.state.ReceivingCommand? then CommandBits(|c.bytes|) else 64
    ensures Send(c, bits) == c.(shiftIn := Value(2, bits), received := |bits|)
    decreases |bits|
  {
    if bits != [] {
      Collects(c, bits[..|bits| - 1]);
      BitFits(bits[..|bits| - 1]);
    }
  }

  lemma LastBit(c: Chip, bits: seq<bit>)
    requires |c.bytes| > 0 && c.shiftIn == 0 && c.received == 0 && 0 < |bits| <= 64
    requires !c.state.SendingData? && |bits| == if c.state.ReceivingCommand? then CommandBits(|c.bytes|) else 64
    ensures var full := c.(shiftIn := Value(2, bits), received := |bits|);
      Send(c, bits) == if c.state.ReceivingData? then Commit(full) else Dispatch(full)
  {
    var init, last := bits[..|bits| - 1], bits[|bits| - 1];
    Collects(c, init);
    BitFits(init);
    assert ShiftIn(Send(c, init), last) == c.(shiftIn := Value(2, bits), received := |bits|);
  }

  /** A command as its bits: the command, the address, and a trailing bit. */
  function CommandFrame(size: nat, c1: bit, c0: bit, addr: nat, trailing: bit): (bits: seq<bit>)
    ensures |bits| == CommandBits(size)
  {
    [c1, c0] + BitsOf(addr, AddressBits(size)) + [trailing]
  }

  lemma TwoBits(c1: bit, c0: bit)
    ensures Value(2, [c1, c0]) == 2 * c1 + c0
  {
    assert [c1, c0] == [c1] + [c0] && [c1] == [] + [c1];
    ValueAppend(2, [c1], c0);
    ValueAppend(2, [], c1);
  }

  lemma CommandField(c1: bit, c0: bit, tail: seq<bit>)
    ensures Value(2, [c1, c0] + tail) / Pow(2, |tail|) % 4 == 2 * c1 + c0
  {
    TopBits([c1, c0], tail);
    TwoBits(c1, c0);
    SmallMod(2 * c1 + c0, 4);
  }

  lemma TopBits(top: seq<bit>, tail: seq<bit>)
    ensures Value(2, top + tail) / Pow(2, |tail|) == Value(2, top)
  {
    ValueSplits(2, top, tail);
  }

  lemma AddressField(cmd: seq<bit>, addr: seq<bit>, trailing: bit)
    ensures Value(2, cmd + addr + [trailing]) / 2 % Pow(2, |addr|) == Value(2, addr)
  {
    ValueSplits(2, cmd + addr, [trailing]);
    assert Pow(2, 1) == 2;
    ValueSplits(2, cmd, addr);
  }

  /** A whole command, its address given as bits. */
  lemma CommandTaken(c: Chip, c1: bit, c0: bit, addr: seq<bit>, trailing: bit)
    requires Idle(c) && |addr| == AddressBits(|c.bytes|)
    ensures Send(c, [c1, c0] + addr + [trailing]) ==
      if c1 == 1 && c0 == 1 then BeginRead(c, Value(2, addr))
      else if c1 == 1 then c.(block := Value(2, addr), state := ReceivingData)
      else c
  {
    LastBit(c, [c1, c0] + addr + [trailing]);
    assert [c1, c0] + addr + [trailing] == [c1, c0] + (addr + [trailing]);
    CommandField(c1, c0, addr + [trailing]);
    AddressField([c1, c0], addr, trailing);
  }

  lemma CommandSent(c: Chip, c1: bit, c0: bit, addr: nat, trailing: bit)
    requires Idle(c) && addr < Pow(2, AddressBits(|c.bytes|))
    ensures Send(c, CommandFrame(|c.bytes|, c1, c0, addr, trailing)) ==
      if c1 == 1 && c0 == 1 then BeginRead(c, addr)
      else if c1 == 1 then c.(block := addr, state := ReceivingData)
      else c
  {
    CommandTaken(c, c1, c0, BitsOf(addr, AddressBits(|c.bytes|)), trailing);
    DigitsRoundTrip(2, addr, AddressBits(|c.bytes|));
  }

  // ---------------------------------------------------------------------------
  // Blocks
  // ---------------------------------------------------------------------------

  /** The chip's contents as 64-bit blocks. */
  function BlockAt(bytes: seq<uint8>, b: nat): nat
    requires 8 * b + 8 <= |bytes|
  {
    Value(256, bytes[8 * b..8 * b + 8])
  }

  /** An address names a block modulo the number of blocks. */
  function BlockIndex(size: nat, addr: nat): (b: nat)
    requires size > 0 && size % 8 == 0
    ensures 8 * b + 8 <= size
  {
    addr % (size / 8)
  }

  lemma BaseIsBlock(size: nat, addr: nat)
    requires size > 0 && size % 8 == 0
    ensures BaseOf(size, addr) == 8 * BlockIndex(size, addr)
  {
    ModScale(addr, size / 8, 8);
  }

  lemma BlockBytesInPlace(bytes: seq<uint8>, addr: nat)
    requires |bytes| > 0 && |bytes| % 8 == 0
    ensures var b := BlockIndex(|bytes|, addr); BlockBytes(bytes, addr) == bytes[8 * b..8 * b + 8]
  {
    BaseIsBlock(|bytes|, addr);
    var base, all := BaseOf(|bytes|, addr), BlockBytes(bytes, addr);
    var b := BlockIndex(|bytes|, addr);
    forall k | 0 <= k < 8 ensures all[k] == bytes[8 * b..8 * b + 8][k] {
      SmallMod(base + k, |bytes|);
    }
  }

  lemma {:induction false} Pow256IsPow2(k: nat)
    ensures Pow(256, k) == Pow(2, 8 * k)
  {
    if k > 0 {
      Pow256IsPow2(k - 1);
      PowAdd(2, 8 * (k - 1), 8);
      assert Pow(2, 8) == 256;
    }
  }

  /** Storing puts the value's bytes at the base, most significant first, and touches nothing else. */
  lemma {:induction false} StoredAt(bytes: seq<uint8>, base: nat, value: nat, k: nat, i: nat)
    requires base + 8 <= |bytes| && k <= 8 && i < |bytes|
    ensures Stored(bytes, base, value, k)[i] == if base <= i < base + k then DigitsOf(256, value, 8)[i - base] else bytes[i]
  {
    if k > 0 {
      StoredAt(bytes, base, value, k - 1, i);
      DigitAt(256, value, 8, k - 1);
      Pow256IsPow2(8 - k);
      SmallMod(base + k - 1, |bytes|);
    }
  }

  lemma StoredBlock(bytes: seq<uint8>, addr: nat, payload: nat, b: nat)
    requires |bytes| > 0 && |bytes| % 8 == 0 && 8 * b + 8 <= |bytes| && payload < TWO64
    ensures BlockAt(Stored(bytes, BaseOf(|bytes|, addr), payload, 8), b) ==
      if b == BlockIndex(|bytes|, addr) then payload else BlockAt(bytes, b)
  {
    BaseIsBlock(|bytes|, addr);
    var base := BaseOf(|bytes|, addr);
    var after := Stored(bytes, base, payload, 8);
    forall i | 0 <= i < |bytes|
      ensures after[i] == if base <= i < base + 8 then DigitsOf(256, payload, 8)[i - base] else bytes[i]
    {
      StoredAt(bytes, base, payload, 8, i);
    }
    if b == BlockIndex(|bytes|, addr) {
      assert after[8 * b..8 * b + 8] == DigitsOf(256, payload, 8);
      Pow256IsPow2(8);
      Pow2To63();
      DigitsRoundTrip(256, payload, 8);
    } else {
      assert after[8 * b..8 * b + 8] == bytes[8 * b..8 * b + 8];
    }
  }

  // ---------------------------------------------------------------------------
  // Frames
  // ---------------------------------------------------------------------------

  /** Four zeros, then the register, most significant bit first. */
  function Answer(shiftOut: nat): (bits: seq<bit>)
    ensures |bits| == 68
  {
    [0, 0, 0, 0] + BitsOf(shiftOut, 64)
  }

  lemma AnswerAt(shiftOut: nat, k: nat)
    requires k < 68
    ensures Answer(shiftOut)[k] == if k < 4 then 0 else shiftOut / Pow(2, 63 - (k - 4)) % 2
  {
    if k >= 4 {
      DigitAt(2, shiftOut, 64, k - 4);
    }
  }

  lemma {:induction false} ShiftsOut(c: Chip, n: nat)
    requires |c.bytes| > 0 && c.state.SendingData? && c.sent == 0 && n <= 68
    ensures Receive(c, n).0 == Answer(c.shiftOut)[..n]
    ensures Receive(c, n).1 == if n < 68 then c.(sent := n) else c.(sent := 68, state := ReceivingCommand, shiftIn := 0, received := 0)
  {
    if n > 0 {
      ShiftsOut(c, n - 1);
      AnswerAt(c.shiftOut, n - 1);
    }
  }

  /** A whole exchange with the chip, as its users frame it. */
  datatype Exchange =
    | ReadBlock(addr: nat, trailing: bit)
    | WriteBlock(addr: nat, trailing: bit, payload: nat)
    | OtherCommand(c0: bit, addr: nat, trailing: bit)
    | Poll

  predicate Encodable(size: nat, e: Exchange) {
    match e
    case ReadBlock(addr, _) => addr < Pow(2, AddressBits(size))
    case WriteBlock(addr, _, payload) => addr < Pow(2, AddressBits(size)) && payload < TWO64
    case OtherCommand(_, addr, _) => addr < Pow(2, AddressBits(size))
    case Poll => true
  }

  /** What goes over the line: bits in, then bits out. */
  function Sent(size: nat, e: Exchange): seq<bit> {
    match e
    case ReadBlock(addr, trailing) => CommandFrame(size, 1, 1, addr, trailing)
    case WriteBlock(addr, trailing, payload) => CommandFrame(size, 1, 0, addr, trailing) + BitsOf(payload, 64)
    case OtherCommand(c0, addr, trailing) => CommandFrame(size, 0, c0, addr, trailing)
    case Poll => []
  }

  function ReadsOf(e: Exchange): nat {
    match e
    case ReadBlock(_, _) => 68
    case WriteBlock(_, _, _) => 0
    case OtherCommand(_, _, _) => 0
    case Poll => 1
  }

  /** The store the chip stands for: what an exchange answers, and the store afterwards. */
  function Serve(store: seq<nat>, e: Exchange): (r: (seq<bit>, seq<nat>))
    requires |store| > 0
    ensures |r.1| == |store|
  {
    match e
    case ReadBlock(addr, _) => (Answer(store[addr % |store|]), store)
    case WriteBlock(addr, _, payload) => ([], store[addr % |store| := payload])
    case OtherCommand(_, _, _) => ([], store)
    case Poll => ([1], store)
  }

  function Blocks(bytes: seq<uint8>): (store: seq<nat>)
    ensures |store| == |bytes| / 8
  {
    seq(|bytes| / 8, b requires 0 <= b < |bytes| / 8 => BlockAt(bytes, b))
  }

  lemma WriteServed(c: Chip, addr: nat, trailing: bit, payload: nat)
    requires Idle(c) && |c.bytes| % 8 == 0 && Encodable(|c.bytes|, WriteBlock(addr, trailing, payload))
    ensures var after := Send(c, Sent(|c.bytes|, WriteBlock(addr, trailing, payload)));
      Idle(after) && Blocks(after.bytes) == Blocks(c.bytes)[BlockIndex(|c.bytes|, addr) := payload]
  {
    var frame := CommandFrame(|c.bytes|, 1, 0, addr, trailing);
    SendConcat(c, frame, BitsOf(payload, 64));
    CommandSent(c, 1, 0, addr, trailing);
    LastBit(c.(block := addr, state := ReceivingData), BitsOf(payload, 64));
    Pow2To63();
    DigitsRoundTrip(2, payload, 64);
    forall b | 0 <= b < |c.bytes| / 8
      ensures BlockAt(Stored(c.bytes, BaseOf(|c.bytes|, addr), payload, 8), b) ==
        if b == BlockIndex(|c.bytes|, addr) then payload else BlockAt(c.bytes, b)
    {
      StoredBlock(c.bytes, addr, payload, b);
    }
  }

  lemma ReadServed(c: Chip, addr: nat)
    requires Idle(c) && |c.bytes| % 8 == 0
    ensures var (out, after) := Receive(BeginRead(c, addr), 68);
      out == Answer(Blocks(c.bytes)[BlockIndex(|c.bytes|, addr)]) && Idle(after) && after.bytes == c.bytes
  {
    BlockBytesInPlace(c.bytes, addr);
    ShiftsOut(BeginRead(c, addr), 68);
    var all := Answer(BeginRead(c, addr).shiftOut);
    assert all[..68] == all;
  }

  /** With `line` sent for it, an exchange from idle is answered as the store answers, the chip holds what the store does, and is idle again. */
  predicate Served(c: Chip, line: seq<bit>, e: Exchange)
    requires Idle(c) && |c.bytes| % 8 == 0
  {
    var sent := Send(c, line);
    InStep(sent) &&
    var (out, after) := Receive(sent, ReadsOf(e));
    Idle(after) && (out, Blocks(after.bytes)) == Serve(Blocks(c.bytes), e)
  }

  lemma ExchangeServed(c: Chip, e: Exchange)
    requires Idle(c) && |c.bytes| % 8 == 0 && Encodable(|c.bytes|, e)
    ensures Served(c, Sent(|c.bytes|, e), e)
  {
    match e
    case ReadBlock(addr, trailing) =>
      CommandSent(c, 1, 1, addr, trailing);
      ReadServed(c, addr);
    case WriteBlock(addr, trailing, payload) =>
      WriteServed(c, addr, trailing, payload);
    case OtherCommand(c0, addr, trailing) =>
      CommandSent(c, 0, c0, addr, trailing);
    case Poll =>
      assert Receive(c, 0) == ([], c) && ReadBit(c) == (1, c);
      assert Receive(c, 1) == ([] + [1], c) && [] + [1] == [1];
      assert Send(c, []) == c;
  }

  /** All exchanges of a session, one after another: the answers and the chip afterwards. */
  function Session(c: Chip, es: seq<Exchange>): (r: (seq<seq<bit>>, Chip))
    requires Idle(c) && |c.bytes| % 8 == 0 && forall k :: 0 <= k < |es| ==> Encodable(|c.bytes|, es[k])
    ensures Idle(r.1) && |r.1.bytes| == |c.bytes|
    decreases |es|
  {
    if es == [] then ([], c)
    else
      ExchangeServed(c, es[0]);
      var (out, next) := Receive(Send(c, Sent(|c.bytes|, es[0])), ReadsOf(es[0]));
      var (rest, after) := Session(next, es[1..]);
      ([out] + rest, after)
  }

  function ServeAll(store: seq<nat>, es: seq<Exchange>): (seq<seq<bit>>, seq<nat>)
    requires |store| > 0
    decreases |es|
  {
    if es == [] then ([], store)
    else
      var (out, next) := Serve(store, es[0]);
      var (rest, after) := ServeAll(next, es[1..]);
      ([out] + rest, after)
  }

  /**
   * The bit machine is a store of 64-bit blocks: over any session of framed exchanges from idle it gives
   * exactly the store's answers, ends holding exactly the store's contents, and is idle again.
   */
  lemma {:induction false} SessionRefinesStore(c: Chip, es: seq<Exchange>)
    requires Idle(c) && |c.bytes| % 8 == 0 && forall k :: 0 <= k < |es| ==> Encodable(|c.bytes|, es[k])
    ensures var (answers, after) := Session(c, es);
      Idle(after) && (answers, Blocks(after.bytes)) == ServeAll(Blocks(c.bytes), es)
    decreases |es|
  {
    if es != [] {
      ExchangeServed(c, es[0]);
      var next := Receive(Send(c, Sent(|c.bytes|, es[0])), ReadsOf(es[0])).1;
      SessionRefinesStore(next, es[1..]);
    }
  }

  // ---------------------------------------------------------------------------
  // The terminating bit
  // ---------------------------------------------------------------------------

  /** A command whose first bit is zero does nothing. */
  lemma LeadingZeroIgnored(c: Chip, rest: seq<bit>)
    requires Idle(c) && |rest| + 1 == CommandBits(|c.bytes|)
    ensures Send(c, [0] + rest) == c
  {
    assert [0] + rest == [0, rest[0]] + rest[1..];
    LastBit(c, [0] + rest);
    CommandField(0, rest[0], rest[1..]);
  }

  lemma FirstBit(c: Chip, b: bit)
    requires Idle(c)
    ensures Send(c, [b]) == c.(shiftIn := b, received := 1)
  {
    Collects(c, [b]);
    assert [b] == [] + [b];
    ValueAppend(2, [], b);
  }

  /**
   * A write is complete at its 64th data bit: the chip is idle after it exactly if nothing more is sent, so
   * that what holds from idle holds of the next exchange exactly if the write is not terminated.
   */
  lemma IdleUnlessTerminated(c: Chip, addr: nat, trailing: bit, payload: nat, tail: seq<bit>)
    requires Idle(c) && |c.bytes| % 8 == 0 && Encodable(|c.bytes|, WriteBlock(addr, trailing, payload))
    requires |tail| < CommandBits(|c.bytes|)
    ensures var line := Sent(|c.bytes|, WriteBlock(addr, trailing, payload));
      Send(c, line + tail) == Send(c, line).(shiftIn := Value(2, tail), received := |tail|) &&
      (Idle(Send(c, line + tail)) <==> tail == [])
  {
    WriteServed(c, addr, trailing, payload);
    var line := Sent(|c.bytes|, WriteBlock(addr, trailing, payload));
    SendConcat(c, line, tail);
    Collects(Send(c, line), tail);
  }

  /** A terminating zero swallows the next command whole, and leaves that command's trailing bit in its own place. */
  lemma ZeroSwallowsCommand(c: Chip, c1: bit, c0: bit, addr: nat, trailing: bit, rest: seq<bit>)
    requires Idle(c)
    ensures Send(c, [0] + CommandFrame(|c.bytes|, c1, c0, addr, trailing) + rest) == Send(c, [trailing] + rest)
    ensures var after := Send(c, [0] + CommandFrame(|c.bytes|, c1, c0, addr, trailing));
      after == c.(shiftIn := trailing, received := 1) && ReadBit(after) == (1, after)
  {
    var frame := CommandFrame(|c.bytes|, c1, c0, addr, trailing);
    var n := |frame| - 1;
    assert [0] + frame == ([0] + frame[..n]) + [trailing];
    SendConcat(c, [0] + frame[..n], [trailing]);
    LeadingZeroIgnored(c, frame[..n]);
    FirstBit(c, trailing);
    SendConcat(c, [0] + frame, rest);
    SendConcat(c, [trailing], rest);
  }

  /**
   * A terminating one makes a command of the next command's first bits, one place late: it reads if the first
   * of them was a one and writes otherwise, at a block that starts with the second and drops the last.
   */
  lemma OneShiftsCommand(c: Chip, c1: bit, c0: bit, addr: nat, trailing: bit)
    requires Idle(c) && addr < Pow(2, AddressBits(|c.bytes|))
    ensures var block := c0 * Pow(2, AddressBits(|c.bytes|) - 1) + addr / 2;
      Send(c, [1] + CommandFrame(|c.bytes|, c1, c0, addr, trailing)) ==
      if c1 == 1 then BeginRead(c, block) else c.(block := block, state := ReceivingData, shiftIn := trailing, received := 1)
  {
    hide Value, Pow, WriteBit, BlockBytes;
    var n := AddressBits(|c.bytes|);
    var a: seq<bit> := BitsOf(addr, n);
    var field, last := [c0] + a[..n - 1], a[n - 1];
    assert [1] + CommandFrame(|c.bytes|, c1, c0, addr, trailing) == [1, c1] + field + [last] + [trailing];
    SendConcat(c, [1, c1] + field + [last], [trailing]);
    CommandTaken(c, 1, c1, field, last);
    ShiftedAddress(c0, addr, n);
    BitAfterCommand(Send(c, [1, c1] + field + [last]), trailing);
  }

  lemma BitAfterCommand(c: Chip, b: bit)
    requires |c.bytes| > 0 && !c.state.ReceivingCommand? && c.shiftIn == 0 && c.received == 0
    ensures Send(c, [b]) == if c.state.SendingData? then c else c.(shiftIn := b, received := 1)
  {
    if c.state.SendingData? {
      AnsweringIgnores(c, [b]);
    } else {
      Collects(c, [b]);
      assert [b] == [] + [b];
      ValueAppend(2, [], b);
    }
  }

  lemma ShiftedAddress(c0: bit, addr: nat, n: nat)
    requires n > 0 && addr < Pow(2, n)
    ensures Value(2, [c0] + BitsOf(addr, n)[..n - 1]) == c0 * Pow(2, n - 1) + addr / 2
  {
    assert BitsOf(addr, n)[..n - 1] == DigitsOf(2, addr / 2, n - 1);
    ValueConcat(2, [c0], BitsOf(addr, n)[..n - 1]);
    assert [c0] == [] + [c0];
    ValueAppend(2, [], c0);
    DigitsRoundTrip(2, addr / 2, n - 1);
  }

  /** While an answer is waiting, what is sent is ignored. */
  lemma {:induction false} AnsweringIgnores(c: Chip, bits: seq<bit>)
    requires |c.bytes| > 0 && c.state.SendingData?
    ensures Send(c, bits) == c
    decreases |bits|
  {
    if bits != [] {
      AnsweringIgnores(c, bits[..|bits| - 1]);
    }
  }

  /** `after` came from `c` in `k` bits without committing anything; it is idle only between commands. */
  predicate Uncommitted(c: Chip, after: Chip, k: nat) {
    after.bytes == c.bytes && after.dirty == c.dirty && InStep(after) &&
    match after.state
    case ReceivingCommand => after.received <= k && (k - after.received) % CommandBits(|c.bytes|) == 0
    case ReceivingData => CommandBits(|c.bytes|) + after.received <= k
    case SendingData => true
  }

  lemma OneMoreUncommitted(c: Chip, d: Chip, k: nat, b: bit)
    requires Uncommitted(c, d, k) && k + 1 < CommandBits(|c.bytes|) + 64
    ensures Uncommitted(c, WriteBit(d, b), k + 1)
  {
    hide Pow, Value, BlockBytes, Stored, BaseOf;
    if |c.bytes| > 512 {
      assert CommandBits(|c.bytes|) == 17;
    } else {
      assert CommandBits(|c.bytes|) == 9;
    }
  }

  /** Less than a command and its payload commits nothing. */
  lemma {:induction false} TooShortToCommit(c: Chip, bits: seq<bit>)
    requires Idle(c) && |bits| < CommandBits(|c.bytes|) + 64
    ensures Uncommitted(c, Send(c, bits), |bits|)
    decreases |bits|
  {
    hide WriteBit;
    if bits != [] {
      TooShortToCommit(c, bits[..|bits| - 1]);
      OneMoreUncommitted(c, Send(c, bits[..|bits| - 1]), |bits| - 1, bits[|bits| - 1]);
    }
  }

  /** A bit and a payload, taken for commands. */
  function PayloadAsCommands(c: Chip, first: bit, p: seq<bit>): Chip
    requires |c.bytes| > 0 && |p| == 64
  {
    var n := AddressBits(|c.bytes|);
    if first == 0 then Send(c, p[n + 2..])
    else if p[0] == 1 then BeginRead(c, Value(2, p[1..n + 1]))
    else c.(block := Value(2, p[1..n + 1]), state := ReceivingData, shiftIn := Value(2, p[n + 2..]), received := 62 - n)
  }

  lemma PayloadTaken(c: Chip, first: bit, p: seq<bit>)
    requires Idle(c) && |p| == 64
    ensures Send(c, [first] + p) == PayloadAsCommands(c, first, p)
  {
    hide Value, Pow, WriteBit, Send, BlockBytes;
    var n := AddressBits(|c.bytes|);
    var command: seq<bit>, rest := [first] + p[..n + 2], p[n + 2..];
    assert [first] + p == command + rest;
    SendConcat(c, command, rest);
    if first == 0 {
      LeadingZeroIgnored(c, p[..n + 2]);
    } else {
      assert command == [1, p[0]] + p[1..n + 1] + [p[n + 1]];
      CommandTaken(c, 1, p[0], p[1..n + 1], p[n + 1]);
      if p[0] == 1 {
        AnsweringIgnores(Send(c, command), rest);
      } else {
        Collects(Send(c, command), rest);
      }
    }
  }

  /**
   * A write after a terminating zero is lost, and its payload is taken for commands, the first of them begun by
   * the lost command's trailing bit. If that is a one, the payload reads or starts to write a block of its own.
   */
  lemma WriteAfterZero(c: Chip, addr: nat, trailing: bit, payload: nat)
    requires Idle(c)
    ensures var after := Send(c, [0] + Sent(|c.bytes|, WriteBlock(addr, trailing, payload)));
      after == PayloadAsCommands(c, trailing, BitsOf(payload, 64)) && after.bytes == c.bytes && InStep(after) && !Idle(after)
  {
    hide Value, Pow, WriteBit, Send, BlockBytes, BitsOf, PayloadAsCommands, CommandFrame;
    var p := BitsOf(payload, 64);
    assert [0] + Sent(|c.bytes|, WriteBlock(addr, trailing, payload)) ==
      [0] + CommandFrame(|c.bytes|, 1, 0, addr, trailing) + p;
    ZeroSwallowsCommand(c, 1, 0, addr, trailing, p);
    PayloadTaken(c, trailing, p);
    TooShortToCommit(c, [trailing] + p);
  }

  /** A write after a terminating one is taken for a read of the block with half its address, and its payload is ignored. */
  lemma WriteAfterOne(c: Chip, addr: nat, trailing: bit, payload: nat)
    requires Idle(c) && addr < Pow(2, AddressBits(|c.bytes|))
    ensures Send(c, [1] + Sent(|c.bytes|, WriteBlock(addr, trailing, payload))) == BeginRead(c, addr / 2)
  {
    var frame, p := CommandFrame(|c.bytes|, 1, 0, addr, trailing), BitsOf(payload, 64);
    assert [1] + Sent(|c.bytes|, WriteBlock(addr, trailing, payload)) == ([1] + frame) + p;
    SendConcat(c, [1] + frame, p);
    OneShiftsCommand(c, 1, 0, addr, trailing);
    AnsweringIgnores(BeginRead(c, addr / 2), p);
  }

  /** Polling does not move a chip that is listening. */
  lemma {:induction false} ListeningIsKept(c: Chip, n: nat)
    requires InStep(c) && !c.state.SendingData?
    ensures Receive(c, n).1 == c
    decreases n
  {
    if n > 0 {
      ListeningIsKept(c, n - 1);
    }
  }

  lemma BlockFits(bytes: seq<uint8>, b: nat)
    requires 8 * b + 8 <= |bytes|
    ensures BlockAt(bytes, b) < TWO64
  {
    ValueBound(256, bytes[8 * b..8 * b + 8]);
    Pow256IsPow2(8);
    Pow2To63();
  }

  /** Different blocks are answered differently. */
  lemma AnswersTell(u: nat, v: nat)
    requires u < TWO64 && v < TWO64
    ensures Answer(u) == Answer(v) <==> u == v
  {
    Pow2To63();
    assert Answer(u)[4..] == BitsOf(u, 64) && Answer(v)[4..] == BitsOf(v, 64);
    DigitsRoundTrip(2, u, 64);
    DigitsRoundTrip(2, v, 64);
  }

  /** The block that `addr` names once a terminating one has shifted it holds what its own block does. */
  predicate SameBlock(c: Chip, addr: nat)
    requires |c.bytes| > 0 && |c.bytes| % 8 == 0
  {
    var size := |c.bytes|;
    Blocks(c.bytes)[BlockIndex(size, Pow(2, AddressBits(size) - 1) + addr / 2)] == Blocks(c.bytes)[BlockIndex(size, addr)]
  }

  lemma ReadAfterOne(c: Chip, addr: nat, trailing: bit)
    requires Idle(c) && |c.bytes| % 8 == 0 && addr < Pow(2, AddressBits(|c.bytes|))
    ensures var e := ReadBlock(addr, trailing);
      Served(c, [1] + Sent(|c.bytes|, e), e) <==> SameBlock(c, addr)
  {
    hide Value, Pow, WriteBit, Send, BlockBytes, BitsOf, CommandFrame, BlockAt, Receive, Answer;
    var other, asked := Pow(2, AddressBits(|c.bytes|) - 1) + addr / 2, BlockIndex(|c.bytes|, addr);
    OneShiftsCommand(c, 1, 1, addr, trailing);
    ReadServed(c, other);
    BlockFits(c.bytes, BlockIndex(|c.bytes|, other));
    BlockFits(c.bytes, asked);
    AnswersTell(BlockAt(c.bytes, BlockIndex(|c.bytes|, other)), BlockAt(c.bytes, asked));
  }

  /**
   * The exchange after a terminated write is served exactly when it is a read, the terminating bit is a one, and
   * the block that the shifted address names holds what the block asked for does.
   */
  lemma ServedAfterTerminatorWhen(c: Chip, b: bit, e: Exchange)
    requires Idle(c) && |c.bytes| % 8 == 0 && Encodable(|c.bytes|, e)
    ensures Served(c, [b] + Sent(|c.bytes|, e), e) <==> b == 1 && e.ReadBlock? && SameBlock(c, e.addr)
  {
    hide Value, Pow, WriteBit, Send, BlockBytes, BitsOf, CommandFrame, Blocks, PayloadAsCommands, BlockAt, SameBlock;
    match e
    case ReadBlock(addr, trailing) =>
      if b == 1 {
        ReadAfterOne(c, addr, trailing);
      } else {
        ZeroSwallowsCommand(c, 1, 1, addr, trailing, []);
        ListeningIsKept(c.(shiftIn := trailing, received := 1), 68);
      }
    case WriteBlock(addr, trailing, payload) =>
      if b == 1 {
        WriteAfterOne(c, addr, trailing, payload);
      } else {
        WriteAfterZero(c, addr, trailing, payload);
      }
    case OtherCommand(c0, addr, trailing) =>
      if b == 1 {
        OneShiftsCommand(c, 0, c0, addr, trailing);
      } else {
        ZeroSwallowsCommand(c, 0, c0, addr, trailing, []);
      }
    case Poll =>
      assert [b] + Sent(|c.bytes|, e) == [b];
      FirstBit(c, b);
      ListeningIsKept(c.(shiftIn := b, received := 1), 1);
  }
}
