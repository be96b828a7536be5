/**
 * What ARM7TDMI instructions amount to, in numbers: conditions and vectors, products and shifts, and the
 * words an assembler makes of the operations.
 */
module ArmMeaning {
  import opened Words
  import opened Arith
  import opened ArmShift
  import opened ArmPsr
  import opened ArmRegisters
  import opened ArmMemory
  import opened ArmCore
  import opened ArmExceptions
  import opened ArmThumb
  import opened ArmTransfer
  import opened ArmMachine

  // ---------------------------------------------------------------------------
  // Conditions
  // ---------------------------------------------------------------------------

  /** EQ to NV: bit `8n + 4z + 2c + v` of an entry says whether that condition passes. */
  const CONDITIONS: seq<nat> :=
    [0xF0F0, 0x0F0F, 0xCCCC, 0x3333, 0xFF00, 0x00FF, 0xAAAA, 0x5555, 0x0C0C, 0xF3F3, 0xAA55, 0x55AA, 0x0A05, 0xF5FA, 0xFFFF, 0x0000]

  /** Every condition of every status, by the top four bits of its word. */
  lemma ConditionTable(p: Psr, cond: nat)
    requires cond < 16
    ensures p.PassesCondition(cond) <==> BitOf(CONDITIONS[cond], Nibble(p.n, p.z, p.c, p.v))
    ensures p.Bits() / 0x1000_0000 == Nibble(p.n, p.z, p.c, p.v)
  {
    PackedFields(Nibble(p.n, p.z, p.c, p.v), p.rest, Nibble(p.i, p.f, p.t, false), p.modeBits);
    Powers();
    if cond < 4 {
      FlagConditions(p, cond);
    } else if cond < 8 {
      SignConditions(p, cond);
    } else if cond < 12 {
      OrderConditions(p, cond);
    } else {
      StrictConditions(p, cond);
    }
  }

  lemma FlagConditions(p: Psr, cond: nat)
    requires cond < 4
    ensures p.PassesCondition(cond) <==> BitOf(CONDITIONS[cond], Nibble(p.n, p.z, p.c, p.v))
  {
    Powers();
  }

  lemma SignConditions(p: Psr, cond: nat)
    requires 4 <= cond < 8
    ensures p.PassesCondition(cond) <==> BitOf(CONDITIONS[cond], Nibble(p.n, p.z, p.c, p.v))
  {
    Powers();
  }

  lemma OrderConditions(p: Psr, cond: nat)
    requires 8 <= cond < 12
    ensures p.PassesCondition(cond) <==> BitOf(CONDITIONS[cond], Nibble(p.n, p.z, p.c, p.v))
  {
    Powers();
  }

  lemma StrictConditions(p: Psr, cond: nat)
    requires 12 <= cond < 16
    ensures p.PassesCondition(cond) <==> BitOf(CONDITIONS[cond], Nibble(p.n, p.z, p.c, p.v))
  {
    Powers();
  }

  lemma Powers()
    ensures Pow2(0) == 1 && Pow2(1) == 2 && Pow2(2) == 4 && Pow2(3) == 8 && Pow2(4) == 0x10 && Pow2(5) == 0x20
    ensures Pow2(6) == 0x40 && Pow2(7) == 0x80 && Pow2(8) == 0x100 && Pow2(9) == 0x200 && Pow2(10) == 0x400 && Pow2(11) == 0x800
    ensures Pow2(12) == 0x1000 && Pow2(13) == 0x2000 && Pow2(14) == 0x4000 && Pow2(15) == 0x8000
  {
  }

  /** Awake, in ARM state, with no interrupt to take. */
  predicate RunsArm(core: Core, lines: Lines) {
    !core.cpsr.t && !lines.halted && !(lines.fiq && !core.cpsr.f) && !(lines.irq && !core.cpsr.i)
  }

  /** The word at R15 runs exactly if its top four bits name a condition that passes: always for 0xE, never for 0xF. */
  lemma ConditionDecides(core: Core, m: Memory, lines: Lines, interworking: bool, base: uint32)
    requires RunsArm(core, lines)
    ensures var addr := core.regs.pc - core.regs.pc % 4;
      var word, fetched := Word(m, addr), core.(regs := core.regs.(pc := (addr + 4) % 0x1_0000_0000));
      var runs := BitOf(CONDITIONS[word / 0x1000_0000], Nibble(core.cpsr.n, core.cpsr.z, core.cpsr.c, core.cpsr.v));
      (word >= 0xF000_0000 ==> !runs) && (0xE000_0000 <= word < 0xF000_0000 ==> runs) &&
      var (after, m', cycles, _) := Stepped(core, m, lines, interworking, base);
      (after, m', cycles) == if runs then ArmExecuted(fetched, m, word as bv32, interworking, base) else (fetched, m, 1)
  {
    hide ArmExecuted, Word, BitOf;
    var addr := core.regs.pc - core.regs.pc % 4;
    var cond := Word(m, addr) / 0x1000_0000;
    ConditionTable(core.cpsr, cond);
  }

  // ---------------------------------------------------------------------------
  // Exceptions
  // ---------------------------------------------------------------------------

  /** `after` is `before` having entered an exception: where, in which mode, whether FIQ is masked, and how far on R14 is. */
  predicate Entered(before: Core, after: Core, address: int, modeBits: nat, masksFiq: bool, ahead: nat) {
    var b := Bank(after.cpsr.CurrentMode());
    after.cpsr.modeBits == modeBits &&
    after.cpsr == before.cpsr.(modeBits := after.cpsr.modeBits, t := false, i := true, f := before.cpsr.f || masksFiq) &&
    after.regs == before.regs.(pc := address % 0x1_0000_0000, spsr := before.regs.spsr[b := before.cpsr],
                               lr := before.regs.lr[b := (before.regs.pc + ahead) % 0x1_0000_0000])
  }

  /** The seven exceptions. */
  lemma ExceptionsInNumbers(core: Core, base: uint32)
    ensures Entered(core, Raise(core, Reset, base), base as int, 0x13, true, 0)
    ensures Entered(core, Raise(core, UndefinedInstruction, base), base + 0x04, 0x1B, false, 0)
    ensures Entered(core, Raise(core, SoftwareInterrupt, base), base + 0x08, 0x13, false, 0)
    ensures Entered(core, Raise(core, PrefetchAbort, base), base + 0x0C, 0x17, false, 0)
    ensures Entered(core, Raise(core, DataAbort, base), base + 0x10, 0x17, false, 4)
    ensures Entered(core, Raise(core, Interrupt, base), base + 0x18, 0x12, false, 4)
    ensures Entered(core, Raise(core, FastInterrupt, base), base + 0x1C, 0x11, true, 4)
  {
    EntersAt(core, Reset, base);
    EntersAt(core, UndefinedInstruction, base);
    EntersAt(core, SoftwareInterrupt, base);
    EntersAt(core, PrefetchAbort, base);
    EntersAt(core, DataAbort, base);
    EntersAt(core, Interrupt, base);
    EntersAt(core, FastInterrupt, base);
    hide Entered, Raise;
  }

  lemma EntersAt(core: Core, e: Exception, base: uint32)
    ensures Entered(core, Raise(core, e, base), base + Vector(e), ModeBits(ExceptionMode(e)), MasksFiq(e), LinkOffset(e))
  {
    ModeEncodingsRoundTrip(ExceptionMode(e));
    hide Vector, MasksFiq, LinkOffset;
  }

  /** The encodings of THUMB that no format claims. */
  predicate ThumbUndefined(instr: bv16) {
    instr & 0xFF00 == 0xDE00 || instr & 0xF800 == 0xE800 ||
    (instr & 0xF000 == 0xB000 && instr & 0x0F00 != 0 && instr & 0x0600 != 0x0400)
  }

  /** What enters which: the lines by priority, and SWI and the undefined encodings of both instruction sets. */
  lemma WhatEnters(core: Core, m: Memory, lines: Lines, word: bv32, half: bv16, interworking: bool, base: uint32)
    ensures lines.fiq && !core.cpsr.f ==>
      Stepped(core, m, lines, interworking, base) == (Raise(core, FastInterrupt, base), m, 3, false)
    ensures !(lines.fiq && !core.cpsr.f) && lines.irq && !core.cpsr.i ==>
      Stepped(core, m, lines, interworking, base) == (Raise(core, Interrupt, base), m, 3, false)
    ensures word & 0x0F00_0000 == 0x0F00_0000 ==>
      ArmExecuted(core, m, word, interworking, base) == (Raise(core, SoftwareInterrupt, base), m, 3)
    ensures half & 0xFF00 == 0xDF00 ==>
      ThumbExecuted(core, m, half, interworking, base) == (Raise(core, SoftwareInterrupt, base), m, 3)
    ensures Encodes(NoFormat, word) ==>
      ArmExecuted(core, m, word, interworking, base) == (Raise(core, UndefinedInstruction, base), m, 3)
    ensures ThumbUndefined(half) ==>
      ThumbExecuted(core, m, half, interworking, base) == (Raise(core, UndefinedInstruction, base), m, 3)
  {
    DecodeOrderIsFree(word, SoftwareInterruptFormat);
    DecodeOrderIsFree(word, NoFormat);
    TrapFormats(half);
    hide ArmFormatOf, ThumbFormatOf, Raise, ArmStepped, ThumbStepped;
  }

  lemma TrapFormats(half: bv16)
    ensures half & 0xFF00 == 0xDF00 ==> ThumbFormatOf(half) == 17
    ensures ThumbUndefined(half) ==> ThumbFormatOf(half) == 0
  {
  }

  /** A register as an instruction reads it: R15 is some way past the next instruction. */
  function Seen(core: Core, index: nat, ahead: nat): nat
    requires index < 16
  {
    if index < 15 then core.Reg(index) else (core.regs.pc + ahead) % 0x1_0000_0000
  }

  lemma SeenIsRead(core: Core, index: nat, ahead: nat)
    requires index < 16
    ensures core.RegPc(index, ahead) == Seen(core, index, ahead)
  {
  }

  // ---------------------------------------------------------------------------
  // Products
  // ---------------------------------------------------------------------------

  /** A four-bit field as a number. */
  function Num(x: bv4): (n: nat)
    ensures n < 16
  {
    x as nat
  }

  /** `MUL` and `MLA Rd, Rm, Rs, Rn`. */
  function MultiplyWord(cond: bv4, accumulate: bool, s: bool, rd: bv4, rn: bv4, rs: bv4, rm: bv4): bv32 {
    (cond as bv32 << 28) | (if accumulate then 0x0020_0000 else 0) | (if s then 0x0010_0000 else 0) | (rd as bv32 << 16) | (rn as bv32 << 12) | (rs as bv32 << 8) | 0x90 | rm as bv32
  }

  /** `UMULL`, `UMLAL`, `SMULL` and `SMLAL Rlo, Rhi, Rm, Rs`. */
  function MultiplyLongWord(cond: bv4, signed: bool, accumulate: bool, s: bool, hi: bv4, lo: bv4, rs: bv4, rm: bv4): bv32 {
    (cond as bv32 << 28) | 0x0080_0000 | (if signed then 0x0040_0000 else 0) | (if accumulate then 0x0020_0000 else 0) | (if s then 0x0010_0000 else 0) |
    (hi as bv32 << 16) | (lo as bv32 << 12) | (rs as bv32 << 8) | 0x90 | rm as bv32
  }

  /** Four bits of a word, as an assembler put them there. */
  lemma FieldIs(w: bv32, at: bv32, x: bv4)
    requires at <= 28 && ((w >> at) & 0xF) as bv4 == x
    ensures Field(w, at) == Num(x)
  {
  }

  lemma MultiplyBits(cond: bv4, accumulate: bool, s: bool, rd: bv4, rn: bv4, rs: bv4, rm: bv4)
    ensures var w := MultiplyWord(cond, accumulate, s, rd, rn, rs, rm);
      ArmFormatOf(w) == MultiplyFormat && (w & 0x0020_0000 != 0 <==> accumulate) && (w & 0x0010_0000 != 0 <==> s) &&
      ((w >> 16) & 0xF) as bv4 == rd && ((w >> 12) & 0xF) as bv4 == rn && ((w >> 8) & 0xF) as bv4 == rs && ((w >> 0) & 0xF) as bv4 == rm
  {
  }

  lemma MultiplyDecodes(cond: bv4, accumulate: bool, s: bool, rd: bv4, rn: bv4, rs: bv4, rm: bv4)
    ensures var w := MultiplyWord(cond, accumulate, s, rd, rn, rs, rm);
      ArmFormatOf(w) == MultiplyFormat && (w & 0x0020_0000 != 0 <==> accumulate) && (w & 0x0010_0000 != 0 <==> s) &&
      Field(w, 16) == Num(rd) && Field(w, 12) == Num(rn) && Field(w, 8) == Num(rs) && Field(w, 0) == Num(rm)
  {
    MultiplyBits(cond, accumulate, s, rd, rn, rs, rm);
    hide MultiplyWord, ArmFormatOf, Field;
    var w := MultiplyWord(cond, accumulate, s, rd, rn, rs, rm);
    FieldIs(w, 16, rd);
    FieldIs(w, 12, rn);
    FieldIs(w, 8, rs);
    FieldIs(w, 0, rm);
  }

  lemma MultiplyLongBits(cond: bv4, signed: bool, accumulate: bool, s: bool, hi: bv4, lo: bv4, rs: bv4, rm: bv4)
    ensures var w := MultiplyLongWord(cond, signed, accumulate, s, hi, lo, rs, rm);
      ArmFormatOf(w) == MultiplyLongFormat && (w & 0x0040_0000 != 0 <==> signed) && (w & 0x0020_0000 != 0 <==> accumulate) &&
      (w & 0x0010_0000 != 0 <==> s) &&
      ((w >> 16) & 0xF) as bv4 == hi && ((w >> 12) & 0xF) as bv4 == lo && ((w >> 8) & 0xF) as bv4 == rs && ((w >> 0) & 0xF) as bv4 == rm
  {
  }

  lemma MultiplyLongDecodes(cond: bv4, signed: bool, accumulate: bool, s: bool, hi: bv4, lo: bv4, rs: bv4, rm: bv4)
    ensures var w := MultiplyLongWord(cond, signed, accumulate, s, hi, lo, rs, rm);
      ArmFormatOf(w) == MultiplyLongFormat && (w & 0x0040_0000 != 0 <==> signed) && (w & 0x0020_0000 != 0 <==> accumulate) &&
      (w & 0x0010_0000 != 0 <==> s) &&
      Field(w, 16) == Num(hi) && Field(w, 12) == Num(lo) && Field(w, 8) == Num(rs) && Field(w, 0) == Num(rm)
  {
    MultiplyLongBits(cond, signed, accumulate, s, hi, lo, rs, rm);
    hide MultiplyLongWord, ArmFormatOf, Field;
    var w := MultiplyLongWord(cond, signed, accumulate, s, hi, lo, rs, rm);
    FieldIs(w, 16, hi);
    FieldIs(w, 12, lo);
    FieldIs(w, 8, rs);
    FieldIs(w, 0, rm);
  }

  /** N and Z of a result, if they are asked for. */
  function Judged(core: Core, s: bool, negative: bool, zero: bool): Core {
    if s then core.(cpsr := core.cpsr.(n := negative, z := zero)) else core
  }

  /** Rd becomes (Rm * Rs + Rn) mod 2^32; C and V are left alone. */
  lemma MultiplyInNumbers(core: Core, m: Memory, cond: bv4, accumulate: bool, s: bool, rd: bv4, rn: bv4, rs: bv4, rm: bv4,
                          interworking: bool, base: uint32)
    ensures var r := (core.Reg(Num(rm)) * core.Reg(Num(rs)) + if accumulate then core.Reg(Num(rn)) else 0) % 0x1_0000_0000;
      var (after, m', _) := ArmExecuted(core, m, MultiplyWord(cond, accumulate, s, rd, rn, rs, rm), interworking, base);
      m' == m && after == Judged(core, s, r >= 0x8000_0000, r == 0).WithReg(Num(rd), r) && after.Reg(Num(rd)) == r
  {
    MultiplyDecodes(cond, accumulate, s, rd, rn, rs, rm);
    var r := (core.Reg(Num(rm)) * core.Reg(Num(rs)) + if accumulate then core.Reg(Num(rn)) else 0) % 0x1_0000_0000;
    ReadsBack(Judged(core, s, r >= 0x8000_0000, r == 0), Num(rd), r);
    hide MultiplyWord, ArmFormatOf, Field, MultiplyCycles, Read, Write;
  }

  lemma ReadsBack(core: Core, index: nat, value: uint32)
    requires index < 16
    ensures core.WithReg(index, value).Reg(index) == value
    ensures core.WithReg(index, value).cpsr == core.cpsr
    ensures forall other :: 0 <= other < 16 && other != index ==> core.WithReg(index, value).Reg(other) == core.Reg(other)
  {
  }

  /** The whole product, signed or not, plus the old pair, mod 2^64. */
  function LongNumber(core: Core, signed: bool, accumulate: bool, hi: nat, lo: nat, rs: nat, rm: nat): nat
    requires hi < 16 && lo < 16 && rs < 16 && rm < 16
  {
    var x, y := core.Reg(rm), core.Reg(rs);
    ((if signed then Signed(x) * Signed(y) else x * y) +
     if accumulate then core.Reg(hi) * 0x1_0000_0000 + core.Reg(lo) else 0) % 0x1_0000_0000_0000_0000
  }

  lemma LongTotal(core: Core, w: bv32, signed: bool, accumulate: bool, hi: nat, lo: nat, rs: nat, rm: nat)
    requires Field(w, 16) == hi && Field(w, 12) == lo && Field(w, 8) == rs && Field(w, 0) == rm
    requires (w & 0x0040_0000 != 0 <==> signed) && (w & 0x0020_0000 != 0 <==> accumulate)
    ensures LongProduct(core, w) % TWO64 == LongNumber(core, signed, accumulate, hi, lo, rs, rm)
  {
    hide Field, Read;
  }

  /** hi : lo becomes the whole product, signed with bit 22, plus the old pair with bit 21, mod 2^64; N and Z are those of the pair. */
  lemma MultiplyLongInNumbers(core: Core, m: Memory, cond: bv4, signed: bool, accumulate: bool, s: bool,
                              hi: bv4, lo: bv4, rs: bv4, rm: bv4, interworking: bool, base: uint32)
    requires hi != lo
    ensures var r := LongNumber(core, signed, accumulate, Num(hi), Num(lo), Num(rs), Num(rm));
      var (after, m', _) := ArmExecuted(core, m, MultiplyLongWord(cond, signed, accumulate, s, hi, lo, rs, rm), interworking, base);
      m' == m && after.Reg(Num(hi)) * 0x1_0000_0000 + after.Reg(Num(lo)) == r &&
      after.cpsr == Judged(core, s, r >= 0x8000_0000_0000_0000, r == 0).cpsr &&
      forall other :: 0 <= other < 16 && other != Num(hi) && other != Num(lo) ==> after.Reg(other) == core.Reg(other)
  {
    hide MultiplyLongWord, ArmFormatOf, Field, MultiplyCycles, LongProduct, LongNumber, LongWritten, Judged, Core.Reg;
    var w := MultiplyLongWord(cond, signed, accumulate, s, hi, lo, rs, rm);
    MultiplyLongDecodes(cond, signed, accumulate, s, hi, lo, rs, rm);
    LongTotal(core, w, signed, accumulate, Num(hi), Num(lo), Num(rs), Num(rm));
    LongPair(core, LongNumber(core, signed, accumulate, Num(hi), Num(lo), Num(rs), Num(rm)), Num(hi), Num(lo), s);
  }

  lemma LongPair(core: Core, result: uint64, hi: nat, lo: nat, s: bool)
    requires hi < 16 && lo < 16 && hi != lo
    ensures var after := LongWritten(core, result, hi, lo, s);
      after.Reg(hi) * 0x1_0000_0000 + after.Reg(lo) == result &&
      after.cpsr == Judged(core, s, result >= 0x8000_0000_0000_0000, result == 0).cpsr &&
      forall other :: 0 <= other < 16 && other != hi && other != lo ==> after.Reg(other) == core.Reg(other)
  {
    var judged := Judged(core, s, result >= 0x8000_0000_0000_0000, result == 0);
    ReadsBack(judged, lo, result % TWO32);
    ReadsBack(judged.WithReg(lo, result % TWO32), hi, result / TWO32);
    Recompose(result, TWO32);
    hide Read, Write;
  }

  /** THUMB `MUL Rd, Rs`. */
  lemma ThumbMultiplyInNumbers(core: Core, m: Memory, rd: bv3, rs: bv3, interworking: bool, base: uint32)
    ensures var r := core.Reg(rd as nat) * core.Reg(rs as nat) % 0x1_0000_0000;
      var (after, m', _) := ThumbExecuted(core, m, 0x4340 | (rs as bv16 << 3) | rd as bv16, interworking, base);
      m' == m && after == Judged(core, true, r >= 0x8000_0000, r == 0).WithReg(rd as nat, r)
  {
    var instr: bv16 := 0x4340 | (rs as bv16 << 3) | rd as bv16;
    assert ThumbFormatOf(instr) == 4 && ThumbBits4(instr, 6) == 0xD && Low(instr, 0) == rd as nat && Low(instr, 3) == rs as nat;
    hide ThumbFormatOf, ThumbBits4, Low, MultiplyCycles, Read, Write;
  }

  /** The multiplier takes a cycle for each byte of its operand, but for leading bytes that only repeat its sign. */
  lemma MultiplierStopsEarly(operand: uint32, bytes: nat)
    requires 1 <= bytes <= 3
    ensures MultiplyCycles(operand) <= bytes <==> 0 - Pow2(8 * bytes) <= Signed(operand) < Pow2(8 * bytes)
    ensures 1 <= MultiplyCycles(operand) <= 4
  {
    assert Pow2(8) == 0x100;
    assert Pow2(16) == 0x1_0000;
    assert Pow2(24) == 0x100_0000;
  }

  // ---------------------------------------------------------------------------
  // Bitwise operations
  // ---------------------------------------------------------------------------

  /** The complement turns every digit. */
  lemma NotDigit(x: uint32, k: nat)
    requires k < 32
    ensures BitOf(Not(x), k) <==> !BitOf(x, k)
  {
    var p, q := Pow2(k), Pow2(31 - k);
    Pow2Constants();
    Pow2Add(k, 31 - k);
    Recompose(x, p);
    Complement(x, p, q);
  }

  lemma Complement(x: uint32, p: nat, q: nat)
    requires p > 0 && p * q == TWO31
    ensures Not(x) / p == 2 * q - 1 - x / p
  {
    Recompose(x, p);
    assert p * (2 * q - 1 - x / p) == 2 * (p * q) - p - p * (x / p) by {
      MulDistributes(p, 2 * q - 1, 0 - x / p);
      MulDistributes(p, 2 * q, -1);
      MulAssoc(p, 2, q);
    }
    DivUnique(Not(x), p, 2 * q - 1 - x / p, p - 1 - x % p);
  }

  /** AND, EOR, TST, TEQ, ORR, MOV, BIC and MVN, digit by digit. */
  lemma LogicBitByBit(opcode: nat, a: uint32, b: uint32, k: nat)
    requires k < 32
    ensures var x, y, r := BitOf(a, k), BitOf(b, k), BitOf(Logic(opcode, a, b), k);
      (opcode == 0x0 || opcode == 0x8 ==> (r <==> x && y)) && (opcode == 0x1 || opcode == 0x9 ==> (r <==> x != y)) &&
      (opcode == 0xC ==> (r <==> x || y)) && (opcode == 0xD ==> (r <==> y)) &&
      (opcode == 0xE ==> (r <==> x && !y)) && (opcode == 0xF ==> (r <==> !y))
  {
    hide BitOf, Not, Digitwise;
    DigitByDigit((x, y) => x && y, a, b, 32, k);
    DigitByDigit((x, y) => x && y, a, Not(b), 32, k);
    DigitByDigit((x, y) => x || y, a, b, 32, k);
    DigitByDigit((x, y) => x != y, a, b, 32, k);
    NotDigit(b, k);
  }

  // ---------------------------------------------------------------------------
  // Loads and stores
  // ---------------------------------------------------------------------------

  /** Memory is little-endian: the bytes and halves of a word, lowest address first. */
  lemma MemoryIsLittleEndian(m: Memory, addr: uint32)
    requires addr % 4 == 0
    ensures Word(m, addr) == ByteAt(m, addr) + 0x100 * ByteAt(m, addr + 1) + 0x1_0000 * ByteAt(m, addr + 2) + 0x100_0000 * ByteAt(m, addr + 3)
    ensures HalfAt(m, addr) == ByteAt(m, addr) + 0x100 * ByteAt(m, addr + 1) && HalfAt(m, addr + 1) == HalfAt(m, addr)
    ensures HalfAt(m, addr + 2) == ByteAt(m, addr + 2) + 0x100 * ByteAt(m, addr + 3) && HalfAt(m, addr + 3) == HalfAt(m, addr + 2)
  {
    hide Word;
    ByteLanes(m, addr);
    HalfLanes(m, addr);
    hide ByteAt, HalfAt;
    Lanes(Word(m, addr));
    Halves(Word(m, addr));
  }

  lemma ByteLanes(m: Memory, addr: uint32)
    requires addr % 4 == 0
    ensures var w := Word(m, addr);
      addr + 3 < TWO32 && ByteAt(m, addr) == w % 0x100 && ByteAt(m, addr + 1) == w / 0x100 % 0x100 &&
      ByteAt(m, addr + 2) == w / 0x1_0000 % 0x100 && ByteAt(m, addr + 3) == w / 0x100_0000 % 0x100
  {
    hide Word;
    SameWord(m, addr, 1);
    SameWord(m, addr, 2);
    SameWord(m, addr, 3);
  }

  lemma HalfLanes(m: Memory, addr: uint32)
    requires addr % 4 == 0
    ensures var w := Word(m, addr);
      addr + 3 < TWO32 && HalfAt(m, addr) == w % 0x1_0000 && HalfAt(m, addr + 1) == w % 0x1_0000 &&
      HalfAt(m, addr + 2) == w / 0x1_0000 % 0x1_0000 && HalfAt(m, addr + 3) == w / 0x1_0000 % 0x1_0000
  {
    hide Word;
    SameWord(m, addr, 1);
    SameWord(m, addr, 2);
    SameWord(m, addr, 3);
  }

  lemma SameWord(m: Memory, addr: uint32, k: nat)
    requires addr % 4 == 0 && k < 4
    ensures addr + k < TWO32 && Word(m, addr + k) == Word(m, addr) && (addr + k) % 4 == k
  {
    assert (addr + k) / 4 == addr / 4;
  }

  lemma Halves(w: uint32)
    ensures w % 0x1_0000 == w % 0x100 + 0x100 * (w / 0x100 % 0x100)
    ensures w / 0x1_0000 % 0x1_0000 == w / 0x1_0000 % 0x100 + 0x100 * (w / 0x100_0000 % 0x100)
  {
  }

  /** A stored halfword is read back from either of its addresses, and every other halfword is untouched. */
  lemma HalfStoreIsLocal(m: Memory, addr: uint32, value: uint16, other: uint32)
    ensures HalfAt(WithHalf(m, addr, value), other) == if other / 2 == addr / 2 then value else HalfAt(m, other)
  {
    HalfReplaced(Word(m, addr), addr % 4 / 2, value, other % 4 / 2);
    hide WithLane;
    assert addr % 4 / 2 == addr / 2 % 2 && other % 4 / 2 == other / 2 % 2;
    assert addr / 4 == addr / 2 / 2 && other / 4 == other / 2 / 2;
  }

  lemma HalfReplaced(w: uint32, i: nat, value: uint16, j: nat)
    requires i < 2 && j < 2
    ensures WithLane(w, Lane(2 * i), 0x1_0000, value) / Lane(2 * j) % 0x1_0000 == if i == j then value else w / Lane(2 * j) % 0x1_0000
  {
    if i == 0 {
      LowHalfReplaced(w, value);
    } else {
      HighHalfReplaced(w, value);
    }
    hide WithLane;
  }

  lemma LowHalfReplaced(w: uint32, value: uint16)
    ensures var r := WithLane(w, 1, 0x1_0000, value); r % 0x1_0000 == value && r / 0x1_0000 % 0x1_0000 == w / 0x1_0000 % 0x1_0000
  {
    DivUniqueLeft(w / 0x1_0000 * 0x1_0000 + value, w / 0x1_0000, 0x1_0000, value);
  }

  lemma HighHalfReplaced(w: uint32, value: uint16)
    ensures var r := WithLane(w, 0x1_0000, 0x1_0000, value); r % 0x1_0000 == w % 0x1_0000 && r / 0x1_0000 % 0x1_0000 == value
  {
    DivUniqueLeft(value * 0x1_0000 + w % 0x1_0000, value, 0x1_0000, w % 0x1_0000);
  }

  /** What each load brings: a byte or halfword, extended, or a word turned by its misalignment. */
  lemma LoadsInNumbers(m: Memory, addr: uint32, carry: bool)
    ensures Loaded(m, ByteData, addr) == ByteAt(m, addr)
    ensures Loaded(m, WordData, addr) == Repeat(3, 8 * (addr % 4), Word(m, addr), carry).0
    ensures Loaded(m, HalfData(1), addr) == Repeat(3, if addr % 2 == 1 then 8 else 0, HalfAt(m, addr), carry).0
    ensures Signed(Loaded(m, HalfData(2), addr)) == if ByteAt(m, addr) >= 0x80 then ByteAt(m, addr) - 0x100 else ByteAt(m, addr)
    ensures addr % 2 == 1 ==> Loaded(m, HalfData(3), addr) == Loaded(m, HalfData(2), addr)
    ensures addr % 2 == 0 ==> Signed(Loaded(m, HalfData(3), addr)) == if HalfAt(m, addr) >= 0x8000 then HalfAt(m, addr) - 0x1_0000 else HalfAt(m, addr)
  {
    hide Word, ByteAt, HalfAt, Repeat, RotateRight;
    TurnedByMisalignment(Word(m, addr), addr % 4 * 8, carry);
    TurnedByMisalignment(HalfAt(m, addr), 8, carry);
    TurnedByMisalignment(HalfAt(m, addr), 0, carry);
  }

  lemma TurnedByMisalignment(w: uint32, n: nat, carry: bool)
    requires n < 32
    ensures RotateRight(w, n) == Repeat(3, n, w, carry).0 && RotateRight(w, 0) == w
  {
    RotateWhole(w);
    if n > 0 {
      ShiftIsRepeatedOneBit(3, n, w, carry, false);
      SmallMod(n, 32);
      hide RotateRight, Repeat;
    }
  }

  /** Where a transfer goes, what it moves, and what it leaves in its base and its register. */
  lemma TransferInNumbers(core: Core, m: Memory, op: TransferOp, interworking: bool)
    requires op.rn < 16 && op.rd < 15 && op.rd != op.rn
    requires op.rn == 15 ==> op.pre && !op.writeback
    ensures var b := Seen(core, op.rn, 4);
      var moved := (if op.up then b + op.offset else b - op.offset) % 0x1_0000_0000;
      var addr := if op.pre then moved else b;
      var (after, m', _) := Transfer(core, m, op, interworking);
      after.Reg(op.rn) == (if !op.pre || op.writeback then moved else core.Reg(op.rn)) &&
      after.Reg(op.rd) == (if op.load then Loaded(m, op.width, addr) else core.Reg(op.rd)) &&
      m' == (if op.load then m else StoredTo(m, op.width, addr, core.Reg(op.rd))) && after.cpsr == core.cpsr &&
      forall other :: 0 <= other < 16 && other != op.rn && other != op.rd ==> after.Reg(other) == core.Reg(other)
  {
    hide Loaded, StoredTo, Read, Write;
    ReadsBack(core, op.rn, OffsetBase(core, op));
    var based := BaseWritten(core, op);
    ReadsBack(based, op.rd, Loaded(m, op.width, TransferAddress(core, op)));
  }
}
