/**
 * What one whole instruction does, as a function of registers, status and memory: how the two
 * instruction sets are decoded, and the THUMB instructions that are ARM instructions in short form.
 */
module ArmMachine {
  import opened Words
  import opened Arith
  import opened ArmShift
  import opened ArmPsr
  import opened ArmRegisters
  import opened ArmMemory
  import opened ArmCore
  import opened ArmExceptions
  import opened ArmThumb
  import opened ArmTransfer

  // ---------------------------------------------------------------------------
  // Status, multiply, swap and branch
  // ---------------------------------------------------------------------------

  /** What an `MSR` writes. */
  function MsrValue(core: Core, instr: bv32): uint32 {
    if instr & 0x0200_0000 != 0 then RotateRight(Imm8(instr), Field(instr, 8) * 2) else core.Reg(Field(instr, 0))
  }

  /** MRS and MSR: unprivileged code reaches no control bit of CPSR, and a mode without an SPSR has none to write. */
  function StatusTransfer(core: Core, instr: bv32): Core {
    var toSpsr, mode := instr & 0x0040_0000 != 0, core.cpsr.CurrentMode();
    var flags, control := instr & 0x0008_0000 != 0, instr & 0x0001_0000 != 0;
    var saved := Spsr(core.regs, mode);
    if instr & 0x0020_0000 == 0 then
      core.WithReg(Field(instr, 12), (if toSpsr && saved.Some? then saved.value else core.cpsr).Bits())
    else if !toSpsr then
      core.(cpsr := core.cpsr.Merge(MsrValue(core, instr), flags, control && IsPrivileged(mode)))
    else if saved.Some? then
      core.(regs := SetSpsr(core.regs, mode, saved.value.Merge(MsrValue(core, instr), flags, control)))
    else core
  }

  /** `MSR` to CPSR's control byte, which only privileged code reaches. */
  predicate WritesControl(core: Core, instr: bv32) {
    instr & 0x0020_0000 != 0 && instr & 0x0040_0000 == 0 && instr & 0x0001_0000 != 0 && IsPrivileged(core.cpsr.CurrentMode())
  }

  /** Nothing masks the mode field of a control write: afterwards it names a mode exactly if the value written does. */
  lemma StatusNamesModeWhen(core: Core, instr: bv32)
    ensures ModeFromBits(StatusTransfer(core, instr).cpsr.modeBits).Some? <==>
      if WritesControl(core, instr) then ModeFromBits(MsrValue(core, instr) % 0x20).Some?
      else ModeFromBits(core.cpsr.modeBits).Some?
  {
    hide MsrValue, Read, Write;
  }

  /** `MSR CPSR_c, #0` leaves a mode field that names nothing. */
  lemma MsrStoresNoMode(core: Core)
    requires IsPrivileged(core.cpsr.CurrentMode())
    ensures ModeFromBits(StatusTransfer(core, 0xE321_F000).cpsr.modeBits) == None
  {
    ClearControlWritesZero(core);
    StatusNamesModeWhen(core, 0xE321_F000);
    hide MsrValue, StatusTransfer;
  }

  lemma ClearControlWritesZero(core: Core)
    ensures MsrValue(core, 0xE321_F000) == 0
  {
    var imm, rotate := Imm8(0xE321_F000), Field(0xE321_F000, 8);
    assert imm == 0 && rotate == 0;
    RotateWhole(0);
    hide Imm8, Field, RotateRight;
  }

  /** A comparison that would not set flags is a status transfer instead. */
  predicate IsStatusTransfer(instr: bv32) {
    instr & 0x0010_0000 == 0 && 0x8 <= Field(instr, 21) <= 0xB
  }

  function DataOrStatus(core: Core, instr: bv32): (Core, nat) {
    if IsStatusTransfer(instr) then (StatusTransfer(core, instr), 1) else DataProcessing(core, instr)
  }

  function Product(a: int, b: int): int { a * b }

  const TWO64: nat := 0x1_0000_0000_0000_0000

  /** What a long multiply adds up, before it is cut to 64 bits. */
  function LongProduct(core: Core, instr: bv32): int {
    var m, s := core.Reg(Field(instr, 0)), core.Reg(Field(instr, 8));
    (if instr & 0x0040_0000 != 0 then Product(Signed(m), Signed(s)) else Product(m, s)) +
    if instr & 0x0020_0000 != 0 then Product(core.Reg(Field(instr, 16)), TWO32) + core.Reg(Field(instr, 12)) else 0
  }

  /** A 64-bit result in its register pair, with N and Z those of the whole. */
  function LongWritten(core: Core, result: uint64, hi: nat, lo: nat, setFlags: bool): Core
    requires hi < 16 && lo < 16
  {
    var after := if setFlags then core.(cpsr := core.cpsr.(n := result >= 0x8000_0000_0000_0000, z := result == 0)) else core;
    after.WithReg(lo, result % TWO32).WithReg(hi, result / TWO32)
  }

  /** The signed 24-bit word offset of a branch, in bytes. */
  function BranchOffset(instr: bv32): int {
    var field := ((instr & 0x00FF_FFFF) as bv24) as int;
    4 * if field >= 0x80_0000 then field - 0x100_0000 else field
  }

  /** `multiply_cycles`: the multiplier stops once the remaining bits agree. */
  function MultiplyCycles(operand: uint32): nat {
    if operand < 0x100 || operand >= 0xFFFF_FF00 then 1
    else if operand < 0x1_0000 || operand >= 0xFFFF_0000 then 2
    else if operand < 0x100_0000 || operand >= 0xFF00_0000 then 3
    else 4
  }

  /** `MUL` and `MLA`: the low 32 bits; C and V are left alone. */
  function Multiplied(core: Core, instr: bv32): (Core, nat) {
    var s := core.Reg(Field(instr, 8));
    var accumulate := instr & 0x0020_0000 != 0;
    var result := Wrap(Product(core.Reg(Field(instr, 0)), s) + if accumulate then core.Reg(Field(instr, 12)) else 0);
    ((if instr & 0x0010_0000 != 0 then core.(cpsr := core.cpsr.SetNZ(result)) else core).WithReg(Field(instr, 16), result),
     1 + MultiplyCycles(s) + if accumulate then 1 else 0)
  }

  function MultipliedLong(core: Core, instr: bv32): (Core, nat) {
    (LongWritten(core, LongProduct(core, instr) % TWO64, Field(instr, 16), Field(instr, 12), instr & 0x0010_0000 != 0),
     2 + MultiplyCycles(core.Reg(Field(instr, 8))) + if instr & 0x0020_0000 != 0 then 1 else 0)
  }

  /** Memory and register change places: what was there comes back as `LDR` would load it. */
  function Swapped(core: Core, m: Memory, instr: bv32): (Core, Memory) {
    var byte, addr := instr & 0x0040_0000 != 0, core.Reg(Field(instr, 16));
    (core.WithReg(Field(instr, 12), LoadedData(m, byte, addr)), StoredData(m, byte, addr, core.Reg(Field(instr, 0))))
  }

  /** `B` and `BL`. */
  function Branched(core: Core, instr: bv32): Core {
    var linked := if instr & 0x0100_0000 != 0 then core.WithReg(14, core.regs.pc) else core;
    linked.WithPc(Align(Wrap(Wrap(core.regs.pc + PC_AHEAD) + BranchOffset(instr)), false))
  }

  // ---------------------------------------------------------------------------
  // ARM instructions
  // ---------------------------------------------------------------------------

  datatype ArmFormat =
    | ExchangeFormat
    | SoftwareInterruptFormat
    | BranchFormat
    | BlockFormat
    | SingleFormat
    | MultiplyFormat
    | MultiplyLongFormat
    | SwapFormat
    | HalfwordFormat
    | DataFormat
    | NoFormat

  /** In the order `execute_arm` asks. */
  function ArmFormatOf(instr: bv32): ArmFormat {
    if instr & 0x0FFF_FFF0 == 0x012F_FF10 then ExchangeFormat
    else if instr & 0x0F00_0000 == 0x0F00_0000 then SoftwareInterruptFormat
    else if instr & 0x0E00_0000 == 0x0A00_0000 then BranchFormat
    else if instr & 0x0C00_0000 == 0x0C00_0000 then NoFormat
    else if instr & 0x0E00_0000 == 0x0800_0000 then BlockFormat
    else if instr & 0x0E00_0010 == 0x0600_0010 then NoFormat
    else if instr & 0x0C00_0000 == 0x0400_0000 then SingleFormat
    else if instr & 0x0FC0_00F0 == 0x0000_0090 then MultiplyFormat
    else if instr & 0x0F80_00F0 == 0x0080_0090 then MultiplyLongFormat
    else if instr & 0x0FB0_0FF0 == 0x0100_0090 then SwapFormat
    else if instr & 0x0E00_0090 == 0x0000_0090 && instr & 0x60 != 0 then HalfwordFormat
    else DataFormat
  }

  /** The encoding of each format but data processing, whatever was asked before. */
  predicate Encodes(format: ArmFormat, instr: bv32) {
    match format
    case ExchangeFormat => instr & 0x0FFF_FFF0 == 0x012F_FF10
    case SoftwareInterruptFormat => instr & 0x0F00_0000 == 0x0F00_0000
    case BranchFormat => instr & 0x0E00_0000 == 0x0A00_0000
    case BlockFormat => instr & 0x0E00_0000 == 0x0800_0000
    case SingleFormat => instr & 0x0E00_0000 == 0x0400_0000 || instr & 0x0E00_0010 == 0x0600_0000
    case MultiplyFormat => instr & 0x0FC0_00F0 == 0x0000_0090
    case MultiplyLongFormat => instr & 0x0F80_00F0 == 0x0080_0090
    case SwapFormat => instr & 0x0FB0_0FF0 == 0x0100_0090
    case HalfwordFormat => instr & 0x0E00_00F0 == 0x0000_00B0 || instr & 0x0E00_00D0 == 0x0000_00D0
    case NoFormat => instr & 0x0E00_0000 == 0x0C00_0000 || instr & 0x0F00_0000 == 0x0E00_0000 || instr & 0x0E00_0010 == 0x0600_0010
    case DataFormat => false
  }

  /**
   * The decode order matters only to data processing, which takes what is left: every other encoding is
   * disjoint from the rest, so that its own mask decides.
   */
  lemma DecodeOrderIsFree(instr: bv32, format: ArmFormat)
    requires !format.DataFormat?
    ensures ArmFormatOf(instr) == format <==> Encodes(format, instr)
  {
  }

  /** Core, memory and cycles after one ARM instruction whose condition has passed. */
  function ArmExecuted(core: Core, m: Memory, instr: bv32, interworking: bool, base: uint32): (Core, Memory, nat) {
    match ArmFormatOf(instr)
    case ExchangeFormat => (LoadPc(core, core.RegPc(Field(instr, 0), PC_AHEAD), true), m, 3)
    case SoftwareInterruptFormat => (Raise(core, SoftwareInterrupt, base), m, 3)
    case BranchFormat => (Branched(core, instr), m, 3)
    case BlockFormat => BlockTransfer(core, m, DecodeBlock(instr), interworking)
    case SingleFormat => Transfer(core, m, DecodeSingle(core, instr), interworking)
    case MultiplyFormat => (Multiplied(core, instr).0, m, Multiplied(core, instr).1)
    case MultiplyLongFormat => (MultipliedLong(core, instr).0, m, MultipliedLong(core, instr).1)
    case SwapFormat => (Swapped(core, m, instr).0, Swapped(core, m, instr).1, 4)
    case HalfwordFormat => Transfer(core, m, DecodeHalf(core, instr), interworking)
    case DataFormat => (DataOrStatus(core, instr).0, m, DataOrStatus(core, instr).1)
    case NoFormat => (Raise(core, UndefinedInstruction, base), m, 3)
  }

  /** The return from an exception, on which unwinding rests, is an instruction like any other. */
  lemma ReturnIsAnInstruction(core: Core, m: Memory, e: Exception, interworking: bool, base: uint32)
    ensures ArmExecuted(core, m, if LinkOffset(e) == 4 then SUBS_PC_LR_4 else MOVS_PC_LR, interworking, base) ==
      (Return(core, e), m, 3)
  {
    assert ArmFormatOf(SUBS_PC_LR_4) == DataFormat && !IsStatusTransfer(SUBS_PC_LR_4);
    assert ArmFormatOf(MOVS_PC_LR) == DataFormat && !IsStatusTransfer(MOVS_PC_LR);
    SubsPcDecodes();
    MovsPcDecodes();
    hide ArmFormatOf, Field, Imm8, Imm5, ShiftKind, ShifterOperand, Align, RestoreCpsr;
  }

  // ---------------------------------------------------------------------------
  // THUMB instructions
  // ---------------------------------------------------------------------------

  /** Only R0-R7 and perhaps `extra`. */
  ghost predicate LowAnd(list: RegList, extra: nat) {
    forall r :: 8 <= r < 16 && r != extra ==> !list[r]
  }

  function ThumbList(instr: bv16, lr: bool, pc: bool): RegList {
    [instr & 0x1 != 0, instr & 0x2 != 0, instr & 0x4 != 0, instr & 0x8 != 0,
     instr & 0x10 != 0, instr & 0x20 != 0, instr & 0x40 != 0, instr & 0x80 != 0,
     false, false, false, false, false, false, lr, pc]
  }

  ghost predicate IsPushOrPop(op: BlockOp) {
    op.rn == 13 && op.writeback && !op.psrOrUser && op.pre == !op.load && op.up == op.load &&
    LowAnd(op.list, if op.load then 15 else 14)
  }

  /** The ARM block transfer when there is something to move; otherwise nothing happens. */
  function PushedOrPopped(core: Core, m: Memory, op: BlockOp, interworking: bool): (Core, Memory, nat)
    requires op.rn < 16
  {
    if Listed(op.list, 0) != [] then BlockTransfer(core, m, op, interworking) else (core, m, if op.load then 2 else 1)
  }

  /** `PUSH {.., LR}` as `STMDB R13!`, `POP {.., PC}` as `LDMIA R13!`. */
  function PushPopOp(instr: bv16): (op: BlockOp)
    ensures IsPushOrPop(op)
  {
    var load, extra := instr & 0x0800 != 0, instr & 0x0100 != 0;
    BlockOp(!load, load, false, true, load, 13, ThumbList(instr, extra && !load, extra && load))
  }

  /** `STMIA Rb!`, `LDMIA Rb!`. */
  function MultipleOp(instr: bv16): (op: BlockOp)
    ensures IsMultiple(op)
  {
    BlockOp(false, true, false, true, instr & 0x0800 != 0, Low(instr, 8), ThumbList(instr, false, false))
  }

  /**
   * `STMIA`/`LDMIA` of an empty list: R15 alone moves, and the base steps over sixteen registers. Unlike the
   * ARM encoding, the stored R15 is one instruction ahead and the base is always written after the load.
   */
  function MovedNothing(core: Core, m: Memory, op: BlockOp): (Core, Memory, nat)
    requires op.rn < 8
  {
    var addr := core.Reg(op.rn);
    if op.load then (core.WithPc(Align(Word(m, addr), true)).WithReg(op.rn, Wrap(addr + 0x40)), m, 5)
    else (core.WithReg(op.rn, Wrap(addr + 0x40)), m[addr / 4 := Wrap(core.regs.pc + 2)], 2)
  }

  ghost predicate IsMultiple(op: BlockOp) {
    op.rn < 8 && op.writeback && !op.psrOrUser && !op.pre && op.up && LowAnd(op.list, 15) && !op.list[15]
  }

  /** With something to move, the ARM block transfer. */
  function Multiple(core: Core, m: Memory, op: BlockOp, interworking: bool): (Core, Memory, nat)
    requires op.rn < 8
  {
    if Listed(op.list, 0) != [] then BlockTransfer(core, m, op, interworking) else MovedNothing(core, m, op)
  }

  /** Format 5: ADD, CMP and MOV on any register, and BX; only CMP sets flags. */
  function HighRegister(core: Core, instr: bv16): (Core, nat) {
    var op, rd := ThumbBits2(instr, 8), HighRd(instr);
    var a, source := core.RegPc(rd, THUMB_AHEAD), core.RegPc(HighRs(instr), THUMB_AHEAD);
    var result := if op == 0 then Wrap(a + source) else source;
    if op == 1 then (core.(cpsr := AluSub(core.cpsr, a, source, true).1), 1)
    else if op == 3 then (LoadPc(core, source, true), 3)
    else if rd == 15 then (core.WithPc(Align(result, true)), 3)
    else (core.WithReg(rd, result), 1)
  }

  /** Format 4: the register ALU, with MUL taking as long as its first operand is wide. */
  function RegisterAlu(core: Core, instr: bv16): (Core, nat) {
    var op, rd := ThumbBits4(instr, 6), Low(instr, 0);
    if op == 0xD then
      var product := Wrap(Product(core.Reg(rd), core.Reg(Low(instr, 3))));
      (core.(cpsr := core.cpsr.SetNZ(product)).WithReg(rd, product), 1 + MultiplyCycles(core.Reg(rd)))
    else
      var (a, operand2, carry) := AluOperands(core, instr);
      (Placed(core, AluOpcode(op), rd, a, operand2, carry), if IsShift(op) then 2 else 1)
  }

  function MoveShifted(core: Core, instr: bv16): Core {
    var (operand2, carry) := Shift(ThumbBits2(instr, 11), ThumbImm5(instr), core.Reg(Low(instr, 3)), core.cpsr.c, true);
    Placed(core, 0xD, Low(instr, 0), 0, operand2, carry)
  }

  function AddSubtract(core: Core, instr: bv16): Core {
    Placed(core, if instr & 0x0200 != 0 then 0x2 else 0x4, Low(instr, 0), core.Reg(Low(instr, 3)),
           if instr & 0x0400 != 0 then Low(instr, 6) else core.Reg(Low(instr, 6)), core.cpsr.c)
  }

  function Immediate(core: Core, instr: bv16): Core {
    Placed(core, ImmediateOpcode(ThumbBits2(instr, 11)), Low(instr, 8), core.Reg(Low(instr, 8)), ThumbImm8(instr), core.cpsr.c)
  }

  function PcRelativeLoad(core: Core, m: Memory, instr: bv16): Core {
    core.WithReg(Low(instr, 8), Word(m, Wrap(Align(Wrap(core.regs.pc + THUMB_AHEAD), false) + ThumbImm8(instr) * 4)))
  }

  function LoadAddress(core: Core, instr: bv16): Core {
    var base := if instr & 0x0800 != 0 then core.Reg(13) else Align(Wrap(core.regs.pc + THUMB_AHEAD), false);
    core.WithReg(Low(instr, 8), Wrap(base + ThumbImm8(instr) * 4))
  }

  function ThumbImm7(instr: bv16): (value: nat)
    ensures value < 0x80
  {
    ((instr & 0x7F) as bv7) as nat
  }

  function StackPointerAdjusted(core: Core, instr: bv16): Core {
    core.WithReg(13, Wrap(core.Reg(13) + if instr & 0x0080 != 0 then -4 * ThumbImm7(instr) else 4 * ThumbImm7(instr)))
  }

  function ConditionalBranch(core: Core, instr: bv16): (Core, nat) {
    if core.cpsr.PassesCondition(ThumbBits4(instr, 8)) then
      (core.WithPc(Align(Wrap(core.regs.pc + THUMB_AHEAD + 2 * SignedImm8(instr)), true)), 3)
    else (core, 1)
  }

  function ThumbBranched(core: Core, instr: bv16): Core {
    core.WithPc(Align(Wrap(core.regs.pc + THUMB_AHEAD + 2 * SignedImm11(instr)), true))
  }

  /** `BL` is two instructions; an interrupt can land between them. */
  function LongBranch(core: Core, instr: bv16): (Core, nat) {
    if instr & 0x0800 == 0 then
      (core.WithReg(14, Wrap(core.regs.pc + THUMB_AHEAD + 0x1000 * SignedImm11(instr))), 1)
    else
      (core.WithPc(Align(Wrap(core.Reg(14) + 2 * ThumbImm11(instr)), true)).WithReg(14, OddAddress(core.regs.pc)), 3)
  }

  function RegisterOp(core: Core, instr: bv16): (op: TransferOp)
    ensures op.rn < 15 && op.rd < 15
  {
    OffsetOp(instr & 0x0800 != 0, DataWidth(instr & 0x0400 != 0), Low(instr, 3), Low(instr, 0), core.Reg(Low(instr, 6)))
  }

  function ExtendedOp(core: Core, instr: bv16): (op: TransferOp)
    ensures op.rn < 15 && op.rd < 15
  {
    OffsetOp(ThumbBits2(instr, 10) != 0, HalfData(ExtendedKind(ThumbBits2(instr, 10))), Low(instr, 3), Low(instr, 0), core.Reg(Low(instr, 6)))
  }

  function ImmediateOp(instr: bv16): (op: TransferOp)
    ensures op.rn < 15 && op.rd < 15
  {
    OffsetOp(instr & 0x0800 != 0, DataWidth(instr & 0x1000 != 0), Low(instr, 3), Low(instr, 0), ScaledImm5(instr))
  }

  function HalfwordOp(instr: bv16): (op: TransferOp)
    ensures op.rn < 15 && op.rd < 15
  {
    OffsetOp(instr & 0x0800 != 0, HalfData(1), Low(instr, 3), Low(instr, 0), ThumbImm5(instr) * 2)
  }

  function SpRelativeOp(instr: bv16): (op: TransferOp)
    ensures op.rn < 15 && op.rd < 15
  {
    OffsetOp(instr & 0x0800 != 0, WordData, 13, Low(instr, 8), ThumbImm8(instr) * 4)
  }

  /** The nineteen formats by number; 17 is SWI and 0 is no instruction. */
  function ThumbFormatOf(instr: bv16): nat {
    var top := ThumbBits4(instr, 12);
    if top <= 1 then if instr & 0x1800 == 0x1800 then 2 else 1
    else if top <= 3 then 3
    else if top == 4 then
      var page := ThumbBits2(instr, 10);
      if page == 0 then 4 else if page == 1 then 5 else 6
    else if top == 5 then if instr & 0x0200 != 0 then 8 else 7
    else if top <= 7 then 9
    else if top == 8 then 10
    else if top == 9 then 11
    else if top == 0xA then 12
    else if top == 0xB then if instr & 0x0F00 == 0x0000 then 13 else if instr & 0x0600 == 0x0400 then 14 else 0
    else if top == 0xC then 15
    else if top == 0xD then
      var cond := ThumbBits4(instr, 8);
      if cond == 0xF then 17 else if cond == 0xE then 0 else 16
    else if top == 0xE then if instr & 0x0800 != 0 then 0 else 18
    else 19
  }

  /** Core, memory and cycles after one THUMB instruction. */
  function ThumbExecuted(core: Core, m: Memory, instr: bv16, interworking: bool, base: uint32): (Core, Memory, nat) {
    var format := ThumbFormatOf(instr);
    if format == 1 then (MoveShifted(core, instr), m, 1)
    else if format == 2 then (AddSubtract(core, instr), m, 1)
    else if format == 3 then (Immediate(core, instr), m, 1)
    else if format == 4 then (RegisterAlu(core, instr).0, m, RegisterAlu(core, instr).1)
    else if format == 5 then (HighRegister(core, instr).0, m, HighRegister(core, instr).1)
    else if format == 6 then (PcRelativeLoad(core, m, instr), m, 3)
    else if format == 7 then Transfer(core, m, RegisterOp(core, instr), interworking)
    else if format == 8 then Transfer(core, m, ExtendedOp(core, instr), interworking)
    else if format == 9 then Transfer(core, m, ImmediateOp(instr), interworking)
    else if format == 10 then Transfer(core, m, HalfwordOp(instr), interworking)
    else if format == 11 then Transfer(core, m, SpRelativeOp(instr), interworking)
    else if format == 12 then (LoadAddress(core, instr), m, 1)
    else if format == 13 then (StackPointerAdjusted(core, instr), m, 1)
    else if format == 14 then PushedOrPopped(core, m, PushPopOp(instr), interworking)
    else if format == 15 then Multiple(core, m, MultipleOp(instr), interworking)
    else if format == 16 then (ConditionalBranch(core, instr).0, m, ConditionalBranch(core, instr).1)
    else if format == 17 then (Raise(core, SoftwareInterrupt, base), m, 3)
    else if format == 18 then (ThumbBranched(core, instr), m, 3)
    else if format == 19 then (LongBranch(core, instr).0, m, LongBranch(core, instr).1)
    else (Raise(core, UndefinedInstruction, base), m, 3)
  }

  // ---------------------------------------------------------------------------
  // THUMB as ARM
  // ---------------------------------------------------------------------------

  /** `MULS Rd, Rs, Rd`. */
  function MultiplyAsArm(instr: bv16): bv32 {
    var rd, rs := (instr & 7) as bv32, ((instr >> 3) & 7) as bv32;
    0xE010_0090 | (rd << 16) | (rd << 8) | rs
  }

  /** `ADD Rd, Rd, Rs`, `CMP Rd, Rs`, `MOV Rd, Rs` and `BX Rs`. */
  function HighAsArm(instr: bv16): bv32 {
    var op := (instr >> 8) & 3;
    var rd := ((instr & 7) | (if instr & 0x80 != 0 then 8 else 0)) as bv32;
    var rs := ((instr >> 3) & 0xF) as bv32;
    if op == 0 then 0xE080_0000 | (rd << 16) | (rd << 12) | rs
    else if op == 1 then 0xE150_0000 | (rd << 16) | rs
    else if op == 2 then 0xE1A0_0000 | (rd << 12) | rs
    else 0xE12F_FF10 | rs
  }

  /** `ADD Rd, SP, #imm8 * 4`. */
  function SpAddressAsArm(instr: bv16): bv32 {
    0xE28D_0F00 | ((((instr >> 8) & 7) as bv32) << 12) | ((instr & 0xFF) as bv32)
  }

  /** `ADD SP, SP, #imm7 * 4` and `SUB SP, SP, #imm7 * 4`. */
  function AdjustAsArm(instr: bv16): bv32 {
    (if instr & 0x0080 != 0 then 0xE24D_DF00 else 0xE28D_DF00) | ((instr & 0x7F) as bv32)
  }

  /** `STMIA Rb!` and `LDMIA Rb!`. */
  function MultipleAsArm(instr: bv16): bv32 {
    (if instr & 0x0800 != 0 then 0xE8B0_0000 else 0xE8A0_0000) | ((((instr >> 8) & 7) as bv32) << 16) | ((instr & 0xFF) as bv32)
  }

  /** The ARM instruction word a PUSH or POP stands for. */
  function PushPopAsArm(instr: bv16): bv32 {
    var low := (instr & 0xFF) as bv32;
    if instr & 0x0800 != 0 then 0xE8BD_0000 | low | (if instr & 0x0100 != 0 then 0x8000 else 0)
    else 0xE92D_0000 | low | if instr & 0x0100 != 0 then 0x4000 else 0
  }

  lemma PushPopIsArm(instr: bv16)
    ensures DecodeBlock(PushPopAsArm(instr)) == PushPopOp(instr)
  {
  }

  lemma MultipleIsArm(instr: bv16)
    ensures DecodeBlock(MultipleAsArm(instr)) == MultipleOp(instr)
  {
  }

  /** The ARM instruction a THUMB one abbreviates, if it does. */
  function AsArm(instr: bv16): bv32 {
    var format := ThumbFormatOf(instr);
    if format == 1 then MoveShiftedAsArm(instr)
    else if format == 2 then AddSubtractAsArm(instr)
    else if format == 3 then ImmediateAsArm(instr)
    else if format == 4 then if ThumbBits4(instr, 6) == 0xD then MultiplyAsArm(instr) else AluAsArm(instr)
    else if format == 5 then HighAsArm(instr)
    else if format == 7 then RegisterAsArm(instr)
    else if format == 8 then ExtendedAsArm(instr)
    else if format == 9 then ImmediateTransferAsArm(instr)
    else if format == 10 then HalfwordAsArm(instr)
    else if format == 11 then SpRelativeAsArm(instr)
    else if format == 12 then SpAddressAsArm(instr)
    else if format == 13 then AdjustAsArm(instr)
    else if format == 14 then PushPopAsArm(instr)
    else if format == 15 then MultipleAsArm(instr)
    else 0xEF00_0000
  }

  /**
   * All of them but what reads or writes R15 by name (its lead differs between the two instruction sets),
   * branches by offset, and block transfers of an empty list.
   */
  predicate Abbreviates(instr: bv16) {
    var format := ThumbFormatOf(instr);
    if format == 5 then HighRs(instr) != 15 && (ThumbBits2(instr, 8) == 3 || HighRd(instr) != 15)
    else if format == 12 then instr & 0x0800 != 0
    else if format == 14 then Listed(PushPopOp(instr).list, 0) != []
    else if format == 15 then Listed(MultipleOp(instr).list, 0) != []
    else format != 0 && format != 6 && format != 16 && format != 18 && format != 19
  }

  /** Both instruction sets agree on an abbreviated instruction: registers, status, memory and cycles. */
  ghost predicate Agree(core: Core, m: Memory, instr: bv16, interworking: bool, base: uint32) {
    ThumbExecuted(core, m, instr, interworking, base) == ArmExecuted(core, m, AsArm(instr), interworking, base)
  }

  // -- How the abbreviations decode ------------------------------------------------

  lemma MoveShiftedFormat(instr: bv16)
    ensures ArmFormatOf(MoveShiftedAsArm(instr)) == DataFormat && SetsFlags(MoveShiftedAsArm(instr))
  {
  }

  lemma AddSubtractFormat(instr: bv16)
    ensures ArmFormatOf(AddSubtractAsArm(instr)) == DataFormat && SetsFlags(AddSubtractAsArm(instr))
  {
  }

  lemma ImmediateFormat(instr: bv16)
    ensures ArmFormatOf(ImmediateAsArm(instr)) == DataFormat && SetsFlags(ImmediateAsArm(instr))
  {
  }

  lemma AluFormat(instr: bv16)
    requires ThumbBits4(instr, 6) != 0xD
    ensures ArmFormatOf(AluAsArm(instr)) == DataFormat && SetsFlags(AluAsArm(instr))
  {
  }

  lemma SingleFormats(instr: bv16)
    ensures ArmFormatOf(RegisterAsArm(instr)) == SingleFormat
    ensures ArmFormatOf(ImmediateTransferAsArm(instr)) == SingleFormat
    ensures ArmFormatOf(SpRelativeAsArm(instr)) == SingleFormat
  {
  }

  lemma ExtendedFormat(instr: bv16)
    ensures ArmFormatOf(ExtendedAsArm(instr)) == HalfwordFormat
  {
  }

  lemma HalfwordFormatted(instr: bv16)
    ensures ArmFormatOf(HalfwordAsArm(instr)) == HalfwordFormat
  {
  }

  lemma BlockFormats(instr: bv16)
    ensures ArmFormatOf(PushPopAsArm(instr)) == BlockFormat
    ensures ArmFormatOf(MultipleAsArm(instr)) == BlockFormat
  {
  }

  // -- Format by format ------------------------------------------------------------

  lemma FlagSettingAgrees(core: Core, m: Memory, instr: bv16, interworking: bool, base: uint32)
    requires 1 <= ThumbFormatOf(instr) <= 3
    ensures Agree(core, m, instr, interworking, base)
  {
    MoveShiftedFormat(instr);
    AddSubtractFormat(instr);
    ImmediateFormat(instr);
    MoveShiftedIsArm(core, instr);
    AddSubtractIsArm(core, instr);
    ImmediateIsArm(core, instr);
    hide MoveShiftedAsArm, AddSubtractAsArm, ImmediateAsArm, DataProcessing, Placed, ArmFormatOf, Field, ThumbImm8, Low, ThumbBits2, ThumbImm5, Shift;
  }

  lemma SingleAgrees(core: Core, m: Memory, instr: bv16, interworking: bool, base: uint32)
    requires ThumbFormatOf(instr) in {7, 9, 11}
    ensures Agree(core, m, instr, interworking, base)
  {
    SingleFormats(instr);
    RegisterIsArm(core, instr);
    ImmediateTransferIsArm(core, instr);
    SpRelativeIsArm(core, instr);
    hide RegisterAsArm, ImmediateTransferAsArm, SpRelativeAsArm;
    hide Transfer, DecodeSingle, DecodeHalf, ArmFormatOf, Field, Low, ThumbImm8, ThumbImm5, ThumbBits2;
  }

  lemma HalfwordAgrees(core: Core, m: Memory, instr: bv16, interworking: bool, base: uint32)
    requires ThumbFormatOf(instr) in {8, 10}
    ensures Agree(core, m, instr, interworking, base)
  {
    ExtendedFormat(instr);
    HalfwordFormatted(instr);
    ExtendedIsArm(core, instr);
    HalfwordIsArm(core, instr);
    hide ExtendedAsArm, HalfwordAsArm;
    hide Transfer, DecodeSingle, DecodeHalf, ArmFormatOf, Field, Low, ThumbImm8, ThumbImm5, ThumbBits2;
  }

  lemma BlockAgrees(core: Core, m: Memory, instr: bv16, interworking: bool, base: uint32)
    requires 14 <= ThumbFormatOf(instr) <= 15 && Abbreviates(instr)
    ensures Agree(core, m, instr, interworking, base)
  {
    BlockFormats(instr);
    PushPopIsArm(instr);
    MultipleIsArm(instr);
    hide PushPopAsArm, MultipleAsArm, PushPopOp, MultipleOp, DecodeBlock, BlockTransfer, ArmFormatOf;
  }

  lemma MultiplyFields(instr: bv16)
    ensures var w := MultiplyAsArm(instr);
      ArmFormatOf(w) == MultiplyFormat && w & 0x0010_0000 != 0 && w & 0x0020_0000 == 0 &&
      Field(w, 16) == Low(instr, 0) && Field(w, 8) == Low(instr, 0) && Field(w, 0) == Low(instr, 3)
  {
  }

  lemma ProductCommutes(a: int, b: int)
    ensures Product(a, b) == Product(b, a)
  {
  }

  lemma MultiplySame(core: Core, instr: bv16)
    requires ThumbBits4(instr, 6) == 0xD
    ensures Multiplied(core, MultiplyAsArm(instr)) == RegisterAlu(core, instr)
  {
    MultiplyFields(instr);
    ProductCommutes(core.Reg(Low(instr, 0)), core.Reg(Low(instr, 3)));
    hide MultiplyAsArm, ArmFormatOf, Product, Field, ThumbBits4, Low;
  }

  lemma AluSame(core: Core, instr: bv16)
    requires ThumbBits4(instr, 6) != 0xD
    ensures DataOrStatus(core, AluAsArm(instr)) == RegisterAlu(core, instr)
  {
    AluFormat(instr);
    AluIsArm(core, instr);
    hide AluAsArm, DataProcessing, Placed, AluOperands, ArmFormatOf, Field, ThumbBits4, Low;
  }

  lemma RegisterAluAgrees(core: Core, m: Memory, instr: bv16, interworking: bool, base: uint32)
    requires ThumbFormatOf(instr) == 4
    ensures Agree(core, m, instr, interworking, base)
  {
    if ThumbBits4(instr, 6) == 0xD {
      MultiplyFields(instr);
      MultiplySame(core, instr);
    } else {
      AluFormat(instr);
      AluSame(core, instr);
    }
    hide MultiplyAsArm, AluAsArm, ArmFormatOf, ThumbFormatOf, Multiplied, DataOrStatus, RegisterAlu, ThumbBits4;
  }

  /** A data-processing instruction that sets no flags and does not write R15. */
  lemma QuietData(core: Core, w: bv32)
    requires ArmFormatOf(w) == DataFormat && !SetsFlags(w) && Field(w, 12) != 15 && !(0x8 <= Field(w, 21) <= 0xB)
    requires w & 0x0200_0000 != 0 || w & 0x10 == 0
    ensures var (operand2, carry) := ShifterOperand(core, w, PC_AHEAD);
      DataOrStatus(core, w) ==
        (core.WithReg(Field(w, 12), Alu(Field(w, 21), core.cpsr, core.RegPc(Field(w, 16), PC_AHEAD), operand2, carry).0), 1)
  {
  }

  lemma SpAddressFields(instr: bv16)
    ensures var w := SpAddressAsArm(instr);
      ArmFormatOf(w) == DataFormat && !SetsFlags(w) && w & 0x0200_0000 != 0 && Field(w, 21) == 0x4 && Field(w, 16) == 13 &&
      Field(w, 12) == Low(instr, 8) && Field(w, 8) == 15 && Imm8(w) == ThumbImm8(instr)
  {
  }

  lemma AdjustFields(instr: bv16)
    ensures var w := AdjustAsArm(instr);
      ArmFormatOf(w) == DataFormat && !SetsFlags(w) && w & 0x0200_0000 != 0 && Field(w, 16) == 13 && Field(w, 12) == 13 &&
      Field(w, 21) == (if instr & 0x0080 != 0 then 0x2 else 0x4) && Field(w, 8) == 15 && Imm8(w) == ThumbImm7(instr)
  {
  }

  /** Rotating a byte right by thirty is multiplying it by four. */
  lemma RotatedByThirty(imm: nat)
    requires imm < 0x100
    ensures RotateRight(imm, 30) == 4 * imm
  {
    Pow2Add(28, 2);
    assert Pow2(28) >= 0x100 by {
      Pow2Add(8, 20);
    }
    SmallMod(imm, Pow2(30));
  }

  lemma OffsetOperand(core: Core, w: bv32, imm: nat)
    requires w & 0x0200_0000 != 0 && Field(w, 8) == 15 && Imm8(w) == imm
    ensures ShifterOperand(core, w, PC_AHEAD).0 == 4 * imm
  {
    RotatedByThirty(imm);
    hide RotateRight, Field, Imm8;
  }

  /** Adding or subtracting four times a byte, the result written to a register other than R15. */
  lemma QuietOffset(core: Core, w: bv32, opcode: nat, rd: nat, imm: nat)
    requires ArmFormatOf(w) == DataFormat && !SetsFlags(w) && w & 0x0200_0000 != 0 && Field(w, 8) == 15 && Imm8(w) == imm
    requires Field(w, 21) == opcode && (opcode == 0x2 || opcode == 0x4) && Field(w, 16) == 13 && Field(w, 12) == rd < 15
    ensures DataOrStatus(core, w) == (core.WithReg(rd, Wrap(core.Reg(13) + if opcode == 0x2 then -4 * imm else 4 * imm)), 1)
  {
    hide ArmFormatOf, Field, Imm8, ShifterOperand, SetsFlags;
    QuietData(core, w);
    OffsetOperand(core, w, imm);
    hide DataOrStatus;
  }

  lemma SpAddressAgrees(core: Core, m: Memory, instr: bv16, interworking: bool, base: uint32)
    requires ThumbFormatOf(instr) == 12 && Abbreviates(instr)
    ensures Agree(core, m, instr, interworking, base)
  {
    SpAddressFields(instr);
    QuietOffset(core, SpAddressAsArm(instr), 0x4, Low(instr, 8), ThumbImm8(instr));
    hide SpAddressAsArm, ArmFormatOf, ThumbFormatOf, DataOrStatus, Wrap, Field, ThumbImm8, Low;
  }

  lemma AdjustSame(core: Core, instr: bv16)
    ensures DataOrStatus(core, AdjustAsArm(instr)) == (StackPointerAdjusted(core, instr), 1)
  {
    AdjustFields(instr);
    QuietOffset(core, AdjustAsArm(instr), if instr & 0x0080 != 0 then 0x2 else 0x4, 13, ThumbImm7(instr));
    hide AdjustAsArm, ArmFormatOf, DataOrStatus, Wrap, Field, Imm8, SetsFlags, ThumbImm7, Read, Write;
  }

  lemma AdjustAgrees(core: Core, m: Memory, instr: bv16, interworking: bool, base: uint32)
    requires ThumbFormatOf(instr) == 13
    ensures Agree(core, m, instr, interworking, base)
  {
    AdjustFields(instr);
    AdjustSame(core, instr);
    hide AdjustAsArm, ArmFormatOf, ThumbFormatOf, DataOrStatus, StackPointerAdjusted;
  }

  lemma HighFields(instr: bv16)
    requires Abbreviates(instr) && ThumbFormatOf(instr) == 5
    ensures var w, op := HighAsArm(instr), ThumbBits2(instr, 8);
      Field(w, 0) == HighRs(instr) &&
      (op == 3 ==> ArmFormatOf(w) == ExchangeFormat) &&
      (op != 3 ==> ArmFormatOf(w) == DataFormat && (SetsFlags(w) <==> op == 1) && w & 0x0200_0000 == 0 && w & 0x10 == 0 &&
                   Imm5(w) == 0 && ShiftKind(w) == 0) &&
      (op == 0 ==> Field(w, 21) == 0x4 && Field(w, 16) == HighRd(instr) && Field(w, 12) == HighRd(instr)) &&
      (op == 1 ==> Field(w, 21) == 0xA && Field(w, 16) == HighRd(instr) && Field(w, 12) == 0) &&
      (op == 2 ==> Field(w, 21) == 0xD && Field(w, 12) == HighRd(instr))
  {
  }

  lemma HighCompare(core: Core, instr: bv16)
    requires Abbreviates(instr) && ThumbFormatOf(instr) == 5 && ThumbBits2(instr, 8) == 1
    ensures DataOrStatus(core, HighAsArm(instr)) == HighRegister(core, instr)
  {
    HighFields(instr);
    RegisterData(core, HighAsArm(instr), 0xA, HighRd(instr), 0, HighRs(instr));
    PlacedDifference(core, 0xA, 0, core.Reg(HighRd(instr)), core.Reg(HighRs(instr)), core.cpsr.c);
    hide HighAsArm, ArmFormatOf, ThumbFormatOf, DataProcessing, Placed, AluSub;
  }

  /** An unshifted register operand. */
  lemma PlainOperand(core: Core, w: bv32, rm: nat)
    requires w & 0x0200_0000 == 0 && w & 0x10 == 0 && Imm5(w) == 0 && ShiftKind(w) == 0 && Field(w, 0) == rm < 15
    ensures ShifterOperand(core, w, PC_AHEAD) == (core.Reg(rm), core.cpsr.c)
  {
    hide Field, Imm5, ShiftKind, Read;
  }

  lemma HighWrite(core: Core, instr: bv16)
    requires Abbreviates(instr) && ThumbFormatOf(instr) == 5 && (ThumbBits2(instr, 8) == 0 || ThumbBits2(instr, 8) == 2)
    ensures DataOrStatus(core, HighAsArm(instr)) == HighRegister(core, instr)
  {
    hide HighAsArm, ArmFormatOf, ThumbFormatOf, DataOrStatus, ShifterOperand, Field, Imm5, ShiftKind, SetsFlags, ThumbBits2, Read, Write;
    HighFields(instr);
    QuietData(core, HighAsArm(instr));
    PlainOperand(core, HighAsArm(instr), HighRs(instr));
  }

  lemma HighRegisterAgrees(core: Core, m: Memory, instr: bv16, interworking: bool, base: uint32)
    requires Abbreviates(instr) && ThumbFormatOf(instr) == 5
    ensures Agree(core, m, instr, interworking, base)
  {
    HighFields(instr);
    if ThumbBits2(instr, 8) == 1 {
      HighCompare(core, instr);
      hide HighAsArm, ArmFormatOf, ThumbFormatOf, DataOrStatus, HighRegister;
    } else if ThumbBits2(instr, 8) != 3 {
      HighWrite(core, instr);
      hide HighAsArm, ArmFormatOf, ThumbFormatOf, DataOrStatus, HighRegister;
    } else {
      hide HighAsArm, ArmFormatOf, ThumbFormatOf, DataOrStatus, LoadPc, Field, Imm5, ShiftKind;
    }
  }

  lemma SoftwareInterruptAgrees(core: Core, m: Memory, instr: bv16, interworking: bool, base: uint32)
    requires ThumbFormatOf(instr) == 17
    ensures Agree(core, m, instr, interworking, base)
  {
    assert ArmFormatOf(0xEF00_0000) == SoftwareInterruptFormat;
  }

  /**
   * Every THUMB instruction that names no R15, branches by no offset and moves something does exactly what the
   * ARM instruction it abbreviates does, to registers, status, memory and cycles, from any state.
   */
  lemma ThumbAbbreviatesArm(core: Core, m: Memory, instr: bv16, interworking: bool, base: uint32)
    requires Abbreviates(instr)
    ensures ThumbExecuted(core, m, instr, interworking, base) == ArmExecuted(core, m, AsArm(instr), interworking, base)
  {
    var format := ThumbFormatOf(instr);
    if 1 <= format <= 3 {
      FlagSettingAgrees(core, m, instr, interworking, base);
    } else if format == 4 {
      RegisterAluAgrees(core, m, instr, interworking, base);
    } else if format == 5 {
      HighRegisterAgrees(core, m, instr, interworking, base);
    } else if format in {7, 9, 11} {
      SingleAgrees(core, m, instr, interworking, base);
    } else if format in {8, 10} {
      HalfwordAgrees(core, m, instr, interworking, base);
    } else if format == 12 {
      SpAddressAgrees(core, m, instr, interworking, base);
    } else if format == 13 {
      AdjustAgrees(core, m, instr, interworking, base);
    } else if 14 <= format <= 15 {
      BlockAgrees(core, m, instr, interworking, base);
    } else {
      SoftwareInterruptAgrees(core, m, instr, interworking, base);
    }
    hide ThumbExecuted, ArmExecuted, AsArm;
  }

  // ---------------------------------------------------------------------------
  // Stepping
  // ---------------------------------------------------------------------------

  /** Fetched words as instructions. */
  function Encoded(word: uint32): bv32 { word as bv32 }
  function HalfEncoded(half: uint16): bv16 { half as bv16 }

  function ArmStepped(core: Core, m: Memory, interworking: bool, base: uint32): (Core, Memory, nat) {
    var addr := Align(core.regs.pc, false);
    var word, fetched := Word(m, addr), core.WithPc(Wrap(addr + 4));
    if core.cpsr.PassesCondition(word / 0x1000_0000) then ArmExecuted(fetched, m, Encoded(word), interworking, base)
    else (fetched, m, 1)
  }

  function ThumbStepped(core: Core, m: Memory, interworking: bool, base: uint32): (Core, Memory, nat) {
    var addr := Align(core.regs.pc, true);
    ThumbExecuted(core.WithPc(Wrap(addr + 2)), m, HalfEncoded(HalfAt(m, addr)), interworking, base)
  }

  /** The interrupt lines, and whether the core sleeps. */
  datatype Lines = Lines(irq: bool, fiq: bool, halted: bool)

  /** One step: a pending FIQ, else a pending IRQ, else sleep, else an instruction. Also whether it sleeps afterwards. */
  function Stepped(core: Core, m: Memory, lines: Lines, interworking: bool, base: uint32): (Core, Memory, nat, bool) {
    if lines.fiq && !core.cpsr.f then (Raise(core, FastInterrupt, base), m, 3, false)
    else if lines.irq && !core.cpsr.i then (Raise(core, Interrupt, base), m, 3, false)
    else if lines.halted && !lines.irq && !lines.fiq then (core, m, 1, true)
    else
      var (after, m', cycles) :=
        if core.cpsr.t then ThumbStepped(core, m, interworking, base) else ArmStepped(core, m, interworking, base);
      (after, m', cycles, false)
  }
}
