/** The words an assembler makes of ARM operations, and what the decoder makes of the words. */
module ArmEncoding {
  import opened Words
  import opened Arith
  import opened ArmShift
  import opened ArmPsr
  import opened ArmMemory
  import opened ArmCore
  import opened ArmExceptions
  import opened ArmThumb
  import opened ArmTransfer
  import opened ArmMachine
  import opened ArmMeaning

  // ---------------------------------------------------------------------------
  // Operands
  // ---------------------------------------------------------------------------

  datatype Operand =
    | Immediate(imm: bv8, rotate: bv4)
    | ByAmount(rm: bv4, kind: bv2, amount: bv5)
    | ByRegister(rm: bv4, kind: bv2, rs: bv4)

  function OperandBits(o: Operand): bv32 {
    match o
    case Immediate(imm, rotate) => 0x0200_0000 | (rotate as bv32 << 8) | imm as bv32
    case ByAmount(rm, kind, amount) => (amount as bv32 << 7) | (kind as bv32 << 5) | rm as bv32
    case ByRegister(rm, kind, rs) => (rs as bv32 << 8) | (kind as bv32 << 5) | 0x10 | rm as bv32
  }

  function DataHead(cond: bv4, opcode: bv4, s: bool, rn: bv4, rd: bv4): bv32 {
    (cond as bv32 << 28) | (opcode as bv32 << 21) | (if s then 0x0010_0000 else 0) | (rn as bv32 << 16) | (rd as bv32 << 12)
  }

  function DataWord(cond: bv4, opcode: bv4, s: bool, rn: bv4, rd: bv4, operand: bv32): bv32 {
    DataHead(cond, opcode, s, rn, rd) | operand
  }

  /** The operand and its carry, by one-bit shifts; R15 reads as `ahead` past the next instruction. */
  function OperandValue(core: Core, o: Operand, ahead: nat): (uint32, bool) {
    match o
    case Immediate(imm, rotate) => Repeat(3, 2 * (Num(rotate)), imm as nat, core.cpsr.c)
    case ByAmount(rm, kind, amount) =>
      if amount == 0 then ZeroImmediate(kind as nat, Seen(core, Num(rm), ahead), core.cpsr.c)
      else Repeat(kind as nat, amount as nat, Seen(core, Num(rm), ahead), core.cpsr.c)
    case ByRegister(rm, kind, rs) => Repeat(kind as nat, core.Reg(Num(rs)) % 0x100, Seen(core, Num(rm), ahead), core.cpsr.c)
  }

  /** An operand's bits are bit 25 and the low twelve, and are no multiply's or halfword transfer's. */
  predicate IsOperand(bits: bv32) {
    bits & 0xFDFF_F000 == 0 && (bits & 0x0200_0000 != 0 || bits & 0x90 != 0x90)
  }

  lemma DataWordFormat(cond: bv4, opcode: bv4, s: bool, rn: bv4, rd: bv4, operand: bv32)
    requires IsOperand(operand) && (s || opcode & 0xC != 8)
    ensures ArmFormatOf(DataWord(cond, opcode, s, rn, rd, operand)) == DataFormat
  {
  }

  lemma DataBits(cond: bv4, opcode: bv4, s: bool, rn: bv4, rd: bv4, operand: bv32)
    requires operand & 0xFDFF_F000 == 0
    ensures var w := DataWord(cond, opcode, s, rn, rd, operand);
      ((w >> 21) & 0xF) as bv4 == opcode && ((w >> 16) & 0xF) as bv4 == rn && ((w >> 12) & 0xF) as bv4 == rd
  {
  }

  lemma DataRest(cond: bv4, opcode: bv4, s: bool, rn: bv4, rd: bv4, operand: bv32)
    requires operand & 0xFDFF_F000 == 0
    ensures DataWord(cond, opcode, s, rn, rd, operand) & 0x0200_0FFF == operand
  {
    hide DataHead;
    HeadIsApart(cond, opcode, s, rn, rd);
    JustOperand(DataHead(cond, opcode, s, rn, rd), operand);
  }

  lemma HeadIsApart(cond: bv4, opcode: bv4, s: bool, rn: bv4, rd: bv4)
    ensures DataHead(cond, opcode, s, rn, rd) & 0x0200_0FFF == 0
  {
  }

  lemma JustOperand(rest: bv32, operand: bv32)
    requires operand & 0xFDFF_F000 == 0 && rest & 0x0200_0FFF == 0
    ensures (rest | operand) & 0x0200_0FFF == operand
  {
  }

  lemma Comparison(opcode: bv4)
    ensures opcode & 0xC == 8 <==> 8 <= Num(opcode) <= 11
  {
  }

  lemma DataFlag(cond: bv4, opcode: bv4, s: bool, rn: bv4, rd: bv4, operand: bv32)
    requires operand & 0xFDFF_F000 == 0
    ensures DataWord(cond, opcode, s, rn, rd, operand) & 0x0010_0000 != 0 <==> s
  {
  }

  lemma OperandShape(o: Operand)
    ensures var bits := OperandBits(o);
      IsOperand(bits) && (bits & 0x0200_0000 != 0 <==> o.Immediate?) &&
      (bits & 0x0200_0000 == 0 && bits & 0x10 != 0 <==> o.ByRegister?)
  {
  }

  lemma OperandFields(o: Operand)
    ensures var w := OperandBits(o);
      match o
      case Immediate(imm, rotate) => ((w >> 8) & 0xF) as bv4 == rotate && (w & 0xFF) as bv8 == imm
      case ByAmount(rm, kind, amount) =>
        w & 0x10 == 0 && ((w >> 0) & 0xF) as bv4 == rm && ((w >> 5) & 3) as bv2 == kind && ((w >> 7) & 0x1F) as bv5 == amount
      case ByRegister(rm, kind, rs) =>
        w & 0x10 != 0 && ((w >> 0) & 0xF) as bv4 == rm && ((w >> 5) & 3) as bv2 == kind && ((w >> 8) & 0xF) as bv4 == rs
  {
  }

  /** The operand is read from its own bits. */
  lemma OperandAlone(core: Core, w: bv32, operand: bv32, ahead: nat)
    requires w & 0x0200_0FFF == operand
    ensures ShifterOperand(core, w, ahead) == ShifterOperand(core, operand, ahead) && (RegisterShift(w) <==> RegisterShift(operand))
  {
    SameFields(w, operand);
    hide Field, Imm8, Imm5, ShiftKind, Shift, RotatedImmediate, Core.RegPc;
  }

  lemma SameFields(w: bv32, operand: bv32)
    requires w & 0x0200_0FFF == operand
    ensures Field(w, 0) == Field(operand, 0) && Field(w, 8) == Field(operand, 8) && Imm8(w) == Imm8(operand)
    ensures Imm5(w) == Imm5(operand) && ShiftKind(w) == ShiftKind(operand)
    ensures (w & 0x0200_0000 != 0 <==> operand & 0x0200_0000 != 0) && (w & 0x10 != 0 <==> operand & 0x10 != 0)
  {
  }

  /** An operand's bits give what the one-bit shifts make of it. */
  lemma OperandDecodes(core: Core, o: Operand, ahead: nat)
    ensures ShifterOperand(core, OperandBits(o), ahead) == OperandValue(core, o, ahead)
  {
    hide *;
    match o
    case Immediate(imm, rotate) => ImmediateDecodes(core, imm, rotate, ahead);
    case ByAmount(rm, kind, amount) => AmountDecodes(core, rm, kind, amount, ahead);
    case ByRegister(rm, kind, rs) => RegisterDecodes(core, rm, kind, rs, ahead);
  }

  lemma ImmediateDecodes(core: Core, imm: bv8, rotate: bv4, ahead: nat)
    ensures var o := Immediate(imm, rotate); ShifterOperand(core, OperandBits(o), ahead) == OperandValue(core, o, ahead)
  {
    hide OperandBits, Field, Imm8, Num, Repeat, RotatedImmediate, Core.RegPc, Shift;
    OperandShape(Immediate(imm, rotate));
    ImmediateFields(OperandBits(Immediate(imm, rotate)), imm, rotate);
    RotatedIsRepeated(imm as nat, 2 * Num(rotate), core.cpsr.c);
  }

  lemma AmountDecodes(core: Core, rm: bv4, kind: bv2, amount: bv5, ahead: nat)
    ensures var o := ByAmount(rm, kind, amount); ShifterOperand(core, OperandBits(o), ahead) == OperandValue(core, o, ahead)
  {
    hide OperandBits, Field, Num, Repeat, ZeroImmediate, Core.RegPc, Seen, Shift;
    var w := OperandBits(ByAmount(rm, kind, amount));
    OperandShape(ByAmount(rm, kind, amount));
    OperandFields(ByAmount(rm, kind, amount));
    FieldIs(w, 0, rm);
    SeenIsRead(core, Num(rm), ahead);
    ShiftIsRepeatedOneBit(kind as nat, amount as nat, core.RegPc(Num(rm), ahead), core.cpsr.c, true);
  }

  lemma RegisterDecodes(core: Core, rm: bv4, kind: bv2, rs: bv4, ahead: nat)
    ensures var o := ByRegister(rm, kind, rs); ShifterOperand(core, OperandBits(o), ahead) == OperandValue(core, o, ahead)
  {
    hide OperandBits, Field, Num, Repeat, Core.RegPc, Core.Reg, Seen, Shift;
    var w := OperandBits(ByRegister(rm, kind, rs));
    OperandShape(ByRegister(rm, kind, rs));
    OperandFields(ByRegister(rm, kind, rs));
    FieldIs(w, 0, rm);
    FieldIs(w, 8, rs);
    SeenIsRead(core, Num(rm), ahead);
    ShiftIsRepeatedOneBit(kind as nat, core.Reg(Num(rs)) % 0x100, core.RegPc(Num(rm), ahead), core.cpsr.c, false);
  }

  lemma RotatedIsRepeated(imm: uint32, rotate: nat, carryIn: bool)
    requires rotate < 32
    ensures RotatedImmediate(imm, rotate, carryIn) == Repeat(3, rotate, imm, carryIn)
  {
    ShiftIsRepeatedOneBit(3, rotate, imm, carryIn, false);
    if rotate > 0 {
      TurnedBit(imm, rotate, carryIn);
    }
  }

  /** The last bit turned out is the sign of the result. */
  lemma TurnedBit(v: uint32, n: nat, c: bool)
    requires n > 0
    ensures Repeat(3, n, v, c).1 == Sign(Repeat(3, n, v, c).0)
  {
  }

  /** What a data-processing instruction with these operands does; to R15, with S, it also restores the saved status. */
  predicate Processed(core: Core, after: Core, cycles: nat, opcode: nat, s: bool, a: uint32, rd: nat, operand: (uint32, bool), registerShift: bool)
    requires rd < 16
  {
    var (result, flags, writes) := Alu(opcode, core.cpsr, a, operand.0, operand.1);
    var judged := if s then core.(cpsr := flags) else core;
    cycles == 1 + (if registerShift then 1 else 0) + (if writes && rd == 15 then 2 else 0) &&
    after ==
      if rd != 15 then if writes then judged.WithReg(rd, result) else judged
      else
        var back := if s || !writes then RestoreCpsr(judged) else judged;
        if writes then back.WithPc(Align(result, back.cpsr.t)) else back
  }

  lemma ProcessedByFields(core: Core, w: bv32, opcode: nat, s: bool, rn: nat, rd: nat, registerShift: bool)
    requires Field(w, 21) == opcode && Field(w, 16) == rn && Field(w, 12) == rd && (RegisterShift(w) <==> registerShift)
    requires w & 0x0010_0000 != 0 <==> s
    ensures var ahead := if registerShift then 8 else 4;
      Processed(core, DataProcessing(core, w).0, DataProcessing(core, w).1, opcode, s, core.RegPc(rn, ahead), rd,
                ShifterOperand(core, w, ahead), registerShift)
  {
    hide Field, RegisterShift, ShifterOperand, Alu, Core.RegPc, Core.WithReg, RestoreCpsr, Align;
  }

  lemma DataWordFields(cond: bv4, opcode: bv4, s: bool, rn: bv4, rd: bv4, operand: bv32)
    requires operand & 0xFDFF_F000 == 0
    ensures var w := DataWord(cond, opcode, s, rn, rd, operand);
      (w & 0x0010_0000 != 0 <==> s) && Field(w, 21) == Num(opcode) && Field(w, 16) == Num(rn) && Field(w, 12) == Num(rd) &&
      w & 0x0200_0FFF == operand
  {
    hide Field, DataWord;
    var w := DataWord(cond, opcode, s, rn, rd, operand);
    DataBits(cond, opcode, s, rn, rd, operand);
    DataRest(cond, opcode, s, rn, rd, operand);
    DataFlag(cond, opcode, s, rn, rd, operand);
    FieldIs(w, 21, opcode);
    FieldIs(w, 16, rn);
    FieldIs(w, 12, rd);
  }

  lemma DataWordOperand(core: Core, w: bv32, o: Operand, ahead: nat)
    requires w & 0x0200_0FFF == OperandBits(o)
    ensures ShifterOperand(core, w, ahead) == OperandValue(core, o, ahead) && (RegisterShift(w) <==> o.ByRegister?)
  {
    OperandShape(o);
    OperandAlone(core, w, OperandBits(o), ahead);
    OperandDecodes(core, o, ahead);
    hide OperandBits, OperandValue, ShifterOperand;
  }

  lemma DataExecuted(core: Core, m: Memory, w: bv32, interworking: bool, base: uint32)
    requires ArmFormatOf(w) == DataFormat && !IsStatusTransfer(w)
    ensures ArmExecuted(core, m, w, interworking, base) == (DataProcessing(core, w).0, m, DataProcessing(core, w).1)
  {
    hide ArmFormatOf, IsStatusTransfer, DataProcessing;
  }

  lemma DataByFields(core: Core, m: Memory, w: bv32, opcode: nat, s: bool, rn: nat, rd: nat, o: Operand, interworking: bool, base: uint32)
    requires ArmFormatOf(w) == DataFormat && (w & 0x0010_0000 != 0 <==> s) && (s || !(8 <= opcode <= 11))
    requires Field(w, 21) == opcode && Field(w, 16) == rn && Field(w, 12) == rd && w & 0x0200_0FFF == OperandBits(o)
    ensures DataDone(core, m, ArmExecuted(core, m, w, interworking, base), opcode, s, rn, rd, o)
  {
    hide OperandBits, OperandValue, ArmFormatOf, Field, ShifterOperand, Core.RegPc, Seen, DataProcessing, Processed, RegisterShift, ArmExecuted;
    SeenIsRead(core, rn, if o.ByRegister? then 8 else 4);
    DataWordOperand(core, w, o, if o.ByRegister? then 8 else 4);
    assert !IsStatusTransfer(w);
    DataExecuted(core, m, w, interworking, base);
    hide IsStatusTransfer;
    ProcessedByFields(core, w, opcode, s, rn, rd, o.ByRegister?);
  }

  /** Executed as this data-processing instruction; R15 reads 8 past the instruction, 12 if a register gives the shift. */
  predicate DataDone(core: Core, m: Memory, done: (Core, Memory, nat), opcode: nat, s: bool, rn: nat, rd: nat, o: Operand)
    requires rn < 16 && rd < 16
  {
    var ahead := if o.ByRegister? then 8 else 4;
    done.1 == m && Processed(core, done.0, done.2, opcode, s, Seen(core, rn, ahead), rd, OperandValue(core, o, ahead), o.ByRegister?)
  }

  /** Any word a data-processing instruction assembles to is executed as that instruction. */
  lemma DataAssembles(core: Core, m: Memory, cond: bv4, opcode: bv4, s: bool, rn: bv4, rd: bv4, o: Operand, interworking: bool, base: uint32)
    requires s || !(8 <= Num(opcode) <= 11)
    ensures DataDone(core, m, ArmExecuted(core, m, DataWord(cond, opcode, s, rn, rd, OperandBits(o)), interworking, base),
                     Num(opcode), s, Num(rn), Num(rd), o)
  {
    hide DataWord, OperandBits, ArmFormatOf, Field, IsOperand, DataDone, ArmExecuted, Num;
    OperandShape(o);
    Comparison(opcode);
    DataWordFormat(cond, opcode, s, rn, rd, OperandBits(o));
    DataWordFields(cond, opcode, s, rn, rd, OperandBits(o));
    DataByFields(core, m, DataWord(cond, opcode, s, rn, rd, OperandBits(o)), Num(opcode), s, Num(rn), Num(rd), o, interworking, base);
  }

  // ---------------------------------------------------------------------------
  // Loads and stores
  // ---------------------------------------------------------------------------

  /** The fields that all loads and stores share. */
  datatype Move = Move(cond: bv4, pre: bool, up: bool, b: bool, writeback: bool, load: bool, rn: bv4, rd: bv4)

  /** The condition, P, U, bit 22, W, L and the two registers. */
  function MoveHead(x: Move): bv32 {
    (x.cond as bv32 << 28) | (if x.pre then 0x0100_0000 else 0) | (if x.up then 0x0080_0000 else 0) | (if x.b then 0x0040_0000 else 0) |
    (if x.writeback then 0x0020_0000 else 0) | (if x.load then 0x0010_0000 else 0) | (x.rn as bv32 << 16) | (x.rd as bv32 << 12)
  }

  lemma MoveFlags(x: Move, rest: bv32)
    requires rest & 0x01FF_F000 == 0
    ensures Flagged(MoveHead(x) | rest, x)
  {
  }

  lemma MoveRegisters(x: Move, rest: bv32)
    requires rest & 0x01FF_F000 == 0
    ensures Field(MoveHead(x) | rest, 16) == Num(x.rn) && Field(MoveHead(x) | rest, 12) == Num(x.rd)
  {
    MoveNibbles(x, rest);
    hide MoveHead, Field, Num;
    FieldIs(MoveHead(x) | rest, 16, x.rn);
    FieldIs(MoveHead(x) | rest, 12, x.rd);
  }

  lemma MoveNibbles(x: Move, rest: bv32)
    requires rest & 0x01FF_F000 == 0
    ensures var w := MoveHead(x) | rest; ((w >> 16) & 0xF) as bv4 == x.rn && ((w >> 12) & 0xF) as bv4 == x.rd
  {
  }

  /** A word with these five bits. */
  predicate Flagged(w: bv32, x: Move) {
    (w & 0x0100_0000 != 0 <==> x.pre) && (w & 0x0080_0000 != 0 <==> x.up) && (w & 0x0040_0000 != 0 <==> x.b) &&
    (w & 0x0020_0000 != 0 <==> x.writeback) && (w & 0x0010_0000 != 0 <==> x.load)
  }

  /** A word that carries these fields. */
  predicate Carries(w: bv32, x: Move) {
    Flagged(w, x) && Field(w, 16) == Num(x.rn) && Field(w, 12) == Num(x.rd)
  }

  lemma MoveFields(x: Move, rest: bv32)
    requires rest & 0x01FF_F000 == 0
    ensures Carries(MoveHead(x) | rest, x)
  {
    MoveFlags(x, rest);
    MoveRegisters(x, rest);
    hide MoveHead, Field, Num, Flagged;
  }

  lemma MoveRest(x: Move, rest: bv32)
    requires rest & 0x01FF_F000 == 0
    ensures var w := MoveHead(x) | rest; w & 0x0E00_0FFF == rest & 0x0E00_0FFF
  {
    HeadLeavesRest(x);
    JustRest(MoveHead(x), rest);
    hide MoveHead;
  }

  lemma HeadLeavesRest(x: Move)
    ensures MoveHead(x) & 0x0E00_0FFF == 0
  {
  }

  lemma JustRest(head: bv32, rest: bv32)
    requires head & 0x0E00_0FFF == 0
    ensures (head | rest) & 0x0E00_0FFF == rest & 0x0E00_0FFF
  {
  }

  // -- LDR and STR ------------------------------------------------------------------

  datatype Offset = Twelve(imm: bv12) | Scaled(rm: bv4, kind: bv2, amount: bv5)

  function OffsetBits(o: Offset): bv32 {
    match o
    case Twelve(imm) => 0x0400_0000 | imm as bv32
    case Scaled(rm, kind, amount) => 0x0600_0000 | (amount as bv32 << 7) | (kind as bv32 << 5) | rm as bv32
  }

  function OffsetValue(core: Core, o: Offset): nat {
    match o
    case Twelve(imm) => imm as nat
    case Scaled(rm, kind, amount) =>
      if amount == 0 then ZeroImmediate(kind as nat, core.Reg(Num(rm)), core.cpsr.c).0
      else Repeat(kind as nat, amount as nat, core.Reg(Num(rm)), core.cpsr.c).0
  }

  lemma OffsetShape(o: Offset)
    ensures var bits := OffsetBits(o);
      bits & 0x01FF_F000 == 0 && bits & 0x0C00_0000 == 0x0400_0000 && (bits & 0x0200_0000 != 0 ==> bits & 0x10 == 0)
  {
  }

  lemma OffsetFields(o: Offset)
    ensures var bits := OffsetBits(o);
      (bits & 0x0200_0000 != 0 <==> o.Scaled?) &&
      match o
      case Twelve(imm) => (bits & 0xFFF) as bv12 == imm
      case Scaled(rm, kind, amount) => ((bits >> 0) & 0xF) as bv4 == rm && ((bits >> 5) & 3) as bv2 == kind && ((bits >> 7) & 0x1F) as bv5 == amount
  {
  }

  lemma OffsetDecodes(core: Core, o: Offset)
    ensures SingleOffset(core, OffsetBits(o)) == OffsetValue(core, o)
  {
    OffsetFields(o);
    hide OffsetBits, Field, Num, Repeat, Shift, ZeroImmediate, Core.Reg;
    match o
    case Twelve(imm) =>
    case Scaled(rm, kind, amount) =>
      FieldIs(OffsetBits(o), 0, rm);
      ShiftIsRepeatedOneBit(kind as nat, amount as nat, core.Reg(Num(rm)), core.cpsr.c, true);
  }

  lemma OffsetAlone(core: Core, w: bv32, bits: bv32)
    requires w & 0x0E00_0FFF == bits & 0x0E00_0FFF
    ensures SingleOffset(core, w) == SingleOffset(core, bits)
  {
    SameOffsetFields(w, bits);
    hide Field, Imm5, ShiftKind, Shift, Core.Reg;
  }

  lemma SameOffsetFields(w: bv32, bits: bv32)
    requires w & 0x0E00_0FFF == bits & 0x0E00_0FFF
    ensures Field(w, 0) == Field(bits, 0) && Imm5(w) == Imm5(bits) && ShiftKind(w) == ShiftKind(bits)
    ensures w & 0xFFF == bits & 0xFFF && (w & 0x0200_0000 != 0 <==> bits & 0x0200_0000 != 0)
  {
  }

  lemma SingleFormatOf(w: bv32, bits: bv32)
    requires w & 0x0E00_0FFF == bits & 0x0E00_0FFF && bits & 0x0C00_0000 == 0x0400_0000
    requires bits & 0x0200_0000 != 0 ==> bits & 0x10 == 0
    ensures ArmFormatOf(w) == SingleFormat
  {
  }

  /** The transfer that a load or store of a byte or word stands for. */
  function SingleOp(x: Move, offset: nat): (op: TransferOp)
    ensures op.rn < 16 && op.rd < 16
  {
    TransferOp(x.pre, x.up, x.writeback, x.load, if x.b then ByteData else WordData, Num(x.rn), Num(x.rd), offset)
  }

  function SingleWord(x: Move, o: Offset): bv32 {
    MoveHead(x) | OffsetBits(o)
  }

  lemma SingleIsSingle(x: Move, o: Offset)
    ensures ArmFormatOf(SingleWord(x, o)) == SingleFormat
  {
    hide MoveHead, OffsetBits, ArmFormatOf;
    OffsetShape(o);
    MoveRest(x, OffsetBits(o));
    SingleFormatOf(SingleWord(x, o), OffsetBits(o));
  }

  lemma SingleCarries(x: Move, o: Offset)
    ensures Carries(SingleWord(x, o), x)
  {
    hide MoveHead, OffsetBits, Carries;
    OffsetShape(o);
    MoveFields(x, OffsetBits(o));
  }

  lemma SingleOffsetOf(core: Core, x: Move, o: Offset)
    ensures SingleOffset(core, SingleWord(x, o)) == OffsetValue(core, o)
  {
    hide MoveHead, OffsetBits, SingleOffset, OffsetValue;
    OffsetShape(o);
    MoveRest(x, OffsetBits(o));
    OffsetAlone(core, SingleWord(x, o), OffsetBits(o));
    OffsetDecodes(core, o);
  }

  lemma SingleDecodes(core: Core, x: Move, o: Offset)
    ensures DecodeSingle(core, SingleWord(x, o)) == SingleOp(x, OffsetValue(core, o))
  {
    hide SingleWord, SingleOffset, OffsetValue, SingleOp, DecodeSingle, Carries;
    SingleCarries(x, o);
    SingleOffsetOf(core, x, o);
    SingleDecoded(core, SingleWord(x, o), x, OffsetValue(core, o));
  }

  /** `LDR`, `STR` and their byte forms: the word is executed as the transfer it was made from. */
  lemma SingleAssembles(core: Core, m: Memory, x: Move, o: Offset, interworking: bool, base: uint32)
    ensures ArmExecuted(core, m, SingleWord(x, o), interworking, base) == Transfer(core, m, SingleOp(x, OffsetValue(core, o)), interworking)
  {
    hide SingleWord, ArmFormatOf, OffsetValue, Transfer, ArmExecuted, SingleOp, DecodeSingle;
    SingleIsSingle(x, o);
    SingleDecodes(core, x, o);
    SingleExecuted(core, m, SingleWord(x, o), interworking, base);
  }

  lemma SingleExecuted(core: Core, m: Memory, w: bv32, interworking: bool, base: uint32)
    requires ArmFormatOf(w) == SingleFormat
    ensures ArmExecuted(core, m, w, interworking, base) == Transfer(core, m, DecodeSingle(core, w), interworking)
  {
    hide ArmFormatOf, Transfer, DecodeSingle;
  }

  lemma SingleDecoded(core: Core, w: bv32, x: Move, offset: nat)
    requires Carries(w, x) && SingleOffset(core, w) == offset
    ensures DecodeSingle(core, w) == SingleOp(x, offset)
  {
    hide Field, Num, SingleOffset;
  }

  // -- Halfwords and signed loads ---------------------------------------------------

  /** Bit 22 set: an eight-bit offset; clear: a register. */
  datatype HalfSource = Eight(hi: bv4, lo: bv4) | Plain(rm: bv4)

  function HalfBits(kind: bv2, o: HalfSource): bv32 {
    0x90 | (kind as bv32 << 5) | match o case Eight(hi, lo) => (hi as bv32 << 8) | lo as bv32 case Plain(rm) => rm as bv32
  }

  lemma HalfShape(kind: bv2, o: HalfSource)
    ensures var bits := HalfBits(kind, o);
      bits & 0x01FF_F000 == 0 && bits & 0xFE00_0000 == 0 && bits & 0x90 == 0x90 && ((bits >> 5) & 3) as bv2 == kind &&
      match o
      case Eight(hi, lo) => ((bits >> 8) & 0xF) as bv4 == hi && ((bits >> 0) & 0xF) as bv4 == lo
      case Plain(rm) => ((bits >> 0) & 0xF) as bv4 == rm
  {
  }

  function HalfValue(core: Core, o: HalfSource): nat {
    match o
    case Eight(hi, lo) => 16 * Num(hi) + Num(lo)
    case Plain(rm) => core.Reg(Num(rm))
  }

  lemma HalfFormat(w: bv32, kind: bv2)
    requires w & 0x0E00_0090 == 0x90 && ((w >> 5) & 3) as bv2 == kind && kind != 0
    ensures ArmFormatOf(w) == HalfwordFormat
  {
  }

  lemma HalfFields(w: bv32, bits: bv32)
    requires w & 0x0E00_0FFF == bits & 0x0E00_0FFF
    ensures ((w >> 8) & 0xF) as bv4 == ((bits >> 8) & 0xF) as bv4 && ((w >> 0) & 0xF) as bv4 == ((bits >> 0) & 0xF) as bv4
    ensures ((w >> 5) & 3) as bv2 == ((bits >> 5) & 3) as bv2 && w & 0x0E00_0090 == bits & 0x0E00_0090
  {
  }

  /** `STRH`, `LDRH`, `LDRSB` and `LDRSH`. */
  lemma HalfAssembles(core: Core, m: Memory, x: Move, kind: bv2, o: HalfSource, interworking: bool, base: uint32)
    requires kind != 0 && (x.b <==> o.Eight?)
    ensures var op := SingleOp(x, HalfValue(core, o)).(width := HalfData(kind as nat));
      ArmExecuted(core, m, MoveHead(x) | HalfBits(kind, o), interworking, base) == Transfer(core, m, op, interworking)
  {
    hide MoveHead, HalfBits, ArmFormatOf, Field, Num, HalfOffset, HalfValue, Transfer, ArmExecuted, SingleOp, DecodeHalf, Carries;
    var w, bits := MoveHead(x) | HalfBits(kind, o), HalfBits(kind, o);
    HalfShape(kind, o);
    MoveFields(x, bits);
    MoveRest(x, bits);
    HalfFields(w, bits);
    HalfFormat(w, kind);
    HalfDecoded(core, w, x, kind, o);
    HalfExecuted(core, m, w, interworking, base);
  }

  lemma HalfDecoded(core: Core, w: bv32, x: Move, kind: bv2, o: HalfSource)
    requires Carries(w, x) && ((w >> 5) & 3) as bv2 == kind && (x.b <==> o.Eight?)
    requires match o
      case Eight(hi, lo) => ((w >> 8) & 0xF) as bv4 == hi && ((w >> 0) & 0xF) as bv4 == lo
      case Plain(rm) => ((w >> 0) & 0xF) as bv4 == rm
    ensures DecodeHalf(core, w) == SingleOp(x, HalfValue(core, o)).(width := HalfData(kind as nat))
  {
    hide Num, Field;
    match o
    case Eight(hi, lo) =>
      FieldIs(w, 8, hi);
      FieldIs(w, 0, lo);
    case Plain(rm) => FieldIs(w, 0, rm);
  }

  lemma HalfExecuted(core: Core, m: Memory, w: bv32, interworking: bool, base: uint32)
    requires ArmFormatOf(w) == HalfwordFormat
    ensures ArmExecuted(core, m, w, interworking, base) == Transfer(core, m, DecodeHalf(core, w), interworking)
  {
    hide ArmFormatOf, Transfer, DecodeHalf;
  }

  // -- Block transfers and swaps ----------------------------------------------------

  lemma LowDigits(x: uint32, v: bv32)
    requires v == x as bv32
    ensures x / 0x1 % 2 == 1 <==> v & 0x1 != 0
    ensures x / 0x2 % 2 == 1 <==> v & 0x2 != 0
    ensures x / 0x4 % 2 == 1 <==> v & 0x4 != 0
    ensures x / 0x8 % 2 == 1 <==> v & 0x8 != 0
    ensures x / 0x10 % 2 == 1 <==> v & 0x10 != 0
    ensures x / 0x20 % 2 == 1 <==> v & 0x20 != 0
    ensures x / 0x40 % 2 == 1 <==> v & 0x40 != 0
    ensures x / 0x80 % 2 == 1 <==> v & 0x80 != 0
  {
  }

  lemma NextDigits(x: uint32, v: bv32)
    requires v == x as bv32
    ensures x / 0x100 % 2 == 1 <==> v & 0x100 != 0
    ensures x / 0x200 % 2 == 1 <==> v & 0x200 != 0
    ensures x / 0x400 % 2 == 1 <==> v & 0x400 != 0
    ensures x / 0x800 % 2 == 1 <==> v & 0x800 != 0
    ensures x / 0x1000 % 2 == 1 <==> v & 0x1000 != 0
    ensures x / 0x2000 % 2 == 1 <==> v & 0x2000 != 0
    ensures x / 0x4000 % 2 == 1 <==> v & 0x4000 != 0
    ensures x / 0x8000 % 2 == 1 <==> v & 0x8000 != 0
  {
  }

  lemma ListLow(v: bv32, word: uint32, k: nat)
    requires 0 <= k < 8
    requires word / 0x1 % 2 == 1 <==> v & 0x1 != 0
    requires word / 0x2 % 2 == 1 <==> v & 0x2 != 0
    requires word / 0x4 % 2 == 1 <==> v & 0x4 != 0
    requires word / 0x8 % 2 == 1 <==> v & 0x8 != 0
    requires word / 0x10 % 2 == 1 <==> v & 0x10 != 0
    requires word / 0x20 % 2 == 1 <==> v & 0x20 != 0
    requires word / 0x40 % 2 == 1 <==> v & 0x40 != 0
    requires word / 0x80 % 2 == 1 <==> v & 0x80 != 0
    ensures DecodeList(v)[k] <==> BitOf(word, k)
  {
    Powers();
  }

  lemma ListUpper(v: bv32, word: uint32, k: nat)
    requires 8 <= k < 12
    requires word / 0x100 % 2 == 1 <==> v & 0x100 != 0
    requires word / 0x200 % 2 == 1 <==> v & 0x200 != 0
    requires word / 0x400 % 2 == 1 <==> v & 0x400 != 0
    requires word / 0x800 % 2 == 1 <==> v & 0x800 != 0
    ensures DecodeList(v)[k] <==> BitOf(word, k)
  {
    Powers();
  }

  lemma ListTop(v: bv32, word: uint32, k: nat)
    requires 12 <= k < 16
    requires word / 0x1000 % 2 == 1 <==> v & 0x1000 != 0
    requires word / 0x2000 % 2 == 1 <==> v & 0x2000 != 0
    requires word / 0x4000 % 2 == 1 <==> v & 0x4000 != 0
    requires word / 0x8000 % 2 == 1 <==> v & 0x8000 != 0
    ensures DecodeList(v)[k] <==> BitOf(word, k)
  {
    Powers();
  }

  /** R`k` is listed exactly if the word's digit `k` is a one. */
  lemma ListDigits(word: uint32, k: nat)
    requires k < 16
    ensures DecodeList(word as bv32)[k] <==> BitOf(word, k)
  {
    LowDigits(word, word as bv32);
    NextDigits(word, word as bv32);
    Powers();
    if k < 8 {
      ListLow(word as bv32, word, k);
    } else if k < 12 {
      ListUpper(word as bv32, word, k);
    } else {
      ListTop(word as bv32, word, k);
    }
  }

  lemma ListAlone(head: bv32, bits: bv32)
    requires head & 0xFFFF == 0
    ensures DecodeList(head | bits) == DecodeList(bits)
  {
  }

  /** `LDM` and `STM`: bit 22 is the S bit, and the list takes the place of Rd and the offset. */
  function BlockWord(x: Move, list: bv32): bv32 {
    BlockHead(x) | list
  }

  function BlockHead(x: Move): bv32 {
    MoveHead(x.(rd := 0)) | 0x0800_0000
  }

  lemma BlockFlags(x: Move, list: bv32)
    requires list & 0xFFFF_0000 == 0
    ensures Flagged(BlockWord(x, list), x)
  {
  }

  lemma BlockHeadApart(x: Move)
    ensures BlockHead(x) & 0xFFFF == 0
  {
  }

  lemma BlockNibble(x: Move, list: bv32)
    requires list & 0xFFFF_0000 == 0
    ensures ((BlockWord(x, list) >> 16) & 0xF) as bv4 == x.rn
  {
  }

  lemma BlockBase(x: Move, list: bv32)
    requires list & 0xFFFF_0000 == 0
    ensures Field(BlockWord(x, list), 16) == Num(x.rn)
  {
    hide BlockWord, Field, Num;
    BlockNibble(x, list);
    FieldIs(BlockWord(x, list), 16, x.rn);
  }

  lemma BlockFormatOf(x: Move, list: bv32)
    requires list & 0xFFFF_0000 == 0
    ensures ArmFormatOf(BlockWord(x, list)) == BlockFormat
  {
  }

  lemma BlockListOf(x: Move, list: bv32)
    requires list & 0xFFFF_0000 == 0
    ensures DecodeList(BlockWord(x, list)) == DecodeList(list)
  {
    hide BlockHead, DecodeList;
    BlockHeadApart(x);
    ListAlone(BlockHead(x), list);
  }

  lemma BlockDecoded(w: bv32, x: Move)
    requires Field(w, 16) == Num(x.rn) && Flagged(w, x)
    ensures DecodeBlock(w) == BlockOp(x.pre, x.up, x.b, x.writeback, x.load, Num(x.rn), DecodeList(w))
  {
    hide Field, Num, DecodeList;
  }

  /** The word decodes to the block transfer it was made from. */
  lemma BlockAssembles(x: Move, list: bv32)
    requires list & 0xFFFF_0000 == 0
    ensures ArmFormatOf(BlockWord(x, list)) == BlockFormat
    ensures DecodeBlock(BlockWord(x, list)) == BlockOp(x.pre, x.up, x.b, x.writeback, x.load, Num(x.rn), DecodeList(list))
  {
    hide BlockWord, Flagged, ArmFormatOf, Field, Num, DecodeList, DecodeBlock;
    BlockFlags(x, list);
    BlockBase(x, list);
    BlockFormatOf(x, list);
    BlockDecoded(BlockWord(x, list), x);
    BlockListOf(x, list);
  }

  /** `SWP` and `SWPB Rd, Rm, [Rn]`. */
  function SwapWord(cond: bv4, byte: bool, rn: bv4, rd: bv4, rm: bv4): bv32 {
    (cond as bv32 << 28) | 0x0100_0090 | (if byte then 0x0040_0000 else 0) | (rn as bv32 << 16) | (rd as bv32 << 12) | rm as bv32
  }

  lemma SwapBits(cond: bv4, byte: bool, rn: bv4, rd: bv4, rm: bv4)
    ensures var w := SwapWord(cond, byte, rn, rd, rm);
      ArmFormatOf(w) == SwapFormat && (w & 0x0040_0000 != 0 <==> byte) &&
      ((w >> 16) & 0xF) as bv4 == rn && ((w >> 12) & 0xF) as bv4 == rd && ((w >> 0) & 0xF) as bv4 == rm
  {
  }

  /** Memory and register change places. */
  lemma SwapAssembles(core: Core, m: Memory, cond: bv4, byte: bool, rn: bv4, rd: bv4, rm: bv4, interworking: bool, base: uint32)
    ensures var addr, stored := core.Reg(Num(rn)), core.Reg(Num(rm));
      ArmExecuted(core, m, SwapWord(cond, byte, rn, rd, rm), interworking, base) ==
        (core.WithReg(Num(rd), LoadedData(m, byte, addr)), StoredData(m, byte, addr, stored), 4)
  {
    hide SwapWord, ArmFormatOf, Field, Num, LoadedData, StoredData, Core.Reg, Core.WithReg;
    var w := SwapWord(cond, byte, rn, rd, rm);
    SwapBits(cond, byte, rn, rd, rm);
    FieldIs(w, 16, rn);
    FieldIs(w, 12, rd);
    FieldIs(w, 0, rm);
  }

  // ---------------------------------------------------------------------------
  // Branches
  // ---------------------------------------------------------------------------

  /** `B` and `BL` over a signed number of words. */
  function BranchWord(cond: bv4, link: bool, field: bv24): bv32 {
    (cond as bv32 << 28) | 0x0A00_0000 | (if link then 0x0100_0000 else 0) | field as bv32
  }

  lemma BranchBits(cond: bv4, link: bool, field: bv24)
    ensures var w := BranchWord(cond, link, field);
      ArmFormatOf(w) == BranchFormat && (w & 0x0100_0000 != 0 <==> link) && (w & 0x00FF_FFFF) as bv24 == field
  {
  }

  function Num24(field: bv24): (n: nat)
    ensures n < 0x100_0000
  {
    field as nat
  }

  /** From the word after the branch, R15 moves one more word and then the offset, a two's-complement number of words. */
  lemma BranchLands(core: Core, m: Memory, cond: bv4, link: bool, field: bv24, words: int, interworking: bool, base: uint32)
    requires -0x80_0000 <= words < 0x80_0000 && Num24(field) == words % 0x100_0000 && core.regs.pc % 4 == 0
    ensures var linked := if link then core.WithReg(14, core.regs.pc) else core;
      ArmExecuted(core, m, BranchWord(cond, link, field), interworking, base) ==
        (linked.WithPc((core.regs.pc + 4 + 4 * words) % 0x1_0000_0000), m, 3)
  {
    hide BranchWord, ArmFormatOf, BranchOffset, Num24, Branched;
    BranchBits(cond, link, field);
    BranchDistance(BranchWord(cond, link, field), field);
    TwosComplement(Num24(field), words, 0x80_0000);
    BranchTaken(core, BranchWord(cond, link, field), link, words);
  }

  lemma BranchTaken(core: Core, w: bv32, link: bool, words: int)
    requires BranchOffset(w) == 4 * words && (w & 0x0100_0000 != 0 <==> link) && core.regs.pc % 4 == 0
    ensures var linked := if link then core.WithReg(14, core.regs.pc) else core;
      Branched(core, w) == linked.WithPc((core.regs.pc + 4 + 4 * words) % 0x1_0000_0000)
  {
    hide BranchOffset, Core.WithReg, Align, Wrap;
    WordAligned(core.regs.pc, words);
  }

  lemma BranchDistance(w: bv32, field: bv24)
    requires (w & 0x00FF_FFFF) as bv24 == field
    ensures BranchOffset(w) == 4 * if Num24(field) >= 0x80_0000 then Num24(field) - 0x100_0000 else Num24(field)
  {
  }

  /** A field read as a signed number. */
  lemma TwosComplement(n: nat, x: int, half: nat)
    requires 0 - half <= x < half && n == x % (2 * half)
    ensures (if n >= half then n - 2 * half else n) == x
  {
    if x < 0 {
      DivUnique(x, 2 * half, -1, x + 2 * half);
    } else {
      DivUnique(x, 2 * half, 0, x);
    }
  }

  lemma WordAligned(pc: uint32, words: int)
    requires pc % 4 == 0
    ensures Align(Wrap(Wrap(pc + PC_AHEAD) + 4 * words), false) == (pc + 4 + 4 * words) % 0x1_0000_0000
  {
    ModEarly(pc + 4, 4 * words, TWO32);
    MultipleStays(pc / 4 + 1 + words, 4, 0x4000_0000);
    assert pc + 4 + 4 * words == 4 * (pc / 4 + 1 + words);
  }

  /** A multiple of `k` is one still after reducing modulo a multiple of `k`. */
  lemma MultipleStays(u: int, k: nat, n: nat)
    requires k > 0 && n > 0
    ensures k * n > 0 && k * u % (k * n) % k == 0
  {
    MulPositive(k, n);
    var x := k * u;
    Recompose(x, k * n);
    var q, r := x / (k * n), x % (k * n);
    assert q * (k * n) == k * (n * q) by { MulAssoc(k, n, q); }
    assert r == k * (u - n * q) by { MulDistributes(k, u, 0 - n * q); assert k * (0 - n * q) == 0 - k * (n * q); }
    DivUnique(r, k, u - n * q, 0);
  }

  /** `BX Rm`. */
  lemma ExchangeLands(core: Core, m: Memory, cond: bv4, rm: bv4, interworking: bool, base: uint32)
    ensures var w: bv32, target := (cond as bv32 << 28) | 0x012F_FF10 | rm as bv32, Seen(core, Num(rm), 4);
      ArmExecuted(core, m, w, interworking, base) ==
        (core.(cpsr := core.cpsr.(t := target % 2 == 1)).WithPc(if target % 2 == 1 then target - 1 else target - target % 4), m, 3)
  {
    hide ArmFormatOf, Field, Num, Core.Reg, Core.RegPc, Seen;
    ExchangeBits(cond, rm);
    FieldIs((cond as bv32 << 28) | 0x012F_FF10 | rm as bv32, 0, rm);
    SeenIsRead(core, Num(rm), 4);
  }

  lemma ExchangeBits(cond: bv4, rm: bv4)
    ensures var w: bv32 := (cond as bv32 << 28) | 0x012F_FF10 | rm as bv32;
      ArmFormatOf(w) == ExchangeFormat && ((w >> 0) & 0xF) as bv4 == rm
  {
  }

  // ---------------------------------------------------------------------------
  // Status
  // ---------------------------------------------------------------------------

  /** What an `MSR` writes is its operand: a rotated immediate, or a register as it is. */
  lemma MsrOperand(core: Core, w: bv32, imm: bv8, rotate: bv4, rm: bv4)
    ensures w & 0x0200_0FFF == OperandBits(Immediate(imm, rotate)) ==>
      MsrValue(core, w) == Repeat(3, 2 * Num(rotate), imm as nat, core.cpsr.c).0
    ensures w & 0x0200_0FFF == OperandBits(ByAmount(rm, 0, 0)) ==> MsrValue(core, w) == core.Reg(Num(rm))
  {
    hide OperandBits, MsrValue, Repeat, Num, Core.Reg;
    if w & 0x0200_0FFF == OperandBits(Immediate(imm, rotate)) {
      MsrImmediate(core, w, imm, rotate);
    }
    if w & 0x0200_0FFF == OperandBits(ByAmount(rm, 0, 0)) {
      MsrRegister(core, w, rm);
    }
  }

  lemma MsrImmediate(core: Core, w: bv32, imm: bv8, rotate: bv4)
    requires w & 0x0200_0FFF == OperandBits(Immediate(imm, rotate))
    ensures MsrValue(core, w) == Repeat(3, 2 * Num(rotate), imm as nat, core.cpsr.c).0
  {
    hide Field, Imm8, Repeat, RotateRight, Num, OperandBits;
    ImmediateFields(w, imm, rotate);
    MsrRotated(core, w, imm as nat, Num(rotate));
  }

  lemma MsrRotated(core: Core, w: bv32, imm: uint32, rotate: nat)
    requires w & 0x0200_0000 != 0 && Field(w, 8) == rotate && Imm8(w) == imm && rotate < 16
    ensures MsrValue(core, w) == Repeat(3, 2 * rotate, imm, core.cpsr.c).0
  {
    hide Field, Imm8, Repeat, RotateRight;
    RotatedIsRepeated(imm, 2 * rotate, core.cpsr.c);
    RotateWhole(imm);
  }

  lemma ImmediateFields(w: bv32, imm: bv8, rotate: bv4)
    requires w & 0x0200_0FFF == OperandBits(Immediate(imm, rotate))
    ensures w & 0x0200_0000 != 0 && Field(w, 8) == Num(rotate) && Imm8(w) == imm as nat
  {
    hide Field, Imm8, Num;
    ImmediateNibbles(w, imm, rotate);
    FieldIs(w, 8, rotate);
    ImmediateByte(w, imm);
  }

  lemma ImmediateNibbles(w: bv32, imm: bv8, rotate: bv4)
    requires w & 0x0200_0FFF == OperandBits(Immediate(imm, rotate))
    ensures w & 0x0200_0000 != 0 && ((w >> 8) & 0xF) as bv4 == rotate && (w & 0xFF) as bv8 == imm
  {
  }

  lemma MsrRegister(core: Core, w: bv32, rm: bv4)
    requires w & 0x0200_0FFF == OperandBits(ByAmount(rm, 0, 0))
    ensures MsrValue(core, w) == core.Reg(Num(rm))
  {
    RegisterNibble(w, rm);
    hide OperandBits, Field, Num, Core.Reg;
    FieldIs(w, 0, rm);
  }

  lemma RegisterNibble(w: bv32, rm: bv4)
    requires w & 0x0200_0FFF == OperandBits(ByAmount(rm, 0, 0))
    ensures w & 0x0200_0000 == 0 && ((w >> 0) & 0xF) as bv4 == rm
  {
  }

  lemma ImmediateByte(w: bv32, imm: bv8)
    requires (w & 0xFF) as bv8 == imm
    ensures Imm8(w) == imm as nat
  {
  }

  /** The three parts of a status word. */
  function FlagsOf(x: uint32): nat { x / 0x1000_0000 }
  function MiddleOf(x: uint32): nat { x / 0x100 % 0x10_0000 }
  function ControlOf(x: uint32): nat { x % 0x100 }

  lemma StatusParts(p: Psr)
    ensures FlagsOf(p.Bits()) == Nibble(p.n, p.z, p.c, p.v)
    ensures MiddleOf(p.Bits()) == p.rest
    ensures ControlOf(p.Bits()) == Nibble(p.i, p.f, p.t, false) * 0x10 + p.modeBits
  {
    var top, byte := Nibble(p.n, p.z, p.c, p.v), Nibble(p.i, p.f, p.t, false) * 0x10 + p.modeBits;
    DivUniqueLeft(p.Bits(), top, 0x1000_0000, p.rest * 0x100 + byte);
    DivUniqueLeft(p.Bits(), top * 0x10_0000 + p.rest, 0x100, byte);
    DivUniqueLeft(top * 0x10_0000 + p.rest, top, 0x10_0000, p.rest);
  }

  /** The flags are the top four bits of the status word and the control field its low byte; the rest never changes. */
  lemma MergeInNumbers(p: Psr, value: uint32, flags: bool, control: bool)
    ensures var q, before := p.Merge(value, flags, control).Bits(), p.Bits();
      FlagsOf(q) == FlagsOf(if flags then value else before) && MiddleOf(q) == MiddleOf(before) &&
      ControlOf(q) == ControlOf(if control then value else before)
  {
    var w := FromBits(value);
    StatusParts(p);
    assert w.Bits() == value by { PsrRoundTrip(p, value); }
    StatusParts(w);
    MergedParts(p, w, value, flags, control);
    hide *;
  }

  lemma MergedParts(p: Psr, w: Psr, value: uint32, flags: bool, control: bool)
    requires w == FromBits(value)
    ensures var q := p.Merge(value, flags, control);
      FlagsOf(q.Bits()) == FlagsOf((if flags then w else p).Bits()) && MiddleOf(q.Bits()) == MiddleOf(p.Bits()) &&
      ControlOf(q.Bits()) == ControlOf((if control then w else p).Bits())
  {
    var q := p.Merge(value, flags, control);
    var top, low := if flags then w else p, if control then w else p;
    assert q == Psr(top.n, top.z, top.c, top.v, p.rest, low.i, low.f, low.t, low.modeBits);
    StatusParts(q);
    StatusParts(top);
    StatusParts(low);
    StatusParts(p);
    hide *;
  }

  // ---------------------------------------------------------------------------
  // THUMB, where there is no ARM form
  // ---------------------------------------------------------------------------

  /** Where R15 plus four times `imm` points, R15 being 2 past the next instruction with its low bits cleared. */
  function PcPlus(core: Core, imm: nat): uint32 {
    var from := (core.regs.pc + 2) % 0x1_0000_0000;
    (from - from % 4 + 4 * imm) % 0x1_0000_0000
  }

  /** `LDR Rd, [PC, #4 * imm]`. */
  lemma PcRelativeLoads(core: Core, m: Memory, rd: bv3, imm: bv8, interworking: bool, base: uint32)
    ensures ThumbExecuted(core, m, 0x4800 | (rd as bv16 << 8) | imm as bv16, interworking, base) ==
      (core.WithReg(rd as nat, Word(m, PcPlus(core, imm as nat))), m, 3)
  {
    hide Core.WithReg, Word, ThumbFormatOf, Low, ThumbImm8, PcPlus, PcRelativeLoad;
    var instr: bv16 := 0x4800 | (rd as bv16 << 8) | imm as bv16;
    PcRelativeFormats(rd, imm);
    PcRelativeLow(instr, rd, imm);
    PcRelativeDone(core, m, instr, rd as nat, imm as nat);
  }

  /** `ADD Rd, PC, #4 * imm`. */
  lemma PcRelativeAdds(core: Core, m: Memory, rd: bv3, imm: bv8, interworking: bool, base: uint32)
    ensures ThumbExecuted(core, m, 0xA000 | (rd as bv16 << 8) | imm as bv16, interworking, base) ==
      (core.WithReg(rd as nat, PcPlus(core, imm as nat)), m, 1)
  {
    hide Core.WithReg, Word, ThumbFormatOf, Low, ThumbImm8, PcPlus, LoadAddress;
    var instr: bv16 := 0xA000 | (rd as bv16 << 8) | imm as bv16;
    PcRelativeFormats(rd, imm);
    PcRelativeLow(instr, rd, imm);
    PcRelativeDone(core, m, instr, rd as nat, imm as nat);
  }

  lemma PcRelativeDone(core: Core, m: Memory, instr: bv16, rd: nat, imm: nat)
    requires Low(instr, 8) == rd && ThumbImm8(instr) == imm
    ensures PcRelativeLoad(core, m, instr) == core.WithReg(rd, Word(m, PcPlus(core, imm)))
    ensures instr & 0x0800 == 0 ==> LoadAddress(core, instr) == core.WithReg(rd, PcPlus(core, imm))
  {
    hide Core.WithReg, Word, Low, ThumbImm8;
  }

  lemma PcRelativeLow(instr: bv16, rd: bv3, imm: bv8)
    requires ((instr >> 8) & 7) as bv3 == rd && (instr & 0xFF) as bv8 == imm
    ensures Low(instr, 8) == rd as nat && ThumbImm8(instr) == imm as nat
  {
  }

  lemma PcRelativeFormats(rd: bv3, imm: bv8)
    ensures ThumbFormatOf(0x4800 | (rd as bv16 << 8) | imm as bv16) == 6
    ensures ThumbFormatOf(0xA000 | (rd as bv16 << 8) | imm as bv16) == 12 && (0xA000 | (rd as bv16 << 8) | imm as bv16) & 0x0800 == 0
  {
  }

  function Num8(field: bv8): (n: nat)
    ensures n < 0x100
  {
    field as nat
  }

  function Num11(field: bv11): (n: nat)
    ensures n < 0x800
  {
    field as nat
  }

  /** A condition, by the table. */
  predicate Passes(core: Core, cond: bv4) {
    BitOf(CONDITIONS[Num(cond)], Nibble(core.cpsr.n, core.cpsr.z, core.cpsr.c, core.cpsr.v))
  }

  /** `Bcond` over a signed number of halfwords from 2 past the next instruction. */
  lemma ConditionalBranchLands(core: Core, m: Memory, cond: bv4, field: bv8, halfwords: int, interworking: bool, base: uint32)
    requires cond < 14 && -0x80 <= halfwords < 0x80 && Num8(field) == halfwords % 0x100 && core.regs.pc % 2 == 0
    ensures ThumbExecuted(core, m, 0xD000 | (cond as bv16 << 8) | field as bv16, interworking, base) ==
      if Passes(core, cond) then (core.WithPc((core.regs.pc + 2 + 2 * halfwords) % 0x1_0000_0000), m, 3) else (core, m, 1)
  {
    hide ThumbFormatOf, ThumbBits4, SignedImm8, Num, Num8, Passes, ConditionalBranch;
    var instr := 0xD000 | (cond as bv16 << 8) | field as bv16;
    ConditionalBits(cond, field);
    ConditionalFields(instr, cond, field);
    Shown8(instr, field, halfwords);
    ConditionTable(core.cpsr, Num(cond));
    ConditionalTaken(core, instr, cond, halfwords);
  }

  lemma ConditionalTaken(core: Core, instr: bv16, cond: bv4, halfwords: int)
    requires ThumbBits4(instr, 8) == Num(cond) && SignedImm8(instr) == halfwords && core.regs.pc % 2 == 0 && -0x80 <= halfwords < 0x80
    ensures ConditionalBranch(core, instr) ==
      if Passes(core, cond) then (core.WithPc((core.regs.pc + 2 + 2 * halfwords) % 0x1_0000_0000), 3) else (core, 1)
  {
    hide ThumbBits4, SignedImm8, Num, BitOf, Nibble, Align, Wrap;
    ConditionTable(core.cpsr, Num(cond));
    HalfwordAligned(core.regs.pc, halfwords);
  }

  lemma HalfwordAligned(pc: uint32, halfwords: int)
    requires pc % 2 == 0
    ensures Align(Wrap(pc + THUMB_AHEAD + 2 * halfwords), true) == (pc + 2 + 2 * halfwords) % 0x1_0000_0000
  {
    MultipleStays(pc / 2 + 1 + halfwords, 2, 0x8000_0000);
    assert pc + 2 + 2 * halfwords == 2 * (pc / 2 + 1 + halfwords);
  }

  lemma ConditionalBits(cond: bv4, field: bv8)
    requires cond < 14
    ensures var instr: bv16 := 0xD000 | (cond as bv16 << 8) | field as bv16;
      ThumbFormatOf(instr) == 16 && ((instr >> 8) & 0xF) as bv4 == cond && (instr & 0xFF) as bv8 == field
  {
  }

  lemma ConditionalFields(instr: bv16, cond: bv4, field: bv8)
    requires ((instr >> 8) & 0xF) as bv4 == cond
    ensures ThumbBits4(instr, 8) == Num(cond)
  {
  }

  lemma Shown8(instr: bv16, field: bv8, halfwords: int)
    requires (instr & 0xFF) as bv8 == field && -0x80 <= halfwords < 0x80 && Num8(field) == halfwords % 0x100
    ensures SignedImm8(instr) == halfwords
  {
    hide ThumbImm8, Num8;
    Imm8Is(instr, field);
    TwosComplement(Num8(field), halfwords, 0x80);
  }

  lemma Imm8Is(instr: bv16, field: bv8)
    requires (instr & 0xFF) as bv8 == field
    ensures ThumbImm8(instr) == Num8(field)
  {
  }

  lemma Imm11Is(instr: bv16, field: bv11)
    requires (instr & 0x7FF) as bv11 == field
    ensures ThumbImm11(instr) == Num11(field)
  {
  }

  lemma Shown11(instr: bv16, field: bv11, halfwords: int)
    requires (instr & 0x7FF) as bv11 == field && -0x400 <= halfwords < 0x400 && Num11(field) == halfwords % 0x800
    ensures SignedImm11(instr) == halfwords
  {
    hide ThumbImm11, Num11;
    Imm11Is(instr, field);
    TwosComplement(Num11(field), halfwords, 0x400);
  }

  lemma BranchShapes(field: bv11)
    ensures ThumbFormatOf(0xE000 | field as bv16) == 18 && ((0xE000 | field as bv16) & 0x7FF) as bv11 == field
    ensures ThumbFormatOf(0xF000 | field as bv16) == 19 && ((0xF000 | field as bv16) & 0x7FF) as bv11 == field
    ensures ThumbFormatOf(0xF800 | field as bv16) == 19 && ((0xF800 | field as bv16) & 0x7FF) as bv11 == field
    ensures (0xF000 | field as bv16) & 0x0800 == 0 && (0xF800 | field as bv16) & 0x0800 != 0
  {
  }

  /** `B`. */
  lemma ThumbBranchLands(core: Core, m: Memory, field: bv11, halfwords: int, interworking: bool, base: uint32)
    requires -0x400 <= halfwords < 0x400 && Num11(field) == halfwords % 0x800 && core.regs.pc % 2 == 0
    ensures ThumbExecuted(core, m, 0xE000 | field as bv16, interworking, base) ==
      (core.WithPc((core.regs.pc + 2 + 2 * halfwords) % 0x1_0000_0000), m, 3)
  {
    hide ThumbFormatOf, SignedImm11, Num11, Align, Wrap;
    BranchShapes(field);
    Shown11(0xE000 | field as bv16, field, halfwords);
    HalfwordAligned(core.regs.pc, halfwords);
  }

  /**
   * The two halves of `BL`, the second at the next address: together they move R15 a signed number of halfwords,
   * up to four megabytes either way, from 4 past the first half, and leave in R14 the address after the second with bit 0 set.
   */
  lemma LongBranchLands(core: Core, m: Memory, high: bv11, low: bv11, halfwords: int, interworking: bool, base: uint32)
    requires -0x20_0000 <= halfwords < 0x20_0000 && core.regs.pc % 2 == 0
    requires Num11(high) == halfwords / 0x800 % 0x800 && Num11(low) == halfwords % 0x800
    ensures var first := ThumbExecuted(core, m, 0xF000 | high as bv16, interworking, base).0;
      var second := first.WithPc((core.regs.pc + 2) % 0x1_0000_0000);
      var after := ThumbExecuted(second, m, 0xF800 | low as bv16, interworking, base).0;
      after == core.WithPc((core.regs.pc + 2 + 2 * halfwords) % 0x1_0000_0000).WithReg(14, (core.regs.pc + 2) % 0x1_0000_0000 + 1)
  {
    hide ThumbExecuted, Num11, Core.WithReg;
    var link := (core.regs.pc + 2 + 0x1000 * (halfwords / 0x800)) % 0x1_0000_0000;
    LongDistance(core.regs.pc, halfwords);
    FirstHalf(core, m, high, halfwords / 0x800, interworking, base);
    SecondHalf(core, (core.regs.pc + 2) % 0x1_0000_0000, m, low, link, interworking, base);
  }

  lemma FirstHalf(core: Core, m: Memory, high: bv11, distance: int, interworking: bool, base: uint32)
    requires -0x400 <= distance < 0x400 && Num11(high) == distance % 0x800
    ensures ThumbExecuted(core, m, 0xF000 | high as bv16, interworking, base).0 ==
      core.WithReg(14, (core.regs.pc + 2 + 0x1000 * distance) % 0x1_0000_0000)
  {
    hide ThumbFormatOf, SignedImm11, Num11, LongBranch;
    BranchShapes(high);
    Shown11(0xF000 | high as bv16, high, distance);
    LongHigh(core, 0xF000 | high as bv16, distance);
  }

  lemma SecondHalf(core: Core, pc: uint32, m: Memory, low: bv11, link: uint32, interworking: bool, base: uint32)
    requires pc % 2 == 0 && link % 2 == 0
    ensures ThumbExecuted(core.WithReg(14, link).WithPc(pc), m, 0xF800 | low as bv16, interworking, base).0 ==
      core.WithPc((link + 2 * Num11(low)) % 0x1_0000_0000).WithReg(14, pc + 1)
  {
    hide ThumbFormatOf, ThumbImm11, Num11, LongBranch;
    BranchShapes(low);
    Imm11Is(0xF800 | low as bv16, low);
    LongLow(core, pc, 0xF800 | low as bv16, link, Num11(low));
  }

  lemma LongHigh(core: Core, instr: bv16, high: int)
    requires instr & 0x0800 == 0 && SignedImm11(instr) == high
    ensures LongBranch(core, instr) == (core.WithReg(14, (core.regs.pc + 2 + 0x1000 * high) % 0x1_0000_0000), 1)
  {
    hide SignedImm11, Core.WithReg;
  }

  lemma LongLow(core: Core, pc: uint32, instr: bv16, link: uint32, low: nat)
    requires instr & 0x0800 != 0 && ThumbImm11(instr) == low && pc % 2 == 0 && link % 2 == 0
    ensures LongBranch(core.WithReg(14, link).WithPc(pc), instr) == (core.WithPc((link + 2 * low) % 0x1_0000_0000).WithReg(14, pc + 1), 3)
  {
    hide ThumbImm11, Align, Wrap;
    LongAligned(link, low);
    LinkTwice(core, link, pc, (link + 2 * low) % 0x1_0000_0000);
  }

  /** The second half reads the link register that the first wrote, and overwrites it. */
  lemma LinkTwice(core: Core, link: uint32, pc: uint32, target: uint32)
    requires pc % 2 == 0
    ensures core.WithReg(14, link).WithPc(pc).Reg(14) == link && OddAddress(pc) == pc + 1
    ensures core.WithReg(14, link).WithPc(pc).WithPc(target).WithReg(14, pc + 1) == core.WithPc(target).WithReg(14, pc + 1)
  {
    var b := Bank(core.cpsr.CurrentMode());
    assert core.regs.lr[b := link][b := pc + 1] == core.regs.lr[b := pc + 1];
  }

  lemma LongAligned(link: uint32, low: nat)
    requires link % 2 == 0
    ensures Align(Wrap(link + 2 * low), true) == (link + 2 * low) % 0x1_0000_0000
  {
  }

  lemma LongDistance(pc: uint32, halfwords: int)
    requires pc % 2 == 0
    ensures var link := (pc + 2 + 0x1000 * (halfwords / 0x800)) % 0x1_0000_0000;
      link % 2 == 0 && (link + 2 * (halfwords % 0x800)) % 0x1_0000_0000 == (pc + 2 + 2 * halfwords) % 0x1_0000_0000
  {
    var high, low := halfwords / 0x800, halfwords % 0x800;
    Recompose(halfwords, 0x800);
    MultipleStays(pc / 2 + 1 + 0x800 * high, 2, 0x8000_0000);
    assert pc + 2 + 0x1000 * high == 2 * (pc / 2 + 1 + 0x800 * high);
    ModEarly(pc + 2 + 0x1000 * high, 2 * low, TWO32);
  }
}
