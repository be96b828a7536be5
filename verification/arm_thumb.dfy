/** THUMB fields, and the ARM data-processing instructions that formats 1 to 4 stand for. */
module ArmThumb {
  import opened Words
  import opened ArmShift
  import opened ArmPsr
  import opened ArmCore

  const THUMB_AHEAD: nat := 2

  function Low(instr: bv16, at: bv16): (index: nat)
    requires at <= 13
    ensures index < 8
  {
    (((instr >> at) & 7) as bv3) as nat
  }

  function ThumbBits2(instr: bv16, at: bv16): (value: nat)
    requires at <= 14
    ensures value < 4
  {
    (((instr >> at) & 3) as bv2) as nat
  }

  function ThumbBits4(instr: bv16, at: bv16): (value: nat)
    requires at <= 12
    ensures value < 16
  {
    (((instr >> at) & 0xF) as bv4) as nat
  }

  function ThumbImm5(instr: bv16): (value: nat)
    ensures value < 32
  {
    (((instr >> 6) & 0x1F) as bv5) as nat
  }

  function ThumbImm8(instr: bv16): (value: nat)
    ensures value < 0x100
  {
    ((instr & 0xFF) as bv8) as nat
  }

  function ThumbImm11(instr: bv16): (value: nat)
    ensures value < 0x800
  {
    ((instr & 0x7FF) as bv11) as nat
  }

  function SignedImm8(instr: bv16): int {
    var imm: int := ThumbImm8(instr);
    if imm >= 0x80 then imm - 0x100 else imm
  }

  function SignedImm11(instr: bv16): int {
    var imm: int := ThumbImm11(instr);
    if imm >= 0x400 then imm - 0x800 else imm
  }

  /** A THUMB return address, with bit 0 set. */
  function OddAddress(addr: uint32): uint32 {
    addr - addr % 2 + 1
  }

  /** Format 5's registers, R0 to R15. */
  function HighRd(instr: bv16): (index: nat)
    ensures index < 16
  {
    Low(instr, 0) + if instr & 0x80 != 0 then 8 else 0
  }

  function HighRs(instr: bv16): (index: nat)
    ensures index < 16
  {
    Low(instr, 3) + if instr & 0x40 != 0 then 8 else 0
  }

  // ---------------------------------------------------------------------------
  // One data-processing step, its operands already read
  // ---------------------------------------------------------------------------

  /** Result and flags of an opcode, the result written to a register other than R15. */
  function Placed(core: Core, opcode: nat, rd: nat, a: uint32, operand2: uint32, carry: bool): Core
    requires rd < 15
  {
    var (result, flags, writes) := Alu(opcode, core.cpsr, a, operand2, carry);
    var after := core.(cpsr := flags);
    if writes then after.WithReg(rd, result) else after
  }

  lemma PlacedMove(core: Core, rd: nat, a: uint32, value: uint32, carry: bool)
    requires rd < 15
    ensures Placed(core, 0xD, rd, a, value, carry) == core.(cpsr := core.cpsr.SetNZ(value).(c := carry)).WithReg(rd, value)
  {
  }

  /** Neither an addition nor a subtraction. */
  predicate IsLogical(opcode: nat) {
    !(0x2 <= opcode <= 0x7 || opcode == 0xA || opcode == 0xB)
  }

  lemma PlacedResult(core: Core, opcode: nat, rd: nat, a: uint32, b: uint32, carry: bool, r: uint32)
    requires rd < 15 && IsLogical(opcode) && r == Logic(opcode, a, b)
    ensures var after := core.(cpsr := core.cpsr.SetNZ(r).(c := carry));
      Placed(core, opcode, rd, a, b, carry) == if opcode == 0x8 || opcode == 0x9 then after else after.WithReg(rd, r)
  {
  }

  lemma PlacedSum(core: Core, opcode: nat, rd: nat, a: uint32, b: uint32, carry: bool)
    requires rd < 15
    ensures opcode == 0x4 || opcode == 0x5 ==>
      var (r, q) := AluAdd(core.cpsr, a, b, opcode == 0x5 && core.cpsr.c);
      Placed(core, opcode, rd, a, b, carry) == core.(cpsr := q).WithReg(rd, r)
    ensures opcode == 0xB ==> Placed(core, opcode, rd, a, b, carry) == core.(cpsr := AluAdd(core.cpsr, a, b, false).1)
  {
  }

  lemma PlacedDifference(core: Core, opcode: nat, rd: nat, a: uint32, b: uint32, carry: bool)
    requires rd < 15
    ensures opcode == 0x2 || opcode == 0x6 ==>
      var (r, q) := AluSub(core.cpsr, a, b, if opcode == 0x6 then core.cpsr.c else true);
      Placed(core, opcode, rd, a, b, carry) == core.(cpsr := q).WithReg(rd, r)
    ensures opcode == 0x3 ==>
      var (r, q) := AluSub(core.cpsr, b, a, true);
      Placed(core, opcode, rd, a, b, carry) == core.(cpsr := q).WithReg(rd, r)
    ensures opcode == 0xA ==> Placed(core, opcode, rd, a, b, carry) == core.(cpsr := AluSub(core.cpsr, a, b, true).1)
  {
  }

  predicate SetsFlags(word: bv32) {
    word & 0x0010_0000 != 0
  }

  lemma DataDecoded(core: Core, word: bv32)
    requires Field(word, 12) != 15 && SetsFlags(word)
    ensures var ahead := if RegisterShift(word) then PC_AHEAD_SHIFTED else PC_AHEAD;
      var (operand2, carry) := ShifterOperand(core, word, ahead);
      DataProcessing(core, word) ==
        (Placed(core, Field(word, 21), Field(word, 12), core.RegPc(Field(word, 16), ahead), operand2, carry),
         if RegisterShift(word) then 2 else 1)
  {
  }

  /** An eight-bit immediate operand, not rotated. */
  lemma ImmediateData(core: Core, w: bv32, opcode: nat, rn: nat, rd: nat, imm: nat)
    requires SetsFlags(w) && w & 0x0200_0000 != 0 && Field(w, 8) == 0 && Imm8(w) == imm
    requires Field(w, 21) == opcode && Field(w, 16) == rn < 15 && Field(w, 12) == rd < 15
    ensures imm < 256 && DataProcessing(core, w) == (Placed(core, opcode, rd, core.Reg(rn), imm, core.cpsr.c), 1)
  {
    assert ShifterOperand(core, w, PC_AHEAD) == (imm, core.cpsr.c);
    DataDecoded(core, w);
  }

  /** A register operand, not shifted. */
  lemma RegisterData(core: Core, w: bv32, opcode: nat, rn: nat, rd: nat, rm: nat)
    requires SetsFlags(w) && w & 0x0200_0000 == 0 && w & 0x10 == 0 && Imm5(w) == 0 && ShiftKind(w) == 0
    requires Field(w, 21) == opcode && Field(w, 16) == rn < 15 && Field(w, 12) == rd < 15 && Field(w, 0) == rm < 15
    ensures DataProcessing(core, w) == (Placed(core, opcode, rd, core.Reg(rn), core.Reg(rm), core.cpsr.c), 1)
  {
    assert ShifterOperand(core, w, PC_AHEAD) == (core.Reg(rm), core.cpsr.c);
    DataDecoded(core, w);
  }

  // ---------------------------------------------------------------------------
  // Format 1: MOVS Rd, Rs, shift #amount
  // ---------------------------------------------------------------------------

  function MoveShiftedAsArm(instr: bv16): bv32 {
    0xE1B0_0000 | (((instr & 7) as bv32) << 12) | ((((instr >> 6) & 0x1F) as bv32) << 7) |
    ((((instr >> 11) & 3) as bv32) << 5) | (((instr >> 3) & 7) as bv32)
  }

  lemma MoveShiftedDecodes(instr: bv16)
    ensures var w := MoveShiftedAsArm(instr);
      SetsFlags(w) && w & 0x0200_0000 == 0 && w & 0x10 == 0 && Field(w, 21) == 0xD && Field(w, 12) == Low(instr, 0) &&
      Field(w, 0) == Low(instr, 3) && Imm5(w) == ThumbImm5(instr) && ShiftKind(w) == ThumbBits2(instr, 11)
  {
  }

  lemma MoveShiftedIsArm(core: Core, instr: bv16)
    ensures var (operand2, carry) := Shift(ThumbBits2(instr, 11), ThumbImm5(instr), core.Reg(Low(instr, 3)), core.cpsr.c, true);
      DataProcessing(core, MoveShiftedAsArm(instr)) == (Placed(core, 0xD, Low(instr, 0), 0, operand2, carry), 1)
  {
    MoveShiftedDecodes(instr);
    DataDecoded(core, MoveShiftedAsArm(instr));
  }

  // ---------------------------------------------------------------------------
  // Format 2: ADDS and SUBS Rd, Rs, Rn or #imm3
  // ---------------------------------------------------------------------------

  function AddSubtractAsArm(instr: bv16): bv32 {
    (if instr & 0x0200 != 0 then 0xE050_0000 else 0xE090_0000) | (if instr & 0x0400 != 0 then 0x0200_0000 else 0) |
    ((((instr >> 3) & 7) as bv32) << 16) | (((instr & 7) as bv32) << 12) | (((instr >> 6) & 7) as bv32)
  }

  lemma AddSubtractDecodes(instr: bv16)
    ensures var w := AddSubtractAsArm(instr);
      SetsFlags(w) && (w & 0x0200_0000 != 0 <==> instr & 0x0400 != 0) && w & 0x10 == 0 &&
      Field(w, 21) == (if instr & 0x0200 != 0 then 0x2 else 0x4) && Field(w, 12) == Low(instr, 0) && Field(w, 16) == Low(instr, 3) &&
      Field(w, 8) == 0 && Field(w, 0) == Low(instr, 6) && Imm8(w) == Low(instr, 6) && Imm5(w) == 0 && ShiftKind(w) == 0
  {
  }

  lemma AddSubtractIsArm(core: Core, instr: bv16)
    ensures var b := if instr & 0x0400 != 0 then Low(instr, 6) else core.Reg(Low(instr, 6));
      DataProcessing(core, AddSubtractAsArm(instr)) ==
        (Placed(core, if instr & 0x0200 != 0 then 0x2 else 0x4, Low(instr, 0), core.Reg(Low(instr, 3)), b, core.cpsr.c), 1)
  {
    var opcode := if instr & 0x0200 != 0 then 0x2 else 0x4;
    AddSubtractDecodes(instr);
    if instr & 0x0400 != 0 {
      ImmediateData(core, AddSubtractAsArm(instr), opcode, Low(instr, 3), Low(instr, 0), Low(instr, 6));
    } else {
      RegisterData(core, AddSubtractAsArm(instr), opcode, Low(instr, 3), Low(instr, 0), Low(instr, 6));
    }
  }

  // ---------------------------------------------------------------------------
  // Format 3: MOVS, CMP, ADDS and SUBS Rd, #imm8
  // ---------------------------------------------------------------------------

  function ImmediateOpcode(op: nat): nat {
    if op == 0 then 0xD else if op == 1 then 0xA else if op == 2 then 0x4 else 0x2
  }

  function ImmediateAsArm(instr: bv16): bv32 {
    (if (instr >> 11) & 3 == 0 then 0xE3B0_0000 else if (instr >> 11) & 3 == 1 then 0xE350_0000
     else if (instr >> 11) & 3 == 2 then 0xE290_0000 else 0xE250_0000) |
    ((((instr >> 8) & 7) as bv32) << 16) | ((((instr >> 8) & 7) as bv32) << 12) | ((instr & 0xFF) as bv32)
  }

  lemma ImmediateDecodes(instr: bv16)
    ensures var w := ImmediateAsArm(instr);
      SetsFlags(w) && w & 0x0200_0000 != 0 && Field(w, 21) == ImmediateOpcode(ThumbBits2(instr, 11)) &&
      Field(w, 12) == Low(instr, 8) && Field(w, 16) == Low(instr, 8) && Field(w, 8) == 0 && Imm8(w) == ThumbImm8(instr)
  {
  }

  lemma ImmediateIsArm(core: Core, instr: bv16)
    ensures DataProcessing(core, ImmediateAsArm(instr)) ==
      (Placed(core, ImmediateOpcode(ThumbBits2(instr, 11)), Low(instr, 8), core.Reg(Low(instr, 8)), ThumbImm8(instr), core.cpsr.c), 1)
  {
    ImmediateDecodes(instr);
    ImmediateData(core, ImmediateAsArm(instr), ImmediateOpcode(ThumbBits2(instr, 11)), Low(instr, 8), Low(instr, 8), ThumbImm8(instr));
  }

  // ---------------------------------------------------------------------------
  // Format 4: the register ALU
  // ---------------------------------------------------------------------------

  predicate IsShift(op: nat) {
    op == 0x2 || op == 0x3 || op == 0x4 || op == 0x7
  }

  /** LSL, LSR, ASR and ROR, as the shifter numbers them. */
  function ShiftOf(op: nat): nat {
    if op == 0x7 then 3 else if op == 0x3 then 1 else if op == 0x4 then 2 else 0
  }

  /** The opcode an ALU instruction stands for; shifts are moves, and NEG subtracts from zero. */
  function AluOpcode(op: nat): nat {
    if IsShift(op) then 0xD else if op == 0x9 then 0x3 else op
  }

  /** Rn of the ARM form is Rd but for NEG; a comparison's destination field is R0. */
  function AluAsArm(instr: bv16): bv32 {
    var op, rd, rs := (instr >> 6) & 0xF, (instr & 7) as bv32, ((instr >> 3) & 7) as bv32;
    if op == 0x2 then 0xE1B0_0010 | (rd << 12) | (rs << 8) | rd
    else if op == 0x3 then 0xE1B0_0030 | (rd << 12) | (rs << 8) | rd
    else if op == 0x4 then 0xE1B0_0050 | (rd << 12) | (rs << 8) | rd
    else if op == 0x7 then 0xE1B0_0070 | (rd << 12) | (rs << 8) | rd
    else if op == 0x9 then 0xE270_0000 | (rs << 16) | (rd << 12)
    else if op == 0x8 then 0xE110_0000 | (rd << 16) | rs
    else if op == 0xA then 0xE150_0000 | (rd << 16) | rs
    else if op == 0xB then 0xE170_0000 | (rd << 16) | rs
    else if op == 0x0 then 0xE010_0000 | (rd << 16) | (rd << 12) | rs
    else if op == 0x1 then 0xE030_0000 | (rd << 16) | (rd << 12) | rs
    else if op == 0x5 then 0xE0B0_0000 | (rd << 16) | (rd << 12) | rs
    else if op == 0x6 then 0xE0D0_0000 | (rd << 16) | (rd << 12) | rs
    else if op == 0xC then 0xE190_0000 | (rd << 16) | (rd << 12) | rs
    else if op == 0xE then 0xE1D0_0000 | (rd << 16) | (rd << 12) | rs
    else 0xE1F0_0000 | (rd << 16) | (rd << 12) | rs
  }

  lemma AluShiftDecodes(instr: bv16)
    requires IsShift(ThumbBits4(instr, 6))
    ensures var w := AluAsArm(instr);
      SetsFlags(w) && w & 0x0200_0000 == 0 && w & 0x10 != 0 && Field(w, 21) == 0xD && Field(w, 12) == Low(instr, 0) &&
      Field(w, 0) == Low(instr, 0) && Field(w, 8) == Low(instr, 3) && ShiftKind(w) == ShiftOf(ThumbBits4(instr, 6))
  {
  }

  lemma AluPlainDecodes(instr: bv16)
    requires !IsShift(ThumbBits4(instr, 6)) && ThumbBits4(instr, 6) != 0x9 && ThumbBits4(instr, 6) != 0xD
    ensures var w, op := AluAsArm(instr), ThumbBits4(instr, 6);
      SetsFlags(w) && w & 0x0200_0000 == 0 && w & 0x10 == 0 && Field(w, 21) == op && Imm5(w) == 0 && ShiftKind(w) == 0
  {
  }

  lemma AluPlainRegisters(instr: bv16)
    requires !IsShift(ThumbBits4(instr, 6)) && ThumbBits4(instr, 6) != 0x9 && ThumbBits4(instr, 6) != 0xD
    ensures var w, op := AluAsArm(instr), ThumbBits4(instr, 6);
      Field(w, 16) == Low(instr, 0) && Field(w, 0) == Low(instr, 3) &&
      Field(w, 12) == if op == 0x8 || op == 0xA || op == 0xB then 0 else Low(instr, 0)
  {
  }

  lemma AluNegDecodes(instr: bv16)
    requires ThumbBits4(instr, 6) == 0x9
    ensures var w := AluAsArm(instr);
      SetsFlags(w) && w & 0x0200_0000 != 0 && Field(w, 21) == 0x3 && Field(w, 16) == Low(instr, 3) && Field(w, 12) == Low(instr, 0) &&
      Field(w, 8) == 0 && Imm8(w) == 0
  {
  }

  /** The operands the ARM form reads. */
  function AluOperands(core: Core, instr: bv16): (uint32, uint32, bool) {
    var op, a, b := ThumbBits4(instr, 6), core.Reg(Low(instr, 0)), core.Reg(Low(instr, 3));
    if IsShift(op) then
      var (r, c) := Shift(ShiftOf(op), b % 0x100, a, core.cpsr.c, false);
      (a, r, c)
    else if op == 0x9 then (b, 0, core.cpsr.c)
    else (a, b, core.cpsr.c)
  }

  /** Moves do not look at their first operand. */
  lemma MoveIgnoresFirst(core: Core, rd: nat, a: uint32, a': uint32, operand2: uint32, carry: bool)
    requires rd < 15
    ensures Placed(core, 0xD, rd, a, operand2, carry) == Placed(core, 0xD, rd, a', operand2, carry)
  {
  }

  /** Comparisons do not write their destination. */
  lemma ComparisonWritesNothing(core: Core, opcode: nat, rd: nat, rd': nat, a: uint32, operand2: uint32, carry: bool)
    requires rd < 15 && rd' < 15 && (opcode == 0x8 || opcode == 0xA || opcode == 0xB)
    ensures Placed(core, opcode, rd, a, operand2, carry) == Placed(core, opcode, rd', a, operand2, carry)
  {
  }

  /** Every ALU instruction but MUL is an ARM data-processing instruction, down to its cycles. */
  lemma AluIsArm(core: Core, instr: bv16)
    requires ThumbBits4(instr, 6) != 0xD
    ensures var op, (a, operand2, carry) := ThumbBits4(instr, 6), AluOperands(core, instr);
      DataProcessing(core, AluAsArm(instr)) ==
        (Placed(core, AluOpcode(op), Low(instr, 0), a, operand2, carry), if IsShift(op) then 2 else 1)
  {
    var op := ThumbBits4(instr, 6);
    if IsShift(op) {
      AluShiftIsArm(core, instr);
    } else if op == 0x9 {
      AluNegDecodes(instr);
      ImmediateData(core, AluAsArm(instr), 0x3, Low(instr, 3), Low(instr, 0), 0);
    } else {
      AluPlainIsArm(core, instr);
    }
  }

  lemma AluShiftIsArm(core: Core, instr: bv16)
    requires IsShift(ThumbBits4(instr, 6))
    ensures var (a, operand2, carry) := AluOperands(core, instr);
      DataProcessing(core, AluAsArm(instr)) == (Placed(core, 0xD, Low(instr, 0), a, operand2, carry), 2)
  {
    AluShiftDecodes(instr);
    ShiftedData(core, AluAsArm(instr), Low(instr, 0), Low(instr, 3), ShiftOf(ThumbBits4(instr, 6)));
  }

  /** A move of a register shifted by another. */
  lemma ShiftedData(core: Core, w: bv32, rd: nat, rs: nat, kind: nat)
    requires SetsFlags(w) && w & 0x0200_0000 == 0 && w & 0x10 != 0 && ShiftKind(w) == kind && Field(w, 21) == 0xD
    requires Field(w, 12) == Field(w, 0) == rd < 15 && Field(w, 8) == rs < 15
    ensures var (r, c) := Shift(kind, core.Reg(rs) % 0x100, core.Reg(rd), core.cpsr.c, false);
      DataProcessing(core, w) == (Placed(core, 0xD, rd, core.Reg(rd), r, c), 2)
  {
    var (r, c) := ShifterOperand(core, w, PC_AHEAD_SHIFTED);
    DataDecoded(core, w);
    MoveIgnoresFirst(core, rd, core.RegPc(Field(w, 16), PC_AHEAD_SHIFTED), core.Reg(rd), r, c);
  }

  lemma AluPlainIsArm(core: Core, instr: bv16)
    requires !IsShift(ThumbBits4(instr, 6)) && ThumbBits4(instr, 6) != 0x9 && ThumbBits4(instr, 6) != 0xD
    ensures DataProcessing(core, AluAsArm(instr)) ==
      (Placed(core, ThumbBits4(instr, 6), Low(instr, 0), core.Reg(Low(instr, 0)), core.Reg(Low(instr, 3)), core.cpsr.c), 1)
  {
    var op, rd, rs := ThumbBits4(instr, 6), Low(instr, 0), Low(instr, 3);
    AluPlainDecodes(instr);
    AluPlainRegisters(instr);
    if op == 0x8 || op == 0xA || op == 0xB {
      RegisterData(core, AluAsArm(instr), op, rd, 0, rs);
      ComparisonWritesNothing(core, op, 0, rd, core.Reg(rd), core.Reg(rs), core.cpsr.c);
    } else {
      RegisterData(core, AluAsArm(instr), op, rd, rd, rs);
    }
  }
}
