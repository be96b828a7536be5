/** Single loads and stores, and the THUMB formats that are the same transfers. */
module ArmTransfer {
  import opened Words
  import opened Arith
  import opened ArmShift
  import opened ArmPsr
  import opened ArmRegisters
  import opened ArmMemory
  import opened ArmCore
  import opened ArmThumb

  function SignExtend8(b: uint8): uint32 { if b >= 0x80 then 0xFFFF_FF00 + b else b }
  function SignExtend16(h: uint16): uint32 { if h >= 0x8000 then 0xFFFF_0000 + h else h }

  /** The addressed byte comes down to the low lane. */
  function RotateLoadedWord(word: uint32, addr: uint32): uint32 {
    RotateRight(word, addr % 4 * 8)
  }

  function LoadedData(m: Memory, byte: bool, addr: uint32): uint32 {
    if byte then ByteAt(m, addr) else RotateLoadedWord(Word(m, addr), addr)
  }

  function StoredData(m: Memory, byte: bool, addr: uint32, value: uint32): Memory {
    if byte then WithByte(m, addr, value % 0x100) else m[addr / 4 := value]
  }

  /** Unsigned halfword (1), signed byte (2) or signed halfword (3), with this core's rules for odd addresses. */
  function LoadedHalf(m: Memory, kind: nat, addr: uint32): uint32 {
    if kind == 1 then if addr % 2 == 1 then RotateRight(HalfAt(m, addr), 8) else HalfAt(m, addr)
    else if kind == 2 || addr % 2 == 1 then SignExtend8(ByteAt(m, addr))
    else SignExtend16(HalfAt(m, addr))
  }

  // ---------------------------------------------------------------------------
  // The instructions
  // ---------------------------------------------------------------------------

  datatype Width = ByteData | WordData | HalfData(kind: nat)

  /** The operands of a single transfer, the offset already worked out. */
  datatype TransferOp = TransferOp(pre: bool, up: bool, writeback: bool, load: bool, width: Width, rn: nat, rd: nat, offset: nat)

  function SingleOffset(core: Core, instr: bv32): nat {
    if instr & 0x0200_0000 != 0 then Shift(ShiftKind(instr), Imm5(instr), core.Reg(Field(instr, 0)), core.cpsr.c, true).0
    else ((instr & 0xFFF) as bv12) as nat
  }

  function DecodeSingle(core: Core, instr: bv32): (op: TransferOp)
    ensures op.rn < 16 && op.rd < 16
  {
    TransferOp(instr & 0x0100_0000 != 0, instr & 0x0080_0000 != 0, instr & 0x0020_0000 != 0, instr & 0x0010_0000 != 0,
               if instr & 0x0040_0000 != 0 then ByteData else WordData, Field(instr, 16), Field(instr, 12), SingleOffset(core, instr))
  }

  function HalfOffset(core: Core, instr: bv32): nat {
    if instr & 0x0040_0000 != 0 then Field(instr, 8) * 16 + Field(instr, 0) else core.Reg(Field(instr, 0))
  }

  function DecodeHalf(core: Core, instr: bv32): (op: TransferOp)
    ensures op.rn < 16 && op.rd < 16
  {
    TransferOp(instr & 0x0100_0000 != 0, instr & 0x0080_0000 != 0, instr & 0x0020_0000 != 0, instr & 0x0010_0000 != 0,
               HalfData(ShiftKind(instr)), Field(instr, 16), Field(instr, 12), HalfOffset(core, instr))
  }

  /** The updated base. */
  function OffsetBase(core: Core, op: TransferOp): uint32
    requires op.rn < 16
  {
    var base := core.RegPc(op.rn, PC_AHEAD);
    if op.up then Wrap(base + op.offset) else Wrap(base - op.offset)
  }

  function TransferAddress(core: Core, op: TransferOp): uint32
    requires op.rn < 16
  {
    if op.pre then OffsetBase(core, op) else core.RegPc(op.rn, PC_AHEAD)
  }

  /** Post-indexing always writes the base back; pre-indexing only on request. */
  function BaseWritten(core: Core, op: TransferOp): Core
    requires op.rn < 16
  {
    if !op.pre || op.writeback then core.WithReg(op.rn, OffsetBase(core, op)) else core
  }

  function Loaded(m: Memory, width: Width, addr: uint32): uint32 {
    match width
    case ByteData => LoadedData(m, true, addr)
    case WordData => LoadedData(m, false, addr)
    case HalfData(kind) => LoadedHalf(m, kind, addr)
  }

  function StoredTo(m: Memory, width: Width, addr: uint32, value: uint32): Memory {
    match width
    case ByteData => StoredData(m, true, addr, value)
    case WordData => StoredData(m, false, addr, value)
    case HalfData(_) => WithHalf(m, addr, value % 0x1_0000)
  }

  /** Core, memory and cycles after a single transfer. Only words and bytes loaded into R15 interwork. */
  function Transfer(core: Core, m: Memory, op: TransferOp, interworking: bool): (Core, Memory, nat)
    requires op.rn < 16 && op.rd < 16
  {
    var addr := TransferAddress(core, op);
    if !op.load then
      (BaseWritten(core, op), StoredTo(m, op.width, addr, core.RegPc(op.rd, PC_AHEAD_SHIFTED)), 2)
    else
      var value := Loaded(m, op.width, addr);
      if op.rd != 15 then (BaseWritten(core, op).WithReg(op.rd, value), m, 3)
      else if op.width.HalfData? then (BaseWritten(core, op).WithPc(Align(value, false)), m, 5)
      else (LoadPc(BaseWritten(core, op), value, interworking), m, 5)
  }

  // ---------------------------------------------------------------------------
  // What transfers do
  // ---------------------------------------------------------------------------

  /** A load into its own base register leaves the loaded value there, not the updated base. */
  lemma LoadWinsOverWriteback(core: Core, m: Memory, op: TransferOp, interworking: bool)
    requires op.rn < 15 && op.rd == op.rn && op.load
    ensures Transfer(core, m, op, interworking).0.Reg(op.rd) == Loaded(m, op.width, TransferAddress(core, op))
  {
    var mode := core.cpsr.CurrentMode();
    BankingLaw(BaseWritten(core, op).regs, mode, op.rd, Loaded(m, op.width, TransferAddress(core, op)), mode, op.rd);
  }

  /** A word stored at any address is loaded back from it turned by the misalignment, exactly when aligned as it was. */
  lemma WordStoreLoad(m: Memory, addr: uint32, value: uint32)
    ensures LoadedData(StoredData(m, false, addr, value), false, addr) == RotateRight(value, addr % 4 * 8)
    ensures addr % 4 == 0 ==> LoadedData(StoredData(m, false, addr, value), false, addr) == value
  {
    RotateWhole(value);
  }

  /** The four lanes of a word. */
  lemma Lanes(w: uint32)
    ensures var b0, b1, b2, b3 := w % 0x100, w / 0x100 % 0x100, w / 0x1_0000 % 0x100, w / 0x100_0000 % 0x100;
      w == b0 + 0x100 * b1 + 0x1_0000 * b2 + 0x100_0000 * b3
  {
  }

  /** And back. */
  lemma LanesOf(b0: uint8, b1: uint8, b2: uint8, b3: uint8)
    ensures var w := b0 + 0x100 * b1 + 0x1_0000 * b2 + 0x100_0000 * b3;
      w % 0x100 == b0 && w / 0x100 % 0x100 == b1 && w / 0x1_0000 % 0x100 == b2 && w / 0x100_0000 % 0x100 == b3
  {
    var w := b0 + 0x100 * b1 + 0x1_0000 * b2 + 0x100_0000 * b3;
    DivUniqueLeft(w, b1 + 0x100 * b2 + 0x1_0000 * b3, 0x100, b0);
    DivUniqueLeft(b1 + 0x100 * b2 + 0x1_0000 * b3, b2 + 0x100 * b3, 0x100, b1);
    DivUniqueLeft(w, b2 + 0x100 * b3, 0x1_0000, b0 + 0x100 * b1);
    DivUniqueLeft(b2 + 0x100 * b3, b3, 0x100, b2);
    DivUniqueLeft(w, b3, 0x100_0000, b0 + 0x100 * b1 + 0x1_0000 * b2);
  }

  function Pick(b0: uint8, b1: uint8, b2: uint8, b3: uint8, j: nat): uint8 {
    if j == 0 then b0 else if j == 1 then b1 else if j == 2 then b2 else b3
  }

  lemma LaneOf(w: uint32, b0: uint8, b1: uint8, b2: uint8, b3: uint8, j: nat)
    requires j < 4 && w == b0 + 0x100 * b1 + 0x1_0000 * b2 + 0x100_0000 * b3
    ensures w / Lane(j) % 0x100 == Pick(b0, b1, b2, b3, j)
  {
    LanesOf(b0, b1, b2, b3);
  }

  lemma ReplacedLane(w: uint32, b0: uint8, b1: uint8, b2: uint8, b3: uint8, i: nat, value: uint8)
    requires i < 4 && w == b0 + 0x100 * b1 + 0x1_0000 * b2 + 0x100_0000 * b3
    ensures WithLane(w, Lane(i), 0x100, value) ==
        (if i == 0 then value else b0) + 0x100 * (if i == 1 then value else b1) +
        0x1_0000 * (if i == 2 then value else b2) + 0x100_0000 * (if i == 3 then value else b3)
  {
    LanesOf(b0, b1, b2, b3);
  }

  /** Replacing a lane changes that lane alone. */
  lemma LaneReplaced(w: uint32, i: nat, value: uint8, j: nat)
    requires i < 4 && j < 4
    ensures WithLane(w, Lane(i), 0x100, value) / Lane(j) % 0x100 == if i == j then value else w / Lane(j) % 0x100
  {
    Lanes(w);
    LaneReplacedIn(w, w % 0x100, w / 0x100 % 0x100, w / 0x1_0000 % 0x100, w / 0x100_0000 % 0x100, i, value, j);
  }

  lemma LaneReplacedIn(w: uint32, b0: uint8, b1: uint8, b2: uint8, b3: uint8, i: nat, value: uint8, j: nat)
    requires i < 4 && j < 4 && w == b0 + 0x100 * b1 + 0x1_0000 * b2 + 0x100_0000 * b3
    ensures WithLane(w, Lane(i), 0x100, value) / Lane(j) % 0x100 == if i == j then value else w / Lane(j) % 0x100
  {
    ReplacedLane(w, b0, b1, b2, b3, i, value);
    LaneOf(w, b0, b1, b2, b3, j);
    LaneOf(WithLane(w, Lane(i), 0x100, value), if i == 0 then value else b0, if i == 1 then value else b1,
           if i == 2 then value else b2, if i == 3 then value else b3, j);
  }

  /** Memory is byte-addressed: a stored byte is read back at its own address, and every other byte is untouched. */
  lemma ByteStoreIsLocal(m: Memory, addr: uint32, value: uint8, other: uint32)
    ensures ByteAt(WithByte(m, addr, value), other) == if other == addr then value else ByteAt(m, other)
  {
    LaneReplaced(Word(m, addr), addr % 4, value, other % 4);
    if other / 4 == addr / 4 && other % 4 == addr % 4 {
      SameAddress(other, addr);
    }
  }

  lemma SameAddress(x: nat, y: nat)
    requires x / 4 == y / 4 && x % 4 == y % 4
    ensures x == y
  {
  }

  // ---------------------------------------------------------------------------
  // THUMB formats 7 to 11
  // ---------------------------------------------------------------------------

  /** Always an offset added first and never written back. */
  function OffsetOp(load: bool, width: Width, rn: nat, rd: nat, offset: nat): TransferOp {
    TransferOp(true, true, false, load, width, rn, rd, offset)
  }

  lemma OffsetTransfer(core: Core, m: Memory, load: bool, width: Width, rn: nat, rd: nat, offset: nat, interworking: bool)
    requires rn < 15 && rd < 15
    ensures var addr := Wrap(core.Reg(rn) + offset);
      Transfer(core, m, OffsetOp(load, width, rn, rd, offset), interworking) ==
        if load then (core.WithReg(rd, Loaded(m, width, addr)), m, 3) else (core, StoredTo(m, width, addr, core.Reg(rd)), 2)
  {
  }

  function DataWidth(byte: bool): Width {
    if byte then ByteData else WordData
  }

  /** Format 7: `LDR`/`STR`/`LDRB`/`STRB Rd, [Rb, Ro]`. */
  function RegisterAsArm(instr: bv16): bv32 {
    0xE780_0000 | (if instr & 0x0800 != 0 then 0x0010_0000 else 0) | (if instr & 0x0400 != 0 then 0x0040_0000 else 0) |
    ((((instr >> 3) & 7) as bv32) << 16) | (((instr & 7) as bv32) << 12) | (((instr >> 6) & 7) as bv32)
  }

  predicate OffsetForm(w: bv32, load: bool, rn: nat, rd: nat) {
    w & 0x0100_0000 != 0 && w & 0x0080_0000 != 0 && w & 0x0020_0000 == 0 && (w & 0x0010_0000 != 0 <==> load) &&
    Field(w, 16) == rn && Field(w, 12) == rd
  }

  lemma RegisterDecodes(instr: bv16)
    ensures var w := RegisterAsArm(instr);
      OffsetForm(w, instr & 0x0800 != 0, Low(instr, 3), Low(instr, 0)) && (w & 0x0040_0000 != 0 <==> instr & 0x0400 != 0) &&
      w & 0x0200_0000 != 0 && Field(w, 0) == Low(instr, 6) && Imm5(w) == 0 && ShiftKind(w) == 0
  {
  }

  lemma RegisterIsArm(core: Core, instr: bv16)
    ensures DecodeSingle(core, RegisterAsArm(instr)) ==
      OffsetOp(instr & 0x0800 != 0, DataWidth(instr & 0x0400 != 0), Low(instr, 3), Low(instr, 0), core.Reg(Low(instr, 6)))
  {
    RegisterDecodes(instr);
    RegisterForm(core, RegisterAsArm(instr), instr & 0x0800 != 0, instr & 0x0400 != 0, Low(instr, 3), Low(instr, 0), Low(instr, 6));
  }

  lemma RegisterForm(core: Core, w: bv32, load: bool, byte: bool, rn: nat, rd: nat, ro: nat)
    requires OffsetForm(w, load, rn, rd) && (w & 0x0040_0000 != 0 <==> byte)
    requires w & 0x0200_0000 != 0 && Field(w, 0) == ro < 15 && Imm5(w) == 0 && ShiftKind(w) == 0
    ensures DecodeSingle(core, w) == OffsetOp(load, DataWidth(byte), rn, rd, core.Reg(ro))
  {
  }

  /** Format 9: the same with a five-bit offset, scaled for words. */
  function ImmediateTransferAsArm(instr: bv16): bv32 {
    0xE580_0000 | (if instr & 0x0800 != 0 then 0x0010_0000 else 0) | (if instr & 0x1000 != 0 then 0x0040_0000 else 0) |
    ((((instr >> 3) & 7) as bv32) << 16) | (((instr & 7) as bv32) << 12) |
    (if instr & 0x1000 != 0 then ((instr >> 6) & 0x1F) as bv32 else (((instr >> 6) & 0x1F) as bv32) << 2)
  }

  /** Word offsets are scaled; byte offsets are not. */
  function ScaledImm5(instr: bv16): nat {
    if instr & 0x1000 != 0 then ThumbImm5(instr) else ThumbImm5(instr) * 4
  }

  lemma ImmediateTransferIsArm(core: Core, instr: bv16)
    ensures DecodeSingle(core, ImmediateTransferAsArm(instr)) ==
      OffsetOp(instr & 0x0800 != 0, DataWidth(instr & 0x1000 != 0), Low(instr, 3), Low(instr, 0), ScaledImm5(instr))
  {
  }

  /** Format 11: `LDR`/`STR Rd, [SP, #imm8 * 4]`. */
  function SpRelativeAsArm(instr: bv16): bv32 {
    0xE58D_0000 | (if instr & 0x0800 != 0 then 0x0010_0000 else 0) | ((((instr >> 8) & 7) as bv32) << 12) | (((instr & 0xFF) as bv32) << 2)
  }

  lemma SpRelativeIsArm(core: Core, instr: bv16)
    ensures DecodeSingle(core, SpRelativeAsArm(instr)) ==
      OffsetOp(instr & 0x0800 != 0, WordData, 13, Low(instr, 8), ThumbImm8(instr) * 4)
  {
  }

  /** Format 8: `STRH`, `LDRSB`, `LDRH` and `LDRSH Rd, [Rb, Ro]`. */
  function ExtendedAsArm(instr: bv16): bv32 {
    (if (instr >> 10) & 3 == 0 then 0xE180_00B0 else if (instr >> 10) & 3 == 1 then 0xE190_00D0
     else if (instr >> 10) & 3 == 2 then 0xE190_00B0 else 0xE190_00F0) |
    ((((instr >> 3) & 7) as bv32) << 16) | (((instr & 7) as bv32) << 12) | (((instr >> 6) & 7) as bv32)
  }

  /** How the format numbers its loads: signed byte, halfword, signed halfword. */
  function ExtendedKind(op: nat): nat {
    if op == 1 then 2 else if op == 3 then 3 else 1
  }

  lemma ExtendedForm(instr: bv16)
    ensures OffsetForm(ExtendedAsArm(instr), ThumbBits2(instr, 10) != 0, Low(instr, 3), Low(instr, 0))
  {
  }

  lemma ExtendedFields(instr: bv16)
    ensures var w := ExtendedAsArm(instr);
      w & 0x0040_0000 == 0 && Field(w, 0) == Low(instr, 6) && ShiftKind(w) == ExtendedKind(ThumbBits2(instr, 10))
  {
  }

  lemma ExtendedIsArm(core: Core, instr: bv16)
    ensures DecodeHalf(core, ExtendedAsArm(instr)) ==
      OffsetOp(ThumbBits2(instr, 10) != 0, HalfData(ExtendedKind(ThumbBits2(instr, 10))), Low(instr, 3), Low(instr, 0), core.Reg(Low(instr, 6)))
  {
    ExtendedForm(instr);
    ExtendedFields(instr);
    HalfForm(core, ExtendedAsArm(instr), ThumbBits2(instr, 10) != 0, ExtendedKind(ThumbBits2(instr, 10)), Low(instr, 3), Low(instr, 0));
  }

  lemma HalfForm(core: Core, w: bv32, load: bool, kind: nat, rn: nat, rd: nat)
    requires OffsetForm(w, load, rn, rd) && ShiftKind(w) == kind
    ensures DecodeHalf(core, w) == OffsetOp(load, HalfData(kind), rn, rd, HalfOffset(core, w))
  {
  }

  /** Format 10: `LDRH`/`STRH Rd, [Rb, #imm5 * 2]`. */
  function HalfwordAsArm(instr: bv16): bv32 {
    0xE1C0_00B0 | (if instr & 0x0800 != 0 then 0x0010_0000 else 0) |
    ((((instr >> 3) & 7) as bv32) << 16) | (((instr & 7) as bv32) << 12) |
    ((((instr >> 9) & 3) as bv32) << 8) | ((((instr >> 6) & 7) as bv32) << 1)
  }

  lemma HalfwordForm(instr: bv16)
    ensures OffsetForm(HalfwordAsArm(instr), instr & 0x0800 != 0, Low(instr, 3), Low(instr, 0)) && ShiftKind(HalfwordAsArm(instr)) == 1
  {
  }

  lemma HalfwordFields(instr: bv16)
    ensures var w := HalfwordAsArm(instr);
      w & 0x0040_0000 != 0 && Field(w, 8) == ThumbBits2(instr, 9) && Field(w, 0) == 2 * Low(instr, 6)
  {
  }

  lemma Imm5Splits(instr: bv16)
    ensures ThumbImm5(instr) == 8 * ThumbBits2(instr, 9) + Low(instr, 6)
  {
  }

  lemma HalfwordIsArm(core: Core, instr: bv16)
    ensures DecodeHalf(core, HalfwordAsArm(instr)) ==
      OffsetOp(instr & 0x0800 != 0, HalfData(1), Low(instr, 3), Low(instr, 0), ThumbImm5(instr) * 2)
  {
    HalfwordForm(instr);
    HalfwordFields(instr);
    Imm5Splits(instr);
    HalfForm(core, HalfwordAsArm(instr), instr & 0x0800 != 0, 1, Low(instr, 3), Low(instr, 0));
  }
}
