/**
 * What single pieces of the ARM core do, as functions of the registers and status word: exception
 * entry and return, data processing, block transfers. The class in arm7tdmi.dfy is proved against
 * these.
 */
module ArmCore {
  import opened Words
  import opened Arith
  import opened ArmShift
  import opened ArmPsr
  import opened ArmRegisters
  import opened ArmMemory

  datatype Core = Core(regs: Registers, cpsr: Psr) {
    function Reg(index: nat): uint32
      requires index < 16
    {
      Read(regs, cpsr.CurrentMode(), index)
    }

    function WithReg(index: nat, value: uint32): Core
      requires index < 16
    {
      this.(regs := Write(regs, cpsr.CurrentMode(), index, value))
    }

    function WithPc(value: uint32): Core {
      this.(regs := regs.(pc := value))
    }

    /** A register operand, with the pipeline's lead added to R15. */
    function RegPc(index: nat, ahead: nat): uint32
      requires index < 16
    {
      if index == 15 then Wrap(regs.pc + ahead) else Reg(index)
    }
  }

  function Align(pc: uint32, thumb: bool): uint32 {
    if thumb then pc - pc % 2 else pc - pc % 4
  }

  // ---------------------------------------------------------------------------
  // Instruction fields
  // ---------------------------------------------------------------------------

  /** Four bits of the instruction word. */
  function Field(instr: bv32, at: bv32): (index: nat)
    requires at <= 28
    ensures index < 16
  {
    (((instr >> at) & 0xF) as bv4) as nat
  }

  function Imm8(instr: bv32): (value: nat)
    ensures value < 256
  {
    ((instr & 0xFF) as bv8) as nat
  }

  function Imm5(instr: bv32): (value: nat)
    ensures value < 32
  {
    (((instr >> 7) & 0x1F) as bv5) as nat
  }

  function ShiftKind(instr: bv32): (value: nat)
    ensures value < 4
  {
    (((instr >> 5) & 3) as bv2) as nat
  }

  // ---------------------------------------------------------------------------
  // Exceptions
  // ---------------------------------------------------------------------------

  datatype Exception =
    | Reset
    | DataAbort
    | FastInterrupt
    | Interrupt
    | PrefetchAbort
    | SoftwareInterrupt
    | UndefinedInstruction

  function Vector(e: Exception): nat {
    match e
    case Reset => 0x00
    case UndefinedInstruction => 0x04
    case SoftwareInterrupt => 0x08
    case PrefetchAbort => 0x0C
    case DataAbort => 0x10
    case Interrupt => 0x18
    case FastInterrupt => 0x1C
  }

  function ExceptionMode(e: Exception): Mode {
    match e
    case Reset => Supervisor
    case SoftwareInterrupt => Supervisor
    case UndefinedInstruction => Undefined
    case PrefetchAbort => Abort
    case DataAbort => Abort
    case Interrupt => Irq
    case FastInterrupt => Fiq
  }

  predicate MasksFiq(e: Exception) {
    e.Reset? || e.FastInterrupt?
  }

  /** `enter_exception`. */
  function Enter(core: Core, e: Exception, lr: uint32, base: uint32): Core {
    var m := ExceptionMode(e);
    var saved := SetSpsr(core.regs, m, core.cpsr);
    Core(Write(saved, m, 14, lr).(pc := Wrap(base + Vector(e))),
         core.cpsr.SetMode(m).(t := false, i := true, f := core.cpsr.f || MasksFiq(e)))
  }

  /** `restore_cpsr_from_spsr`: nothing to restore in User and System. */
  function RestoreCpsr(core: Core): Core {
    match Spsr(core.regs, core.cpsr.CurrentMode())
    case Some(saved) => core.(cpsr := saved)
    case None => core
  }

  /** `set_pc_from_load`: bit 0 selects the instruction set only where loads interwork. */
  function LoadPc(core: Core, value: uint32, interworking: bool): Core {
    var c := if interworking then core.(cpsr := core.cpsr.(t := value % 2 == 1)) else core;
    c.WithPc(Align(value, c.cpsr.t))
  }

  // ---------------------------------------------------------------------------
  // Data processing
  // ---------------------------------------------------------------------------

  /** A bitwise operation on words. */
  function Bitwise(op: (bool, bool) -> bool, a: uint32, b: uint32): uint32 {
    Pow2Constants();
    Digitwise(op, a, b, 32)
  }

  function And(a: uint32, b: uint32): uint32 { Bitwise((x, y) => x && y, a, b) }
  function Or(a: uint32, b: uint32): uint32 { Bitwise((x, y) => x || y, a, b) }
  function Xor(a: uint32, b: uint32): uint32 { Bitwise((x, y) => x != y, a, b) }
  function Not(a: uint32): uint32 { 0xFFFF_FFFF - a }

  const PC_AHEAD: nat := 4
  const PC_AHEAD_SHIFTED: nat := 8

  predicate RegisterShift(instr: bv32) {
    instr & 0x0200_0000 == 0 && instr & 0x10 != 0
  }

  /** An eight-bit immediate rotated right; only a real rotation changes it or touches the carry. */
  function RotatedImmediate(imm: uint32, rotate: nat, carryIn: bool): (uint32, bool)
    requires rotate < 32
  {
    if rotate == 0 then (imm, carryIn) else (RotateRight(imm, rotate), Sign(RotateRight(imm, rotate)))
  }

  function ShifterOperand(core: Core, instr: bv32, ahead: nat): (uint32, bool) {
    if instr & 0x0200_0000 != 0 then
      RotatedImmediate(Imm8(instr), Field(instr, 8) * 2, core.cpsr.c)
    else
      var value := core.RegPc(Field(instr, 0), ahead);
      if instr & 0x10 != 0 then
        Shift(ShiftKind(instr), core.Reg(Field(instr, 8)) % 0x100, value, core.cpsr.c, false)
      else Shift(ShiftKind(instr), Imm5(instr), value, core.cpsr.c, true)
  }

  /** The result, the flags it would set, and whether the opcode writes its result. */
  function Alu(opcode: nat, p: Psr, a: uint32, b: uint32, shifterCarry: bool): (uint32, Psr, bool) {
    if opcode == 0x2 then var (r, q) := AluSub(p, a, b, true); (r, q, true)
    else if opcode == 0x3 then var (r, q) := AluSub(p, b, a, true); (r, q, true)
    else if opcode == 0x4 then var (r, q) := AluAdd(p, a, b, false); (r, q, true)
    else if opcode == 0x5 then var (r, q) := AluAdd(p, a, b, p.c); (r, q, true)
    else if opcode == 0x6 then var (r, q) := AluSub(p, a, b, p.c); (r, q, true)
    else if opcode == 0x7 then var (r, q) := AluSub(p, b, a, p.c); (r, q, true)
    else if opcode == 0xA then var (r, q) := AluSub(p, a, b, true); (r, q, false)
    else if opcode == 0xB then var (r, q) := AluAdd(p, a, b, false); (r, q, false)
    else
      var r := Logic(opcode, a, b);
      (r, p.SetNZ(r).(c := shifterCarry), opcode != 0x8 && opcode != 0x9)
  }

  /** The opcodes that leave V alone and take C from the shifter. */
  function Logic(opcode: nat, a: uint32, b: uint32): uint32 {
    if opcode == 0x0 || opcode == 0x8 then And(a, b)
    else if opcode == 0x1 || opcode == 0x9 then Xor(a, b)
    else if opcode == 0xC then Or(a, b)
    else if opcode == 0xD then b
    else if opcode == 0xE then And(a, Not(b))
    else Not(b)
  }

  /** `arm_data_processing` for everything but the MRS/MSR encodings. */
  function DataProcessing(core: Core, instr: bv32): (Core, nat) {
    var s := instr & 0x0010_0000 != 0;
    var ahead := if RegisterShift(instr) then PC_AHEAD_SHIFTED else PC_AHEAD;
    var rd := Field(instr, 12);
    var (operand2, shifterCarry) := ShifterOperand(core, instr, ahead);
    var (result, flags, writes) :=
      Alu(Field(instr, 21), core.cpsr, core.RegPc(Field(instr, 16), ahead), operand2, shifterCarry);
    var after := if s then core.(cpsr := flags) else core;
    var cycles := if RegisterShift(instr) then 2 else 1;
    if writes && rd == 15 then
      var back := if s then RestoreCpsr(after) else after;
      (back.WithPc(Align(result, back.cpsr.t)), cycles + 2)
    else if writes then (after.WithReg(rd, result), cycles)
    else if rd == 15 then (RestoreCpsr(after), cycles)
    else (after, cycles)
  }

  // ---------------------------------------------------------------------------
  // Block transfers
  // ---------------------------------------------------------------------------

  /** Which of R0-R15 a block transfer names. */
  type RegList = s: seq<bool> | |s| == 16 ghost witness seq(16, _ => false)

  function DecodeList(instr: bv32): RegList {
    [instr & 0x1 != 0, instr & 0x2 != 0, instr & 0x4 != 0, instr & 0x8 != 0,
     instr & 0x10 != 0, instr & 0x20 != 0, instr & 0x40 != 0, instr & 0x80 != 0,
     instr & 0x100 != 0, instr & 0x200 != 0, instr & 0x400 != 0, instr & 0x800 != 0,
     instr & 0x1000 != 0, instr & 0x2000 != 0, instr & 0x4000 != 0, instr & 0x8000 != 0]
  }

  /** The registers of the list from `from` up, in the order they are moved. */
  function Listed(list: RegList, from: nat): (rs: seq<nat>)
    requires from <= 16
    ensures |rs| <= 16 - from
    ensures forall i :: 0 <= i < |rs| ==> from <= rs[i] < 16
    decreases |list| - from
  {
    if from == 16 then []
    else (if list[from] then [from] else []) + Listed(list, from + 1)
  }

  /** The addressing of a block transfer: where it starts and what is written back. */
  datatype Block = Block(start: uint32, writeback: uint32)

  function BlockAddresses(pre: bool, up: bool, base: uint32, bytes: nat): Block {
    var lowest := if up then base else Wrap(base - bytes);
    Block(if pre == up then Wrap(lowest + 4) else lowest, if up then Wrap(base + bytes) else Wrap(base - bytes))
  }

  function StoredValue(core: Core, reg: nat, rn: nat, first: bool, writeback: Option<uint32>, userBank: bool): uint32
    requires reg < 16
  {
    if reg == 15 then Wrap(core.regs.pc + PC_AHEAD_SHIFTED)
    else if reg == rn && !first && writeback.Some? then writeback.value
    else if userBank then Read(core.regs, User, reg)
    else core.Reg(reg)
  }

  /** What `STM` stores, in order, for the listed registers. */
  function StoredValues(core: Core, rs: seq<nat>, rn: nat, first: bool, writeback: Option<uint32>, userBank: bool): (values: seq<uint32>)
    requires forall i :: 0 <= i < |rs| ==> rs[i] < 16
    ensures |values| == |rs|
  {
    if rs == [] then []
    else [StoredValue(core, rs[0], rn, first, writeback, userBank)] + StoredValues(core, rs[1..], rn, false, writeback, userBank)
  }

  /** `addr.wrapping_add(4)`. */
  function NextWord(addr: uint32): uint32 {
    if addr + 4 < TWO32 then addr + 4 else addr + 4 - TWO32
  }

  /** Consecutive words from `addr`. */
  function StoreWords(m: Memory, addr: uint32, values: seq<uint32>): Memory
    decreases |values|
  {
    if values == [] then m else StoreWords(m[addr / 4 := values[0]], NextWord(addr), values[1..])
  }

  function LoadOne(core: Core, mode: Mode, reg: nat, value: uint32, psrOrUser: bool, userBank: bool, interworking: bool): Core
    requires reg < 16
  {
    if userBank then core.(regs := Write(core.regs, User, reg, value))
    else if reg == 15 then
      if psrOrUser then
        var back := RestoreCpsr(core);
        back.WithPc(Align(value, back.cpsr.t))
      else LoadPc(core, value, interworking)
    else core.(regs := Write(core.regs, mode, reg, value))
  }

  /** `LDM`'s loads: each listed register from the next word. */
  function LoadFrom(core: Core, mode: Mode, m: Memory, addr: uint32, rs: seq<nat>, psrOrUser: bool, userBank: bool, interworking: bool): Core
    requires forall i :: 0 <= i < |rs| ==> rs[i] < 16
    decreases |rs|
  {
    if rs == [] then core
    else
      LoadFrom(LoadOne(core, mode, rs[0], Word(m, addr), psrOrUser, userBank, interworking),
               mode, m, NextWord(addr), rs[1..], psrOrUser, userBank, interworking)
  }

  /** The operand fields of `LDM`/`STM`. */
  datatype BlockOp = BlockOp(pre: bool, up: bool, psrOrUser: bool, writeback: bool, load: bool, rn: nat, list: RegList)

  function DecodeBlock(instr: bv32): (op: BlockOp)
    ensures op.rn < 16
  {
    BlockOp(instr & 0x0100_0000 != 0, instr & 0x0080_0000 != 0, instr & 0x0040_0000 != 0, instr & 0x0020_0000 != 0,
            instr & 0x0010_0000 != 0, Field(instr, 16), DecodeList(instr))
  }

  /** An empty list moves R15 alone and steps the base over sixteen registers. */
  function EffectiveList(op: BlockOp): RegList {
    if Listed(op.list, 0) == [] then op.list[15 := true] else op.list
  }

  function BlockOf(core: Core, op: BlockOp): Block
    requires op.rn < 16
  {
    BlockAddresses(op.pre, op.up, core.Reg(op.rn), if Listed(op.list, 0) == [] then 0x40 else 4 * |Listed(op.list, 0)|)
  }

  predicate MovesUserBank(op: BlockOp) {
    op.psrOrUser && !(op.load && EffectiveList(op)[15])
  }

  /** `arm_block_transfer`: core, memory and cycles afterwards. */
  function BlockTransfer(core: Core, m: Memory, op: BlockOp, interworking: bool): (Core, Memory, nat)
    requires op.rn < 16
  {
    var rs := Listed(EffectiveList(op), 0);
    var b := BlockOf(core, op);
    if op.load then
      var base := if op.writeback then core.WithReg(op.rn, b.writeback) else core;
      (LoadFrom(base, core.cpsr.CurrentMode(), m, b.start, rs, op.psrOrUser, MovesUserBank(op), interworking), m,
       |rs| + 2 + if 15 in rs && !MovesUserBank(op) then 2 else 0)
    else
      var wb := if op.writeback then Some(b.writeback) else None;
      (if op.writeback then core.WithReg(op.rn, b.writeback) else core,
       StoreWords(m, b.start, StoredValues(core, rs, op.rn, true, wb, MovesUserBank(op))), |rs| + 1)
  }
}
