/**
 * What User code can reach: everything but an exception entry leaves modes, masks, saved statuses and
 * every other bank alone.
 */
module ArmConfinement {
  import opened Words
  import opened ArmShift
  import opened ArmPsr
  import opened ArmRegisters
  import opened ArmMemory
  import opened ArmCore
  import opened ArmExceptions
  import opened ArmThumb
  import opened ArmTransfer
  import opened ArmMachine

  /** Everything User mode has no name for: FIQ's R8-R12, every other bank's R13 and R14, every SPSR. */
  ghost predicate SamePrivileged(r: Registers, r': Registers) {
    r'.highFiq == r.highFiq && r'.spsr == r.spsr && r'.sp[1..] == r.sp[1..] && r'.lr[1..] == r.lr[1..]
  }

  /** Mode, I and F and the unnamed bits; only N Z C V and T may differ. */
  ghost predicate SameControl(p: Psr, q: Psr) {
    q.modeBits == p.modeBits && q.i == p.i && q.f == p.f && q.rest == p.rest
  }

  ghost predicate Confined(a: Core, b: Core) {
    a.cpsr.CurrentMode().User? ==> SamePrivileged(a.regs, b.regs) && SameControl(a.cpsr, b.cpsr)
  }

  lemma UserWriteIsConfined(core: Core, index: nat, value: uint32)
    requires index < 16
    ensures Confined(core, core.WithReg(index, value))
    ensures Confined(core, core.(regs := Write(core.regs, User, index, value)))
  {
  }

  lemma RestoreIsConfined(core: Core)
    ensures Confined(core, RestoreCpsr(core))
  {
  }

  lemma DataProcessingIsConfined(core: Core, instr: bv32)
    ensures Confined(core, DataProcessing(core, instr).0)
  {
    var ahead := if RegisterShift(instr) then PC_AHEAD_SHIFTED else PC_AHEAD;
    var (operand2, shifterCarry) := ShifterOperand(core, instr, ahead);
    var (result, flags, _) := Alu(Field(instr, 21), core.cpsr, core.RegPc(Field(instr, 16), ahead), operand2, shifterCarry);
    AluKeepsControl(Field(instr, 21), core.cpsr, core.RegPc(Field(instr, 16), ahead), operand2, shifterCarry);
    var after := if instr & 0x0010_0000 != 0 then core.(cpsr := flags) else core;
    assert Confined(core, after);
    RestoreIsConfined(after);
    UserWriteIsConfined(after, Field(instr, 12), result);
  }

  lemma LogicKeepsControl(opcode: nat, p: Psr, a: uint32, b: uint32, shifterCarry: bool)
    requires IsLogical(opcode)
    ensures SameControl(p, Alu(opcode, p, a, b, shifterCarry).1)
  {
    assert Alu(opcode, p, a, b, shifterCarry).1 == p.SetNZ(Logic(opcode, a, b)).(c := shifterCarry);
  }

  lemma AddSubKeepControl(p: Psr, a: uint32, b: uint32, c: bool)
    ensures SameControl(p, AluAdd(p, a, b, c).1) && SameControl(p, AluSub(p, a, b, c).1)
  {
  }

  lemma AluKeepsControl(opcode: nat, p: Psr, a: uint32, b: uint32, shifterCarry: bool)
    ensures SameControl(p, Alu(opcode, p, a, b, shifterCarry).1)
  {
    if !IsLogical(opcode) {
      AddSubKeepControl(p, a, b, true);
      AddSubKeepControl(p, a, b, false);
      AddSubKeepControl(p, a, b, p.c);
      AddSubKeepControl(p, b, a, true);
      AddSubKeepControl(p, b, a, p.c);
    } else {
      LogicKeepsControl(opcode, p, a, b, shifterCarry);
    }
  }

  lemma {:induction false} LoadsAreConfined(core: Core, mode: Mode, m: Memory, addr: uint32, rs: seq<nat>,
                                            psrOrUser: bool, userBank: bool, interworking: bool)
    requires mode == core.cpsr.CurrentMode()
    requires forall i :: 0 <= i < |rs| ==> rs[i] < 16
    ensures Confined(core, LoadFrom(core, mode, m, addr, rs, psrOrUser, userBank, interworking))
    decreases |rs|
  {
    if rs != [] && mode.User? {
      var next := LoadOne(core, mode, rs[0], Word(m, addr), psrOrUser, userBank, interworking);
      UserWriteIsConfined(core, rs[0], Word(m, addr));
      RestoreIsConfined(core);
      assert Confined(core, next);
      LoadsAreConfined(next, mode, m, NextWord(addr), rs[1..], psrOrUser, userBank, interworking);
    }
  }

  lemma BlockTransferIsConfined(core: Core, m: Memory, op: BlockOp, interworking: bool)
    requires op.rn < 16
    ensures Confined(core, BlockTransfer(core, m, op, interworking).0)
  {
    var b := BlockOf(core, op);
    UserWriteIsConfined(core, op.rn, b.writeback);
    if op.load {
      var base := if op.writeback then core.WithReg(op.rn, b.writeback) else core;
      LoadsAreConfined(base, core.cpsr.CurrentMode(), m, b.start, Listed(EffectiveList(op), 0),
                       op.psrOrUser, MovesUserBank(op), interworking);
    }
  }

  lemma TransferIsConfined(core: Core, m: Memory, op: TransferOp, interworking: bool)
    requires op.rn < 16 && op.rd < 16
    ensures Confined(core, Transfer(core, m, op, interworking).0) && Transfer(core, m, op, interworking).2 >= 2
  {
    var based := BaseWritten(core, op);
    UserWriteIsConfined(core, op.rn, OffsetBase(core, op));
    UserWriteIsConfined(based, op.rd, Loaded(m, op.width, TransferAddress(core, op)));
  }

  /** Where an exception lands, and the only storage it touches besides R15 and CPSR. */
  lemma EntryLands(core: Core, e: Exception, lr: uint32, base: uint32)
    ensures var up, m := Enter(core, e, lr, base), ExceptionMode(e);
      up.regs.pc == Wrap(base + Vector(e)) && up.cpsr.CurrentMode() == m && up.cpsr.i && !up.cpsr.t &&
      (MasksFiq(e) ==> up.cpsr.f) && Spsr(up.regs, m) == Some(core.cpsr) && up.Reg(14) == lr &&
      up.regs == core.regs.(pc := up.regs.pc, lr := core.regs.lr[Bank(m) := lr], spsr := core.regs.spsr[Bank(m) := core.cpsr])
  {
    ModeEncodingsRoundTrip(ExceptionMode(e));
  }

  lemma MultipleIsConfined(core: Core, m: Memory, op: BlockOp, interworking: bool)
    requires IsMultiple(op)
    ensures Confined(core, Multiple(core, m, op, interworking).0) && Multiple(core, m, op, interworking).2 >= 1
  {
    BlockTransferIsConfined(core, m, op, interworking);
    UserWriteIsConfined(core, op.rn, Wrap(core.Reg(op.rn) + 0x40));
    var jumped := core.WithPc(Align(Word(m, core.Reg(op.rn)), true));
    UserWriteIsConfined(jumped, op.rn, Wrap(core.Reg(op.rn) + 0x40));
  }

  // ---------------------------------------------------------------------------
  // Whole instructions
  // ---------------------------------------------------------------------------

  lemma StatusIsConfined(core: Core, instr: bv32)
    ensures Confined(core, StatusTransfer(core, instr))
  {
    UserWriteIsConfined(core, Field(instr, 12), core.cpsr.Bits());
  }

  lemma DataOrStatusIsConfined(core: Core, instr: bv32)
    ensures Confined(core, DataOrStatus(core, instr).0)
  {
    StatusIsConfined(core, instr);
    DataProcessingIsConfined(core, instr);
    hide StatusTransfer, DataProcessing, Confined;
  }

  lemma FlagsThenWrites(core: Core, cpsr: Psr, a: nat, x: uint32, b: nat, y: uint32)
    requires a < 16 && b < 16 && SameControl(core.cpsr, cpsr)
    ensures Confined(core, core.(cpsr := cpsr).WithReg(a, x)) && Confined(core, core.(cpsr := cpsr).WithReg(a, x).WithReg(b, y))
  {
  }

  lemma MultiplyIsConfined(core: Core, instr: bv32)
    ensures Confined(core, Multiplied(core, instr).0)
  {
    hide Product, Field, MultiplyCycles, Confined, Read, Write, Wrap;
    var product := Wrap(Product(core.Reg(Field(instr, 0)), core.Reg(Field(instr, 8))) +
                        if instr & 0x0020_0000 != 0 then core.Reg(Field(instr, 12)) else 0);
    var cpsr := if instr & 0x0010_0000 != 0 then core.cpsr.SetNZ(product) else core.cpsr;
    FlagsThenWrites(core, cpsr, Field(instr, 16), product, 0, 0);
  }

  lemma MultiplyLongIsConfined(core: Core, instr: bv32)
    ensures Confined(core, MultipliedLong(core, instr).0)
  {
    hide LongProduct, Field, MultiplyCycles, Confined, Read, Write;
    var result := LongProduct(core, instr) % TWO64;
    var cpsr := if instr & 0x0010_0000 != 0 then core.cpsr.(n := result >= 0x8000_0000_0000_0000, z := result == 0) else core.cpsr;
    FlagsThenWrites(core, cpsr, Field(instr, 12), result % TWO32, Field(instr, 16), result / TWO32);
  }

  lemma SwapIsConfined(core: Core, m: Memory, instr: bv32)
    ensures Confined(core, Swapped(core, m, instr).0)
  {
    UserWriteIsConfined(core, Field(instr, 12), LoadedData(m, instr & 0x0040_0000 != 0, core.Reg(Field(instr, 16))));
    hide Confined, LoadedData, StoredData, Field, Read, Write;
  }

  lemma BranchIsConfined(core: Core, instr: bv32, target: uint32, interworking: bool)
    ensures Confined(core, Branched(core, instr)) && Confined(core, LoadPc(core, target, interworking))
  {
    UserWriteIsConfined(core, 14, core.regs.pc);
    hide BranchOffset, Align, Wrap;
  }

  /** An ARM instruction is an exception taken here, or confined. */
  lemma ArmIsConfined(core: Core, m: Memory, instr: bv32, interworking: bool, base: uint32) returns (trap: Option<Exception>)
    ensures trap.None? ==> Confined(core, ArmExecuted(core, m, instr, interworking, base).0)
    ensures trap.Some? ==> !trap.value.Reset? && ArmExecuted(core, m, instr, interworking, base).0 == Raise(core, trap.value, base)
  {
    trap := None;
    hide Confined, ArmFormatOf, BlockTransfer, DecodeBlock, Transfer, DecodeSingle, DecodeHalf, Multiplied, MultipliedLong;
    hide DataOrStatus, Raise, Field, Swapped, Branched, LoadPc;
    match ArmFormatOf(instr)
    case ExchangeFormat => BranchIsConfined(core, instr, core.RegPc(Field(instr, 0), PC_AHEAD), true);
    case SoftwareInterruptFormat => trap := Some(SoftwareInterrupt);
    case BranchFormat => BranchIsConfined(core, instr, 0, true);
    case BlockFormat => BlockTransferIsConfined(core, m, DecodeBlock(instr), interworking);
    case SingleFormat => TransferIsConfined(core, m, DecodeSingle(core, instr), interworking);
    case MultiplyFormat => MultiplyIsConfined(core, instr);
    case MultiplyLongFormat => MultiplyLongIsConfined(core, instr);
    case SwapFormat => SwapIsConfined(core, m, instr);
    case HalfwordFormat => TransferIsConfined(core, m, DecodeHalf(core, instr), interworking);
    case DataFormat => DataOrStatusIsConfined(core, instr);
    case NoFormat => trap := Some(UndefinedInstruction);
  }

  /** The THUMB instructions that have no ARM form. */
  lemma RemainderIsConfined(core: Core, m: Memory, instr: bv16, interworking: bool, base: uint32)
    requires !Abbreviates(instr) && ThumbFormatOf(instr) != 0
    ensures Confined(core, ThumbExecuted(core, m, instr, interworking, base).0)
  {
    hide Confined, ThumbFormatOf, HighRegister, PcRelativeLoad, LoadAddress, Multiple, MultipleOp, PushPopOp;
    hide ConditionalBranch, ThumbBranched, LongBranch;
    HighRegisterIsConfined(core, instr);
    AddressingIsConfined(core, m, instr);
    BranchingIsConfined(core, instr);
    MultipleIsConfined(core, m, MultipleOp(instr), interworking);
    NothingMoved(core);
  }

  lemma NothingMoved(core: Core)
    ensures Confined(core, core)
  {
  }

  lemma HighRegisterIsConfined(core: Core, instr: bv16)
    ensures Confined(core, HighRegister(core, instr).0)
  {
    var a, source := core.RegPc(HighRd(instr), THUMB_AHEAD), core.RegPc(HighRs(instr), THUMB_AHEAD);
    UserWriteIsConfined(core, HighRd(instr), if ThumbBits2(instr, 8) == 0 then Wrap((a as int) + source) else source);
    AddSubKeepControl(core.cpsr, a, source, true);
    hide AluSub, HighRd, HighRs, ThumbBits2, Wrap, Align;
  }

  lemma AddressingIsConfined(core: Core, m: Memory, instr: bv16)
    ensures Confined(core, PcRelativeLoad(core, m, instr)) && Confined(core, LoadAddress(core, instr))
  {
    hide Low, ThumbImm8, Word, Wrap, Align;
  }

  lemma BranchingIsConfined(core: Core, instr: bv16)
    ensures Confined(core, ConditionalBranch(core, instr).0)
    ensures Confined(core, ThumbBranched(core, instr)) && Confined(core, LongBranch(core, instr).0)
  {
    hide ThumbImm11, SignedImm8, SignedImm11, ThumbBits4, OddAddress, Wrap, Align;
  }

  /** A THUMB instruction is an exception taken here, or confined. */
  lemma ThumbIsConfined(core: Core, m: Memory, instr: bv16, interworking: bool, base: uint32) returns (trap: Option<Exception>)
    ensures trap.None? ==> Confined(core, ThumbExecuted(core, m, instr, interworking, base).0)
    ensures trap.Some? ==> !trap.value.Reset? && ThumbExecuted(core, m, instr, interworking, base).0 == Raise(core, trap.value, base)
  {
    if Abbreviates(instr) {
      ThumbAbbreviatesArm(core, m, instr, interworking, base);
      trap := ArmIsConfined(core, m, AsArm(instr), interworking, base);
    } else if ThumbFormatOf(instr) == 0 {
      trap := Some(UndefinedInstruction);
    } else {
      trap := None;
      RemainderIsConfined(core, m, instr, interworking, base);
      hide ThumbExecuted;
    }
    hide Confined, ThumbFormatOf, AsArm, ArmExecuted, Raise, Abbreviates;
  }

  // ---------------------------------------------------------------------------
  // Steps and runs
  // ---------------------------------------------------------------------------

  lemma FetchIsConfined(core: Core, pc: uint32)
    ensures Confined(core, core.WithPc(pc)) && core.WithPc(pc).cpsr == core.cpsr
  {
  }

  lemma ConfinedThrough(a: Core, b: Core, c: Core)
    requires Confined(a, b) && Confined(b, c) && a.cpsr.CurrentMode() == b.cpsr.CurrentMode()
    ensures Confined(a, c)
  {
  }

  /**
   * One step of the core: confined, or an exception entry from a confined point `from`, and then exactly that
   * exception raised there.
   */
  lemma StepIsConfined(core: Core, m: Memory, lines: Lines, interworking: bool, base: uint32)
    returns (from: Core, trap: Option<Exception>)
    ensures Confined(core, from)
    ensures trap.None? ==> Stepped(core, m, lines, interworking, base).0 == from
    ensures trap.Some? ==> !trap.value.Reset? && Stepped(core, m, lines, interworking, base).0 == Raise(from, trap.value, base)
  {
    hide Confined, ArmExecuted, ThumbExecuted, Raise, Align, Wrap, Word, HalfAt, Encoded, HalfEncoded;
    from, trap := core, None;
    NothingMoved(core);
    if lines.fiq && !core.cpsr.f {
      trap := Some(FastInterrupt);
    } else if lines.irq && !core.cpsr.i {
      trap := Some(Interrupt);
    } else if !(lines.halted && !lines.irq && !lines.fiq) {
      var addr := Align(core.regs.pc, core.cpsr.t);
      var fetched := core.WithPc(Wrap((addr as int) + if core.cpsr.t then 2 else 4));
      FetchIsConfined(core, fetched.regs.pc);
      from := fetched;
      if core.cpsr.t {
        trap := ThumbIsConfined(fetched, m, HalfEncoded(HalfAt(m, addr)), interworking, base);
      } else if core.cpsr.PassesCondition(Word(m, addr) / 0x1000_0000) {
        trap := ArmIsConfined(fetched, m, Encoded(Word(m, addr)), interworking, base);
      }
      if trap.None? {
        from := Stepped(core, m, lines, interworking, base).0;
        if core.cpsr.t || core.cpsr.PassesCondition(Word(m, addr) / 0x1000_0000) {
          ConfinedThrough(core, fetched, from);
        }
      }
    }
  }

  datatype Machine = Machine(core: Core, memory: Memory, halted: bool)

  /** One step under the given interrupt lines. */
  function Next(s: Machine, irq: bool, fiq: bool, interworking: bool, base: uint32): Machine {
    var (core, memory, _, halted) := Stepped(s.core, s.memory, Lines(irq, fiq, s.halted), interworking, base);
    Machine(core, memory, halted)
  }

  /** Steps under changing interrupt lines, up to the first that leaves User mode. */
  function RunUser(s: Machine, lines: seq<(bool, bool)>, interworking: bool, base: uint32): Machine
    decreases |lines|
  {
    if lines == [] || !s.core.cpsr.CurrentMode().User? then s
    else RunUser(Next(s, lines[0].0, lines[0].1, interworking, base), lines[1..], interworking, base)
  }

  /**
   * User code run for any number of steps, whatever the interrupt lines do: it either stays in User mode with
   * every privileged register, mask and saved status as it was, or has just entered an exception from such a
   * state, at that exception's vector.
   */
  lemma {:induction false} UserRunIsConfined(s: Machine, lines: seq<(bool, bool)>, interworking: bool, base: uint32)
    returns (from: Core, trap: Option<Exception>)
    requires s.core.cpsr.CurrentMode().User?
    ensures from.cpsr.CurrentMode().User? && SamePrivileged(s.core.regs, from.regs) && SameControl(s.core.cpsr, from.cpsr)
    ensures var after := RunUser(s, lines, interworking, base).core;
      if trap.None? then after == from
      else after == Raise(from, trap.value, base) && after.regs.pc == Wrap(base + Vector(trap.value))
    decreases |lines|
  {
    if lines == [] {
      return s.core, None;
    }
    hide Stepped, Raise, Wrap, Vector;
    var next := Next(s, lines[0].0, lines[0].1, interworking, base);
    from, trap := StepIsConfined(s.core, s.memory, Lines(lines[0].0, lines[0].1, s.halted), interworking, base);
    if trap.None? {
      from, trap := UserRunIsConfined(next, lines[1..], interworking, base);
    } else {
      LandsOutsideUser(from, trap.value, base);
    }
  }

  lemma LandsOutsideUser(from: Core, e: Exception, base: uint32)
    ensures var up := Raise(from, e, base); !up.cpsr.CurrentMode().User? && up.regs.pc == Wrap(base + Vector(e))
  {
    EntryLands(from, e, Wrap(from.regs.pc + LinkOffset(e)), base);
  }
}
