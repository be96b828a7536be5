/**
 * The ARM7TDMI core: both instruction sets over one banked register file, updated in place. Each
 * handler is proved to do what arm_machine.dfy says its instruction does.
 */
module Arm7 {
  import opened Words
  import opened Arith
  import opened ArmShift
  import opened ArmPsr
  import opened ArmRegisters
  import opened ArmMemory
  import opened ArmCore
  import opened ArmBlock
  import opened ArmExceptions
  import opened ArmThumb
  import opened ArmTransfer
  import opened ArmMachine

  function Add32(a: int, b: int): uint32 { Wrap(a + b) }
  function Sub32(a: int, b: int): uint32 { Wrap(a - b) }

  // ---------------------------------------------------------------------------
  // The core
  // ---------------------------------------------------------------------------

  class Arm7Tdmi {
    var regs: Registers
    var cpsr: Psr
    var irqLine: bool
    var fiqLine: bool
    var halted: bool
    var exceptionBase: uint32
    const interworkingLoads: bool

    constructor (pc: uint32, mode: Mode, thumb: bool, sp: uint32, irqDisabled: bool, fiqDisabled: bool, interworking: bool)
      ensures View() == Core(Write(CLEAR_FILE.(pc := pc), mode, 13, sp),
                             CLEAR_PSR.SetMode(mode).(t := thumb, i := irqDisabled, f := fiqDisabled))
      ensures !irqLine && !fiqLine && !halted && exceptionBase == 0 && interworkingLoads == interworking
    {
      cpsr := CLEAR_PSR.SetMode(mode).(t := thumb, i := irqDisabled, f := fiqDisabled);
      regs := Write(CLEAR_FILE.(pc := pc), mode, 13, sp);
      irqLine, fiqLine, halted, exceptionBase := false, false, false, 0;
      interworkingLoads := interworking;
    }

    function View(): Core
      reads this
    {
      Core(regs, cpsr)
    }

    method Reg(index: nat) returns (value: uint32)
      requires index < 16
      ensures value == View().Reg(index)
    {
      value := Read(regs, cpsr.CurrentMode(), index);
    }

    method SetReg(index: nat, value: uint32)
      requires index < 16
      modifies this`regs
      ensures View() == old(View()).WithReg(index, value)
    {
      regs := Write(regs, cpsr.CurrentMode(), index, value);
    }

    method SetPc(value: uint32)
      modifies this`regs
      ensures View() == old(View()).WithPc(value)
    {
      regs := regs.(pc := value);
    }

    // -- Exceptions -------------------------------------------------------------

    /** SPSR captures CPSR before the mode changes; R14 is written after, in the new bank. */
    method EnterException(e: Exception, lr: uint32)
      modifies this`regs, this`cpsr
      ensures View() == Enter(old(View()), e, lr, exceptionBase)
    {
      var saved := cpsr;
      var mode := ExceptionMode(e);
      cpsr := cpsr.SetMode(mode);
      regs := SetSpsr(regs, mode, saved);
      regs := Write(regs, mode, 14, lr);
      cpsr := cpsr.(t := false);
      cpsr := cpsr.(i := true);
      if MasksFiq(e) {
        cpsr := cpsr.(f := true);
      }
      SetPc(Add32(exceptionBase, Vector(e)));
    }

    method RestoreCpsrFromSpsr()
      modifies this`cpsr
      ensures View() == RestoreCpsr(old(View()))
    {
      match Spsr(regs, cpsr.CurrentMode())
      case Some(saved) => cpsr := saved;
      case None =>
    }

    /** `exception_return`: a saved status naming no mode is normalised to Supervisor here. */
    method ExceptionReturn(pc: uint32)
      modifies this`regs, this`cpsr
      ensures var back := RestoreCpsr(old(View())).cpsr;
        cpsr == (if HasSpsr(old(cpsr).CurrentMode()) then back.SetMode(back.CurrentMode()) else back) &&
        regs == old(regs).(pc := Align(pc, back.t))
    {
      match Spsr(regs, cpsr.CurrentMode()) {
        case Some(saved) =>
          cpsr := saved;
          cpsr := cpsr.SetMode(saved.CurrentMode());
        case None =>
      }
      SetPc(Align(pc, cpsr.t));
    }

    // -- Branches ---------------------------------------------------------------

    method BranchExchange(target: uint32)
      modifies this`regs, this`cpsr
      ensures View() == LoadPc(old(View()), target, true)
    {
      cpsr := cpsr.(t := target % 2 == 1);
      SetPc(Align(target, cpsr.t));
    }

    method SetPcFromLoad(value: uint32)
      modifies this`regs, this`cpsr
      ensures View() == LoadPc(old(View()), value, interworkingLoads)
    {
      if interworkingLoads {
        cpsr := cpsr.(t := value % 2 == 1);
      }
      SetPc(Align(value, cpsr.t));
    }

    method ArmBx(instr: bv32) returns (cycles: nat)
      modifies this`regs, this`cpsr
      ensures cycles == 3
      ensures View() == LoadPc(old(View()), old(View()).RegPc(Field(instr, 0), PC_AHEAD), true)
    {
      BranchExchange(View().RegPc(Field(instr, 0), PC_AHEAD));
      cycles := 3;
    }

    /** A branch, and with the L bit the return address in R14. */
    method ArmBranch(instr: bv32) returns (cycles: nat)
      modifies this`regs
      ensures cycles == 3
      ensures View() == Branched(old(View()), instr)
    {
      var base := Add32(regs.pc, PC_AHEAD);
      var target := Add32(base, BranchOffset(instr));
      if instr & 0x0100_0000 != 0 {
        SetReg(14, regs.pc);
      }
      SetPc(Align(target, false));
      cycles := 3;
    }

    // -- Data processing --------------------------------------------------------

    method DoAdd(a: uint32, b: uint32, carryIn: bool, setFlags: bool) returns (result: uint32)
      modifies this`cpsr
      ensures result == AluAdd(old(cpsr), a, b, carryIn).0
      ensures cpsr == if setFlags then AluAdd(old(cpsr), a, b, carryIn).1 else old(cpsr)
    {
      var wide := (a as int) + (b as int) + (if carryIn then 1 else 0);
      result := wide % TWO32;
      if setFlags {
        cpsr := cpsr.SetNZ(result);
        cpsr := cpsr.(c := wide >= TWO32);
        cpsr := cpsr.(v := Sign(a) != Sign(result) && Sign(b) != Sign(result));
      }
    }

    method DoSub(a: uint32, b: uint32, carryIn: bool, setFlags: bool) returns (result: uint32)
      modifies this`cpsr
      ensures result == AluSub(old(cpsr), a, b, carryIn).0
      ensures cpsr == if setFlags then AluSub(old(cpsr), a, b, carryIn).1 else old(cpsr)
    {
      var borrow := if carryIn then 0 else 1;
      result := Sub32(a, b + borrow);
      if setFlags {
        cpsr := cpsr.SetNZ(result);
        cpsr := cpsr.(c := (a as int) >= (b as int) + borrow);
        cpsr := cpsr.(v := Sign(a) != Sign(b) && Sign(a) != Sign(result));
      }
    }

    method SetLogical(result: uint32, carry: bool, setFlags: bool)
      modifies this`cpsr
      ensures cpsr == if setFlags then old(cpsr).SetNZ(result).(c := carry) else old(cpsr)
    {
      if setFlags {
        cpsr := cpsr.SetNZ(result);
        cpsr := cpsr.(c := carry);
      }
    }

    /** The sixteen opcodes; a comparison always has S set here. */
    method DoOpcode(opcode: nat, a: uint32, operand2: uint32, shifterCarry: bool, setFlags: bool) returns (result: uint32, writes: bool)
      requires opcode < 16 && (0x8 <= opcode <= 0xB ==> setFlags)
      modifies this`cpsr
      ensures var (r, q, w) := Alu(opcode, old(cpsr), a, operand2, shifterCarry);
        result == r && writes == w && cpsr == if setFlags then q else old(cpsr)
    {
      var carry := cpsr.c;
      writes := true;
      if opcode == 0x2 {
        result := DoSub(a, operand2, true, setFlags);
      } else if opcode == 0x3 {
        result := DoSub(operand2, a, true, setFlags);
      } else if opcode == 0x4 {
        result := DoAdd(a, operand2, false, setFlags);
      } else if opcode == 0x5 {
        result := DoAdd(a, operand2, carry, setFlags);
      } else if opcode == 0x6 {
        result := DoSub(a, operand2, carry, setFlags);
      } else if opcode == 0x7 {
        result := DoSub(operand2, a, carry, setFlags);
      } else if opcode == 0xA {
        result := DoSub(a, operand2, true, true);
        writes := false;
      } else if opcode == 0xB {
        result := DoAdd(a, operand2, false, true);
        writes := false;
      } else {
        result := Logic(opcode, a, operand2);
        SetLogical(result, shifterCarry, setFlags);
        writes := opcode != 0x8 && opcode != 0x9;
      }
    }

    method ArmDataProcessing(instr: bv32) returns (cycles: nat)
      modifies this`regs, this`cpsr
      ensures cycles >= 1
      ensures (View(), cycles) == DataOrStatus(old(View()), instr)
    {
      var opcode := Field(instr, 21);
      var setFlags := instr & 0x0010_0000 != 0;
      if !setFlags && 0x8 <= opcode <= 0xB {
        cycles := ArmPsrTransfer(instr);
      } else {
        cycles := ProcessData(instr, opcode, setFlags);
      }
    }

    method ProcessData(instr: bv32, opcode: nat, setFlags: bool) returns (cycles: nat)
      requires opcode == Field(instr, 21) && (0x8 <= opcode <= 0xB ==> setFlags)
      requires setFlags <==> instr & 0x0010_0000 != 0
      modifies this`regs, this`cpsr
      ensures cycles >= 1 && (View(), cycles) == DataProcessing(old(View()), instr)
    {
      var registerShift := RegisterShift(instr);
      var ahead := if registerShift then PC_AHEAD_SHIFTED else PC_AHEAD;
      var rd := Field(instr, 12);
      var (operand2, shifterCarry) := ShifterOperand(View(), instr, ahead);
      var a := View().RegPc(Field(instr, 16), ahead);
      var result, writes := DoOpcode(opcode, a, operand2, shifterCarry, setFlags);
      cycles := if registerShift then 2 else 1;
      if writes {
        if rd == 15 {
          if setFlags {
            RestoreCpsrFromSpsr();
          }
          SetPc(Align(result, cpsr.t));
          cycles := cycles + 2;
        } else {
          SetReg(rd, result);
        }
      } else if rd == 15 {
        RestoreCpsrFromSpsr();
      }
    }

    /** MRS and MSR. User code can change the flags byte and nothing else. */
    method ArmPsrTransfer(instr: bv32) returns (cycles: nat)
      modifies this`regs, this`cpsr
      ensures cycles == 1
      ensures View() == StatusTransfer(old(View()), instr)
    {
      cycles := 1;
      var useSpsr := instr & 0x0040_0000 != 0;
      if instr & 0x0020_0000 == 0 {
        var source := match Spsr(regs, cpsr.CurrentMode())
          case Some(saved) => if useSpsr then saved else cpsr
          case None => cpsr;
        SetReg(Field(instr, 12), source.Bits());
        return;
      }
      var value := MsrValue(View(), instr);
      var flags, control := instr & 0x0008_0000 != 0, instr & 0x0001_0000 != 0;
      if useSpsr {
        match Spsr(regs, cpsr.CurrentMode())
        case Some(saved) => regs := SetSpsr(regs, cpsr.CurrentMode(), saved.Merge(value, flags, control));
        case None =>
      } else {
        if !IsPrivileged(cpsr.CurrentMode()) {
          control := false;
        }
        cpsr := cpsr.Merge(value, flags, control);
      }
    }

    // -- Multiply ---------------------------------------------------------------

    /** The low 32 bits of a product, with or without an addend; C and V are left alone. */
    method ArmMultiply(instr: bv32) returns (cycles: nat)
      modifies this`regs, this`cpsr
      ensures cycles >= 2
      ensures (View(), cycles) == Multiplied(old(View()), instr)
    {
      var accumulate, setFlags := instr & 0x0020_0000 != 0, instr & 0x0010_0000 != 0;
      var s := Reg(Field(instr, 8));
      var m := Reg(Field(instr, 0));
      var n := Reg(Field(instr, 12));
      var result := Wrap(Product(m, s));
      if accumulate {
        ModEarly(Product(m, s), n, TWO32);
        result := Add32(result, n);
      }
      SetReg(Field(instr, 16), result);
      if setFlags {
        cpsr := cpsr.SetNZ(result);
      }
      cycles := 1 + MultiplyCycles(s) + (if accumulate then 1 else 0);
    }

    /** The whole 64-bit product, signed or not, plus what the destination pair held if accumulating. */
    method ArmMultiplyLong(instr: bv32) returns (cycles: nat)
      modifies this`regs, this`cpsr
      ensures cycles >= 3
      ensures (View(), cycles) == MultipliedLong(old(View()), instr)
    {
      var signed, accumulate, setFlags := instr & 0x0040_0000 != 0, instr & 0x0020_0000 != 0, instr & 0x0010_0000 != 0;
      var hi, lo := Field(instr, 16), Field(instr, 12);
      var s := Reg(Field(instr, 8));
      var m := Reg(Field(instr, 0));
      var result: int := if signed then Product(Signed(m), Signed(s)) else Product(m, s);
      if accumulate {
        var existingHi := Reg(hi);
        var existingLo := Reg(lo);
        result := result + (Product(existingHi, TWO32) + existingLo);
      }
      WriteLong(result % TWO64, hi, lo, setFlags);
      cycles := 2 + MultiplyCycles(s) + (if accumulate then 1 else 0);
    }

    method WriteLong(result: uint64, hi: nat, lo: nat, setFlags: bool)
      requires hi < 16 && lo < 16
      modifies this`regs, this`cpsr
      ensures View() == LongWritten(old(View()), result, hi, lo, setFlags)
    {
      SetReg(lo, result % TWO32);
      SetReg(hi, result / TWO32);
      if setFlags {
        cpsr := cpsr.(n := result >= 0x8000_0000_0000_0000, z := result == 0);
      }
    }

    // -- Memory -----------------------------------------------------------------

    /** Memory and register change places: what was there comes back as `LDR` would load it. */
    method ArmSwap(instr: bv32, bus: Bus) returns (cycles: nat)
      modifies this`regs, bus
      ensures cycles == 4
      ensures (View(), bus.memory) == Swapped(old(View()), old(bus.memory), instr)
    {
      var addr := Reg(Field(instr, 16));
      var stored := Reg(Field(instr, 0));
      if instr & 0x0040_0000 != 0 {
        var loaded := bus.Read8(addr);
        bus.Write8(addr, stored % 0x100);
        SetReg(Field(instr, 12), loaded);
      } else {
        var word := bus.Read32(addr);
        bus.Write32(addr, stored);
        SetReg(Field(instr, 12), RotateLoadedWord(word, addr));
      }
      cycles := 4;
    }

    method WriteBack(op: TransferOp, offsetBase: uint32)
      requires op.rn < 16 && offsetBase == OffsetBase(View(), op)
      modifies this`regs
      ensures View() == BaseWritten(old(View()), op)
    {
      if !op.pre || op.writeback {
        SetReg(op.rn, offsetBase);
      }
    }

    method LoadData(byte: bool, addr: uint32, bus: Bus) returns (value: uint32)
      ensures value == LoadedData(bus.memory, byte, addr)
    {
      if byte {
        value := bus.Read8(addr);
      } else {
        value := bus.Read32(addr);
        value := RotateLoadedWord(value, addr);
      }
    }

    method StoreData(byte: bool, addr: uint32, value: uint32, bus: Bus)
      modifies bus
      ensures bus.memory == StoredData(old(bus.memory), byte, addr, value)
    {
      if byte {
        bus.Write8(addr, value % 0x100);
      } else {
        bus.Write32(addr, value);
      }
    }

    method ArmSingleTransfer(instr: bv32, bus: Bus) returns (cycles: nat)
      modifies this`regs, this`cpsr, bus
      ensures cycles >= 2
      ensures (View(), bus.memory, cycles) == Transfer(old(View()), old(bus.memory), DecodeSingle(old(View()), instr), interworkingLoads)
    {
      cycles := MoveSingle(DecodeSingle(View(), instr), bus);
    }

    method MoveSingle(op: TransferOp, bus: Bus) returns (cycles: nat)
      requires op.rn < 16 && op.rd < 16 && !op.width.HalfData?
      modifies this`regs, this`cpsr, bus
      ensures (View(), bus.memory, cycles) == Transfer(old(View()), old(bus.memory), op, interworkingLoads)
      ensures cycles >= 2
    {
      var offsetBase := OffsetBase(View(), op);
      var addr := TransferAddress(View(), op);
      if op.load {
        cycles := 3;
        var value := LoadData(op.width.ByteData?, addr, bus);
        // Writeback first, so that a load into the base register wins.
        WriteBack(op, offsetBase);
        if op.rd == 15 {
          SetPcFromLoad(value);
          cycles := cycles + 2;
        } else {
          SetReg(op.rd, value);
        }
      } else {
        cycles := 2;
        StoreData(op.width.ByteData?, addr, View().RegPc(op.rd, PC_AHEAD_SHIFTED), bus);
        WriteBack(op, offsetBase);
      }
    }

    /** A halfword or signed load, with this core's rules for odd addresses. */
    method LoadHalf(kind: nat, addr: uint32, bus: Bus) returns (value: uint32)
      ensures value == LoadedHalf(bus.memory, kind, addr)
    {
      if kind == 1 {
        var half := bus.Read16(addr);
        value := if addr % 2 == 1 then RotateRight(half, 8) else half;
      } else if kind == 2 || addr % 2 == 1 {
        var b := bus.Read8(addr);
        value := SignExtend8(b);
      } else {
        var half := bus.Read16(addr);
        value := SignExtend16(half);
      }
    }

    method ArmHalfwordTransfer(instr: bv32, bus: Bus) returns (cycles: nat)
      modifies this`regs, bus
      ensures cycles >= 2
      ensures (View(), bus.memory, cycles) == Transfer(old(View()), old(bus.memory), DecodeHalf(old(View()), instr), interworkingLoads)
    {
      cycles := MoveHalf(DecodeHalf(View(), instr), bus);
    }

    method MoveHalf(op: TransferOp, bus: Bus) returns (cycles: nat)
      requires op.rn < 16 && op.rd < 16 && op.width.HalfData?
      modifies this`regs, bus
      ensures (View(), bus.memory, cycles) == Transfer(old(View()), old(bus.memory), op, interworkingLoads)
      ensures cycles >= 2
    {
      var offsetBase := OffsetBase(View(), op);
      var addr := TransferAddress(View(), op);
      if op.load {
        cycles := 3;
        var value := LoadHalf(op.width.kind, addr, bus);
        WriteBack(op, offsetBase);
        if op.rd == 15 {
          SetPc(Align(value, false));
          cycles := cycles + 2;
        } else {
          SetReg(op.rd, value);
        }
      } else {
        cycles := 2;
        bus.Write16(addr, View().RegPc(op.rd, PC_AHEAD_SHIFTED) % 0x1_0000);
        WriteBack(op, offsetBase);
      }
    }

    // -- Block transfers --------------------------------------------------------

    /** `arm_block_transfer`: registers move in ascending order whatever the direction. */
    method ArmBlockTransfer(instr: bv32, bus: Bus) returns (cycles: nat)
      modifies this`regs, this`cpsr, bus
      ensures (View(), bus.memory, cycles) == BlockTransfer(old(View()), old(bus.memory), DecodeBlock(instr), interworkingLoads)
      ensures cycles >= 1
    {
      cycles := MoveBlock(DecodeBlock(instr), bus);
    }

    /** The list actually moved, where it starts, and the base afterwards. */
    method PlanBlock(op: BlockOp) returns (list: RegList, addr: uint32, writebackValue: uint32)
      requires op.rn < 16
      ensures list == EffectiveList(op) && BlockOf(View(), op) == Block(addr, writebackValue)
    {
      var base := Reg(op.rn);
      list := op.list;
      var block := |Listed(list, 0)| * 4;
      if Listed(op.list, 0) == [] {
        list := list[15 := true];
        block := 0x40;
      }
      var lowest := if op.up then base else Sub32(base, block);
      addr := if op.pre == op.up then Add32(lowest, 4) else lowest;
      writebackValue := if op.up then Add32(base, block) else Sub32(base, block);
    }

    method MoveBlock(op: BlockOp, bus: Bus) returns (cycles: nat)
      requires op.rn < 16
      modifies this`regs, this`cpsr, bus
      ensures (View(), bus.memory, cycles) == BlockTransfer(old(View()), old(bus.memory), op, interworkingLoads)
      ensures cycles >= 1
    {
      var list, addr, writebackValue := PlanBlock(op);
      var userBank := op.psrOrUser && !(op.load && list[15]);
      if op.load {
        var mode := cpsr.CurrentMode();
        if op.writeback {
          // Writeback first, so that loading the base overrides it.
          SetReg(op.rn, writebackValue);
        }
        cycles := LoadList(op, list, addr, userBank, mode, bus);
        ListedMember(list, 0, 15);
        cycles := cycles + |Listed(list, 0)| + 2;
      } else {
        StoreList(op, list, addr, userBank, writebackValue, bus);
        if op.writeback {
          SetReg(op.rn, writebackValue);
        }
        cycles := |Listed(list, 0)| + 1;
      }
    }

    /** The loading loop; its extra cycles are those of refilling the pipeline. */
    method LoadList(op: BlockOp, list: RegList, start: uint32, userBank: bool, mode: Mode, bus: Bus) returns (extra: nat)
      requires userBank ==> op.psrOrUser
      modifies this`regs, this`cpsr
      ensures View() == LoadFrom(old(View()), mode, bus.memory, start, Listed(list, 0), op.psrOrUser, userBank, interworkingLoads)
      ensures extra == if list[15] && !userBank then 2 else 0
    {
      var addr := start;
      extra := 0;
      for reg := 0 to 16
        invariant LoadFrom(View(), mode, bus.memory, addr, Listed(list, reg), op.psrOrUser, userBank, interworkingLoads) ==
          LoadFrom(old(View()), mode, bus.memory, start, Listed(list, 0), op.psrOrUser, userBank, interworkingLoads)
        invariant extra == if reg == 16 && list[15] && !userBank then 2 else 0
      {
        ListedStep(list, reg);
        if list[reg] {
          var value := bus.Read32(addr);
          if userBank {
            regs := Write(regs, User, reg, value);
          } else if reg == 15 {
            if op.psrOrUser {
              RestoreCpsrFromSpsr();
              SetPc(Align(value, cpsr.t));
            } else {
              SetPcFromLoad(value);
            }
            extra := 2;
          } else {
            regs := Write(regs, mode, reg, value);
          }
          addr := NextWord(addr);
        }
      }
    }

    /** The storing loop; the base, anywhere but first, is stored as it will be written back. */
    method StoreList(op: BlockOp, list: RegList, start: uint32, userBank: bool, writebackValue: uint32, bus: Bus)
      modifies bus
      ensures bus.memory == StoreWords(old(bus.memory), start,
        StoredValues(View(), Listed(list, 0), op.rn, true, if op.writeback then Some(writebackValue) else None, userBank))
    {
      var addr, first := start, true;
      ghost var core, wb := View(), if op.writeback then Some(writebackValue) else None;
      ghost var result := StoreWords(bus.memory, start, StoredValues(core, Listed(list, 0), op.rn, true, wb, userBank));
      for reg := 0 to 16
        invariant StoreWords(bus.memory, addr, StoredValues(core, Listed(list, reg), op.rn, first, wb, userBank)) == result
      {
        StoreStep(bus.memory, addr, core, list, reg, op.rn, first, wb, userBank);
        hide StoreWords, StoredValues, Listed, NextWord;
        if list[reg] {
          var value;
          if reg == 15 {
            value := Add32(regs.pc, PC_AHEAD_SHIFTED);
          } else if reg == op.rn && !first && op.writeback {
            value := writebackValue;
          } else if userBank {
            value := Read(regs, User, reg);
          } else {
            value := Reg(reg);
          }
          bus.Write32(addr, value);
          addr := NextWord(addr);
          first := false;
        }
      }
    }

    // -- ARM dispatch -----------------------------------------------------------

    method TakeSoftwareInterrupt()
      modifies this`regs, this`cpsr
      ensures View() == Raise(old(View()), SoftwareInterrupt, exceptionBase)
    {
      EnterException(SoftwareInterrupt, regs.pc);
    }

    method TakeUndefinedInstruction()
      modifies this`regs, this`cpsr
      ensures View() == Raise(old(View()), UndefinedInstruction, exceptionBase)
    {
      EnterException(UndefinedInstruction, regs.pc);
    }

    /** Execute one fetched ARM instruction. The decode order matters: later encodings are carved out of by earlier ones. */
    method ExecuteArm(instr: bv32, bus: Bus) returns (cycles: nat)
      modifies this`regs, this`cpsr, bus
      ensures cycles >= 1
      ensures (View(), bus.memory, cycles) == ArmExecuted(old(View()), old(bus.memory), instr, interworkingLoads, exceptionBase)
    {
      hide BlockTransfer, Transfer, DecodeBlock, DecodeSingle, DecodeHalf, Multiplied, MultipliedLong, Swapped, DataOrStatus, Branched, LoadPc, Raise;
      if instr & 0x0FFF_FFF0 == 0x012F_FF10 {
        cycles := ArmBx(instr);
      } else if instr & 0x0F00_0000 == 0x0F00_0000 {
        TakeSoftwareInterrupt();
        cycles := 3;
      } else if instr & 0x0E00_0000 == 0x0A00_0000 {
        cycles := ArmBranch(instr);
      } else if instr & 0x0C00_0000 == 0x0C00_0000 {
        TakeUndefinedInstruction();
        cycles := 3;
      } else if instr & 0x0E00_0000 == 0x0800_0000 {
        cycles := ArmBlockTransfer(instr, bus);
      } else if instr & 0x0E00_0010 == 0x0600_0010 {
        TakeUndefinedInstruction();
        cycles := 3;
      } else if instr & 0x0C00_0000 == 0x0400_0000 {
        cycles := ArmSingleTransfer(instr, bus);
      } else if instr & 0x0FC0_00F0 == 0x0000_0090 {
        cycles := ArmMultiply(instr);
      } else if instr & 0x0F80_00F0 == 0x0080_0090 {
        cycles := ArmMultiplyLong(instr);
      } else if instr & 0x0FB0_0FF0 == 0x0100_0090 {
        cycles := ArmSwap(instr, bus);
      } else if instr & 0x0E00_0090 == 0x0000_0090 && instr & 0x60 != 0 {
        cycles := ArmHalfwordTransfer(instr, bus);
      } else {
        cycles := ArmDataProcessing(instr);
      }
    }

    method FetchArm(bus: Bus) returns (word: uint32)
      modifies this`regs
      ensures word == Word(bus.memory, Align(old(regs.pc), false))
      ensures View() == old(View()).WithPc(Wrap(Align(old(regs.pc), false) + 4))
    {
      var addr := Align(regs.pc, false);
      word := bus.Read32(addr);
      SetPc(Add32(addr, 4));
    }

    method StepArm(bus: Bus) returns (cycles: nat)
      modifies this`regs, this`cpsr, bus
      ensures (View(), bus.memory, cycles) == ArmStepped(old(View()), old(bus.memory), interworkingLoads, exceptionBase)
      ensures cycles >= 1
    {
      hide ArmExecuted, Word, Wrap, Align, Encoded;
      var word := FetchArm(bus);
      if !cpsr.PassesCondition(word / 0x1000_0000) {
        return 1;
      }
      cycles := ExecuteArm(Encoded(word), bus);
    }

    // -- THUMB ------------------------------------------------------------------

    method ThumbMoveShifted(instr: bv16) returns (cycles: nat)
      modifies this`regs, this`cpsr
      ensures cycles >= 1
      ensures View() == MoveShifted(old(View()), instr) && cycles == 1
    {
      MoveShiftedIsArm(View(), instr);
      var rs := Reg(Low(instr, 3));
      var (result, carry) := Shift(ThumbBits2(instr, 11), ThumbImm5(instr), rs, cpsr.c, true);
      SetReg(Low(instr, 0), result);
      cpsr := cpsr.SetNZ(result).(c := carry);
      cycles := 1;
    }

    method ThumbAddSubtract(instr: bv16) returns (cycles: nat)
      modifies this`regs, this`cpsr
      ensures cycles >= 1
      ensures View() == AddSubtract(old(View()), instr) && cycles == 1
    {
      AddSubtractIsArm(View(), instr);
      var a := Reg(Low(instr, 3));
      var b: uint32;
      if instr & 0x0400 != 0 {
        b := Low(instr, 6);
      } else {
        b := Reg(Low(instr, 6));
      }
      var result: uint32;
      if instr & 0x0200 != 0 {
        result := DoSub(a, b, true, true);
      } else {
        result := DoAdd(a, b, false, true);
      }
      SetReg(Low(instr, 0), result);
      cycles := 1;
    }

    method ThumbImmediate(instr: bv16) returns (cycles: nat)
      modifies this`regs, this`cpsr
      ensures cycles >= 1
      ensures View() == Immediate(old(View()), instr) && cycles == 1
    {
      ImmediateIsArm(View(), instr);
      ThumbImmediateOp(ThumbBits2(instr, 11), Low(instr, 8), ThumbImm8(instr));
      cycles := 1;
    }

    method ThumbImmediateOp(op: nat, rd: nat, value: uint32)
      requires op < 4 && rd < 8
      modifies this`regs, this`cpsr
      ensures View() == Placed(old(View()), ImmediateOpcode(op), rd, old(View()).Reg(rd), value, old(cpsr).c)
    {
      ghost var core := View();
      var a := Reg(rd);
      if op == 0 {
        PlacedMove(core, rd, a, value, cpsr.c);
        SetReg(rd, value);
        cpsr := cpsr.SetNZ(value);
      } else if op == 1 {
        PlacedDifference(core, 0xA, rd, a, value, cpsr.c);
        var _ := DoSub(a, value, true, true);
      } else if op == 2 {
        PlacedSum(core, 0x4, rd, a, value, cpsr.c);
        var result := DoAdd(a, value, false, true);
        SetReg(rd, result);
      } else {
        PlacedDifference(core, 0x2, rd, a, value, cpsr.c);
        var result := DoSub(a, value, true, true);
        SetReg(rd, result);
      }
    }

    method SetResult(rd: nat, result: uint32)
      requires rd < 8
      modifies this`regs, this`cpsr
      ensures View() == old(View()).(cpsr := old(cpsr).SetNZ(result)).WithReg(rd, result)
    {
      SetReg(rd, result);
      cpsr := cpsr.SetNZ(result);
    }

    method ThumbShift(kind: nat, rd: nat, a: uint32, b: uint32)
      requires rd < 8
      modifies this`regs, this`cpsr
      ensures var (result, carry) := Shift(kind, b % 0x100, a, old(cpsr).c, false);
        View() == old(View()).(cpsr := old(cpsr).SetNZ(result).(c := carry)).WithReg(rd, result)
    {
      var (result, carry) := Shift(kind, b % 0x100, a, cpsr.c, false);
      SetResult(rd, result);
      cpsr := cpsr.(c := carry);
    }

    method ThumbAlu(instr: bv16) returns (cycles: nat)
      modifies this`regs, this`cpsr
      ensures cycles >= 1
      ensures (View(), cycles) == RegisterAlu(old(View()), instr)
    {
      var op, rd := ThumbBits4(instr, 6), Low(instr, 0);
      var a := Reg(rd);
      var b := Reg(Low(instr, 3));
      if op == 0xD {
        var product := Wrap(Product(a, b));
        SetResult(rd, product);
        cycles := 1 + MultiplyCycles(a);
        return;
      }
      AluIsArm(View(), instr);
      cycles := ThumbAluOp(op, rd, a, b);
    }

    method ThumbAluOp(op: nat, rd: nat, a: uint32, b: uint32) returns (cycles: nat)
      requires op < 16 && op != 0xD && rd < 8 && a == View().Reg(rd)
      modifies this`regs, this`cpsr
      ensures cycles == if IsShift(op) then 2 else 1
      ensures IsShift(op) ==>
        var (r, c) := Shift(ShiftOf(op), b % 0x100, a, old(cpsr).c, false);
        View() == Placed(old(View()), 0xD, rd, a, r, c)
      ensures op == 0x9 ==> View() == Placed(old(View()), 0x3, rd, b, 0, old(cpsr).c)
      ensures !IsShift(op) && op != 0x9 ==> View() == Placed(old(View()), op, rd, a, b, old(cpsr).c)
    {
      cycles := 1;
      if op == 0x2 || op == 0x3 || op == 0x4 || op == 0x7 {
        var kind := if op == 0x7 then 3 else op - 2;
        var (r, c) := Shift(kind, b % 0x100, a, cpsr.c, false);
        PlacedMove(View(), rd, a, r, c);
        ThumbShift(kind, rd, a, b);
        cycles := cycles + 1;
      } else if op == 0x8 {
        var result := Logic(op, a, b);
        PlacedResult(View(), op, rd, a, b, cpsr.c, result);
        cpsr := cpsr.SetNZ(result);
      } else if op == 0x5 || op == 0x6 || op == 0x9 || op == 0xA || op == 0xB {
        ThumbArithmetic(op, rd, a, b);
      } else {
        var result := Logic(op, a, b);
        PlacedResult(View(), op, rd, a, b, cpsr.c, result);
        SetResult(rd, result);
      }
    }

    /** ADC, SBC, NEG, CMP and CMN. */
    method ThumbArithmetic(op: nat, rd: nat, a: uint32, b: uint32)
      requires (op == 0x5 || op == 0x6 || op == 0x9 || op == 0xA || op == 0xB) && rd < 8
      modifies this`regs, this`cpsr
      ensures View() ==
        if op == 0x9 then Placed(old(View()), 0x3, rd, b, 0, old(cpsr).c)
        else Placed(old(View()), op, rd, a, b, old(cpsr).c)
    {
      var carryIn := cpsr.c;
      PlacedSum(View(), op, rd, a, b, carryIn);
      PlacedDifference(View(), op, rd, a, b, carryIn);
      PlacedDifference(View(), 0x3, rd, b, 0, carryIn);
      if op == 0x5 {
        var r := DoAdd(a, b, carryIn, true);
        SetReg(rd, r);
      } else if op == 0x6 {
        var r := DoSub(a, b, carryIn, true);
        SetReg(rd, r);
      } else if op == 0x9 {
        var r := DoSub(0, b, true, true);
        SetReg(rd, r);
      } else if op == 0xA {
        var _ := DoSub(a, b, true, true);
      } else {
        var _ := DoAdd(a, b, false, true);
      }
    }

    method ThumbHighRegister(instr: bv16) returns (cycles: nat)
      modifies this`regs, this`cpsr
      ensures cycles >= 1
      ensures (View(), cycles) == HighRegister(old(View()), instr)
    {
      var op, rd := ThumbBits2(instr, 8), HighRd(instr);
      var source := View().RegPc(HighRs(instr), THUMB_AHEAD);
      var a := View().RegPc(rd, THUMB_AHEAD);
      cycles := 1;
      if op == 1 {
        var _ := DoSub(a, source, true, true);
      } else if op == 3 {
        BranchExchange(source);
        cycles := 3;
      } else {
        var result := if op == 0 then Add32(a, source) else source;
        if rd == 15 {
          SetPc(Align(result, true));
          cycles := 3;
        } else {
          SetReg(rd, result);
        }
      }
    }

    /** The base is R15 with its low bits cleared; the load is always of an aligned word. */
    method ThumbPcRelativeLoad(instr: bv16, bus: Bus) returns (cycles: nat)
      modifies this`regs
      ensures cycles == 3
      ensures View() == PcRelativeLoad(old(View()), bus.memory, instr)
    {
      var addr := Add32(Align(Add32(regs.pc, THUMB_AHEAD), false), ThumbImm8(instr) * 4);
      var value := bus.Read32(addr);
      SetReg(Low(instr, 8), value);
      cycles := 3;
    }

    /** The shared body of formats 7, 9 and 11: a byte or word to or from a low register. */
    method ThumbTransfer(load: bool, byte: bool, rn: nat, rd: nat, offset: nat, addr: uint32, bus: Bus) returns (cycles: nat)
      requires rd < 8 && rn < 15 && addr == Wrap(View().Reg(rn) + offset)
      modifies this`regs, bus
      ensures (View(), bus.memory, cycles) ==
        Transfer(old(View()), old(bus.memory), OffsetOp(load, DataWidth(byte), rn, rd, offset), interworkingLoads)
      ensures cycles >= 2
    {
      OffsetTransfer(View(), bus.memory, load, DataWidth(byte), rn, rd, offset, interworkingLoads);
      if load {
        var value := LoadData(byte, addr, bus);
        SetReg(rd, value);
        cycles := 3;
      } else {
        StoreData(byte, addr, View().Reg(rd), bus);
        cycles := 2;
      }
    }

    /** The shared body of formats 8 and 10. */
    method ThumbTransferHalf(load: bool, kind: nat, rn: nat, rd: nat, offset: nat, addr: uint32, bus: Bus) returns (cycles: nat)
      requires rd < 8 && rn < 15 && addr == Wrap(View().Reg(rn) + offset)
      modifies this`regs, bus
      ensures (View(), bus.memory, cycles) ==
        Transfer(old(View()), old(bus.memory), OffsetOp(load, HalfData(kind), rn, rd, offset), interworkingLoads)
      ensures cycles >= 2
    {
      OffsetTransfer(View(), bus.memory, load, HalfData(kind), rn, rd, offset, interworkingLoads);
      if load {
        var value := LoadHalf(kind, addr, bus);
        SetReg(rd, value);
        cycles := 3;
      } else {
        bus.Write16(addr, View().Reg(rd) % 0x1_0000);
        cycles := 2;
      }
    }

    method ThumbLoadStoreRegister(instr: bv16, bus: Bus) returns (cycles: nat)
      modifies this`regs, bus
      ensures cycles >= 2
      ensures (View(), bus.memory, cycles) == Transfer(old(View()), old(bus.memory), RegisterOp(old(View()), instr), interworkingLoads)
    {
      hide Transfer, Wrap;
      var offset := View().Reg(Low(instr, 6));
      var addr := Add32(View().Reg(Low(instr, 3)), offset);
      cycles := ThumbTransfer(instr & 0x0800 != 0, instr & 0x0400 != 0, Low(instr, 3), Low(instr, 0), offset, addr, bus);
    }

    method ThumbLoadStoreExtended(instr: bv16, bus: Bus) returns (cycles: nat)
      modifies this`regs, bus
      ensures cycles >= 2
      ensures (View(), bus.memory, cycles) == Transfer(old(View()), old(bus.memory), ExtendedOp(old(View()), instr), interworkingLoads)
    {
      hide Transfer, Wrap;
      var op, offset := ThumbBits2(instr, 10), View().Reg(Low(instr, 6));
      var addr := Add32(View().Reg(Low(instr, 3)), offset);
      // STRH, then LDRSB, LDRH and LDRSH.
      var kind := if op == 1 then 2 else if op == 3 then 3 else 1;
      cycles := ThumbTransferHalf(op != 0, kind, Low(instr, 3), Low(instr, 0), offset, addr, bus);
    }

    method ThumbLoadStoreImmediate(instr: bv16, bus: Bus) returns (cycles: nat)
      modifies this`regs, bus
      ensures cycles >= 2
      ensures (View(), bus.memory, cycles) == Transfer(old(View()), old(bus.memory), ImmediateOp(instr), interworkingLoads)
    {
      hide Transfer, Wrap;
      var offset := ScaledImm5(instr);
      var addr := Add32(View().Reg(Low(instr, 3)), offset);
      cycles := ThumbTransfer(instr & 0x0800 != 0, instr & 0x1000 != 0, Low(instr, 3), Low(instr, 0), offset, addr, bus);
    }

    method ThumbLoadStoreHalfword(instr: bv16, bus: Bus) returns (cycles: nat)
      modifies this`regs, bus
      ensures cycles >= 2
      ensures (View(), bus.memory, cycles) == Transfer(old(View()), old(bus.memory), HalfwordOp(instr), interworkingLoads)
    {
      hide Transfer, Wrap;
      var addr := Add32(View().Reg(Low(instr, 3)), ThumbImm5(instr) * 2);
      cycles := ThumbTransferHalf(instr & 0x0800 != 0, 1, Low(instr, 3), Low(instr, 0), ThumbImm5(instr) * 2, addr, bus);
    }

    method ThumbSpRelative(instr: bv16, bus: Bus) returns (cycles: nat)
      modifies this`regs, bus
      ensures cycles >= 2
      ensures (View(), bus.memory, cycles) == Transfer(old(View()), old(bus.memory), SpRelativeOp(instr), interworkingLoads)
    {
      hide Transfer, Wrap;
      var addr := Add32(View().Reg(13), ThumbImm8(instr) * 4);
      cycles := ThumbTransfer(instr & 0x0800 != 0, false, 13, Low(instr, 8), ThumbImm8(instr) * 4, addr, bus);
    }

    method ThumbLoadAddress(instr: bv16) returns (cycles: nat)
      modifies this`regs
      ensures cycles == 1
      ensures View() == LoadAddress(old(View()), instr)
    {
      var base := if instr & 0x0800 != 0 then View().Reg(13) else Align(Add32(regs.pc, THUMB_AHEAD), false);
      SetReg(Low(instr, 8), Add32(base, ThumbImm8(instr) * 4));
      cycles := 1;
    }

    method ThumbAdjustStackPointer(instr: bv16) returns (cycles: nat)
      modifies this`regs
      ensures cycles == 1
      ensures View() == StackPointerAdjusted(old(View()), instr)
    {
      var offset := ThumbImm7(instr) * 4;
      var sp := Reg(13);
      SetReg(13, if instr & 0x0080 != 0 then Sub32(sp, offset) else Add32(sp, offset));
      cycles := 1;
    }

    /** `push`/`pop`; with something to move, exactly `STMDB R13!`/`LDMIA R13!`. */
    method ThumbPushPop(instr: bv16, bus: Bus) returns (cycles: nat)
      modifies this`regs, this`cpsr, bus
      ensures cycles >= 1
      ensures (View(), bus.memory, cycles) == PushedOrPopped(old(View()), old(bus.memory), PushPopOp(instr), interworkingLoads)
    {
      cycles := PushPop(PushPopOp(instr), bus);
    }

    method PushPop(op: BlockOp, bus: Bus) returns (cycles: nat)
      requires IsPushOrPop(op)
      modifies this`regs, this`cpsr, bus
      ensures cycles >= 1 && (View(), bus.memory, cycles) == PushedOrPopped(old(View()), old(bus.memory), op, interworkingLoads)
    {
      ghost var before, m := View(), bus.memory;
      if op.load {
        cycles := Pop(op.list, bus);
        PopTransfer(before, m, op, interworkingLoads, View(), cycles);
      } else {
        cycles := Push(op.list, bus);
        PushTransfer(before, m, op, interworkingLoads, View(), bus.memory);
      }
    }

    method Push(list: RegList, bus: Bus) returns (cycles: nat)
      requires LowAnd(list, 14)
      modifies this`regs, bus
      ensures cycles == |Listed(list, 0)| + 1
      ensures View() == old(View()).WithReg(13, Wrap(old(View()).Reg(13) - 4 * |Listed(list, 0)|))
      ensures bus.memory == StoreWords(old(bus.memory), Wrap(old(View()).Reg(13) - 4 * |Listed(list, 0)|),
        StoredValues(old(View()), Listed(list, 0), 13, true, Some(Wrap(old(View()).Reg(13) - 4 * |Listed(list, 0)|)), false))
    {
      var count := |Listed(list, 0)|;
      var sp := Sub32(View().Reg(13), count * 4);
      ghost var core := View();
      ghost var result := StoreWords(bus.memory, sp, StoredValues(core, Listed(list, 0), 13, true, Some(sp), false));
      SetReg(13, sp);
      ghost var moved := core.WithReg(13, sp);
      var addr := sp;
      ghost var first := true;
      for reg := 0 to 8
        modifies bus
        invariant View() == moved
        invariant StoreWords(bus.memory, addr, StoredValues(core, Listed(list, reg), 13, first, Some(sp), false)) == result
      {
        StoreStep(bus.memory, addr, core, list, reg, 13, first, Some(sp), false);
        BesideBase(core, 13, sp, reg, first);
        if list[reg] {
          bus.Write32(addr, View().Reg(reg));
          addr := NextWord(addr);
          first := false;
        }
      }
      BesideBase(core, 13, sp, 14, first);
      LastStore(bus.memory, addr, core, list, 14, 13, first, Some(sp));
      if list[14] {
        bus.Write32(addr, View().Reg(14));
      }
      cycles := count + 1;
    }

    method Pop(list: RegList, bus: Bus) returns (cycles: nat)
      requires LowAnd(list, 15)
      modifies this`regs, this`cpsr
      ensures cycles == |Listed(list, 0)| + 2 + if list[15] then 2 else 0
      ensures View() == LoadFrom(old(View()).WithReg(13, Wrap(old(View()).Reg(13) + 4 * |Listed(list, 0)|)),
        old(cpsr).CurrentMode(), bus.memory, old(View()).Reg(13), Listed(list, 0), false, false, interworkingLoads)
    {
      var count := |Listed(list, 0)|;
      ghost var base: uint32 := View().Reg(13);
      ghost var final := Wrap(base + 4 * count);
      ghost var start := View().WithReg(13, final);
      var sp;
      ghost var core;
      sp, core := PopLow(list, final, start, bus);
      ghost var result := LastLoad(core, core.cpsr.CurrentMode(), bus.memory, sp, list, interworkingLoads);
      HighPart(list, 15);
      MovedUpIsSlot(base, count);
      cycles := count + 2;
      hide Listed, LoadFrom, LoadPc, Wrap, Word;
      if list[15] {
        core := PopPc(sp, final, core, bus);
        sp := NextWord(sp);
        cycles := cycles + 2;
      }
      assert result == core;
      assert sp == MovedUp(base, count) == final;
      SetReg(13, sp);
    }

    method PopPc(sp: uint32, ghost final: uint32, ghost core: Core, bus: Bus) returns (ghost next: Core)
      requires core == View().WithReg(13, final)
      modifies this`regs, this`cpsr
      ensures next == View().WithReg(13, final) && next == LoadPc(core, Word(bus.memory, sp), interworkingLoads)
    {
      var value := bus.Read32(sp);
      PcBesideBase(View(), value, final, interworkingLoads);
      next := LoadPc(core, value, interworkingLoads);
      SetPcFromLoad(value);
    }

    /**
     * The low registers come off first. `start` and `core` are the core before and after with the stack
     * pointer already at `final`, where it will be in the end.
     */
    method PopLow(list: RegList, ghost final: uint32, ghost start: Core, bus: Bus) returns (sp: uint32, ghost core: Core)
      requires start == View().WithReg(13, final)
      modifies this`regs
      ensures |Listed(list, 0)| >= |Listed(list, 8)| && sp == MovedUp(old(View()).Reg(13), |Listed(list, 0)| - |Listed(list, 8)|)
      ensures core == View().WithReg(13, final)
      ensures LoadFrom(core, cpsr.CurrentMode(), bus.memory, sp, Listed(list, 8), false, false, interworkingLoads) ==
        LoadFrom(start, cpsr.CurrentMode(), bus.memory, old(View()).Reg(13), Listed(list, 0), false, false, interworkingLoads)
    {
      core := start;
      sp := Reg(13);
      ghost var base, moved, mode := sp, 0, cpsr.CurrentMode();
      ghost var result := LoadFrom(start, mode, bus.memory, sp, Listed(list, 0), false, false, interworkingLoads);
      for reg := 0 to 8
        modifies this`regs
        invariant moved + |Listed(list, reg)| == |Listed(list, 0)| && sp == MovedUp(base, moved)
        invariant core == View().WithReg(13, final)
        invariant LoadFrom(core, mode, bus.memory, sp, Listed(list, reg), false, false, interworkingLoads) == result
      {
        LoadStep(core, mode, bus.memory, sp, list, reg, interworkingLoads);
        ListedStep(list, reg);
        if list[reg] {
          core := PopOne(reg, sp, final, core, bus);
          moved := moved + 1;
          sp := NextWord(sp);
        }
      }
    }

    method PopOne(reg: nat, sp: uint32, ghost final: uint32, ghost core: Core, bus: Bus) returns (ghost next: Core)
      requires reg < 8 && core == View().WithReg(13, final)
      modifies this`regs
      ensures next == View().WithReg(13, final)
      ensures next == LoadOne(core, cpsr.CurrentMode(), reg, Word(bus.memory, sp), false, false, interworkingLoads)
    {
      var value := bus.Read32(sp);
      LowBesideBase(View(), reg, value, final, interworkingLoads);
      next := LoadOne(core, cpsr.CurrentMode(), reg, value, false, false, interworkingLoads);
      SetReg(reg, value);
    }

    /** `stmia`/`ldmia` on a low base; with something to move, exactly the ARM instruction. */
    method ThumbBlockTransfer(instr: bv16, bus: Bus) returns (cycles: nat)
      modifies this`regs, this`cpsr, bus
      ensures cycles >= 1
      ensures (View(), bus.memory, cycles) == Multiple(old(View()), old(bus.memory), MultipleOp(instr), interworkingLoads)
    {
      var op := MultipleOp(instr);
      cycles := TransferMultiple(op, bus);
    }

    method TransferMultiple(op: BlockOp, bus: Bus) returns (cycles: nat)
      requires IsMultiple(op)
      modifies this`regs, bus
      ensures (View(), bus.memory, cycles) == Multiple(old(View()), old(bus.memory), op, interworkingLoads)
    {
      if Listed(op.list, 0) == [] {
        cycles := MoveNothing(op, bus);
      } else {
        PlainTransfer(View(), bus.memory, op, interworkingLoads);
        if op.load {
          cycles := LoadMultiple(op, bus);
        } else {
          cycles := StoreMultiple(op, bus);
        }
      }
    }

    method MoveNothing(op: BlockOp, bus: Bus) returns (cycles: nat)
      requires op.rn < 8
      modifies this`regs, bus
      ensures (View(), bus.memory, cycles) == MovedNothing(old(View()), old(bus.memory), op)
    {
      var addr := Reg(op.rn);
      if op.load {
        var value := bus.Read32(addr);
        SetPc(Align(value, true));
      } else {
        bus.Write32(addr, Add32(regs.pc, 2));
      }
      SetReg(op.rn, Add32(addr, 0x40));
      cycles := if op.load then 5 else 2;
    }

    method LoadMultiple(op: BlockOp, bus: Bus) returns (cycles: nat)
      requires IsMultiple(op)
      modifies this`regs
      ensures cycles == |Listed(op.list, 0)| + 2
      ensures View() == LoadFrom(old(View()).WithReg(op.rn, Wrap(old(View()).Reg(op.rn) + 4 * |Listed(op.list, 0)|)),
        old(cpsr).CurrentMode(), bus.memory, old(View()).Reg(op.rn), Listed(op.list, 0), false, false, interworkingLoads)
    {
      var addr := Reg(op.rn);
      SetReg(op.rn, Add32(addr, |Listed(op.list, 0)| * 4));
      ghost var core, mode := View(), cpsr.CurrentMode();
      ghost var result := LoadFrom(core, mode, bus.memory, addr, Listed(op.list, 0), false, false, interworkingLoads);
      for reg := 0 to 8
        modifies this`regs
        invariant core == View()
        invariant LoadFrom(core, mode, bus.memory, addr, Listed(op.list, reg), false, false, interworkingLoads) == result
      {
        LoadStep(core, mode, bus.memory, addr, op.list, reg, interworkingLoads);
        if op.list[reg] {
          core := LoadLow(reg, addr, core, bus);
          addr := NextWord(addr);
        }
      }
      var _ := LastLoad(core, mode, bus.memory, addr, op.list, interworkingLoads);
      cycles := |Listed(op.list, 0)| + 2;
    }

    method LoadLow(reg: nat, addr: uint32, ghost core: Core, bus: Bus) returns (ghost next: Core)
      requires reg < 8 && core == View()
      modifies this`regs
      ensures next == View() && next == LoadOne(core, cpsr.CurrentMode(), reg, Word(bus.memory, addr), false, false, interworkingLoads)
    {
      var value := bus.Read32(addr);
      SetReg(reg, value);
      next := View();
    }

    method StoreMultiple(op: BlockOp, bus: Bus) returns (cycles: nat)
      requires IsMultiple(op)
      modifies this`regs, bus
      ensures cycles == |Listed(op.list, 0)| + 1
      ensures var wb := Wrap(old(View()).Reg(op.rn) + 4 * |Listed(op.list, 0)|);
        View() == old(View()).WithReg(op.rn, wb) &&
        bus.memory == StoreWords(old(bus.memory), old(View()).Reg(op.rn),
          StoredValues(old(View()), Listed(op.list, 0), op.rn, true, Some(wb), false))
    {
      var addr := Reg(op.rn);
      var writeback := Add32(addr, |Listed(op.list, 0)| * 4);
      ghost var core, wb := View(), Some(writeback);
      ghost var result := StoreWords(bus.memory, addr, StoredValues(core, Listed(op.list, 0), op.rn, true, wb, false));
      var first := true;
      for reg := 0 to 8
        modifies bus
        invariant View() == core
        invariant StoreWords(bus.memory, addr, StoredValues(core, Listed(op.list, reg), op.rn, first, wb, false)) == result
      {
        StoreStep(bus.memory, addr, core, op.list, reg, op.rn, first, wb, false);
        if op.list[reg] {
          var value := if reg == op.rn && !first then writeback else View().Reg(reg);
          bus.Write32(addr, value);
          addr := NextWord(addr);
          first := false;
        }
      }
      LastStore(bus.memory, addr, core, op.list, 15, op.rn, first, wb);
      SetReg(op.rn, writeback);
      cycles := |Listed(op.list, 0)| + 1;
    }

    method ThumbConditionalBranch(instr: bv16) returns (cycles: nat)
      modifies this`regs
      ensures cycles >= 1
      ensures (View(), cycles) == ConditionalBranch(old(View()), instr)
    {
      if !cpsr.PassesCondition(ThumbBits4(instr, 8)) {
        return 1;
      }
      SetPc(Align(Add32(regs.pc + THUMB_AHEAD, 2 * SignedImm8(instr)), true));
      cycles := 3;
    }

    method ThumbBranch(instr: bv16) returns (cycles: nat)
      modifies this`regs
      ensures cycles == 3
      ensures View() == ThumbBranched(old(View()), instr)
    {
      SetPc(Align(Add32(regs.pc + THUMB_AHEAD, 2 * SignedImm11(instr)), true));
      cycles := 3;
    }

    /** `BL` is two instructions; an interrupt can land between them. */
    method ThumbLongBranchLink(instr: bv16) returns (cycles: nat)
      modifies this`regs
      ensures cycles >= 1
      ensures (View(), cycles) == LongBranch(old(View()), instr)
    {
      if instr & 0x0800 == 0 {
        SetReg(14, Add32(regs.pc + THUMB_AHEAD, 0x1000 * SignedImm11(instr)));
        cycles := 1;
      } else {
        var returnAddress := regs.pc;
        var target := Add32(View().Reg(14), 2 * ThumbImm11(instr));
        SetPc(Align(target, true));
        SetReg(14, OddAddress(returnAddress));
        cycles := 3;
      }
    }

    method ExecuteThumb(instr: bv16, bus: Bus) returns (cycles: nat)
      modifies this`regs, this`cpsr, bus
      ensures cycles >= 1
      ensures (View(), bus.memory, cycles) == ThumbExecuted(old(View()), old(bus.memory), instr, interworkingLoads, exceptionBase)
    {
      hide Transfer, PushedOrPopped, Multiple, PushPopOp, MultipleOp, RegisterOp, ExtendedOp, ImmediateOp, HalfwordOp, SpRelativeOp;
      hide MoveShifted, AddSubtract, Immediate, RegisterAlu, HighRegister, PcRelativeLoad, LoadAddress, StackPointerAdjusted;
      hide ConditionalBranch, ThumbBranched, LongBranch, Raise;
      var top := ThumbBits4(instr, 12);
      if top <= 1 {
        if instr & 0x1800 == 0x1800 {
          cycles := ThumbAddSubtract(instr);
        } else {
          cycles := ThumbMoveShifted(instr);
        }
      } else if top <= 3 {
        cycles := ThumbImmediate(instr);
      } else if top == 4 {
        var page := ThumbBits2(instr, 10);
        if page == 0 {
          cycles := ThumbAlu(instr);
        } else if page == 1 {
          cycles := ThumbHighRegister(instr);
        } else {
          cycles := ThumbPcRelativeLoad(instr, bus);
        }
      } else if top == 5 {
        if instr & 0x0200 != 0 {
          cycles := ThumbLoadStoreExtended(instr, bus);
        } else {
          cycles := ThumbLoadStoreRegister(instr, bus);
        }
      } else if top <= 7 {
        cycles := ThumbLoadStoreImmediate(instr, bus);
      } else if top == 8 {
        cycles := ThumbLoadStoreHalfword(instr, bus);
      } else if top == 9 {
        cycles := ThumbSpRelative(instr, bus);
      } else if top == 0xA {
        cycles := ThumbLoadAddress(instr);
      } else if top == 0xB && instr & 0x0F00 == 0x0000 {
        cycles := ThumbAdjustStackPointer(instr);
      } else if top == 0xB && instr & 0x0600 == 0x0400 {
        cycles := ThumbPushPop(instr, bus);
      } else if top == 0xC {
        cycles := ThumbBlockTransfer(instr, bus);
      } else if top == 0xD && ThumbBits4(instr, 8) == 0xF {
        TakeSoftwareInterrupt();
        cycles := 3;
      } else if top == 0xD && ThumbBits4(instr, 8) != 0xE {
        cycles := ThumbConditionalBranch(instr);
      } else if top == 0xE && instr & 0x0800 == 0 {
        cycles := ThumbBranch(instr);
      } else if top == 0xF {
        cycles := ThumbLongBranchLink(instr);
      } else {
        TakeUndefinedInstruction();
        cycles := 3;
      }
    }

    method StepThumb(bus: Bus) returns (cycles: nat)
      modifies this`regs, this`cpsr, bus
      ensures (View(), bus.memory, cycles) == ThumbStepped(old(View()), old(bus.memory), interworkingLoads, exceptionBase)
      ensures cycles >= 1
    {
      hide ThumbExecuted, HalfAt, HalfEncoded;
      var addr := Align(regs.pc, true);
      var half := bus.Read16(addr);
      SetPc(Add32(addr, 2));
      cycles := ExecuteThumb(HalfEncoded(half), bus);
    }

    // -- Stepping ---------------------------------------------------------------

    /** Exceptions are taken between instructions, FIQ before IRQ; an asserted line wakes a sleeping core even when masked. */
    method Step(bus: Bus) returns (cycles: nat)
      modifies this`regs, this`cpsr, this`halted, bus
      ensures (View(), bus.memory, cycles, halted) ==
        Stepped(old(View()), old(bus.memory), old(Lines(irqLine, fiqLine, halted)), interworkingLoads, exceptionBase)
      ensures cycles >= 1
    {
      hide ArmStepped, ThumbStepped;
      if fiqLine && !cpsr.f {
        halted := false;
        EnterException(FastInterrupt, Add32(regs.pc, 4));
        return 3;
      }
      if irqLine && !cpsr.i {
        halted := false;
        EnterException(Interrupt, Add32(regs.pc, 4));
        return 3;
      }
      if halted {
        if irqLine || fiqLine {
          halted := false;
        } else {
          return 1;
        }
      }
      if cpsr.t {
        cycles := StepThumb(bus);
      } else {
        cycles := StepArm(bus);
      }
    }
  }

  // ---------------------------------------------------------------------------
  // THUMB block transfers as ARM ones
  // ---------------------------------------------------------------------------

  lemma HighPart(list: RegList, extra: nat)
    requires LowAnd(list, extra) && 14 <= extra <= 15
    ensures Listed(list, 8) == if list[extra] then [extra] else []
  {
    HighPartFrom(list, 8, extra);
  }

  lemma {:induction false} HighPartFrom(list: RegList, from: nat, extra: nat)
    requires LowAnd(list, extra) && 8 <= from <= 16 && 14 <= extra <= 15
    ensures Listed(list, from) == if from <= extra && list[extra] then [extra] else []
    decreases 16 - from
  {
    if from < 16 {
      HighPartFrom(list, from + 1, extra);
    }
  }

  lemma StoreStep(m: Memory, addr: uint32, core: Core, list: RegList, reg: nat, rn: nat, first: bool, wb: Option<uint32>, userBank: bool)
    requires reg < 16
    ensures StoreWords(m, addr, StoredValues(core, Listed(list, reg), rn, first, wb, userBank)) ==
      if list[reg] then
        StoreWords(m[addr / 4 := StoredValue(core, reg, rn, first, wb, userBank)], NextWord(addr),
                   StoredValues(core, Listed(list, reg + 1), rn, false, wb, userBank))
      else StoreWords(m, addr, StoredValues(core, Listed(list, reg + 1), rn, first, wb, userBank))
  {
    ListedStep(list, reg);
    if list[reg] {
      ValuesStep(core, Listed(list, reg), rn, first, wb, userBank);
      WordsStep(m, addr, StoredValues(core, Listed(list, reg), rn, first, wb, userBank));
    }
  }

  lemma ValuesStep(core: Core, rs: seq<nat>, rn: nat, first: bool, wb: Option<uint32>, userBank: bool)
    requires rs != [] && forall i :: 0 <= i < |rs| ==> rs[i] < 16
    ensures var values := StoredValues(core, rs, rn, first, wb, userBank);
      values[0] == StoredValue(core, rs[0], rn, first, wb, userBank) &&
      values[1..] == StoredValues(core, rs[1..], rn, false, wb, userBank)
  {
  }

  lemma WordsStep(m: Memory, addr: uint32, values: seq<uint32>)
    requires values != []
    ensures StoreWords(m, addr, values) == StoreWords(m[addr / 4 := values[0]], NextWord(addr), values[1..])
  {
  }

  /** Storing away from the base, R15 aside, is unaffected by the base having moved already. */
  lemma BesideBase(core: Core, rn: nat, value: uint32, reg: nat, first: bool)
    requires rn < 15 && reg < 15 && reg != rn
    ensures StoredValue(core, reg, rn, first, Some(value), false) == core.WithReg(rn, value).Reg(reg)
  {
    BankingLaw(core.regs, core.cpsr.CurrentMode(), rn, value, core.cpsr.CurrentMode(), reg);
  }

  /** Past R7 at most one register is left to store. */
  lemma LastStore(m: Memory, addr: uint32, core: Core, list: RegList, extra: nat, rn: nat, first: bool, wb: Option<uint32>)
    requires LowAnd(list, extra) && 14 <= extra <= 15
    ensures StoreWords(m, addr, StoredValues(core, Listed(list, 8), rn, first, wb, false)) ==
      if list[extra] then m[addr / 4 := StoredValue(core, extra, rn, first, wb, false)] else m
  {
    HighPart(list, extra);
    if list[extra] {
      ValuesStep(core, [extra], rn, first, wb, false);
      WordsStep(m, addr, StoredValues(core, [extra], rn, first, wb, false));
      hide StoredValue, Listed, NextWord;
    }
  }

  lemma LoadStep(core: Core, mode: Mode, m: Memory, addr: uint32, list: RegList, reg: nat, interworking: bool)
    requires reg < 16
    ensures LoadFrom(core, mode, m, addr, Listed(list, reg), false, false, interworking) ==
      if list[reg] then
        LoadFrom(LoadOne(core, mode, reg, Word(m, addr), false, false, interworking), mode, m, NextWord(addr),
                 Listed(list, reg + 1), false, false, interworking)
      else LoadFrom(core, mode, m, addr, Listed(list, reg + 1), false, false, interworking)
  {
    ListedStep(list, reg);
  }

  /** Past R7 only R15 is left to load. */
  lemma LastLoad(core: Core, mode: Mode, m: Memory, addr: uint32, list: RegList, interworking: bool) returns (result: Core)
    requires LowAnd(list, 15)
    ensures result == LoadFrom(core, mode, m, addr, Listed(list, 8), false, false, interworking)
    ensures result == if list[15] then LoadPc(core, Word(m, addr), interworking) else core
  {
    HighPart(list, 15);
    result := if list[15] then LoadPc(core, Word(m, addr), interworking) else core;
    if list[15] {
      LoadJustPc(core, mode, m, addr, interworking);
    }
  }

  lemma LoadJustPc(core: Core, mode: Mode, m: Memory, addr: uint32, interworking: bool)
    ensures LoadFrom(core, mode, m, addr, [15], false, false, interworking) == LoadPc(core, Word(m, addr), interworking)
  {
    var next := LoadOne(core, mode, 15, Word(m, addr), false, false, interworking);
    assert LoadFrom(next, mode, m, NextWord(addr), [], false, false, interworking) == next;
  }

  /** Loading a low register commutes with moving the stack pointer. */
  lemma LowBesideBase(core: Core, reg: nat, value: uint32, sp: uint32, interworking: bool)
    requires reg < 8
    ensures LoadOne(core.WithReg(13, sp), core.cpsr.CurrentMode(), reg, value, false, false, interworking) ==
      core.WithReg(reg, value).WithReg(13, sp)
  {
  }

  lemma PcBesideBase(core: Core, value: uint32, sp: uint32, interworking: bool)
    ensures LoadPc(core.WithReg(13, sp), value, interworking) == LoadPc(core, value, interworking).WithReg(13, sp)
    ensures LoadPc(core, value, interworking).cpsr.CurrentMode() == core.cpsr.CurrentMode()
  {
  }

  /** A stack pointer that has moved up `n` words one by one. */
  function MovedUp(base: uint32, n: nat): uint32 {
    if n == 0 then base else NextWord(MovedUp(base, n - 1))
  }

  lemma {:induction false} MovedUpIsSlot(base: uint32, n: nat)
    ensures MovedUp(base, n) == Wrap(base + 4 * n)
  {
    if n > 0 {
      MovedUpIsSlot(base, n - 1);
      NextWordWraps(MovedUp(base, n - 1));
      ModEarly(base + 4 * (n - 1), 4, TWO32);
    } else {
      SmallMod(base, TWO32);
    }
  }

  /** A block transfer with writeback that moves something, without the S bit. */
  lemma PlainTransfer(core: Core, m: Memory, op: BlockOp, interworking: bool)
    requires op.rn < 14 && op.writeback && !op.psrOrUser && Listed(op.list, 0) != []
    ensures var rs, b := Listed(op.list, 0), BlockOf(core, op);
      BlockTransfer(core, m, op, interworking) ==
        if op.load then
          (LoadFrom(core.WithReg(op.rn, b.writeback), core.cpsr.CurrentMode(), m, b.start, rs, false, false, interworking), m,
           |rs| + 2 + if op.list[15] then 2 else 0)
        else
          (core.WithReg(op.rn, b.writeback),
           StoreWords(m, b.start, StoredValues(core, rs, op.rn, true, Some(b.writeback), false)), |rs| + 1)
  {
    ListedMember(op.list, 0, 15);
  }

  lemma StackPointerUnmoved(core: Core)
    ensures core.WithReg(13, Wrap(core.Reg(13))) == core
  {
    var r := core.regs;
    assert r.sp[Bank(core.cpsr.CurrentMode()) := r.sp[Bank(core.cpsr.CurrentMode())]] == r.sp;
  }

  lemma PopTransfer(core: Core, m: Memory, op: BlockOp, interworking: bool, core': Core, cycles: nat)
    requires IsPushOrPop(op) && op.load
    requires var rs, sp := Listed(op.list, 0), core.Reg(13);
      core' == LoadFrom(core.WithReg(13, Wrap(sp + 4 * |rs|)), core.cpsr.CurrentMode(), m, sp, rs, false, false, interworking) &&
      cycles == |rs| + 2 + if op.list[15] then 2 else 0
    ensures (core', m, cycles) == PushedOrPopped(core, m, op, interworking)
  {
    if Listed(op.list, 0) != [] {
      PlainTransfer(core, m, op, interworking);
    } else {
      StackPointerUnmoved(core);
      ListedMember(op.list, 0, 15);
    }
  }

  lemma PushTransfer(core: Core, m: Memory, op: BlockOp, interworking: bool, core': Core, m': Memory)
    requires IsPushOrPop(op) && !op.load
    requires var rs := Listed(op.list, 0);
      var sp := Wrap(core.Reg(13) - 4 * |rs|);
      core' == core.WithReg(13, sp) && m' == StoreWords(m, sp, StoredValues(core, rs, 13, true, Some(sp), false))
    ensures (core', m', |Listed(op.list, 0)| + 1) == PushedOrPopped(core, m, op, interworking)
  {
    hide Listed, BlockTransfer, Wrap, LowAnd;
    if Listed(op.list, 0) != [] {
      PlainTransfer(core, m, op, interworking);
      hide StoreWords, StoredValues;
    } else {
      StackPointerUnmoved(core);
    }
  }

  lemma ListedStep(list: RegList, reg: nat)
    requires reg < 16
    ensures list[reg] ==> Listed(list, reg) != [] && Listed(list, reg)[0] == reg && Listed(list, reg)[1..] == Listed(list, reg + 1)
    ensures !list[reg] ==> Listed(list, reg) == Listed(list, reg + 1)
  {
  }
}
