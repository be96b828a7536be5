/**
 * The SM83 core: a full interpreter whose every bus access is ticked as it happens, and what remains of the
 * table's cost afterwards.
 */
module Sm83Core {
  import opened Words
  import opened Sm83Timing
  import opened Sm83Alu
  import opened Sm83Machine

  class Bus {
    var memory: Memory
    /** Every cycle the bus has been told of. */
    var ticks: nat

    function Peek(addr: nat): uint8
      reads this`memory
    {
      At(memory, addr)
    }

    method Tick(cycles: nat)
      modifies this`ticks
      ensures ticks == old(ticks) + cycles
    {
      ticks := ticks + cycles;
    }

    method Write8(addr: nat, value: uint8)
      modifies this`memory
      ensures memory == old(memory)[addr := value]
    {
      memory := memory[addr := value];
    }
  }

  class Sm83 {
    var a: uint8
    var f: bv8
    var b: uint8
    var c: uint8
    var d: uint8
    var e: uint8
    var h: uint8
    var l: uint8
    var sp: uint16
    var pc: uint16
    var ime: bool
    var imeDispatchInhibited: bool
    var halted: bool
    var stopped: bool
    var haltBug: bool
    var locked: bool
    /** Cycles already reported to the bus by the instruction in flight. */
    var ticked: nat

    function View(): Cpu
      reads this
    {
      Cpu(a, f, b, c, d, e, h, l, sp, pc, ime, imeDispatchInhibited, halted, stopped, haltBug, locked)
    }

    constructor ()
      ensures View() == Cpu(0, 0, 0, 0, 0, 0, 0, 0, 0, 0, false, false, false, false, false, false) && ticked == 0
    {
      a, f, b, c, d, e, h, l := 0, 0, 0, 0, 0, 0, 0, 0;
      sp, pc, ticked := 0, 0, 0;
      ime, imeDispatchInhibited, halted, stopped, haltBug, locked := false, false, false, false, false, false;
    }

    // -- Pairs and flags --------------------------------------------------------

    method SetPair(index: nat, v: uint16)
      modifies this`b, this`c, this`d, this`e, this`h, this`l, this`sp
      ensures View() == old(View()).WithPair(index, v)
    {
      if index == 0 {
        b, c := v / 0x100, v % 0x100;
      } else if index == 1 {
        d, e := v / 0x100, v % 0x100;
      } else if index == 2 {
        h, l := v / 0x100, v % 0x100;
      } else {
        sp := v;
      }
    }

    method SetAf(v: uint16)
      modifies this`a, this`f
      ensures View() == old(View()).WithAf(v)
    {
      a := v / 0x100;
      f := FlagByte(v % 0x100);
    }

    predicate Flag(mask: bv8)
      reads this`f
    {
      f & mask != 0
    }

    method SetFlag(mask: bv8, on: bool)
      modifies this`f
      ensures f == WithFlag(old(f), mask, on)
    {
      if on {
        f := f | mask;
      } else {
        f := f & !mask;
      }
    }

    method SetFlags(zero: bool, negative: bool, half: bool, carry: bool)
      modifies this`f
      ensures f == Flags(zero, negative, half, carry)
    {
      f := Flags(zero, negative, half, carry);
    }

    // -- Bus cycles ---------------------------------------------------------------

    method BusRead(bus: Bus, addr: nat) returns (value: uint8)
      modifies this`ticked, bus`ticks
      ensures value == At(bus.memory, addr) && ticked == old(ticked) + 4 && bus.ticks == old(bus.ticks) + 4
    {
      bus.Tick(4);
      ticked := ticked + 4;
      value := bus.Peek(addr);
    }

    method BusWrite(bus: Bus, addr: nat, value: uint8)
      modifies this`ticked, bus
      ensures bus.memory == old(bus.memory)[addr := value] && ticked == old(ticked) + 4 && bus.ticks == old(bus.ticks) + 4
    {
      bus.Tick(4);
      ticked := ticked + 4;
      bus.Write8(addr, value);
    }

    method TickRemaining(bus: Bus, total: nat)
      modifies this`ticked, bus`ticks
      ensures ticked == 0 && bus.ticks == old(bus.ticks) + if total > old(ticked) then total - old(ticked) else 0
    {
      if total > ticked {
        bus.Tick(total - ticked);
      }
      ticked := 0;
    }

    /** Where the HALT bug shows: the byte is read, but PC stays. */
    method FetchOpcode(bus: Bus) returns (op: uint8)
      modifies this`ticked, this`pc, this`haltBug, bus`ticks
      ensures op == At(bus.memory, old(pc)) && View() == Fetched(old(View()))
      ensures ticked == old(ticked) + 4 && bus.ticks == old(bus.ticks) + 4
    {
      op := BusRead(bus, pc);
      if haltBug {
        haltBug := false;
      } else {
        pc := Wrap16(pc + 1);
      }
    }

    method Fetch8(bus: Bus) returns (value: uint8)
      modifies this`ticked, this`pc, bus`ticks
      ensures value == At(bus.memory, old(pc)) && View() == old(View()).Past(1)
      ensures ticked == old(ticked) + 4 && bus.ticks == old(bus.ticks) + 4
    {
      value := BusRead(bus, pc);
      pc := Wrap16(pc + 1);
    }

    method Fetch16(bus: Bus) returns (value: uint16)
      modifies this`ticked, this`pc, bus`ticks
      ensures value == WordAt(bus.memory, old(pc)) && View() == old(View()).Past(2)
      ensures ticked == old(ticked) + 8 && bus.ticks == old(bus.ticks) + 8
    {
      var lo := Fetch8(bus);
      var hi := Fetch8(bus);
      value := Word16(lo, hi);
    }

    method Push16(bus: Bus, value: uint16)
      modifies this`ticked, this`sp, bus
      ensures (View(), bus.memory) == PushExecuted(old(View()), old(bus.memory), value)
      ensures ticked == old(ticked) + 8 && bus.ticks == old(bus.ticks) + 8
    {
      sp := Wrap16((sp as int) - 1);
      BusWrite(bus, sp, value / 0x100);
      sp := Wrap16((sp as int) - 1);
      BusWrite(bus, sp, value % 0x100);
    }

    method Pop16(bus: Bus) returns (value: uint16)
      modifies this`ticked, this`sp, bus`ticks
      ensures View() == old(View()).(sp := Wrap16(old(sp) + 2)) && value == WordAt(bus.memory, old(sp))
      ensures ticked == old(ticked) + 8 && bus.ticks == old(bus.ticks) + 8
    {
      var lo := BusRead(bus, sp);
      sp := Wrap16(sp + 1);
      var hi := BusRead(bus, sp);
      sp := Wrap16(sp + 1);
      value := Word16(lo, hi);
    }

    // -- Operands -------------------------------------------------------------------

    method ReadR(index: nat, bus: Bus) returns (value: uint8)
      requires index < 8
      modifies this`ticked, bus`ticks
      ensures value == View().Operand(index, bus.memory)
      ensures ticked == old(ticked) + 4 * Indirect(index) && bus.ticks == old(bus.ticks) + 4 * Indirect(index)
    {
      if index == 0 {
        value := b;
      } else if index == 1 {
        value := c;
      } else if index == 2 {
        value := d;
      } else if index == 3 {
        value := e;
      } else if index == 4 {
        value := h;
      } else if index == 5 {
        value := l;
      } else if index == 6 {
        value := BusRead(bus, View().Hl());
      } else {
        value := a;
      }
    }

    method WriteR(index: nat, bus: Bus, value: uint8)
      requires index < 8
      modifies this`a, this`b, this`c, this`d, this`e, this`h, this`l, this`ticked, bus
      ensures (View(), bus.memory) == old(View()).WithOperand(index, old(bus.memory), value)
      ensures ticked == old(ticked) + 4 * Indirect(index) && bus.ticks == old(bus.ticks) + 4 * Indirect(index)
    {
      if index == 0 {
        b := value;
      } else if index == 1 {
        c := value;
      } else if index == 2 {
        d := value;
      } else if index == 3 {
        e := value;
      } else if index == 4 {
        h := value;
      } else if index == 5 {
        l := value;
      } else if index == 6 {
        BusWrite(bus, View().Hl(), value);
      } else {
        a := value;
      }
    }

    // -- Arithmetic -------------------------------------------------------------------

    method AluAdd(value: uint8, carryIn: bool)
      modifies this`a, this`f
      ensures var (r, half, carry) := Add8(old(a), value, carryIn); a == r && f == Flags(r == 0, false, half, carry)
    {
      var carry := if carryIn then 1 else 0;
      var result := (a as int) + value + carry;
      var half := (a as int) % 16 + value % 16 + carry > 0x0F;
      a := result % 0x100;
      SetFlags(a == 0, false, half, result > 0xFF);
    }

    method AluSub(value: uint8, carryIn: bool)
      modifies this`a, this`f
      ensures var (r, half, borrow) := Sub8(old(a), value, carryIn); a == r && f == Flags(r == 0, true, half, borrow)
    {
      var carry := if carryIn then 1 else 0;
      var result := (a as int) - value - carry;
      var half, borrow := (a as int) % 16 < value % 16 + carry, (a as int) < value + carry;
      a := result % 0x100;
      SetFlags(a == 0, true, half, borrow);
    }

    method AluOp(which: nat, value: uint8)
      requires which < 8
      modifies this`a, this`f
      ensures View() == AluDone(old(View()), which, value)
    {
      hide AluResult;
      Operate(which, value);
    }

    method Operate(which: nat, value: uint8)
      requires which < 8
      modifies this`a, this`f
      ensures (a, f) == AluResult(which, old(a), value, old(Flag(FLAG_C)))
    {
      hide And8, Or8, Xor8, Flags, Add8, Sub8;
      if which == 0 {
        AluAdd(value, false);
      } else if which == 1 {
        AluAdd(value, Flag(FLAG_C));
      } else if which == 2 {
        AluSub(value, false);
      } else if which == 3 {
        AluSub(value, Flag(FLAG_C));
      } else if which == 4 {
        a := And8(a, value);
        SetFlags(a == 0, false, true, false);
      } else if which == 5 {
        a := Xor8(a, value);
        SetFlags(a == 0, false, false, false);
      } else if which == 6 {
        a := Or8(a, value);
        SetFlags(a == 0, false, false, false);
      } else {
        var kept := a;
        AluSub(value, false);
        a := kept;
      }
    }

    method AluInc(value: uint8) returns (result: uint8)
      modifies this`f
      ensures (result, f) == Stepped8(true, value, old(f))
    {
      result := (value + 1) % 0x100;
      SetFlag(FLAG_Z, result == 0);
      SetFlag(FLAG_N, false);
      SetFlag(FLAG_H, value % 16 == 0x0F);
    }

    method AluDec(value: uint8) returns (result: uint8)
      modifies this`f
      ensures (result, f) == Stepped8(false, value, old(f))
    {
      result := ((value as int) - 1) % 0x100;
      SetFlag(FLAG_Z, result == 0);
      SetFlag(FLAG_N, true);
      SetFlag(FLAG_H, value % 16 == 0);
    }

    method AddHl(value: uint16)
      modifies this
      ensures View() == old(View()).(f := Add16(old(View()).Hl(), value, old(f)).1).WithPair(2, Add16(old(View()).Hl(), value, old(f)).0)
      ensures ticked == old(ticked)
    {
      hide WithFlag;
      var hl: int := View().Hl();
      var result := hl + value;
      var half := hl % 0x1000 + value % 0x1000 > 0x0FFF;
      SetPair(2, Wrap16(result));
      SetFlag(FLAG_N, false);
      SetFlag(FLAG_H, half);
      SetFlag(FLAG_C, result > 0xFFFF);
    }

    method AddSpOffset(offset: uint8) returns (result: uint16)
      modifies this`f
      ensures (result, f) == AddSp(sp, offset)
    {
      var half := (sp as int) % 16 + offset % 16 > 0x0F;
      var carry := (sp as int) % 0x100 + offset > 0xFF;
      SetFlags(false, false, half, carry);
      result := Wrap16((sp as int) + SignedByte(offset));
    }

    method Daa()
      modifies this`a, this`f
      ensures View() == DecimalAdjusted(old(View()))
    {
      hide WithFlag;
      var correction := 0;
      var carry := Flag(FLAG_C);
      if Flag(FLAG_H) || (!Flag(FLAG_N) && a % 16 > 0x09) {
        correction := correction + 0x06;
      }
      if Flag(FLAG_C) || (!Flag(FLAG_N) && a > 0x99) {
        correction := correction + 0x60;
        carry := true;
      }
      a := if Flag(FLAG_N) then ((a as int) - correction) % 0x100 else ((a as int) + correction) % 0x100;
      SetFlag(FLAG_Z, a == 0);
      SetFlag(FLAG_H, false);
      SetFlag(FLAG_C, carry);
    }

    method Rotate(which: nat, value: uint8) returns (result: uint8)
      requires which < 8
      modifies this`f
      ensures var (r, carry) := Rotated(which, value, old(Flag(FLAG_C)));
        result == r && f == Flags(r == 0, false, false, carry)
    {
      var (r, carry) := Rotated(which, value, Flag(FLAG_C));
      result := r;
      SetFlags(result == 0, false, false, carry);
    }

    method Halt(bus: Bus)
      modifies this`haltBug, this`halted
      ensures View() == Halted(old(View()), bus.memory)
    {
      var pending := PendingBits(bus.Peek(IF_ADDR), bus.Peek(IE_ADDR));
      if !ime && pending != 0 {
        haltBug := true;
      } else {
        halted := true;
      }
    }

    // -- Opcodes below 0x40 -----------------------------------------------------------

    method MoveA(op: uint8, bus: Bus)
      requires op < 0x40 && op % 8 == 2
      modifies this, bus
      ensures (View(), bus.memory) == TransferA(old(View()), old(bus.memory), op)
      ensures ticked == old(ticked) + 4 && bus.ticks == old(bus.ticks) + 4
    {
      var addr := if op / 16 == 0 then View().Bc() else if op / 16 == 1 then View().De() else View().Hl();
      if op % 16 == 2 {
        BusWrite(bus, addr, a);
      } else {
        a := BusRead(bus, addr);
      }
      if op / 16 == 2 {
        SetPair(2, Wrap16(addr + 1));
      } else if op / 16 == 3 {
        SetPair(2, Wrap16((addr as int) - 1));
      }
    }

    method WriteSp(bus: Bus)
      modifies this, bus
      ensures (View(), bus.memory) == StoreSp(old(View()), old(bus.memory))
      ensures ticked == old(ticked) + 16 && bus.ticks == old(bus.ticks) + 16
    {
      var addr := Fetch16(bus);
      BusWrite(bus, addr, sp % 0x100);
      BusWrite(bus, (addr as int) + 1, sp / 0x100);
    }

    method StepR(op: uint8, bus: Bus)
      requires op < 0x40 && (op % 8 == 4 || op % 8 == 5)
      modifies this, bus
      ensures (View(), bus.memory) == StepOperand(old(View()), old(bus.memory), op)
      ensures ticked == old(ticked) + 8 * Indirect(op / 8) && bus.ticks == old(bus.ticks) + 8 * Indirect(op / 8)
    {
      hide Stepped8;
      var index := op / 8;
      var v := ReadR(index, bus);
      if op % 8 == 4 {
        v := AluInc(v);
      } else {
        v := AluDec(v);
      }
      WriteR(index, bus, v);
    }

    method RotateAccumulator(op: uint8)
      requires op < 0x20 && op % 8 == 7
      modifies this`a, this`f
      ensures View() == RotateA(old(View()), op)
    {
      hide WithFlag, Flags, Rotated;
      a := Rotate(op / 8, a);
      SetFlag(FLAG_Z, false);
    }

    method Adjust(op: uint8)
      requires op == 0x27 || op == 0x2F || op == 0x37 || op == 0x3F
      modifies this`a, this`f
      ensures View() == AdjustFlags(old(View()), op)
    {
      hide WithFlag, DecimalAdjusted;
      if op == 0x27 {
        Daa();
      } else if op == 0x2F {
        a := 0xFF - a;
        SetFlag(FLAG_N, true);
        SetFlag(FLAG_H, true);
      } else {
        var carry := if op == 0x37 then true else !Flag(FLAG_C);
        SetFlag(FLAG_N, false);
        SetFlag(FLAG_H, false);
        SetFlag(FLAG_C, carry);
      }
    }

    method BranchRelative(op: uint8, bus: Bus) returns (taken: bool)
      requires op == 0x18 || op == 0x20 || op == 0x28 || op == 0x30 || op == 0x38
      modifies this`pc, this`ticked, bus`ticks
      ensures (View(), taken) == JumpRelative(old(View()), bus.memory, op)
      ensures ticked == old(ticked) + 4 && bus.ticks == old(bus.ticks) + 4
    {
      var offset := Fetch8(bus);
      taken := op == 0x18 || View().Condition(op / 8);
      if taken {
        pc := Wrap16((pc as int) + SignedByte(offset));
      }
    }

    method ExecuteLow(op: uint8, bus: Bus) returns (taken: bool)
      requires op < 0x40
      modifies this, bus
      ensures (View(), bus.memory, taken) == LowExecuted(old(View()), old(bus.memory), op)
      ensures ticked == old(ticked) + 4 * (Accesses(op, taken, 0) - 1) && bus.ticks == old(bus.ticks) + 4 * (Accesses(op, taken, 0) - 1)
    {
      hide TransferA, StoreSp, AddPair, StepOperand, RotateA, AdjustFlags, JumpRelative, Add16;
      taken := false;
      if op == 0x10 {
        var _ := Fetch8(bus);
        stopped := true;
      } else if op % 16 == 1 {
        var v := Fetch16(bus);
        SetPair(op / 16, v);
      } else if op % 8 == 2 {
        MoveA(op, bus);
      } else if op == 0x08 {
        WriteSp(bus);
      } else if op % 8 == 3 {
        SetPair(op / 16, Wrap16((View().Pair(op / 16) as int) + if op % 16 == 3 then 1 else -1));
      } else if op % 16 == 9 {
        AddPairToHl(op);
      } else if op % 8 == 4 || op % 8 == 5 {
        StepR(op, bus);
      } else if op % 8 == 6 {
        var v := Fetch8(bus);
        WriteR(op / 8, bus, v);
      } else if op % 8 == 7 {
        if op < 0x20 {
          RotateAccumulator(op);
        } else {
          Adjust(op);
        }
      } else if op != 0x00 {
        taken := BranchRelative(op, bus);
      }
    }

    method AddPairToHl(op: uint8)
      requires op < 0x40 && op % 16 == 9
      modifies this
      ensures View() == AddPair(old(View()), op) && ticked == old(ticked)
    {
      AddHl(View().Pair(op / 16));
    }

    // -- Opcodes from 0x40 to 0xBF, and the 0xCB page ---------------------------------

    method ExecuteRegister(op: uint8, bus: Bus)
      requires 0x40 <= op < 0xC0
      modifies this, bus
      ensures (View(), bus.memory) == RegisterExecuted(old(View()), old(bus.memory), op)
      ensures ticked == old(ticked) + 4 * (Accesses(op, false, 0) - 1) && bus.ticks == old(bus.ticks) + 4 * (Accesses(op, false, 0) - 1)
    {
      hide Halted, AluDone, Cpu.Operand, Cpu.WithOperand;
      if op == 0x76 {
        Halt(bus);
        return;
      }
      var value := ReadR(op % 8, bus);
      if op < 0x80 {
        WriteR(op / 8 % 8, bus, value);
      } else {
        AluOp(op / 8 % 8, value);
      }
    }

    method ExecuteCb(op: uint8, bus: Bus)
      modifies this, bus
      ensures (View(), bus.memory) == CbExecuted(old(View()), old(bus.memory), op)
      ensures ticked == old(ticked) + 4 * (Accesses(0xCB, false, op) - 2) && bus.ticks == old(bus.ticks) + 4 * (Accesses(0xCB, false, op) - 2)
    {
      hide WithFlag, Flags, Rotated, TestBit, ClearBit, SetBit, Cpu.Operand, Cpu.WithOperand;
      var index, bit := op % 8, op / 8 % 8;
      var value := ReadR(index, bus);
      if op < 0x40 {
        var result := Rotate(op / 8, value);
        WriteR(index, bus, result);
      } else if op < 0x80 {
        SetFlag(FLAG_Z, !TestBit(value, bit));
        SetFlag(FLAG_N, false);
        SetFlag(FLAG_H, true);
      } else if op < 0xC0 {
        WriteR(index, bus, ClearBit(value, bit));
      } else {
        WriteR(index, bus, SetBit(value, bit));
      }
    }

    // -- Opcodes from 0xC0 up -----------------------------------------------------------

    method PushPair(op: uint8, bus: Bus)
      requires op == 0xC5 || op == 0xD5 || op == 0xE5 || op == 0xF5
      modifies this`sp, this`ticked, bus
      ensures (View(), bus.memory) == PushExecuted(old(View()), old(bus.memory), StackPair(old(View()), op))
      ensures ticked == old(ticked) + 8 && bus.ticks == old(bus.ticks) + 8
    {
      Push16(bus, if op == 0xC5 then View().Bc() else if op == 0xD5 then View().De() else if op == 0xE5 then View().Hl() else View().Af());
    }

    method PopPair(op: uint8, bus: Bus)
      requires op == 0xC1 || op == 0xD1 || op == 0xE1 || op == 0xF1
      modifies this, bus`ticks
      ensures View() == PopExecuted(old(View()), bus.memory, op)
      ensures ticked == old(ticked) + 8 && bus.ticks == old(bus.ticks) + 8
    {
      var v := Pop16(bus);
      if op == 0xF1 {
        SetAf(v);
      } else {
        SetPair(op / 16 % 4, v);
      }
    }

    method Jump(op: uint8, bus: Bus) returns (taken: bool)
      requires IsJump(op)
      modifies this`pc, this`ticked, bus`ticks
      ensures (View(), taken) == JumpExecuted(old(View()), bus.memory, op)
      ensures ticked == old(ticked) + 8 && bus.ticks == old(bus.ticks) + 8
    {
      var target := Fetch16(bus);
      taken := op == 0xC3 || View().Condition(op / 8);
      if taken {
        pc := target;
      }
    }

    method Call(op: uint8, bus: Bus) returns (taken: bool)
      requires IsCall(op)
      modifies this`pc, this`sp, this`ticked, bus
      ensures (View(), bus.memory, taken) == CallExecuted(old(View()), old(bus.memory), op) && (op == 0xCD ==> taken)
      ensures ticked == old(ticked) + (if taken then 16 else 8) && bus.ticks == old(bus.ticks) + if taken then 16 else 8
    {
      var target := Fetch16(bus);
      taken := op == 0xCD || View().Condition(op / 8);
      if taken {
        var ret := pc;
        Push16(bus, ret);
        pc := target;
      }
    }

    method Return(op: uint8, bus: Bus) returns (taken: bool)
      requires IsReturn(op)
      modifies this`pc, this`sp, this`ime, this`imeDispatchInhibited, this`ticked, bus`ticks
      ensures (View(), taken) == ReturnExecuted(old(View()), bus.memory, op) && (op == 0xC9 || op == 0xD9 ==> taken)
      ensures ticked == old(ticked) + (if taken then 8 else 0) && bus.ticks == old(bus.ticks) + if taken then 8 else 0
    {
      taken := op == 0xC9 || op == 0xD9 || View().Condition(op / 8);
      if taken {
        pc := Pop16(bus);
      }
      if op == 0xD9 {
        ime := true;
        imeDispatchInhibited := false;
      }
    }

    method Restart(op: uint8, bus: Bus)
      requires 0xC0 <= op && op % 8 == 7
      modifies this`pc, this`sp, this`ticked, bus
      ensures (View(), bus.memory) == RestartExecuted(old(View()), old(bus.memory), op)
      ensures ticked == old(ticked) + 8 && bus.ticks == old(bus.ticks) + 8
    {
      var ret := pc;
      Push16(bus, ret);
      pc := op / 8 % 8 * 8;
    }

    method FetchHighAddress(op: uint8, bus: Bus) returns (addr: nat)
      requires IsHighTransfer(op)
      modifies this`pc, this`ticked, bus`ticks
      ensures addr == HighAddress(old(View()), bus.memory, op) && View() == old(View()).Past(HighLength(op))
      ensures ticked == old(ticked) + 4 * HighLength(op) && bus.ticks == old(bus.ticks) + 4 * HighLength(op)
    {
      if op % 16 == 0 {
        var offset := Fetch8(bus);
        addr := 0xFF00 + (offset as int);
      } else if op % 16 == 2 {
        addr := 0xFF00 + (c as int);
      } else {
        addr := Fetch16(bus);
      }
    }

    method MoveAHigh(op: uint8, bus: Bus)
      requires IsHighTransfer(op)
      modifies this`a, this`pc, this`ticked, bus
      ensures (View(), bus.memory) == HighTransfer(old(View()), old(bus.memory), op)
      ensures ticked == old(ticked) + 4 + 4 * HighLength(op) && bus.ticks == old(bus.ticks) + 4 + 4 * HighLength(op)
    {
      hide HighAddress, HighLength, IsHighTransfer;
      var addr := FetchHighAddress(op, bus);
      if op < 0xF0 {
        BusWrite(bus, addr, a);
      } else {
        a := BusRead(bus, addr);
      }
    }

    method StackPointer(op: uint8, bus: Bus)
      requires op == 0xE8 || op == 0xF8 || op == 0xF9
      modifies this, bus`ticks
      ensures View() == StackPointerExecuted(old(View()), bus.memory, op)
      ensures ticked == old(ticked) + (if op == 0xF9 then 0 else 4) && bus.ticks == old(bus.ticks) + if op == 0xF9 then 0 else 4
    {
      hide AddSp;
      if op == 0xF9 {
        sp := View().Hl();
        return;
      }
      var offset := Fetch8(bus);
      var v := AddSpOffset(offset);
      SetPair(if op == 0xE8 then 3 else 2, v);
    }

    predicate IsStackOrJump(op: uint8)
    {
      op % 8 == 7 || op % 16 == 1 || op % 16 == 5 || op == 0xE9 || IsJump(op) || IsCall(op) || IsReturn(op)
    }

    method ExecuteStackOrJump(op: uint8, bus: Bus) returns (taken: bool)
      requires 0xC0 <= op && !Undefined(op) && IsStackOrJump(op)
      modifies this, bus
      ensures (View(), bus.memory, taken) == BranchExecuted(old(View()), old(bus.memory), op)
      ensures ticked == old(ticked) + 4 * (Accesses(op, taken, 0) - 1) && bus.ticks == old(bus.ticks) + 4 * (Accesses(op, taken, 0) - 1)
    {
      hide RestartExecuted, CallExecuted, ReturnExecuted, PopExecuted, PushExecuted, JumpExecuted, StackPair;
      taken := false;
      if op % 8 == 7 {
        Restart(op, bus);
      } else if IsCall(op) {
        taken := Call(op, bus);
      } else if IsReturn(op) {
        taken := Return(op, bus);
      } else if op % 16 == 1 {
        PopPair(op, bus);
      } else if op % 16 == 5 {
        PushPair(op, bus);
      } else if op == 0xE9 {
        pc := View().Hl();
      } else {
        taken := Jump(op, bus);
      }
    }

    lemma TransferTraffic(op: uint8)
      ensures IsHighTransfer(op) ==> Accesses(op, false, 0) == 2 + HighLength(op)
      ensures op == 0xE8 || op == 0xF8 ==> Accesses(op, false, 0) == 2
      ensures op == 0xF9 || op == 0xF3 || op == 0xFB ==> Accesses(op, false, 0) == 1
    {
    }

    method ExecuteTransfer(op: uint8, bus: Bus)
      requires IsTransfer(op)
      modifies this, bus
      ensures (View(), bus.memory) == TransferExecuted(old(View()), old(bus.memory), op)
      ensures ticked == old(ticked) + 4 * (Accesses(op, false, 0) - 1) && bus.ticks == old(bus.ticks) + 4 * (Accesses(op, false, 0) - 1)
    {
      hide StackPointerExecuted, HighTransfer, Accesses, HighLength;
      TransferTraffic(op);
      if op == 0xE8 || op == 0xF8 || op == 0xF9 {
        StackPointer(op, bus);
      } else if op == 0xF3 || op == 0xFB {
        ime := op == 0xFB;
        imeDispatchInhibited := op == 0xFB;
      } else {
        MoveAHigh(op, bus);
      }
    }

    method ExecuteHigh(op: uint8, bus: Bus) returns (taken: bool, cb: uint8)
      requires 0xC0 <= op && !Undefined(op)
      modifies this, bus
      ensures (View(), bus.memory, taken, cb) == HighExecuted(old(View()), old(bus.memory), op)
      ensures ticked == old(ticked) + 4 * (Accesses(op, taken, cb) - 1) && bus.ticks == old(bus.ticks) + 4 * (Accesses(op, taken, cb) - 1)
    {
      hide CbExecuted, AluDone, TransferExecuted, BranchExecuted;
      taken, cb := false, 0;
      if op == 0xCB {
        cb := Fetch8(bus);
        ExecuteCb(cb, bus);
      } else if op % 8 == 6 {
        var value := Fetch8(bus);
        AluOp(op / 8 % 8, value);
      } else if IsTransfer(op) {
        ExecuteTransfer(op, bus);
      } else {
        HighOpcodes(op);
        taken := ExecuteStackOrJump(op, bus);
      }
    }

    /** What remains above 0xC0. */
    lemma HighOpcodes(op: uint8)
      requires 0xC0 <= op && !Undefined(op) && op != 0xCB && !IsTransfer(op) && op % 8 != 6
      ensures IsStackOrJump(op)
    {
    }

    // -- Stepping -------------------------------------------------------------------

    /** One fetched opcode: what it does and costs, and how often it used the bus beyond its own fetch. */
    method Execute(op: uint8, bus: Bus) returns (cost: nat, ghost taken: bool, ghost cb: uint8)
      modifies this, bus
      ensures (View(), bus.memory, taken, cb) == Executed(old(View()), old(bus.memory), op) && cost == Cost(op, taken, cb)
      ensures ticked == old(ticked) + 4 * (Accesses(op, taken, cb) - 1) && bus.ticks == old(bus.ticks) + 4 * (Accesses(op, taken, cb) - 1)
    {
      hide LowExecuted, RegisterExecuted, HighExecuted, Cycles, BranchTaken, CbCycles;
      var branched, second := false, 0;
      if op < 0x40 {
        branched := ExecuteLow(op, bus);
      } else if op < 0xC0 {
        ExecuteRegister(op, bus);
      } else if Undefined(op) {
        locked := true;
        return 4, false, 0;
      } else {
        branched, second := ExecuteHigh(op, bus);
        if op == 0xCB {
          return CbCycles(second), branched, second;
        }
      }
      cost := Cycles(op) + if branched then BranchTaken(op) else 0;
      taken, cb := branched, second;
    }

    method DispatchInterrupt(bus: Bus, pending: bv8) returns (cost: nat)
      requires pending & 0x1F != 0
      modifies this`ime, this`pc, this`sp, this`ticked, bus
      ensures (View(), bus.memory) == Dispatched(old(View()), old(bus.memory), pending) && cost == 20
      ensures ticked == old(ticked) + 8 && bus.ticks == old(bus.ticks) + 8
    {
      hide Lowest, ClearBit;
      var index := Lowest(pending);
      ime := false;
      var requested := bus.Peek(IF_ADDR);
      bus.Write8(IF_ADDR, ClearBit(requested, index));
      var ret := pc;
      Push16(bus, ret);
      pc := 0x0040 + index * 8;
      cost := 20;
    }

    /** The interrupt lines as a step samples them; a pending source wakes the CPU whether or not it is served. */
    method SampleInterrupts(bus: Bus) returns (pending: bv8)
      modifies this`halted, this`stopped
      ensures pending == Sampled(old(View()), bus.memory)
      ensures View() == old(View()).(halted := old(halted) && pending == 0, stopped := old(stopped) && pending == 0)
    {
      pending := 0;
      if ime || halted || stopped {
        pending := PendingBits(bus.Peek(IF_ADDR), bus.Peek(IE_ADDR));
      }
      if pending != 0 {
        halted, stopped := false, false;
      }
    }

    /**
     * One step. What it returns is what the bus is told of, except that a STOP tells the bus of four more:
     * it uses the bus for eight and is charged four.
     */
    method Step(bus: Bus) returns (cycles: nat)
      requires ticked == 0
      modifies this, bus
      ensures ticked == 0 && cycles >= 4 && cycles % 4 == 0
      ensures (View(), bus.memory, cycles) == (Stepped(old(View()), old(bus.memory)).0, Stepped(old(View()), old(bus.memory)).1, Stepped(old(View()), old(bus.memory)).2)
      ensures bus.ticks == old(bus.ticks) + cycles + if Stepped(old(View()), old(bus.memory)).3 == Some(0x10) then 4 else 0
    {
      hide Executed, Dispatched, PendingBits, Cost, Fetched;
      if locked {
        bus.Tick(4);
        return 4;
      }
      var inhibited := imeDispatchInhibited;
      imeDispatchInhibited := false;
      var pending := SampleInterrupts(bus);
      if pending != 0 && ime && !inhibited {
        ticked := 0;
        cycles := DispatchInterrupt(bus, pending);
        TickRemaining(bus, cycles);
      } else if halted || stopped {
        bus.Tick(4);
        return 4;
      } else {
        cycles := StepInstruction(bus);
      }
    }

    /** Fetch, execute, and report what the table charges beyond the bus cycles used. */
    method StepInstruction(bus: Bus) returns (cycles: nat)
      requires ticked == 0
      modifies this, bus
      ensures var op := At(old(bus.memory), old(pc));
        var (after, m, taken, cb) := Executed(Fetched(old(View())), old(bus.memory), op);
        (View(), bus.memory, cycles) == (after, m, Cost(op, taken, cb)) &&
        bus.ticks == old(bus.ticks) + cycles + if op == 0x10 then 4 else 0
      ensures ticked == 0 && cycles >= 4 && cycles % 4 == 0
    {
      hide Executed, Cost, Accesses;
      ticked := 0;
      var op := FetchOpcode(bus);
      var total, taken, cb := Execute(op, bus);
      CostCoversAccesses(op, taken, cb);
      TickRemaining(bus, total);
      return total;
    }

    /** Any number of steps: the bus has been told of all they returned, and of four more for every STOP. */
    method Run(steps: nat, bus: Bus) returns (total: nat)
      requires ticked == 0
      modifies this, bus
      ensures ticked == 0
      ensures var (after, m, charged, stops) := Ran(old(View()), old(bus.memory), steps);
        (View(), bus.memory, total) == (after, m, charged) && bus.ticks == old(bus.ticks) + total + 4 * stops
    {
      hide Stepped;
      total := 0;
      ghost var stops := 0;
      for n := 0 to steps
        invariant ticked == 0
        invariant (View(), bus.memory, total, stops) == Ran(old(View()), old(bus.memory), n)
        invariant bus.ticks == old(bus.ticks) + total + 4 * stops
      {
        ghost var before := Stepped(View(), bus.memory);
        var cycles := Step(bus);
        total := total + cycles;
        stops := stops + if before.3 == Some(0x10) then 1 else 0;
      }
    }
  }
}
