/** What short SM83 programs and runs of any length do. */
module Sm83Programs {
  import opened Words
  import opened Sm83Timing
  import opened Sm83Alu
  import opened Sm83Machine

  // ---------------------------------------------------------------------------
  // Over any run
  // ---------------------------------------------------------------------------

  lemma MasksAreClean()
    ensures Clean(FLAG_Z) && Clean(FLAG_N) && Clean(FLAG_H) && Clean(FLAG_C)
  {
  }

  lemma RotateKeepsClean(s: Cpu, op: uint8)
    ensures Clean(RotateA(s, op).f)
  {
    hide WithFlag, Flags, Clean, Rotated, Cpu.Flag;
    MasksAreClean();
  }

  lemma AdjustKeepsClean(s: Cpu, op: uint8)
    requires Clean(s.f)
    ensures Clean(AdjustFlags(s, op).f)
  {
    hide WithFlag, Clean, Daa8, Cpu.Flag;
    MasksAreClean();
  }

  lemma ArithmeticKeepsClean(s: Cpu, m: Memory, op: uint8)
    requires Clean(s.f)
    ensures Clean(AddPair(s, op).f) && Clean(StepOperand(s, m, op).0.f)
  {
    hide WithFlag, Clean, Wrap16, Cpu.Operand, Cpu.WithOperand, Cpu.Pair, Cpu.WithPair, Cpu.Hl;
    MasksAreClean();
  }

  lemma LowKeepsClean(s: Cpu, m: Memory, op: uint8)
    requires Clean(s.f) && op < 0x40
    ensures Clean(LowExecuted(s, m, op).0.f)
  {
    hide Clean, AdjustFlags, RotateA, AddPair, StepOperand, TransferA, StoreSp, StepPair, JumpRelative, WordAt, At;
    hide Cpu.WithPair, Cpu.WithOperand, Cpu.Past;
    AdjustKeepsClean(s, op);
    RotateKeepsClean(s, op);
    ArithmeticKeepsClean(s, m, op);
  }

  lemma CbKeepsClean(s: Cpu, m: Memory, op: uint8)
    requires Clean(s.f)
    ensures Clean(CbExecuted(s, m, op).0.f)
  {
    hide WithFlag, Flags, Clean, Rotated, TestBit, ClearBit, SetBit, Cpu.Operand, Cpu.WithOperand, Cpu.Flag;
    MasksAreClean();
  }

  lemma AluIsClean(s: Cpu, which: nat, v: uint8)
    ensures Clean(AluDone(s, which, v).f)
  {
    hide Flags, Clean, Add8, Sub8, And8, Or8, Xor8, Cpu.Flag;
  }

  lemma BranchKeepsClean(s: Cpu, m: Memory, op: uint8)
    requires Clean(s.f)
    ensures Clean(BranchExecuted(s, m, op).0.f)
  {
    hide Clean, FlagByte, IsCall, IsReturn, IsJump, RestartExecuted, CallExecuted, ReturnExecuted, JumpExecuted, PushExecuted;
    hide StackPair, WordAt, Wrap16, Cpu.WithPair, Cpu.Hl;
  }

  lemma TransferKeepsClean(s: Cpu, m: Memory, op: uint8)
    requires Clean(s.f)
    ensures Clean(TransferExecuted(s, m, op).0.f)
  {
    hide Clean, Flags, HighTransfer, At, Wrap16, Cpu.Hl, Cpu.WithPair, Cpu.Past;
  }

  lemma RegisterKeepsClean(s: Cpu, m: Memory, op: uint8)
    requires Clean(s.f)
    ensures Clean(RegisterExecuted(s, m, op).0.f)
  {
    hide Clean, AluDone, PendingBits, Cpu.Operand, Cpu.WithOperand;
    AluIsClean(s, op / 8 % 8, s.Operand(op % 8, m));
  }

  lemma HighKeepsClean(s: Cpu, m: Memory, op: uint8)
    requires Clean(s.f)
    ensures Clean(HighExecuted(s, m, op).0.f)
  {
    hide Clean, CbExecuted, AluDone, BranchExecuted, TransferExecuted, IsTransfer, Cpu.Past;
    CbKeepsClean(s.Past(1), m, At(m, s.pc));
    AluIsClean(s.Past(1), op / 8 % 8, At(m, s.pc));
    BranchKeepsClean(s, m, op);
    TransferKeepsClean(s, m, op);
  }

  lemma ExecutedKeepsClean(s: Cpu, m: Memory, op: uint8)
    requires Clean(s.f)
    ensures Clean(Executed(s, m, op).0.f)
  {
    hide Clean, LowExecuted, RegisterExecuted, HighExecuted, Undefined;
    if op < 0x40 {
      LowKeepsClean(s, m, op);
    } else {
      RegisterKeepsClean(s, m, op);
      HighKeepsClean(s, m, op);
    }
  }

  /** Every step takes time, in whole machine cycles. */
  lemma StepTakesTime(s: Cpu, m: Memory)
    ensures Stepped(s, m).2 >= 4 && Stepped(s, m).2 % 4 == 0
  {
    hide Executed, Cost, Accesses, Dispatched, Sampled;
    var op := At(m, s.pc);
    var awake := s.(inhibited := false, halted := s.halted && Sampled(s, m) == 0, stopped := s.stopped && Sampled(s, m) == 0);
    CostCoversAccesses(op, Executed(Fetched(awake), m, op).2, Executed(Fetched(awake), m, op).3);
  }

  lemma StepKeepsClean(s: Cpu, m: Memory)
    requires Clean(s.f)
    ensures Clean(Stepped(s, m).0.f)
  {
    var awake := s.(inhibited := false, halted := s.halted && Sampled(s, m) == 0, stopped := s.stopped && Sampled(s, m) == 0);
    ExecutedKeepsClean(Fetched(awake), m, At(m, s.pc));
    hide Executed, Cost, Sampled, Lowest, ClearBit, Pushed, Clean;
  }

  /** Over any run F's low nibble stays clear and time moves on by at least a machine cycle a step. */
  lemma {:induction false} RunsStayClean(s: Cpu, m: Memory, n: nat)
    requires Clean(s.f)
    ensures var (after, _, charged, _) := Ran(s, m, n); Clean(after.f) && charged >= 4 * n && charged % 4 == 0
  {
    hide Stepped, Clean;
    if n > 0 {
      RunsStayClean(s, m, n - 1);
      var (before, m0, _, _) := Ran(s, m, n - 1);
      StepKeepsClean(before, m0);
      StepTakesTime(before, m0);
    }
  }

  // ---------------------------------------------------------------------------
  // The stack
  // ---------------------------------------------------------------------------

  /** What is pushed is what is popped, wherever SP is. */
  lemma PushThenPop(m: Memory, sp: uint16, value: uint16)
    ensures var below := Wrap16((sp as int) - 2);
      WordAt(Pushed(m, sp, value), below) == value && Wrap16(below + 2) == sp
  {
  }

  /** The four register pairs a push or pop can name. */
  predicate IsPairRow(row: nat) {
    0xC <= row <= 0xF
  }

  lemma FlagByteBack(f: bv8)
    requires Clean(f)
    ensures FlagByte(f as int) == f
  {
  }

  lemma AfComesBack(s: Cpu)
    requires Clean(s.f)
    ensures s.WithAf(s.Af()) == s
  {
    hide FlagByte, Clean;
    FlagByteBack(s.f);
    HalvesComeBack(s.a, s.f as int);
  }

  lemma PairComesBack(s: Cpu, index: nat)
    ensures s.WithPair(index, s.Pair(index)) == s
  {
    if index == 0 {
      HalvesComeBack(s.b, s.c);
    } else if index == 1 {
      HalvesComeBack(s.d, s.e);
    } else if index == 2 {
      HalvesComeBack(s.h, s.l);
    }
  }

  lemma HalvesComeBack(hi: uint8, lo: uint8)
    ensures (hi * 0x100 + lo) / 0x100 == hi && (hi * 0x100 + lo) % 0x100 == lo
  {
  }

  lemma StackDecodes(row: nat)
    requires IsPairRow(row)
    ensures var push, pop := row * 16 + 5, row * 16 + 1;
      push < 0x100 && !Undefined(push) && !Undefined(pop) && push % 8 == 5 && pop % 8 == 1 && pop % 16 == 1 && push / 16 == row && pop / 16 == row &&
      !IsTransfer(push) && !IsTransfer(pop) && !IsCall(push) && !IsReturn(push) && !IsJump(push) && push != 0xE9 && push % 16 == 5 &&
      !IsCall(pop) && !IsReturn(pop) && !IsJump(pop) && pop != 0xE9
  {
  }

  /** PUSH and then POP of the same pair leave every register as it was, F included, wherever SP is. */
  lemma PushPopIsIdentity(s: Cpu, m: Memory, row: nat)
    requires IsPairRow(row) && Clean(s.f)
    ensures var pushed := Executed(s, m, row * 16 + 5);
      var popped := Executed(pushed.0, pushed.1, row * 16 + 1);
      popped.0 == s && popped.1 == pushed.1 && pushed.1 == Pushed(m, s.sp, StackPair(s, row * 16 + 5))
  {
    hide Pushed, WordAt, StackPair, Undefined, IsTransfer, IsCall, IsReturn, IsJump, Clean, Wrap16, PopExecuted;
    StackDecodes(row);
    PushThenPop(m, s.sp, StackPair(s, row * 16 + 5));
    PoppedBack(s, s.(sp := Wrap16((s.sp as int) - 2)), Pushed(m, s.sp, StackPair(s, row * 16 + 5)), row);
  }

  /** A POP that finds a pair's own value undoes nothing but the move of SP. */
  lemma PoppedBack(s: Cpu, pushed: Cpu, m: Memory, row: nat)
    requires IsPairRow(row) && Clean(s.f) && WordAt(m, pushed.sp) == StackPair(s, row * 16 + 5)
    requires pushed == s.(sp := pushed.sp) && Wrap16(pushed.sp + 2) == s.sp
    ensures PopExecuted(pushed, m, row * 16 + 1) == s
  {
    hide WordAt, Clean, Wrap16, Cpu.Pair, Cpu.Af, Cpu.WithAf, Cpu.WithPair;
    RowOf(row);
    AfComesBack(s);
    PairComesBack(s, row % 4);
  }

  lemma RowOf(row: nat)
    requires IsPairRow(row)
    ensures row * 16 + 5 < 0x100 && (row * 16 + 5) / 16 == row && (row * 16 + 1) / 16 == row
  {
  }

  /**
   * About to return from where `entered` began, whatever ran in between: SP is where it was on entry, and the
   * word it points to is the one stored there.
   */
  predicate AboutToReturn(s: Cpu, m: Memory, entered: Cpu, entry: Memory) {
    s.sp == entered.sp && WordAt(m, s.sp) == WordAt(entry, entered.sp)
  }

  /** A routine entered by CALL returns to just after the CALL, with SP as before it and all else as the routine left it. */
  lemma CallThenReturn(s: Cpu, m: Memory, s': Cpu, m': Memory)
    ensures var called := Executed(s, m, 0xCD);
      called.0.pc == WordAt(m, s.pc) &&
      (AboutToReturn(s', m', called.0, called.1) ==>
         Executed(s', m', 0xC9) == (s'.(sp := s.sp, pc := s.Past(2).pc), m', true, 0))
  {
    hide Pushed, WordAt, Wrap16;
    PushThenPop(m, s.sp, s.Past(2).pc);
  }

  lemma RestartDecodes(op: uint8)
    requires op % 8 == 7
    ensures !Undefined(op) && !IsTransfer(op) && !Undefined(0xC9) && !IsTransfer(0xC9)
  {
  }

  /** One entered by RST returns to just after the RST. */
  lemma RestartThenReturn(s: Cpu, m: Memory, op: uint8, s': Cpu, m': Memory)
    requires 0xC0 <= op && op % 8 == 7
    ensures var called := Executed(s, m, op);
      called.0.pc == op / 8 % 8 * 8 &&
      (AboutToReturn(s', m', called.0, called.1) ==>
         Executed(s', m', 0xC9) == (s'.(sp := s.sp, pc := s.pc), m', true, 0))
  {
    hide Pushed, WordAt, Wrap16, IsTransfer, Undefined;
    RestartDecodes(op);
    PushThenPop(m, s.sp, s.pc);
  }

  /** An interrupt handler returns by RETI to the interrupted instruction, with interrupts enabled again. */
  lemma InterruptThenReturn(s: Cpu, m: Memory, pending: bv8, s': Cpu, m': Memory)
    requires pending & 0x1F != 0 && s.ime
    ensures var (serving, entry) := Dispatched(s, m, pending);
      !serving.ime &&
      (AboutToReturn(s', m', serving, entry) ==>
         Executed(s', m', 0xD9) == (s'.(sp := s.sp, pc := s.pc, ime := true, inhibited := false), m', true, 0))
  {
    var index := Lowest(pending);
    PushThenPop(m[IF_ADDR := ClearBit(At(m, IF_ADDR), index)], s.sp, s.pc);
    hide Pushed, WordAt, Lowest, ClearBit;
  }

  // ---------------------------------------------------------------------------
  // HALT and EI
  // ---------------------------------------------------------------------------

  /** Fetching and executing, with nothing pending from before. */
  predicate Running(s: Cpu) {
    !s.locked && !s.halted && !s.stopped && !s.haltBug
  }

  /** HALT with IME clear and a source pending: the CPU runs on, and executes the byte after it without moving past it. */
  lemma HaltBugReadsTwice(s: Cpu, m: Memory)
    requires Running(s) && !s.ime && At(m, s.pc) == 0x76 && PendingBits(At(m, IF_ADDR), At(m, IE_ADDR)) != 0
    ensures var (s1, m1, _, _) := Stepped(s, m);
      m1 == m && s1 == s.Past(1).(inhibited := false, haltBug := true) &&
      var op := At(m, s1.pc);
      Stepped(s1, m).0 == Executed(s1.(haltBug := false), m, op).0 && Stepped(s1, m).3 == Some(op)
  {
    hide PendingBits, Cost, LowExecuted, HighExecuted;
  }

  /** HALT with IME set, or with nothing pending, sleeps until a source is both requested and enabled. */
  lemma HaltSleepsUntilPending(s: Cpu, m: Memory, m': Memory)
    requires Running(s) && At(m, s.pc) == 0x76 && PendingBits(At(m, IF_ADDR), At(m, IE_ADDR)) == 0
    ensures var s1 := Stepped(s, m).0;
      s1 == s.Past(1).(inhibited := false, halted := true) &&
      (Stepped(s1, m').0 == s1 && Stepped(s1, m').3 == None <==> PendingBits(At(m', IF_ADDR), At(m', IE_ADDR)) == 0)
  {
    var s1 := s.Past(1).(inhibited := false, halted := true);
    var op := At(m', s1.pc);
    assert Stepped(s, m).0 == s1;
    if PendingBits(At(m', IF_ADDR), At(m', IE_ADDR)) != 0 {
      if s.ime {
        assert Stepped(s1, m').0 == Dispatched(s1.(halted := false), m', Sampled(s1, m')).0;
      } else {
        assert Stepped(s1, m').3 == Some(op);
      }
    }
    hide PendingBits, Cost, LowExecuted, HighExecuted, Lowest, ClearBit, Pushed;
  }

  /**
   * EI takes effect one instruction late: whatever is pending, the instruction after it runs first, and then the
   * interrupt is served at once if interrupts are still enabled.
   */
  lemma EnableIsDelayed(s: Cpu, m: Memory)
    requires Running(s) && !s.ime && At(m, s.pc) == 0xFB
    ensures var (s1, m1, _, _) := Stepped(s, m);
      s1 == s.Past(1).(ime := true, inhibited := true) && m1 == m &&
      var (s2, m2, _, next) := Stepped(s1, m);
      next == Some(At(m, s1.pc)) &&
      (s2.ime && !s2.inhibited && !s2.locked && Sampled(s2, m2) != 0 ==>
         Stepped(s2, m2).3 == None && Stepped(s2, m2).0.pc == 0x0040 + 8 * Lowest(Sampled(s2, m2)))
  {
    var s1 := s.Past(1).(ime := true, inhibited := true);
    assert Stepped(s, m).0 == s1 && Stepped(s, m).1 == m by {
      hide PendingBits, Cost, LowExecuted;
    }
    hide Sampled, Executed, Cost, Lowest, ClearBit, Pushed;
  }

  // ---------------------------------------------------------------------------
  // Decimal arithmetic by instructions
  // ---------------------------------------------------------------------------

  /** `ADC A,B` (0x88) and `SBC A,B` (0x98), then `DAA`. */
  function Column(s: Cpu, m: Memory, subtract: bool, x: uint8, y: uint8): Cpu {
    Executed(Executed(s.(a := x, b := y), m, if subtract then 0x98 else 0x88).0, m, 0x27).0
  }

  lemma FlagsRead(z: bool, n: bool, h: bool, c: bool, z': bool, c': bool)
    ensures var f := WithFlag(WithFlag(WithFlag(Flags(z, n, h, c), FLAG_Z, z'), FLAG_H, false), FLAG_C, c');
      (f & FLAG_C != 0 <==> c')
  {
  }

  lemma ColumnAdjusts(s: Cpu, m: Memory, subtract: bool, x: uint8, y: uint8)
    ensures var after := Column(s, m, subtract, x, y);
      (after.a, after.Flag(FLAG_C)) == if subtract then SbcDaa(x, y, s.Flag(FLAG_C)) else AdcDaa(x, y, s.Flag(FLAG_C))
  {
    hide Flags, Add8, Sub8, Daa8, WithFlag;
    var before := s.(a := x, b := y);
    var (r, half, carry) := if subtract then Sub8(x, y, s.Flag(FLAG_C)) else Add8(x, y, s.Flag(FLAG_C));
    var mid := before.(a := r, f := Flags(r == 0, subtract, half, carry));
    Accumulated(before, m, subtract);
    var (adjusted, out) := Daa8(r, subtract, half, carry);
    FlagsRead(r == 0, subtract, half, carry, adjusted == 0, out);
    hide Executed;
    Adjusts(mid, m);
  }

  lemma Accumulated(s: Cpu, m: Memory, subtract: bool)
    ensures var (r, half, carry) := if subtract then Sub8(s.a, s.b, s.Flag(FLAG_C)) else Add8(s.a, s.b, s.Flag(FLAG_C));
      Executed(s, m, if subtract then 0x98 else 0x88).0 == s.(a := r, f := Flags(r == 0, subtract, half, carry))
  {
    hide Flags, Add8, Sub8, LowExecuted, HighExecuted;
  }

  lemma Adjusts(s: Cpu, m: Memory)
    ensures Executed(s, m, 0x27).0 == DecimalAdjusted(s)
  {
    hide DecimalAdjusted, TransferA, StoreSp, StepOperand, AddPair;
  }

  /** A loop over the bytes of two numbers, whatever it does to a column: the results, and the state left at the end. */
  function Columns(column: (Cpu, uint8, uint8) -> Cpu, s: Cpu, x: seq<uint8>, y: seq<uint8>): (r: (seq<uint8>, Cpu))
    requires |x| == |y|
    ensures |r.0| == |x|
    decreases |x|
  {
    if x == [] then ([], s)
    else
      var after := column(s, x[0], y[0]);
      var (rest, last) := Columns(column, after, x[1..], y[1..]);
      ([after.a] + rest, last)
  }

  /** The carry lives in F between columns. */
  ghost predicate Carries(column: (Cpu, uint8, uint8) -> Cpu, subtract: bool) {
    forall s: Cpu, x: uint8, y: uint8 ::
      (column(s, x, y).a, column(s, x, y).Flag(FLAG_C)) == if subtract then SbcDaa(x, y, s.Flag(FLAG_C)) else AdcDaa(x, y, s.Flag(FLAG_C))
  }

  lemma {:induction false} ColumnsAreLoop(column: (Cpu, uint8, uint8) -> Cpu, subtract: bool, s: Cpu, x: seq<uint8>, y: seq<uint8>)
    requires |x| == |y| && Carries(column, subtract)
    ensures var (digits, last) := Columns(column, s, x, y);
      (digits, last.Flag(FLAG_C)) == if subtract then SubLoop(x, y, s.Flag(FLAG_C)) else AddLoop(x, y, s.Flag(FLAG_C))
    decreases |x|
  {
    hide AdcDaa, SbcDaa, Cpu.Flag;
    if x != [] {
      ColumnsAreLoop(column, subtract, column(s, x[0], y[0]), x[1..], y[1..]);
    }
  }

  function Adding(m: Memory): (Cpu, uint8, uint8) -> Cpu {
    (s: Cpu, x: uint8, y: uint8) => Column(s, m, false, x, y)
  }

  function Subtracting(m: Memory): (Cpu, uint8, uint8) -> Cpu {
    (s: Cpu, x: uint8, y: uint8) => Column(s, m, true, x, y)
  }

  lemma BothCarry(m: Memory)
    ensures Carries(Adding(m), false) && Carries(Subtracting(m), true)
  {
    hide Column, AdcDaa, SbcDaa, Cpu.Flag;
    forall s: Cpu, x: uint8, y: uint8
      ensures (Adding(m)(s, x, y).a, Adding(m)(s, x, y).Flag(FLAG_C)) == AdcDaa(x, y, s.Flag(FLAG_C))
      ensures (Subtracting(m)(s, x, y).a, Subtracting(m)(s, x, y).Flag(FLAG_C)) == SbcDaa(x, y, s.Flag(FLAG_C))
    {
      ColumnAdjusts(s, m, false, x, y);
      ColumnAdjusts(s, m, true, x, y);
    }
  }

  /**
   * Run as instructions on packed decimal numbers of any length, ADC;DAA adds and SBC;DAA subtracts, modulo
   * 100 to the number of bytes, with the carry flag left at the decimal carry or borrow.
   */
  lemma DecimalByInstructions(s: Cpu, m: Memory, x: seq<uint8>, y: seq<uint8>)
    requires |x| == |y| && AllBcd(x) && AllBcd(y)
    ensures var (sum, last) := Columns(Adding(m), s, x, y);
      var total, span := Decimal(x) + Decimal(y) + Bit(s.Flag(FLAG_C)), Pow100(|x|);
      AllBcd(sum) && Decimal(sum) == (if total >= span then total - span else total) < span && (last.Flag(FLAG_C) <==> total >= span)
    ensures var (difference, last) := Columns(Subtracting(m), s, x, y);
      var total, span := Decimal(x) - Decimal(y) - Bit(s.Flag(FLAG_C)), Pow100(|x|);
      AllBcd(difference) && Decimal(difference) == (if total < 0 then total + span else total) < span && (last.Flag(FLAG_C) <==> total < 0)
  {
    hide AddLoop, SubLoop, Decimal, AllBcd, Pow100, Bit, Cpu.Flag, AdcDaa, SbcDaa, Column;
    hide Adding, Subtracting, Carries, Columns;
    BothCarry(m);
    ColumnsAreLoop(Adding(m), false, s, x, y);
    ColumnsAreLoop(Subtracting(m), true, s, x, y);
    DecimalAddition(x, y, s.Flag(FLAG_C));
    DecimalSubtraction(x, y, s.Flag(FLAG_C));
  }
}
