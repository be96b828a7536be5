/** What SM83 instructions amount to, in numbers: flags as bits of F, digits of bytes, targets and addresses. */
module Sm83Meaning {
  import opened Words
  import opened Arith
  import opened Sm83Timing
  import opened Sm83Alu
  import opened Sm83Machine

  // ---------------------------------------------------------------------------
  // Flags
  // ---------------------------------------------------------------------------

  /** A binary digit of a byte, by its weight. */
  predicate Digit(x: uint8, p: nat)
    requires p > 0
  {
    x / p % 2 == 1
  }

  /** F as a number: Z is worth 128, N 64, H 32 and C 16. */
  lemma FlagsInNumbers(z: bool, n: bool, h: bool, c: bool)
    ensures Flags(z, n, h, c) as int == 128 * Bit(z) + 64 * Bit(n) + 32 * Bit(h) + 16 * Bit(c)
  {
  }

  /** The four conditions of a branch by F's number. */
  lemma ConditionInNumbers(s: Cpu, index: nat)
    ensures s.Condition(index) <==>
      match index % 4
      case 0 => !Digit(s.f as int, 128)
      case 1 => Digit(s.f as int, 128)
      case 2 => !Digit(s.f as int, 16)
      case _ => Digit(s.f as int, 16)
  {
    FlagDigits(s.f, s.f as int);
  }

  lemma FlagDigits(f: bv8, x: uint8)
    requires x == f as int
    ensures (Digit(x, 128) <==> f & 0x80 != 0) && (Digit(x, 64) <==> f & 0x40 != 0)
    ensures (Digit(x, 32) <==> f & 0x20 != 0) && (Digit(x, 16) <==> f & 0x10 != 0)
  {
  }

  // ---------------------------------------------------------------------------
  // Branches after a comparison
  // ---------------------------------------------------------------------------

  /** What `NZ Z NC C` say after comparing `a` with `b`. */
  predicate Decides(index: nat, a: uint8, b: uint8) {
    match index
    case 0 => a != b
    case 1 => a == b
    case 2 => a >= b
    case _ => a < b
  }

  /** `CP B`. */
  function Compared(s: Cpu, m: Memory): Cpu {
    Executed(s, m, 0xB8).0
  }

  lemma CompareSetsFlags(s: Cpu, m: Memory, index: nat)
    requires index < 4
    ensures Compared(s, m) == s.(f := Compared(s, m).f) && (Compared(s, m).Condition(index) <==> Decides(index, s.a, s.b))
  {
    hide LowExecuted, HighExecuted;
  }

  /** The little-endian word at an address, which wraps. */
  function WordFrom(m: Memory, addr: uint16): nat {
    At(m, addr) + 0x100 * At(m, (addr + 1) % 0x1_0000)
  }

  /** A branch offset is signed. */
  function Target(m: Memory, pc: uint16, taken: bool): nat {
    var offset := At(m, pc);
    (pc + 1 + if !taken then 0 else if offset >= 0x80 then offset - 0x100 else offset) % 0x1_0000
  }

  /** `JR`, by its condition. */
  lemma RelativeJumps(c: Cpu, m: Memory, index: nat)
    requires index < 4
    ensures var taken := c.Condition(index); Executed(c, m, 0x20 + 8 * index) == (c.(pc := Target(m, c.pc, taken)), m, taken, 0)
    ensures Executed(c, m, 0x18) == (c.(pc := Target(m, c.pc, true)), m, true, 0)
  {
    hide Cpu.Condition, TransferA, StoreSp, StepPair, AddPair, StepOperand, RotateA, AdjustFlags;
    SameCondition(c, index, 0x20);
  }

  /** The condition is in bits 3 and 4. */
  lemma SameCondition(c: Cpu, index: nat, base: nat)
    requires index < 4 && base % 0x20 == 0
    ensures c.Condition((base + 8 * index) / 8) == c.Condition(index)
  {
    hide Cpu.Flag;
  }

  /** Which function a conditional branch of the last page is. */
  lemma BranchDispatch(c: Cpu, m: Memory, index: nat)
    requires index < 4
    ensures Executed(c, m, 0xC0 + 8 * index) == (ReturnExecuted(c, m, 0xC0 + 8 * index).0, m, ReturnExecuted(c, m, 0xC0 + 8 * index).1, 0)
    ensures Executed(c, m, 0xC2 + 8 * index) == (JumpExecuted(c, m, 0xC2 + 8 * index).0, m, JumpExecuted(c, m, 0xC2 + 8 * index).1, 0)
    ensures Executed(c, m, 0xC4 + 8 * index) ==
      (CallExecuted(c, m, 0xC4 + 8 * index).0, CallExecuted(c, m, 0xC4 + 8 * index).1, CallExecuted(c, m, 0xC4 + 8 * index).2, 0)
  {
    hide ReturnExecuted, JumpExecuted, CallExecuted, RestartExecuted, PopExecuted, PushExecuted, TransferExecuted, CbExecuted, AluDone, LowExecuted, RegisterExecuted;
  }

  lemma JumpCondition(c: Cpu, index: nat)
    requires index < 4
    ensures c.Condition((0xC2 + 8 * index) / 8) == c.Condition(index)
    ensures c.Condition((0xC4 + 8 * index) / 8) == c.Condition(index)
    ensures c.Condition((0xC0 + 8 * index) / 8) == c.Condition(index)
  {
    hide Cpu.Flag;
  }

  /** `JP`. */
  lemma Jumps(c: Cpu, m: Memory, index: nat)
    requires index < 4
    ensures var taken := c.Condition(index);
      Executed(c, m, 0xC2 + 8 * index) == (c.(pc := if taken then WordFrom(m, c.pc) else (c.pc + 2) % 0x1_0000), m, taken, 0)
  {
    hide Cpu.Condition, Executed, At;
    BranchDispatch(c, m, index);
    JumpCondition(c, index);
  }

  /** `RET`. */
  lemma Returns(c: Cpu, m: Memory, index: nat)
    requires index < 4
    ensures var taken := c.Condition(index);
      Executed(c, m, 0xC0 + 8 * index) == (if taken then c.(pc := WordFrom(m, c.sp), sp := (c.sp + 2) % 0x1_0000) else c, m, taken, 0)
  {
    hide Cpu.Condition, Executed, At;
    BranchDispatch(c, m, index);
    JumpCondition(c, index);
  }

  /** `CALL`: the address of the next instruction is pushed, its high byte first. */
  lemma Calls(c: Cpu, m: Memory, index: nat)
    requires index < 4
    ensures var taken, next := c.Condition(index), (c.pc + 2) % 0x1_0000;
      Executed(c, m, 0xC4 + 8 * index) ==
        if taken then (c.(pc := WordFrom(m, c.pc), sp := (c.sp - 2) % 0x1_0000),
                       m[(c.sp - 1) % 0x1_0000 := next / 0x100][(c.sp - 2) % 0x1_0000 := next % 0x100], true, 0)
        else (c.(pc := next), m, false, 0)
  {
    hide Cpu.Condition, Executed, At;
    BranchDispatch(c, m, index);
    JumpCondition(c, index);
  }

  /** The unconditional jump. */
  lemma JumpsAlways(c: Cpu, m: Memory)
    ensures Executed(c, m, 0xC3) == (c.(pc := WordFrom(m, c.pc)), m, true, 0)
  {
    hide At, LowExecuted, RegisterExecuted, CallExecuted, ReturnExecuted, RestartExecuted, PopExecuted, PushExecuted, TransferExecuted, CbExecuted, AluDone;
  }

  /**
   * After `CP B`, each conditional branch is taken exactly if its relation holds of A and B: where it then goes is
   * what RelativeJumps, Jumps, Calls and Returns say.
   */
  lemma BranchesAfterCompare(s: Cpu, m: Memory, index: nat)
    requires index < 4
    ensures var c, taken, next := Compared(s, m), Decides(index, s.a, s.b), (s.pc + 2) % 0x1_0000;
      Executed(c, m, 0x20 + 8 * index) == (c.(pc := Target(m, s.pc, taken)), m, taken, 0) &&
      Executed(c, m, 0xC2 + 8 * index) == (c.(pc := if taken then WordFrom(m, s.pc) else next), m, taken, 0) &&
      Executed(c, m, 0xC0 + 8 * index) == (if taken then c.(pc := WordFrom(m, s.sp), sp := (s.sp + 2) % 0x1_0000) else c, m, taken, 0) &&
      Executed(c, m, 0xC4 + 8 * index) ==
        if taken then (c.(pc := WordFrom(m, s.pc), sp := (s.sp - 2) % 0x1_0000),
                       m[(s.sp - 1) % 0x1_0000 := next / 0x100][(s.sp - 2) % 0x1_0000 := next % 0x100], true, 0)
        else (c.(pc := next), m, false, 0)
  {
    hide Compared, Cpu.Condition, Executed, Decides, Target, WordFrom;
    CompareSetsFlags(s, m, index);
    RelativeJumps(Compared(s, m), m, index);
    Jumps(Compared(s, m), m, index);
    Returns(Compared(s, m), m, index);
    Calls(Compared(s, m), m, index);
  }

  // ---------------------------------------------------------------------------
  // Rotates, shifts and single bits
  // ---------------------------------------------------------------------------

  /** `RLC RRC RL RR`: what goes out at one end is the carry; what comes in at the other is that bit or the old carry. */
  lemma RotatesInNumbers(v: uint8, carryIn: bool)
    ensures var (r, c) := Rotated(0, v, carryIn); r + 256 * Bit(c) == 2 * v + Bit(c)
    ensures var (r, c) := Rotated(1, v, carryIn); 2 * r + Bit(c) == v + 256 * Bit(c)
    ensures var (r, c) := Rotated(2, v, carryIn); r + 256 * Bit(c) == 2 * v + Bit(carryIn)
    ensures var (r, c) := Rotated(3, v, carryIn); 2 * r + Bit(c) == v + 256 * Bit(carryIn)
  {
  }

  /** `SLA SRA SWAP SRL`: what comes in is zero or the sign; SWAP exchanges the two hexadecimal digits. */
  lemma ShiftsInNumbers(v: uint8, carryIn: bool)
    ensures var (r, c) := Rotated(4, v, carryIn); r + 256 * Bit(c) == 2 * v
    ensures var (r, c) := Rotated(5, v, carryIn); 2 * r + Bit(c) == v + 256 * (v / 128)
    ensures var (r, c) := Rotated(6, v, carryIn); r / 16 == v % 16 && r % 16 == v / 16 && !c
    ensures var (r, c) := Rotated(7, v, carryIn); 2 * r + Bit(c) == v
  {
  }

  /** AND, OR and XOR, digit by digit. */
  lemma LogicBitByBit(x: uint8, y: uint8, k: nat)
    requires k < 8
    ensures BitOf(And8(x, y), k) <==> BitOf(x, k) && BitOf(y, k)
    ensures BitOf(Or8(x, y), k) <==> BitOf(x, k) || BitOf(y, k)
    ensures BitOf(Xor8(x, y), k) <==> BitOf(x, k) != BitOf(y, k)
  {
    hide BitOf, Digitwise;
    DigitByDigit((a, b) => a && b, x, y, 8, k);
    DigitByDigit((a, b) => a || b, x, y, 8, k);
    DigitByDigit((a, b) => a != b, x, y, 8, k);
  }

  /** A mask has one digit, and its complement all others. */
  lemma MaskDigits(bit: nat, k: nat)
    requires bit < 8 && k < 8
    ensures (BitOf(BitMask(bit), k) <==> k == bit) && (BitOf(0xFF - BitMask(bit), k) <==> k != bit)
  {
    SmallPowers();
  }

  lemma SmallPowers()
    ensures Pow2(0) == 1 && Pow2(1) == 2 && Pow2(2) == 4 && Pow2(3) == 8
    ensures Pow2(4) == 16 && Pow2(5) == 32 && Pow2(6) == 64 && Pow2(7) == 128 && Pow2(8) == 256
  {
  }

  /** A byte without digits is zero. */
  lemma SomeDigit(x: uint8) returns (k: nat)
    ensures k < 8 && (x != 0 ==> BitOf(x, k))
  {
    SmallPowers();
    k := if x % 2 == 1 then 0 else if x / 2 % 2 == 1 then 1 else if x / 4 % 2 == 1 then 2 else if x / 8 % 2 == 1 then 3
      else if x / 16 % 2 == 1 then 4 else if x / 32 % 2 == 1 then 5 else if x / 64 % 2 == 1 then 6 else 7;
  }

  /** BIT looks at one digit. */
  lemma BitTests(x: uint8, bit: nat)
    requires bit < 8
    ensures TestBit(x, bit) <==> BitOf(x, bit)
  {
    hide BitOf, And8, BitMask;
    var masked := And8(x, BitMask(bit));
    var k := SomeDigit(masked);
    LogicBitByBit(x, BitMask(bit), k);
    MaskDigits(bit, k);
    LogicBitByBit(x, BitMask(bit), bit);
    MaskDigits(bit, bit);
    NoDigits(bit);
  }

  lemma NoDigits(k: nat)
    ensures !BitOf(0, k)
  {
    DivUnique(0, Pow2(k), 0, 0);
  }

  /** SET and RES change one digit and no other. */
  lemma SingleBits(x: uint8, bit: nat, k: nat)
    requires bit < 8 && k < 8
    ensures BitOf(SetBit(x, bit), k) <==> k == bit || BitOf(x, k)
    ensures BitOf(ClearBit(x, bit), k) <==> k != bit && BitOf(x, k)
  {
    hide BitOf, And8, Or8, BitMask;
    LogicBitByBit(x, BitMask(bit), k);
    LogicBitByBit(x, 0xFF - BitMask(bit), k);
    MaskDigits(bit, k);
  }

  // ---------------------------------------------------------------------------
  // The accumulator
  // ---------------------------------------------------------------------------

  /** What F must be worth. */
  function FlagNumber(z: bool, n: bool, h: bool, c: bool): nat {
    128 * Bit(z) + 64 * Bit(n) + 32 * Bit(h) + 16 * Bit(c)
  }

  /** `ADD ADC SUB SBC CP`: A and F as numbers, the half-carry out of the low hexadecimal digit. */
  lemma AluInNumbers(a: uint8, v: uint8, carry: bool)
    ensures AluAdds(AluResult(0, a, v, carry), a, v, 0) && AluAdds(AluResult(1, a, v, carry), a, v, Bit(carry))
    ensures AluSubtracts(AluResult(2, a, v, carry), a, v, 0) && AluSubtracts(AluResult(3, a, v, carry), a, v, Bit(carry))
    ensures AluResult(7, a, v, carry) == (a, AluResult(2, a, v, carry).1)
  {
    FlagsInNumbers(AluResult(0, a, v, carry).0 == 0, false, a % 16 + v % 16 >= 16, a + v >= 256);
    FlagsInNumbers(AluResult(1, a, v, carry).0 == 0, false, a % 16 + v % 16 + Bit(carry) >= 16, a + v + Bit(carry) >= 256);
    FlagsInNumbers(AluResult(2, a, v, carry).0 == 0, true, a % 16 < v % 16, a < v);
    FlagsInNumbers(AluResult(3, a, v, carry).0 == 0, true, a % 16 < v % 16 + Bit(carry), a < v + Bit(carry));
    hide Flags;
  }

  /** `AND XOR OR`: which operation, and only AND sets the half-carry. */
  lemma LogicInNumbers(a: uint8, v: uint8, carry: bool)
    ensures AluResult(4, a, v, carry).0 == And8(a, v) && AluResult(4, a, v, carry).1 as int == FlagNumber(And8(a, v) == 0, false, true, false)
    ensures AluResult(5, a, v, carry).0 == Xor8(a, v) && AluResult(5, a, v, carry).1 as int == FlagNumber(Xor8(a, v) == 0, false, false, false)
    ensures AluResult(6, a, v, carry).0 == Or8(a, v) && AluResult(6, a, v, carry).1 as int == FlagNumber(Or8(a, v) == 0, false, false, false)
  {
    hide And8, Or8, Xor8, Flags;
    FlagsInNumbers(And8(a, v) == 0, false, true, false);
    FlagsInNumbers(Xor8(a, v) == 0, false, false, false);
    FlagsInNumbers(Or8(a, v) == 0, false, false, false);
  }

  predicate AluAdds(r: (uint8, bv8), a: uint8, v: uint8, carry: nat) {
    r.0 == (a + v + carry) % 256 &&
    r.1 as int == FlagNumber((a + v + carry) % 256 == 0, false, a % 16 + v % 16 + carry >= 16, a + v + carry >= 256)
  }

  predicate AluSubtracts(r: (uint8, bv8), a: uint8, v: uint8, borrow: nat) {
    r.0 == (a - v - borrow) % 256 &&
    r.1 as int == FlagNumber((a - v - borrow) % 256 == 0, true, a % 16 - v % 16 - borrow < 0, a - v - borrow < 0)
  }

  // ---------------------------------------------------------------------------
  // Interrupts
  // ---------------------------------------------------------------------------

  /** Source `i` is both requested, at 0xFF0F, and enabled, at 0xFFFF. */
  predicate Waiting(m: Memory, i: nat)
    requires i < 5
  {
    BitOf(At(m, 0xFF0F), i) && BitOf(At(m, 0xFFFF), i)
  }

  lemma LowBits(x: uint8, v: bv8)
    requires v == x as bv8
    ensures (BitOf(x, 0) <==> v & 1 != 0) && (BitOf(x, 1) <==> v & 2 != 0) && (BitOf(x, 2) <==> v & 4 != 0)
    ensures (BitOf(x, 3) <==> v & 8 != 0) && (BitOf(x, 4) <==> v & 16 != 0)
  {
    SmallPowers();
    assert x / 1 == x;
  }

  lemma BothBits(v: bv8, w: bv8)
    ensures var pending := v & w & 0x1F;
      (pending & 1 != 0 <==> v & 1 != 0 && w & 1 != 0) && (pending & 2 != 0 <==> v & 2 != 0 && w & 2 != 0) &&
      (pending & 4 != 0 <==> v & 4 != 0 && w & 4 != 0) && (pending & 8 != 0 <==> v & 8 != 0 && w & 8 != 0) &&
      (pending & 16 != 0 <==> v & 16 != 0 && w & 16 != 0)
  {
  }

  /** The five bits sampled are the sources waiting. */
  lemma PendingIsWaiting(m: Memory, pending: bv8)
    requires pending == PendingBits(At(m, 0xFF0F), At(m, 0xFFFF))
    ensures (pending & 1 != 0 <==> Waiting(m, 0)) && (pending & 2 != 0 <==> Waiting(m, 1)) && (pending & 4 != 0 <==> Waiting(m, 2))
    ensures (pending & 8 != 0 <==> Waiting(m, 3)) && (pending & 16 != 0 <==> Waiting(m, 4))
  {
    hide At, BitOf;
    var requested, enabled := At(m, 0xFF0F), At(m, 0xFFFF);
    LowBits(requested, requested as bv8);
    LowBits(enabled, enabled as bv8);
    BothBits(requested as bv8, enabled as bv8);
    hide PendingBits;
    assert pending == (requested as bv8) & (enabled as bv8) & 0x1F by {
      assert pending == PendingBits(requested, enabled);
    }
  }

  lemma LowestWaiting(m: Memory, pending: bv8, i: nat)
    requires i < 5 && pending == PendingBits(At(m, 0xFF0F), At(m, 0xFFFF))
    requires Waiting(m, i) && forall j :: 0 <= j < i ==> !Waiting(m, j)
    ensures pending & 0x1F != 0 && Lowest(pending) == i
  {
    PendingIsWaiting(m, pending);
    hide PendingBits, Waiting;
  }

  /**
   * With interrupts on, a step serves the lowest source waiting: PC is pushed and goes to 0x40, 0x48, 0x50, 0x58 or
   * 0x60, that source alone is no longer requested, and interrupts are off.
   */
  lemma LowestIsServed(s: Cpu, m: Memory, i: nat)
    requires s.ime && !s.inhibited && !s.locked && i < 5
    requires Waiting(m, i) && forall j :: 0 <= j < i ==> !Waiting(m, j)
    ensures var (after, m', cycles, executed) := Stepped(s, m);
      after.pc == 0x40 + 8 * i && !after.ime && after.sp == (s.sp - 2) % 0x1_0000 && cycles == 20 && executed == None &&
      var acknowledged := m[0xFF0F := ClearBit(At(m, 0xFF0F), i)];
      m' == acknowledged[(s.sp - 1) % 0x1_0000 := s.pc / 0x100][(s.sp - 2) % 0x1_0000 := s.pc % 0x100]
  {
    hide PendingBits, Waiting, Lowest, ClearBit, At, Executed;
    LowestWaiting(m, PendingBits(At(m, 0xFF0F), At(m, 0xFFFF)), i);
  }

  /** With none waiting, nothing is pending. */
  lemma NoneIsServed(s: Cpu, m: Memory)
    requires forall j :: 0 <= j < 5 ==> !Waiting(m, j)
    ensures Sampled(s, m) == 0
  {
    hide Waiting, At;
    var pending := PendingBits(At(m, 0xFF0F), At(m, 0xFFFF));
    PendingIsWaiting(m, pending);
    assert pending & 0x1F == pending;
  }

  // ---------------------------------------------------------------------------
  // Register pairs
  // ---------------------------------------------------------------------------

  /** `LD BC,nn`, `LD DE,nn`, `LD HL,nn` and `LD SP,nn`: the first byte is the low one. */
  lemma PairLoads(s: Cpu, m: Memory)
    ensures var low, high, next := At(m, s.pc), At(m, (s.pc + 1) % 0x1_0000), s.(pc := (s.pc + 2) % 0x1_0000);
      Executed(s, m, 0x01) == (next.(b := high, c := low), m, false, 0) &&
      Executed(s, m, 0x11) == (next.(d := high, e := low), m, false, 0) &&
      Executed(s, m, 0x21) == (next.(h := high, l := low), m, false, 0) &&
      Executed(s, m, 0x31) == (next.(sp := low + 0x100 * high), m, false, 0)
  {
    hide At;
  }

  /** Memory with a pair of bytes on the stack, the high one above. */
  function Stacked(m: Memory, sp: uint16, high: uint8, low: uint8): Memory {
    m[(sp - 1) % 0x1_0000 := high][(sp - 2) % 0x1_0000 := low]
  }

  /** `PUSH BC`, `PUSH DE`, `PUSH HL` and `PUSH AF`. */
  lemma Pushes(s: Cpu, m: Memory)
    ensures var next := s.(sp := (s.sp - 2) % 0x1_0000);
      Executed(s, m, 0xC5) == (next, Stacked(m, s.sp, s.b, s.c), false, 0) &&
      Executed(s, m, 0xD5) == (next, Stacked(m, s.sp, s.d, s.e), false, 0) &&
      Executed(s, m, 0xE5) == (next, Stacked(m, s.sp, s.h, s.l), false, 0) &&
      Executed(s, m, 0xF5) == (next, Stacked(m, s.sp, s.a, s.f as int), false, 0)
  {
    StackPairs(s);
    PushesPair(s, m, 0xC5, s.b, s.c);
    PushesPair(s, m, 0xD5, s.d, s.e);
    PushesPair(s, m, 0xE5, s.h, s.l);
    PushesPair(s, m, 0xF5, s.a, s.f as int);
    hide *;
  }

  lemma StackPairs(s: Cpu)
    ensures StackPair(s, 0xC5) == s.b * 0x100 + s.c && StackPair(s, 0xD5) == s.d * 0x100 + s.e
    ensures StackPair(s, 0xE5) == s.h * 0x100 + s.l && StackPair(s, 0xF5) == s.a * 0x100 + s.f as int
  {
  }

  lemma PushesPair(s: Cpu, m: Memory, op: uint8, high: uint8, low: uint8)
    requires (op == 0xC5 || op == 0xD5 || op == 0xE5 || op == 0xF5) && StackPair(s, op) == high * 0x100 + low
    ensures Executed(s, m, op) == (s.(sp := (s.sp - 2) % 0x1_0000), Stacked(m, s.sp, high, low), false, 0)
  {
    hide StackPair, CbExecuted, AluDone, PopExecuted, CallExecuted, ReturnExecuted, JumpExecuted, RestartExecuted, TransferExecuted;
    SplitWord(high, low);
  }

  lemma SplitWord(high: uint8, low: uint8)
    ensures (high * 0x100 + low) / 0x100 == high && (high * 0x100 + low) % 0x100 == low
  {
  }

  /** `POP AF`: the low digit of F does not exist. */
  lemma PopsFlags(s: Cpu, m: Memory)
    ensures var after := Executed(s, m, 0xF1).0;
      after.a == At(m, (s.sp + 1) % 0x1_0000) && after.f as int == At(m, s.sp) / 16 * 16 && after.sp == (s.sp + 2) % 0x1_0000
  {
    SplitWord(At(m, (s.sp + 1) % 0x1_0000), At(m, s.sp));
    HighDigit(At(m, s.sp));
    hide At, FlagByte, CbExecuted, AluDone, PushExecuted, CallExecuted, ReturnExecuted, JumpExecuted, RestartExecuted, TransferExecuted;
  }

  lemma HighDigit(x: uint8)
    ensures FlagByte(x) as int == x / 16 * 16
  {
  }

  // ---------------------------------------------------------------------------
  // Loads
  // ---------------------------------------------------------------------------

  /** `LD r,n`, register by register. */
  lemma ImmediateLoads(s: Cpu, m: Memory)
    ensures var n, next := At(m, s.pc), s.(pc := (s.pc + 1) % 0x1_0000);
      Executed(s, m, 0x06) == (next.(b := n), m, false, 0) && Executed(s, m, 0x0E) == (next.(c := n), m, false, 0) &&
      Executed(s, m, 0x16) == (next.(d := n), m, false, 0) && Executed(s, m, 0x1E) == (next.(e := n), m, false, 0) &&
      Executed(s, m, 0x26) == (next.(h := n), m, false, 0) && Executed(s, m, 0x2E) == (next.(l := n), m, false, 0) &&
      Executed(s, m, 0x36) == (next, m[0x100 * s.h + s.l := n], false, 0) && Executed(s, m, 0x3E) == (next.(a := n), m, false, 0)
  {
    hide At, TransferA, StoreSp, StepPair, AddPair, StepOperand, RotateA, AdjustFlags, JumpRelative;
  }

  /** `LD A,r`, register by register. */
  lemma AccumulatorLoads(s: Cpu, m: Memory)
    ensures Executed(s, m, 0x78) == (s.(a := s.b), m, false, 0) && Executed(s, m, 0x79) == (s.(a := s.c), m, false, 0)
    ensures Executed(s, m, 0x7A) == (s.(a := s.d), m, false, 0) && Executed(s, m, 0x7B) == (s.(a := s.e), m, false, 0)
    ensures Executed(s, m, 0x7C) == (s.(a := s.h), m, false, 0) && Executed(s, m, 0x7D) == (s.(a := s.l), m, false, 0)
    ensures Executed(s, m, 0x7E) == (s.(a := At(m, 0x100 * s.h + s.l)), m, false, 0) && Executed(s, m, 0x7F) == (s, m, false, 0)
  {
    hide At, LowExecuted, HighExecuted, AluDone, Halted;
  }

  /** `LD r,r'` copies one operand to the other. */
  lemma RegisterLoads(s: Cpu, m: Memory, to: nat, from: nat)
    requires to < 8 && from < 8 && !(to == 6 && from == 6)
    ensures Executed(s, m, 0x40 + 8 * to + from) == (s.WithOperand(to, m, s.Operand(from, m)).0, s.WithOperand(to, m, s.Operand(from, m)).1, false, 0)
  {
    hide At, LowExecuted, HighExecuted, AluDone, Halted, Cpu.WithOperand, Cpu.Operand;
  }

  /** A written operand reads back, and no other register changes. */
  lemma OperandsAreApart(s: Cpu, m: Memory, i: nat, v: uint8, j: nat)
    requires i < 8 && j < 8
    ensures var (after, m') := s.WithOperand(i, m, v);
      (i == j || (i != 6 && j != 6) ==> after.Operand(j, m') == if i == j then v else s.Operand(j, m))
  {
    if i == 6 {
      MemoryReadsBack(s, m, v);
    } else if j != 6 {
      RegistersAreApart(s, m, i, v, j);
    }
    hide Cpu.WithOperand, Cpu.Operand;
  }

  lemma MemoryReadsBack(s: Cpu, m: Memory, v: uint8)
    ensures var (after, m') := s.WithOperand(6, m, v); after.Operand(6, m') == v
  {
  }

  lemma RegistersAreApart(s: Cpu, m: Memory, i: nat, v: uint8, j: nat)
    requires i < 8 && j < 8 && i != 6 && j != 6
    ensures s.WithOperand(i, m, v).0.Operand(j, s.WithOperand(i, m, v).1) == if i == j then v else s.Operand(j, m)
  {
    if i < 4 {
      LowRegisterWritten(s, m, i, v, j);
    } else {
      HighRegisterWritten(s, m, i, v, j);
    }
    hide Cpu.WithOperand, Cpu.Operand;
  }

  lemma LowRegisterWritten(s: Cpu, m: Memory, i: nat, v: uint8, j: nat)
    requires i < 4 && j < 8 && j != 6
    ensures s.WithOperand(i, m, v).0.Operand(j, s.WithOperand(i, m, v).1) == if i == j then v else s.Operand(j, m)
  {
    hide Cpu.Hl, At;
  }

  lemma HighRegisterWritten(s: Cpu, m: Memory, i: nat, v: uint8, j: nat)
    requires (i == 4 || i == 5 || i == 7) && j < 8 && j != 6
    ensures s.WithOperand(i, m, v).0.Operand(j, s.WithOperand(i, m, v).1) == if i == j then v else s.Operand(j, m)
  {
    hide Cpu.Hl, At;
  }

  /** A to and from (BC) and (DE). */
  lemma PointerLoads(s: Cpu, m: Memory)
    ensures var bc, de := 0x100 * s.b + s.c, 0x100 * s.d + s.e;
      Executed(s, m, 0x02) == (s, m[bc := s.a], false, 0) && Executed(s, m, 0x0A) == (s.(a := At(m, bc)), m, false, 0) &&
      Executed(s, m, 0x12) == (s, m[de := s.a], false, 0) && Executed(s, m, 0x1A) == (s.(a := At(m, de)), m, false, 0)
  {
    hide At, StoreSp, StepPair, AddPair, StepOperand, RotateA, AdjustFlags, JumpRelative;
  }

  /** A to and from (HL+) and (HL-). */
  lemma MovingLoads(s: Cpu, m: Memory)
    ensures var hl := 0x100 * s.h + s.l;
      Moved(s, Executed(s, m, 0x22), s.a, m[hl := s.a], hl + 1) && Moved(s, Executed(s, m, 0x2A), At(m, hl), m, hl + 1) &&
      Moved(s, Executed(s, m, 0x32), s.a, m[hl := s.a], hl - 1) && Moved(s, Executed(s, m, 0x3A), At(m, hl), m, hl - 1)
  {
    MovingLoad(s, m, 0x22);
    MovingLoad(s, m, 0x2A);
    MovingLoad(s, m, 0x32);
    MovingLoad(s, m, 0x3A);
    hide Executed, Moved, At;
  }

  lemma MovingLoad(s: Cpu, m: Memory, op: uint8)
    requires op == 0x22 || op == 0x2A || op == 0x32 || op == 0x3A
    ensures var hl := 0x100 * s.h + s.l;
      Moved(s, Executed(s, m, op), if op % 16 == 2 then s.a else At(m, hl), if op % 16 == 2 then m[hl := s.a] else m, if op < 0x30 then hl + 1 else hl - 1)
  {
    hide At, StoreSp, StepPair, AddPair, StepOperand, RotateA, AdjustFlags, JumpRelative;
    var hl := 0x100 * s.h + s.l;
    WordSplits((hl + if op < 0x30 then 1 else -1) % 0x1_0000);
  }

  lemma WordSplits(x: uint16)
    ensures x == x / 0x100 * 0x100 + x % 0x100
  {
  }

  /** Only A, HL and memory may have changed, and HL, high byte in H, is `hl`. */
  predicate Moved(s: Cpu, done: (Cpu, Memory, bool, uint8), a: uint8, m: Memory, hl: int) {
    done.0 == s.(a := a, h := done.0.h, l := done.0.l) && 0x100 * done.0.h + done.0.l == hl % 0x1_0000 &&
    done.1 == m && !done.2 && done.3 == 0
  }

  /** `LDH (n),A`, `LDH A,(n)`, `LD (C),A` and `LD A,(C)`. */
  lemma HighLoads(s: Cpu, m: Memory)
    ensures var n, one := 0xFF00 + At(m, s.pc), s.(pc := (s.pc + 1) % 0x1_0000);
      Executed(s, m, 0xE0) == (one, m[n := s.a], false, 0) && Executed(s, m, 0xF0) == (one.(a := At(m, n)), m, false, 0) &&
      Executed(s, m, 0xE2) == (s, m[0xFF00 + s.c := s.a], false, 0) && Executed(s, m, 0xF2) == (s.(a := At(m, 0xFF00 + s.c)), m, false, 0)
  {
    hide At, CbExecuted, AluDone, BranchExecuted, LowExecuted, RegisterExecuted, StackPointerExecuted;
  }

  /** `LD (nn),A` and `LD A,(nn)`. */
  lemma AbsoluteLoads(s: Cpu, m: Memory)
    ensures var nn, two := WordFrom(m, s.pc), s.(pc := (s.pc + 2) % 0x1_0000);
      Executed(s, m, 0xEA) == (two, m[nn := s.a], false, 0) && Executed(s, m, 0xFA) == (two.(a := At(m, nn)), m, false, 0)
  {
    hide At, CbExecuted, AluDone, BranchExecuted, LowExecuted, RegisterExecuted, StackPointerExecuted;
  }

  /** `LD SP,HL` and `LD (nn),SP`. */
  lemma StackPointerLoads(s: Cpu, m: Memory)
    ensures Executed(s, m, 0xF9) == (s.(sp := 0x100 * s.h + s.l), m, false, 0)
    ensures var nn := WordFrom(m, s.pc);
      Executed(s, m, 0x08) == (s.(pc := (s.pc + 2) % 0x1_0000), m[nn := s.sp % 0x100][nn + 1 := s.sp / 0x100], false, 0)
  {
    hide At, CbExecuted, AluDone, BranchExecuted, TransferA, StepPair, AddPair, StepOperand, RotateA, AdjustFlags, JumpRelative, HighTransfer;
  }

  // ---------------------------------------------------------------------------
  // Counting and wide sums
  // ---------------------------------------------------------------------------

  /** `INC r` and `DEC r`: the half-carry tells of a carry or borrow between the hexadecimal digits, and C is kept. */
  lemma CountsInNumbers(v: uint8, f: bv8)
    requires Clean(f)
    ensures var (r, g) := Stepped8(true, v, f); r == (v + 1) % 256 && g as int == FlagNumber(r == 0, false, r % 16 == 0, Digit(f as int, 16))
    ensures var (r, g) := Stepped8(false, v, f); r == (v - 1) % 256 && g as int == FlagNumber(r == 0, true, r % 16 == 15, Digit(f as int, 16))
  {
    hide WithFlag, Digit, FlagNumber;
    FlagDigits(f, f as int);
    var up, down := (v + 1) % 256, ((v as int) - 1) % 256;
    FlagsSet(f, up == 0, false, v % 16 == 15);
    FlagsSet(f, down == 0, true, v % 16 == 0);
  }

  /** Z, N and H set, C kept. */
  lemma FlagsSet(f: bv8, z: bool, n: bool, h: bool)
    requires Clean(f)
    ensures WithFlag(WithFlag(WithFlag(f, FLAG_Z, z), FLAG_N, n), FLAG_H, h) as int == FlagNumber(z, n, h, f & 0x10 != 0)
  {
    assert WithFlag(WithFlag(WithFlag(f, FLAG_Z, z), FLAG_N, n), FLAG_H, h) == Flags(z, n, h, f & 0x10 != 0);
    FlagsInNumbers(z, n, h, f & 0x10 != 0);
    hide WithFlag, Flags;
  }

  /** `ADD HL,rr`: the sum modulo 65536; half-carry out of bit 11, and Z kept. */
  lemma WideSumInNumbers(hl: uint16, v: uint16, f: bv8)
    requires Clean(f)
    ensures var (r, g) := Add16(hl, v, f);
      r == (hl + v) % 0x1_0000 && g as int == FlagNumber(Digit(f as int, 128), false, hl % 0x1000 + v % 0x1000 >= 0x1000, hl + v >= 0x1_0000)
  {
    FlagDigits(f, f as int);
    FlagsKeepZ(f, hl % 0x1000 + v % 0x1000 >= 0x1000, (hl as int) + v >= 0x1_0000);
    hide WithFlag, Digit;
  }

  lemma FlagsKeepZ(f: bv8, h: bool, c: bool)
    requires Clean(f)
    ensures WithFlag(WithFlag(WithFlag(f, FLAG_N, false), FLAG_H, h), FLAG_C, c) as int == FlagNumber(f & 0x80 != 0, false, h, c)
  {
    assert WithFlag(WithFlag(WithFlag(f, FLAG_N, false), FLAG_H, h), FLAG_C, c) == Flags(f & 0x80 != 0, false, h, c);
    FlagsInNumbers(f & 0x80 != 0, false, h, c);
    hide WithFlag, Flags;
  }

  /** The signed sum; the flags are those of adding the byte unsigned to SP's low byte. */
  lemma StackSumInNumbers(sp: uint16, e: uint8)
    ensures var (sum, f) := AddSp(sp, e);
      sum == (sp + if e >= 0x80 then e - 0x100 else e) % 0x1_0000 && f as int == FlagNumber(false, false, sp % 16 + e % 16 >= 16, sp % 0x100 + e >= 0x100)
  {
    hide Flags;
    FlagsInNumbers(false, false, (sp as int) % 16 + e % 16 > 0x0F, (sp as int) % 0x100 + e > 0xFF);
  }

  /** `ADD SP,e` and `LD HL,SP+e`. */
  lemma StackSums(s: Cpu, m: Memory)
    ensures var (sum, f) := AddSp(s.sp, At(m, s.pc));
      var next := s.(pc := (s.pc + 1) % 0x1_0000, f := f);
      Executed(s, m, 0xE8) == (next.(sp := sum), m, false, 0) && Executed(s, m, 0xF8) == (next.(h := sum / 0x100, l := sum % 0x100), m, false, 0)
  {
    hide At, CbExecuted, AluDone, BranchExecuted, LowExecuted, RegisterExecuted, HighTransfer, AddSp;
  }

  /** `CPL`, `SCF` and `CCF`. */
  lemma FlagOperations(s: Cpu, m: Memory)
    requires Clean(s.f)
    ensures var z, c := Digit(s.f as int, 128), Digit(s.f as int, 16);
      var cpl, scf, ccf := Executed(s, m, 0x2F).0, Executed(s, m, 0x37).0, Executed(s, m, 0x3F).0;
      cpl == s.(a := 255 - s.a, f := cpl.f) && cpl.f as int == FlagNumber(z, true, true, c) &&
      scf == s.(f := scf.f) && scf.f as int == FlagNumber(z, false, false, true) &&
      ccf == s.(f := ccf.f) && ccf.f as int == FlagNumber(z, false, false, !c)
  {
    hide At, TransferA, StoreSp, StepPair, AddPair, StepOperand, RotateA, JumpRelative, DecimalAdjusted, WithFlag, Digit;
    FlagDigits(s.f, s.f as int);
    FlagsKeepZ(s.f, false, true);
    FlagsKeepZ(s.f, false, s.f & 0x10 == 0);
    FlagsComplemented(s.f);
  }

  lemma FlagsComplemented(f: bv8)
    requires Clean(f)
    ensures WithFlag(WithFlag(f, FLAG_N, true), FLAG_H, true) as int == FlagNumber(f & 0x80 != 0, true, true, f & 0x10 != 0)
  {
    assert WithFlag(WithFlag(f, FLAG_N, true), FLAG_H, true) == Flags(f & 0x80 != 0, true, true, f & 0x10 != 0);
    FlagsInNumbers(f & 0x80 != 0, true, true, f & 0x10 != 0);
    hide WithFlag, Flags;
  }

  // ---------------------------------------------------------------------------
  // Whole pages
  // ---------------------------------------------------------------------------

  /** The eight operations on each of the eight operands, and on the byte after the opcode. */
  lemma AluOpcodes(s: Cpu, m: Memory, which: nat, from: nat)
    requires which < 8 && from < 8
    ensures var (a, f) := AluResult(which, s.a, s.Operand(from, m), s.Flag(FLAG_C));
      Executed(s, m, 0x80 + 8 * which + from) == (s.(a := a, f := f), m, false, 0)
    ensures var (a, f) := AluResult(which, s.a, At(m, s.pc), s.Flag(FLAG_C));
      Executed(s, m, 0xC6 + 8 * which) == (s.(pc := (s.pc + 1) % 0x1_0000, a := a, f := f), m, false, 0)
  {
    hide At, LowExecuted, CbExecuted, TransferExecuted, BranchExecuted, Halted, AluResult, Cpu.Operand, Cpu.WithOperand;
    FieldOf(which, from);
  }

  lemma FieldOf(which: nat, from: nat)
    requires which < 8 && from < 8
    ensures (0x80 + 8 * which + from) / 8 % 8 == which && (0x80 + 8 * which + from) % 8 == from
    ensures (0xC6 + 8 * which) / 8 % 8 == which && (0xC6 + 8 * which) % 8 == 6 && !Undefined(0xC6 + 8 * which)
    ensures (8 * which + from) / 8 == which && (8 * which + from) % 8 == from
  {
  }

  /** The 0xCB page's rotates: Z from the result, N and H clear. */
  lemma RotateOpcodes(s: Cpu, m: Memory, which: nat, index: nat)
    requires which < 8 && index < 8 && At(m, s.pc) == 8 * which + index
    ensures var next := s.(pc := (s.pc + 1) % 0x1_0000);
      var (r, c) := Rotated(which, next.Operand(index, m), s.Flag(FLAG_C));
      var (after, m') := next.(f := Flags(r == 0, false, false, c)).WithOperand(index, m, r);
      Executed(s, m, 0xCB) == (after, m', false, 8 * which + index)
  {
    hide At, LowExecuted, RegisterExecuted, TransferExecuted, BranchExecuted, Rotated, Flags, Cpu.Operand, Cpu.WithOperand;
    FieldOf(which, index);
  }

  /** RES and SET, flags left alone. */
  lemma BitOpcodes(s: Cpu, m: Memory, bit: nat, index: nat)
    requires bit < 8 && index < 8
    ensures var next := s.(pc := (s.pc + 1) % 0x1_0000);
      var (cleared, set0) := (ClearBit(next.Operand(index, m), bit), SetBit(next.Operand(index, m), bit));
      (At(m, s.pc) == 0x80 + 8 * bit + index ==>
         Executed(s, m, 0xCB) == (next.WithOperand(index, m, cleared).0, next.WithOperand(index, m, cleared).1, false, At(m, s.pc))) &&
      (At(m, s.pc) == 0xC0 + 8 * bit + index ==>
         Executed(s, m, 0xCB) == (next.WithOperand(index, m, set0).0, next.WithOperand(index, m, set0).1, false, At(m, s.pc)))
  {
    hide At, LowExecuted, RegisterExecuted, TransferExecuted, BranchExecuted, Rotated, Flags, SetBit, ClearBit, Cpu.Operand, Cpu.WithOperand, Cpu.Flag;
    FieldOf(bit, index);
    assert (0xC0 + 8 * bit + index) / 8 % 8 == bit && (0xC0 + 8 * bit + index) % 8 == index;
  }

  /** BIT: Z is the digit's complement, N clear, H set, C kept. */
  lemma TestOpcodes(s: Cpu, m: Memory, bit: nat, index: nat)
    requires bit < 8 && index < 8 && At(m, s.pc) == 0x40 + 8 * bit + index && Clean(s.f)
    ensures var next := s.(pc := (s.pc + 1) % 0x1_0000);
      var (after, m', _, _) := Executed(s, m, 0xCB);
      m' == m && after == next.(f := after.f) &&
      after.f as int == FlagNumber(!BitOf(next.Operand(index, m), bit), false, true, Digit(s.f as int, 16))
  {
    hide At, LowExecuted, RegisterExecuted, TransferExecuted, BranchExecuted, Rotated, TestBit, BitOf, WithFlag, Digit, Cpu.Operand, Cpu.WithOperand;
    var next := s.(pc := (s.pc + 1) % 0x1_0000);
    assert (0x40 + 8 * bit + index) / 8 % 8 == bit && (0x40 + 8 * bit + index) % 8 == index;
    BitTests(next.Operand(index, m), bit);
    FlagDigits(s.f, s.f as int);
    FlagsSet(s.f, !BitOf(next.Operand(index, m), bit), false, true);
  }
}
