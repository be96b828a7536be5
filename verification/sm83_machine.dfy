/**
 * What one SM83 instruction and one step do, as functions of the registers and memory. The class in
 * sm83.dfy, which also accounts for every bus cycle, is proved against these.
 */
module Sm83Machine {
  import opened Words
  import opened Arith
  import opened Sm83Timing
  import opened Sm83Alu

  const IF_ADDR: nat := 0xFF0F
  const IE_ADDR: nat := 0xFFFF

  const FLAG_Z: bv8 := 0x80
  const FLAG_N: bv8 := 0x40
  const FLAG_H: bv8 := 0x20
  const FLAG_C: bv8 := 0x10

  function Wrap16(x: int): uint16 { x % 0x1_0000 }

  function Word16(lo: uint8, hi: uint8): uint16 { (lo as int) + 0x100 * (hi as int) }

  function SignedByte(offset: uint8): int {
    if offset >= 0x80 then offset - 0x100 else offset
  }

  // ---------------------------------------------------------------------------
  // Flags and bits
  // ---------------------------------------------------------------------------

  /** The low nibble of F does not exist. */
  predicate Clean(f: bv8) {
    f & 0x0F == 0
  }

  function Flags(z: bool, n: bool, h: bool, c: bool): (f: bv8)
    ensures Clean(f)
    ensures (f & FLAG_Z != 0 <==> z) && (f & FLAG_N != 0 <==> n) && (f & FLAG_H != 0 <==> h) && (f & FLAG_C != 0 <==> c)
  {
    (if z then FLAG_Z else 0) | (if n then FLAG_N else 0) | (if h then FLAG_H else 0) | (if c then FLAG_C else 0)
  }

  /** One flag set or cleared, the others as they were. */
  function WithFlag(f: bv8, mask: bv8, on: bool): (after: bv8)
    ensures Clean(f) && Clean(mask) ==> Clean(after)
  {
    if on then f | mask else f & !mask
  }

  /** A byte as F holds it: the low nibble is dropped. */
  function FlagByte(x: uint8): (f: bv8)
    ensures Clean(f)
  {
    (x as bv8) & 0xF0
  }

  function Bitwise8(op: (bool, bool) -> bool, x: uint8, y: uint8): uint8 {
    assert Pow2(8) == 0x100;
    Digitwise(op, x, y, 8)
  }

  function And8(x: uint8, y: uint8): uint8 { Bitwise8((a, b) => a && b, x, y) }
  function Or8(x: uint8, y: uint8): uint8 { Bitwise8((a, b) => a || b, x, y) }
  function Xor8(x: uint8, y: uint8): uint8 { Bitwise8((a, b) => a != b, x, y) }
  function SetBit(x: uint8, bit: nat): uint8
    requires bit < 8
  {
    Or8(x, BitMask(bit))
  }
  function ClearBit(x: uint8, bit: nat): uint8
    requires bit < 8
  {
    And8(x, 0xFF - BitMask(bit))
  }
  predicate TestBit(x: uint8, bit: nat)
    requires bit < 8
  {
    And8(x, BitMask(bit)) != 0
  }

  /** `1 << bit`. */
  function BitMask(bit: nat): (mask: uint8)
    requires bit < 8
    ensures mask == Pow2(bit)
  {
    if bit == 0 then 0x01 else if bit == 1 then 0x02 else if bit == 2 then 0x04 else if bit == 3 then 0x08
    else if bit == 4 then 0x10 else if bit == 5 then 0x20 else if bit == 6 then 0x40 else 0x80
  }

  /** The rotates and shifts of the 0xCB page, by the number its opcode gives them: result and carry. */
  function Rotated(which: nat, v: uint8, carryIn: bool): (uint8, bool) {
    if which == 0 then (v * 2 % 0x100 + v / 128, v >= 128)
    else if which == 1 then (v / 2 + v % 2 * 128, v % 2 == 1)
    else if which == 2 then (v * 2 % 0x100 + (if carryIn then 1 else 0), v >= 128)
    else if which == 3 then (v / 2 + (if carryIn then 128 else 0), v % 2 == 1)
    else if which == 4 then (v * 2 % 0x100, v >= 128)
    else if which == 5 then (v / 2 + v / 128 * 128, v % 2 == 1)
    else if which == 6 then (v % 16 * 16 + v / 16, false)
    else (v / 2, v % 2 == 1)
  }

  /** `ADD ADC SUB SBC AND XOR OR CP`: the accumulator and the flags. */
  function AluResult(which: nat, a: uint8, v: uint8, carry: bool): (uint8, bv8) {
    if which <= 1 then
      var (r, half, c) := Add8(a, v, which == 1 && carry);
      (r, Flags(r == 0, false, half, c))
    else if which <= 3 || which == 7 then
      var (r, half, c) := Sub8(a, v, which == 3 && carry);
      (if which == 7 then a else r, Flags(r == 0, true, half, c))
    else
      var r := if which == 4 then And8(a, v) else if which == 5 then Xor8(a, v) else Or8(a, v);
      (r, Flags(r == 0, false, which == 4, false))
  }

  /** `INC` and `DEC`: the carry is left alone. */
  function Stepped8(up: bool, v: uint8, f: bv8): (uint8, bv8) {
    var r := if up then (v + 1) % 0x100 else ((v as int) - 1) % 0x100;
    var half := if up then v % 16 == 0x0F else v % 16 == 0;
    (r, WithFlag(WithFlag(WithFlag(f, FLAG_Z, r == 0), FLAG_N, !up), FLAG_H, half))
  }

  /** `ADD HL,rr`: half-carry out of bit 11, Z left alone. */
  function Add16(hl: uint16, v: uint16, f: bv8): (uint16, bv8) {
    var half := (hl as int) % 0x1000 + v % 0x1000 > 0x0FFF;
    (Wrap16((hl as int) + v), WithFlag(WithFlag(WithFlag(f, FLAG_N, false), FLAG_H, half), FLAG_C, (hl as int) + v > 0xFFFF))
  }

  /** The offset is signed; the flags are those of adding its low byte unsigned. */
  function AddSp(sp: uint16, offset: uint8): (uint16, bv8) {
    (Wrap16((sp as int) + SignedByte(offset)),
     Flags(false, false, (sp as int) % 16 + offset % 16 > 0x0F, (sp as int) % 0x100 + offset > 0xFF))
  }

  /** Interrupts both requested and enabled, five sources. */
  function PendingBits(requested: uint8, enabled: uint8): (pending: bv8)
    ensures pending & 0x1F == pending
  {
    (requested as bv8) & (enabled as bv8) & 0x1F
  }

  /** The highest-priority source: the lowest bit set. */
  function Lowest(pending: bv8): (index: nat)
    requires pending & 0x1F != 0
    ensures index < 5
  {
    if pending & 1 != 0 then 0 else if pending & 2 != 0 then 1 else if pending & 4 != 0 then 2
    else if pending & 8 != 0 then 3 else 4
  }

  // ---------------------------------------------------------------------------
  // State
  // ---------------------------------------------------------------------------

  type Memory = map<nat, uint8>

  function At(m: Memory, addr: nat): uint8 {
    if addr in m then m[addr] else 0
  }

  /** The little-endian word at a sixteen-bit address. */
  function WordAt(m: Memory, addr: uint16): uint16 {
    Word16(At(m, addr), At(m, Wrap16(addr + 1)))
  }

  /** Memory after pushing a word. */
  function Pushed(m: Memory, sp: uint16, value: uint16): Memory {
    m[Wrap16((sp as int) - 1) as nat := value / 0x100][Wrap16((sp as int) - 2) as nat := value % 0x100]
  }

  datatype Cpu = Cpu(a: uint8, f: bv8, b: uint8, c: uint8, d: uint8, e: uint8, h: uint8, l: uint8, sp: uint16, pc: uint16,
                     ime: bool, inhibited: bool, halted: bool, stopped: bool, haltBug: bool, locked: bool) {
    function Bc(): uint16 { b * 0x100 + c }
    function De(): uint16 { d * 0x100 + e }
    function Hl(): uint16 { h * 0x100 + l }
    function Af(): uint16 { a * 0x100 + (f as int) }

    predicate Flag(mask: bv8) { f & mask != 0 }

    /** `BC DE HL SP`. */
    function Pair(index: nat): uint16 {
      if index == 0 then Bc() else if index == 1 then De() else if index == 2 then Hl() else sp
    }

    function WithPair(index: nat, v: uint16): (after: Cpu)
      ensures after.f == f
    {
      if index == 0 then this.(b := v / 0x100, c := v % 0x100)
      else if index == 1 then this.(d := v / 0x100, e := v % 0x100)
      else if index == 2 then this.(h := v / 0x100, l := v % 0x100)
      else this.(sp := v)
    }

    function WithAf(v: uint16): Cpu {
      this.(a := v / 0x100, f := FlagByte(v % 0x100))
    }

    /** `NZ Z NC C`. */
    predicate Condition(index: nat) {
      if index % 4 == 0 then !Flag(FLAG_Z) else if index % 4 == 1 then Flag(FLAG_Z)
      else if index % 4 == 2 then !Flag(FLAG_C) else Flag(FLAG_C)
    }

    /** `B C D E H L (HL) A`. */
    function Operand(index: nat, m: Memory): uint8 {
      if index == 0 then b else if index == 1 then c else if index == 2 then d else if index == 3 then e
      else if index == 4 then h else if index == 5 then l else if index == 6 then At(m, Hl()) else a
    }

    function WithOperand(index: nat, m: Memory, v: uint8): (r: (Cpu, Memory))
      ensures r.0.f == f
    {
      if index == 6 then (this, m[Hl() as nat := v])
      else
        (if index == 0 then this.(b := v) else if index == 1 then this.(c := v) else if index == 2 then this.(d := v)
         else if index == 3 then this.(e := v) else if index == 4 then this.(h := v) else if index == 5 then this.(l := v)
         else this.(a := v), m)
    }

    /** PC past `n` more bytes. */
    function Past(n: nat): (after: Cpu)
      ensures after.f == f
    {
      this.(pc := Wrap16(pc + n))
    }
  }

  // ---------------------------------------------------------------------------
  // Opcodes below 0x40
  // ---------------------------------------------------------------------------

  /** A to or from (BC), (DE), (HL+) and (HL-). */
  function TransferA(s: Cpu, m: Memory, op: uint8): (r: (Cpu, Memory))
    ensures r.0.f == s.f
  {
    var addr := s.Pair(if op / 16 <= 1 then op / 16 else 2);
    var moved := if op % 16 == 2 then s else s.(a := At(m, addr));
    (if op / 16 == 2 then moved.WithPair(2, Wrap16(addr + 1)) else if op / 16 == 3 then moved.WithPair(2, Wrap16((addr as int) - 1)) else moved,
     if op % 16 == 2 then m[addr as nat := s.a] else m)
  }

  /** The address is not wrapped between the two bytes. */
  function StoreSp(s: Cpu, m: Memory): (r: (Cpu, Memory))
    ensures r.0.f == s.f
  {
    var addr: nat := WordAt(m, s.pc);
    (s.Past(2), m[addr := s.sp % 0x100][addr + 1 := s.sp / 0x100])
  }

  function StepPair(s: Cpu, op: uint8): (after: Cpu)
    ensures after.f == s.f
  {
    s.WithPair(op / 16, Wrap16((s.Pair(op / 16) as int) + if op % 16 == 3 then 1 else -1))
  }

  function AddPair(s: Cpu, op: uint8): Cpu {
    var (hl, f) := Add16(s.Hl(), s.Pair(op / 16), s.f);
    s.(f := f).WithPair(2, hl)
  }

  function StepOperand(s: Cpu, m: Memory, op: uint8): (Cpu, Memory) {
    var (v, f) := Stepped8(op % 8 == 4, s.Operand(op / 8, m), s.f);
    s.(f := f).WithOperand(op / 8, m, v)
  }

  /** The accumulator's own rotates clear Z whatever the result. */
  function RotateA(s: Cpu, op: uint8): Cpu {
    var (r, carry) := Rotated(op / 8, s.a, s.Flag(FLAG_C));
    s.(a := r, f := WithFlag(Flags(r == 0, false, false, carry), FLAG_Z, false))
  }

  function DecimalAdjusted(s: Cpu): Cpu {
    var (r, carry) := Daa8(s.a, s.Flag(FLAG_N), s.Flag(FLAG_H), s.Flag(FLAG_C));
    s.(a := r, f := WithFlag(WithFlag(WithFlag(s.f, FLAG_Z, r == 0), FLAG_H, false), FLAG_C, carry))
  }

  /** `DAA CPL SCF CCF`. */
  function AdjustFlags(s: Cpu, op: uint8): Cpu {
    if op == 0x27 then DecimalAdjusted(s)
    else if op == 0x2F then s.(a := 0xFF - s.a, f := WithFlag(WithFlag(s.f, FLAG_N, true), FLAG_H, true))
    else s.(f := WithFlag(WithFlag(WithFlag(s.f, FLAG_N, false), FLAG_H, false), FLAG_C, op == 0x37 || !s.Flag(FLAG_C)))
  }

  /** The offset is consumed whether or not the branch is taken. */
  function JumpRelative(s: Cpu, m: Memory, op: uint8): (r: (Cpu, bool))
    ensures r.0.f == s.f
  {
    var taken := op == 0x18 || s.Condition(op / 8);
    (s.(pc := Wrap16(s.pc + 1 + if taken then SignedByte(At(m, s.pc)) else 0)), taken)
  }

  /** State, memory, and whether a branch was taken. */
  function LowExecuted(s: Cpu, m: Memory, op: uint8): (Cpu, Memory, bool) {
    if op == 0x10 then (s.Past(1).(stopped := true), m, false)
    else if op % 16 == 1 then (s.Past(2).WithPair(op / 16, WordAt(m, s.pc)), m, false)
    else if op % 8 == 2 then (TransferA(s, m, op).0, TransferA(s, m, op).1, false)
    else if op == 0x08 then (StoreSp(s, m).0, StoreSp(s, m).1, false)
    else if op % 8 == 3 then (StepPair(s, op), m, false)
    else if op % 16 == 9 then (AddPair(s, op), m, false)
    else if op % 8 == 4 || op % 8 == 5 then (StepOperand(s, m, op).0, StepOperand(s, m, op).1, false)
    else if op % 8 == 6 then
      var (after, m') := s.Past(1).WithOperand(op / 8, m, At(m, s.pc));
      (after, m', false)
    else if op % 8 == 7 then (if op < 0x20 then RotateA(s, op) else AdjustFlags(s, op), m, false)
    else if op != 0x00 then (JumpRelative(s, m, op).0, m, JumpRelative(s, m, op).1)
    else (s, m, false)
  }

  // ---------------------------------------------------------------------------
  // Opcodes from 0x40 to 0xBF, and the 0xCB page
  // ---------------------------------------------------------------------------

  /** With IME clear and something pending the CPU does not halt: the next opcode byte is read twice instead. */
  function Halted(s: Cpu, m: Memory): Cpu {
    if !s.ime && PendingBits(At(m, IF_ADDR), At(m, IE_ADDR)) != 0 then s.(haltBug := true) else s.(halted := true)
  }

  function AluDone(s: Cpu, which: nat, v: uint8): Cpu {
    var (a, f) := AluResult(which, s.a, v, s.Flag(FLAG_C));
    s.(a := a, f := f)
  }

  /** `LD r,r'`, HALT and `ALU A,r`. */
  function RegisterExecuted(s: Cpu, m: Memory, op: uint8): (Cpu, Memory) {
    if op == 0x76 then (Halted(s, m), m)
    else if op < 0x80 then s.WithOperand(op / 8 % 8, m, s.Operand(op % 8, m))
    else (AluDone(s, op / 8 % 8, s.Operand(op % 8, m)), m)
  }

  function CbExecuted(s: Cpu, m: Memory, op: uint8): (Cpu, Memory) {
    var index, bit, v := op % 8, op / 8 % 8, s.Operand(op % 8, m);
    if op < 0x40 then
      var (r, carry) := Rotated(op / 8, v, s.Flag(FLAG_C));
      s.(f := Flags(r == 0, false, false, carry)).WithOperand(index, m, r)
    else if op < 0x80 then
      (s.(f := WithFlag(WithFlag(WithFlag(s.f, FLAG_Z, !TestBit(v, bit)), FLAG_N, false), FLAG_H, true)), m)
    else s.WithOperand(index, m, if op < 0xC0 then ClearBit(v, bit) else SetBit(v, bit))
  }

  // ---------------------------------------------------------------------------
  // Opcodes from 0xC0 up
  // ---------------------------------------------------------------------------

  predicate IsCall(op: uint8) {
    op == 0xCD || op == 0xC4 || op == 0xCC || op == 0xD4 || op == 0xDC
  }

  predicate IsReturn(op: uint8) {
    op == 0xC9 || op == 0xD9 || op == 0xC0 || op == 0xC8 || op == 0xD0 || op == 0xD8
  }

  predicate IsJump(op: uint8) {
    op == 0xC3 || op == 0xC2 || op == 0xCA || op == 0xD2 || op == 0xDA
  }

  predicate IsHighTransfer(op: uint8) {
    op == 0xE0 || op == 0xF0 || op == 0xE2 || op == 0xF2 || op == 0xEA || op == 0xFA
  }

  /** `BC DE HL AF`. */
  function StackPair(s: Cpu, op: uint8): uint16 {
    if op / 16 == 0xF then s.Af() else s.Pair(op / 16 % 4)
  }

  function PushExecuted(s: Cpu, m: Memory, value: uint16): (r: (Cpu, Memory))
    ensures r.0.f == s.f
  {
    (s.(sp := Wrap16((s.sp as int) - 2)), Pushed(m, s.sp, value))
  }

  function PopExecuted(s: Cpu, m: Memory, op: uint8): Cpu {
    var v, after := WordAt(m, s.sp), s.(sp := Wrap16(s.sp + 2));
    if op / 16 == 0xF then after.WithAf(v) else after.WithPair(op / 16 % 4, v)
  }

  function JumpExecuted(s: Cpu, m: Memory, op: uint8): (r: (Cpu, bool))
    ensures r.0.f == s.f
  {
    var taken := op == 0xC3 || s.Condition(op / 8);
    (if taken then s.(pc := WordAt(m, s.pc)) else s.Past(2), taken)
  }

  function CallExecuted(s: Cpu, m: Memory, op: uint8): (r: (Cpu, Memory, bool))
    ensures r.0.f == s.f
  {
    var taken := op == 0xCD || s.Condition(op / 8);
    if taken then
      var (after, m') := PushExecuted(s.Past(2), m, s.Past(2).pc);
      (after.(pc := WordAt(m, s.pc)), m', true)
    else (s.Past(2), m, false)
  }

  /** RETI enables interrupts at once. */
  function ReturnExecuted(s: Cpu, m: Memory, op: uint8): (r: (Cpu, bool))
    ensures r.0.f == s.f
  {
    var taken := op == 0xC9 || op == 0xD9 || s.Condition(op / 8);
    var back := if taken then s.(pc := WordAt(m, s.sp), sp := Wrap16(s.sp + 2)) else s;
    (if op == 0xD9 then back.(ime := true, inhibited := false) else back, taken)
  }

  function RestartExecuted(s: Cpu, m: Memory, op: uint8): (r: (Cpu, Memory))
    ensures r.0.f == s.f
  {
    var (after, m') := PushExecuted(s, m, s.pc);
    (after.(pc := op / 8 % 8 * 8), m')
  }

  function HighAddress(s: Cpu, m: Memory, op: uint8): nat {
    if op % 16 == 0 then 0xFF00 + (At(m, s.pc) as int) else if op % 16 == 2 then 0xFF00 + (s.c as int) else WordAt(m, s.pc)
  }

  /** Operand bytes of a high transfer. */
  function HighLength(op: uint8): nat {
    if op % 16 == 0 then 1 else if op % 16 == 2 then 0 else 2
  }

  /** A to or from high memory and absolute addresses. */
  function HighTransfer(s: Cpu, m: Memory, op: uint8): (r: (Cpu, Memory))
    ensures r.0.f == s.f
  {
    var past, addr := s.Past(HighLength(op)), HighAddress(s, m, op);
    if op < 0xF0 then (past, m[addr := s.a]) else (past.(a := At(m, addr)), m)
  }

  /** `ADD SP,r8`, `LD HL,SP+r8` and `LD SP,HL`. */
  function StackPointerExecuted(s: Cpu, m: Memory, op: uint8): Cpu {
    if op == 0xF9 then s.(sp := s.Hl())
    else
      var (v, f) := AddSp(s.sp, At(m, s.pc));
      s.Past(1).(f := f).WithPair(if op == 0xE8 then 3 else 2, v)
  }

  /** What neither branches nor stacks: high loads, SP arithmetic, DI and EI. */
  predicate IsTransfer(op: uint8) {
    IsHighTransfer(op) || op == 0xE8 || op == 0xF8 || op == 0xF9 || op == 0xF3 || op == 0xFB
  }

  function TransferExecuted(s: Cpu, m: Memory, op: uint8): (Cpu, Memory) {
    if op == 0xE8 || op == 0xF8 || op == 0xF9 then (StackPointerExecuted(s, m, op), m)
    else if op == 0xF3 || op == 0xFB then (s.(ime := op == 0xFB, inhibited := op == 0xFB), m)
    else HighTransfer(s, m, op)
  }

  function BranchExecuted(s: Cpu, m: Memory, op: uint8): (Cpu, Memory, bool) {
    if op % 8 == 7 then (RestartExecuted(s, m, op).0, RestartExecuted(s, m, op).1, false)
    else if IsCall(op) then CallExecuted(s, m, op)
    else if IsReturn(op) then (ReturnExecuted(s, m, op).0, m, ReturnExecuted(s, m, op).1)
    else if IsJump(op) then (JumpExecuted(s, m, op).0, m, JumpExecuted(s, m, op).1)
    else if op == 0xE9 then (s.(pc := s.Hl()), m, false)
    else if op % 16 == 1 then (PopExecuted(s, m, op), m, false)
    else
      var (after, m') := PushExecuted(s, m, StackPair(s, op));
      (after, m', false)
  }

  /** State, memory, whether a branch was taken, and the second opcode byte of a 0xCB instruction. */
  function HighExecuted(s: Cpu, m: Memory, op: uint8): (Cpu, Memory, bool, uint8) {
    if op == 0xCB then
      var (after, m') := CbExecuted(s.Past(1), m, At(m, s.pc));
      (after, m', false, At(m, s.pc))
    else if op % 8 == 6 then (AluDone(s.Past(1), op / 8 % 8, At(m, s.pc)), m, false, 0)
    else if IsTransfer(op) then (TransferExecuted(s, m, op).0, TransferExecuted(s, m, op).1, false, 0)
    else
      var (after, m', taken) := BranchExecuted(s, m, op);
      (after, m', taken, 0)
  }

  /** One opcode, PC already past it. */
  function Executed(s: Cpu, m: Memory, op: uint8): (Cpu, Memory, bool, uint8) {
    if op < 0x40 then
      var (after, m', taken) := LowExecuted(s, m, op);
      (after, m', taken, 0)
    else if op < 0xC0 then
      var (after, m') := RegisterExecuted(s, m, op);
      (after, m', false, 0)
    else if Undefined(op) then (s.(locked := true), m, false, 0)
    else HighExecuted(s, m, op)
  }

  // ---------------------------------------------------------------------------
  // Steps
  // ---------------------------------------------------------------------------

  /** Interrupts are sampled only when one could be acted upon. */
  function Sampled(s: Cpu, m: Memory): (pending: bv8)
    ensures pending & 0x1F == pending
  {
    if s.ime || s.halted || s.stopped then PendingBits(At(m, IF_ADDR), At(m, IE_ADDR)) else 0
  }

  /** Push PC and jump to the vector of the highest-priority source, acknowledging only it. */
  function Dispatched(s: Cpu, m: Memory, pending: bv8): (Cpu, Memory)
    requires pending & 0x1F != 0
  {
    var index := Lowest(pending);
    var (after, m') := PushExecuted(s, m[IF_ADDR := ClearBit(At(m, IF_ADDR), index)], s.pc);
    (after.(ime := false, pc := 0x0040 + index * 8), m')
  }

  /** The opcode at PC, executed; with the HALT bug PC does not move past it. */
  function Fetched(s: Cpu): Cpu {
    if s.haltBug then s.(haltBug := false) else s.Past(1)
  }

  /** State, memory, the cycles charged, and the opcode executed if one was. */
  function Stepped(s: Cpu, m: Memory): (Cpu, Memory, nat, Option<uint8>) {
    if s.locked then (s, m, 4, None)
    else
      var pending := Sampled(s, m);
      var awake := s.(inhibited := false, halted := s.halted && pending == 0, stopped := s.stopped && pending == 0);
      if pending & 0x1F != 0 && s.ime && !s.inhibited then
        var (after, m') := Dispatched(awake, m, pending);
        (after, m', 20, None)
      else if awake.halted || awake.stopped then (awake, m, 4, None)
      else
        var op := At(m, s.pc);
        var (after, m', taken, cb) := Executed(Fetched(awake), m, op);
        (after, m', Cost(op, taken, cb), Some(op))
  }

  /** State and memory after `n` steps, the cycles charged, and how many of them executed a STOP. */
  function Ran(s: Cpu, m: Memory, n: nat): (Cpu, Memory, nat, nat) {
    if n == 0 then (s, m, 0, 0)
    else
      var (before, m0, charged, stops) := Ran(s, m, n - 1);
      var (after, m', cycles, executed) := Stepped(before, m0);
      (after, m', charged + cycles, stops + if executed == Some(0x10) then 1 else 0)
  }
}
