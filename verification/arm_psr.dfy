/** Program status registers, processor modes, condition codes and the ALU's flags. */
module ArmPsr {
  import opened Words
  import opened Arith
  import opened ArmShift

  datatype Mode = User | Fiq | Irq | Supervisor | Abort | Undefined | System

  function ModeBits(m: Mode): nat {
    match m
    case User => 0x10
    case Fiq => 0x11
    case Irq => 0x12
    case Supervisor => 0x13
    case Abort => 0x17
    case Undefined => 0x1B
    case System => 0x1F
  }

  function ModeFromBits(bits: nat): Option<Mode> {
    if bits == 0x10 then Some(User)
    else if bits == 0x11 then Some(Fiq)
    else if bits == 0x12 then Some(Irq)
    else if bits == 0x13 then Some(Supervisor)
    else if bits == 0x17 then Some(Abort)
    else if bits == 0x1B then Some(Undefined)
    else if bits == 0x1F then Some(System)
    else None
  }

  const BANK_COUNT: nat := 6

  /** Which bank of R13, R14 and SPSR a mode selects; System shares User's. */
  function Bank(m: Mode): (b: nat)
    ensures b < BANK_COUNT
  {
    match m
    case User => 0
    case System => 0
    case Fiq => 1
    case Irq => 2
    case Supervisor => 3
    case Abort => 4
    case Undefined => 5
  }

  predicate HasSpsr(m: Mode) {
    !m.User? && !m.System?
  }

  predicate IsPrivileged(m: Mode) {
    !m.User?
  }

  type uint5 = x: int | 0 <= x < 0x20
  type uint20 = x: int | 0 <= x < 0x10_0000

  /** A status register, bit for bit: N Z C V, twenty bits with no meaning here, I F T, mode. */
  datatype Psr = Psr(n: bool, z: bool, c: bool, v: bool, rest: uint20, i: bool, f: bool, t: bool, modeBits: uint5) {
    /** An encoding that names no mode reads as Supervisor. */
    function CurrentMode(): Mode {
      match ModeFromBits(modeBits)
      case Some(m) => m
      case None => Supervisor
    }

    function SetMode(m: Mode): Psr {
      this.(modeBits := ModeBits(m))
    }

    function SetNZ(result: uint32): Psr {
      this.(n := Sign(result), z := result == 0)
    }

    function Bits(): uint32 {
      Nibble(n, z, c, v) * 0x1000_0000 + rest * 0x100 + Nibble(i, f, t, false) * 0x10 + modeBits
    }

    /** `(bits & !mask) | (value & mask)` for the byte lanes an `MSR` selects. */
    function Merge(value: uint32, flags: bool, control: bool): Psr {
      var w := FromBits(value);
      var lanes := if flags then this.(n := w.n, z := w.z, c := w.c, v := w.v) else this;
      if control then lanes.(i := w.i, f := w.f, t := w.t, modeBits := w.modeBits) else lanes
    }

    predicate PassesCondition(cond: nat) {
      if cond == 0x0 then z
      else if cond == 0x1 then !z
      else if cond == 0x2 then c
      else if cond == 0x3 then !c
      else if cond == 0x4 then n
      else if cond == 0x5 then !n
      else if cond == 0x6 then v
      else if cond == 0x7 then !v
      else if cond == 0x8 then c && !z
      else if cond == 0x9 then !c || z
      else if cond == 0xA then n == v
      else if cond == 0xB then n != v
      else if cond == 0xC then !z && n == v
      else if cond == 0xD then z || n != v
      else cond == 0xE
    }
  }

  function Nibble(b3: bool, b2: bool, b1: bool, b0: bool): (x: nat)
    ensures x < 16
  {
    (if b3 then 8 else 0) + (if b2 then 4 else 0) + (if b1 then 2 else 0) + if b0 then 1 else 0
  }

  function FromBits(x: uint32): Psr {
    var top, low := x / 0x1000_0000, x % 0x100 / 0x20;
    Psr(top / 8 == 1, top / 4 % 2 == 1, top / 2 % 2 == 1, top % 2 == 1,
        x / 0x100 % 0x10_0000,
        low / 4 == 1, low / 2 % 2 == 1, low % 2 == 1, x % 0x20)
  }

  /** The record and the 32-bit word carry the same information. */
  lemma PsrRoundTrip(p: Psr, x: uint32)
    ensures FromBits(p.Bits()) == p
    ensures FromBits(x).Bits() == x
  {
    PackedFlags(p);
    UnpackedFlags(x);
  }

  lemma PackedFlags(p: Psr)
    ensures FromBits(p.Bits()) == p
  {
    var top, low := Nibble(p.n, p.z, p.c, p.v), Nibble(false, p.i, p.f, p.t);
    assert Nibble(p.i, p.f, p.t, false) == 2 * low;
    PackedFields(top, p.rest, 2 * low, p.modeBits);
    NibbleBits(p.n, p.z, p.c, p.v);
    NibbleBits(false, p.i, p.f, p.t);
    assert p.Bits() == top * 0x1000_0000 + p.rest * 0x100 + 2 * low * 0x10 + p.modeBits;
    FromFields(p.Bits(), top, p.rest, low, p.modeBits);
  }

  lemma FromFields(x: uint32, top: nat, rest: nat, low: nat, mode: nat)
    requires x / 0x1000_0000 == top && x / 0x100 % 0x10_0000 == rest && x % 0x100 / 0x20 == low && x % 0x20 == mode
    ensures FromBits(x) == Psr(top / 8 == 1, top / 4 % 2 == 1, top / 2 % 2 == 1, top % 2 == 1, rest,
                               low / 4 == 1, low / 2 % 2 == 1, low % 2 == 1, mode)
  {
  }

  lemma UnpackedFlags(x: uint32)
    ensures FromBits(x).Bits() == x
  {
    var top, low := x / 0x1000_0000, x % 0x100 / 0x20;
    UnpackedNibble(top);
    UnpackedNibble(2 * low);
    UnpackedFields(x);
    assert Nibble(low / 4 == 1, low / 2 % 2 == 1, low % 2 == 1, false) == 2 * low;
  }

  lemma UnpackedFields(x: uint32)
    ensures x == x / 0x1000_0000 * 0x1000_0000 + x / 0x100 % 0x10_0000 * 0x100 + 2 * (x % 0x100 / 0x20) * 0x10 + x % 0x20
  {
    assert x / 0x1000_0000 == x / 0x100 / 0x10_0000;
  }

  lemma PackedFields(top: nat, mid: uint20, low: nat, mode: uint5)
    requires top < 16 && low < 16 && low % 2 == 0
    ensures var x := top * 0x1000_0000 + mid * 0x100 + low * 0x10 + mode;
      x / 0x1000_0000 == top && x / 0x100 % 0x10_0000 == mid && x % 0x100 / 0x20 == low / 2 && x % 0x20 == mode
  {
    var x, byte := top * 0x1000_0000 + mid * 0x100 + low * 0x10 + mode, low * 0x10 + mode;
    DivUniqueLeft(x, top, 0x1000_0000, mid * 0x100 + byte);
    DivUniqueLeft(x, top * 0x10_0000 + mid, 0x100, byte);
    DivUniqueLeft(top * 0x10_0000 + mid, top, 0x10_0000, mid);
    DivUniqueLeft(byte, low / 2, 0x20, mode);
    DivUniqueLeft(x, top * 0x80_0000 + mid * 8 + low / 2, 0x20, mode);
  }

  lemma NibbleBits(b3: bool, b2: bool, b1: bool, b0: bool)
    ensures var x := Nibble(b3, b2, b1, b0);
      (x / 8 == 1 <==> b3) && (x / 4 % 2 == 1 <==> b2) && (x / 2 % 2 == 1 <==> b1) && (x % 2 == 1 <==> b0)
  {
  }

  lemma UnpackedNibble(x: nat)
    requires x < 16
    ensures Nibble(x / 8 == 1, x / 4 % 2 == 1, x / 2 % 2 == 1, x % 2 == 1) == x
  {
  }

  lemma ModeEncodingsRoundTrip(m: Mode)
    ensures ModeFromBits(ModeBits(m)) == Some(m)
  {
  }

  // ---------------------------------------------------------------------------
  // Addition and subtraction with flags
  // ---------------------------------------------------------------------------

  /** `alu_add`: the result and the status register with NZCV updated. */
  function AluAdd(p: Psr, a: uint32, b: uint32, carryIn: bool): (uint32, Psr) {
    var wide := a + b + if carryIn then 1 else 0;
    var result := Wrap(wide);
    (result, p.SetNZ(result).(c := wide >= TWO32, v := Sign(a) != Sign(result) && Sign(b) != Sign(result)))
  }

  /** `alu_sub`: `a - b`, less one more when `carryIn` is clear; C is the inverse of the borrow. */
  function AluSub(p: Psr, a: uint32, b: uint32, carryIn: bool): (uint32, Psr) {
    var borrow := if carryIn then 0 else 1;
    var result := Wrap(a - b - borrow);
    (result, p.SetNZ(result).(c := a >= b + borrow, v := Sign(a) != Sign(b) && Sign(a) != Sign(result)))
  }

  /** Little-endian words as a number. */
  function Value(words: seq<uint32>): nat {
    if words == [] then 0 else Value(words[..|words| - 1]) + Pow2(32 * (|words| - 1)) * words[|words| - 1]
  }

  /** The number read as two's complement. */
  function SignedValue(words: seq<uint32>): int {
    if words != [] && Sign(words[|words| - 1]) then Value(words) - Pow2(32 * |words|) else Value(words)
  }

  /** `ADDS` on the lowest words, then `ADCS` upward. */
  function AddChain(p: Psr, xs: seq<uint32>, ys: seq<uint32>, carryIn: bool): (seq<uint32>, Psr)
    requires |xs| == |ys|
  {
    if xs == [] then ([], p.(c := carryIn))
    else
      var n := |xs| - 1;
      var (low, q) := AddChain(p, xs[..n], ys[..n], carryIn);
      var (w, r) := AluAdd(q, xs[n], ys[n], q.c);
      (low + [w], r)
  }

  /** `SUBS` on the lowest words, then `SBCS` upward. */
  function SubChain(p: Psr, xs: seq<uint32>, ys: seq<uint32>, carryIn: bool): (seq<uint32>, Psr)
    requires |xs| == |ys|
  {
    if xs == [] then ([], p.(c := carryIn))
    else
      var n := |xs| - 1;
      var (low, q) := SubChain(p, xs[..n], ys[..n], carryIn);
      var (w, r) := AluSub(q, xs[n], ys[n], q.c);
      (low + [w], r)
  }

  function Carry(on: bool): nat {
    if on then 1 else 0
  }

  lemma AluAddSum(p: Psr, a: uint32, b: uint32, carryIn: bool)
    ensures var (w, q) := AluAdd(p, a, b, carryIn); w + TWO32 * Carry(q.c) == a + b + Carry(carryIn)
  {
  }

  lemma AluSubDifference(p: Psr, a: uint32, b: uint32, carryIn: bool)
    ensures var (w, q) := AluSub(p, a, b, carryIn); w == a - b - Carry(!carryIn) + TWO32 * Carry(!q.c)
  {
  }

  lemma WordWeight(n: nat)
    ensures Pow2(32 * (n + 1)) == Pow2(32 * n) * TWO32
  {
    Pow2Add(32 * n, 32);
    Pow2Constants();
  }

  lemma ScaleSum(weight: nat, a: int, b: int, carry: int, w: int, out: int)
    requires w + TWO32 * out == a + b + carry
    ensures weight * w + (weight * TWO32) * out == weight * a + weight * b + weight * carry
  {
    MulAssoc(weight, TWO32, out);
    MulDistributes(weight, w, TWO32 * out);
    MulDistributes(weight, a + b, carry);
    MulDistributes(weight, a, b);
  }

  /** The chain adds numbers of any length, the final carry being the carry out of the whole sum. */
  lemma {:induction false} AddChainAdds(p: Psr, xs: seq<uint32>, ys: seq<uint32>, carryIn: bool)
    requires |xs| == |ys|
    ensures var (zs, q) := AddChain(p, xs, ys, carryIn);
      |zs| == |xs| && Value(zs) + Pow2(32 * |xs|) * Carry(q.c) == Value(xs) + Value(ys) + Carry(carryIn)
  {
    if xs != [] {
      var n := |xs| - 1;
      AddChainAdds(p, xs[..n], ys[..n], carryIn);
      var (low, q) := AddChain(p, xs[..n], ys[..n], carryIn);
      var (w, r) := AluAdd(q, xs[n], ys[n], q.c);
      AluAddSum(q, xs[n], ys[n], q.c);
      assert (low + [w])[..n] == low;
      WordWeight(n);
      ScaleSum(Pow2(32 * n), xs[n], ys[n], Carry(q.c), w, Carry(r.c));
    }
  }

  /** The chain subtracts numbers of any length; C set means no borrow out of the whole difference. */
  lemma {:induction false} SubChainSubtracts(p: Psr, xs: seq<uint32>, ys: seq<uint32>, carryIn: bool)
    requires |xs| == |ys|
    ensures var (zs, q) := SubChain(p, xs, ys, carryIn);
      |zs| == |xs| && Value(zs) == Value(xs) - Value(ys) - Carry(!carryIn) + Pow2(32 * |xs|) * Carry(!q.c)
  {
    if xs != [] {
      var n := |xs| - 1;
      SubChainSubtracts(p, xs[..n], ys[..n], carryIn);
      var (low, q) := SubChain(p, xs[..n], ys[..n], carryIn);
      var (w, r) := AluSub(q, xs[n], ys[n], q.c);
      AluSubDifference(q, xs[n], ys[n], q.c);
      assert (low + [w])[..n] == low;
      WordWeight(n);
      ScaleSum(Pow2(32 * n), w, ys[n], Carry(!q.c), xs[n], Carry(!r.c));
    }
  }

  lemma {:induction false} ValueBelow(words: seq<uint32>)
    ensures Value(words) < Pow2(32 * |words|)
  {
    if words != [] {
      var n := |words| - 1;
      ValueBelow(words[..n]);
      WordWeight(n);
      MulMono(Pow2(32 * n), words[n], TWO32 - 1);
      assert Pow2(32 * n) * (TWO32 - 1) == Pow2(32 * n) * TWO32 - Pow2(32 * n);
    }
  }

  /** After a subtract chain, HS and LO decide the unsigned order of the whole numbers. */
  lemma ChainDecidesUnsigned(p: Psr, xs: seq<uint32>, ys: seq<uint32>)
    requires |xs| == |ys|
    ensures var q := SubChain(p, xs, ys, true).1;
      (q.PassesCondition(0x2) <==> Value(xs) >= Value(ys)) && (q.PassesCondition(0x3) <==> Value(xs) < Value(ys))
  {
    var (zs, q) := SubChain(p, xs, ys, true);
    SubChainSubtracts(p, xs, ys, true);
    ValueBelow(zs);
  }

  /** The top word's two's-complement value, weighted, is the whole number less what lies below. */
  lemma SignedSplits(words: seq<uint32>)
    requires words != []
    ensures var n := |words| - 1; SignedValue(words) == Value(words[..n]) + Pow2(32 * n) * Signed(words[n])
  {
    var n := |words| - 1;
    WordWeight(n);
    if Sign(words[n]) {
      MulDistributes(Pow2(32 * n), words[n], 0 - TWO32);
    }
  }

  /** N differs from V exactly when the words' signed difference is negative. */
  lemma SignedCompare(p: Psr, a: uint32, b: uint32, carryIn: bool)
    ensures var q := AluSub(p, a, b, carryIn).1; q.n != q.v <==> Signed(a) - Signed(b) - Carry(!carryIn) < 0
  {
  }

  lemma BorrowDecides(weight: nat, low: int, d: int)
    requires 0 <= low < weight
    ensures low + weight * d < 0 <==> d < 0
  {
    if d < 0 {
      MulMono(weight, d, -1);
    } else {
      MulMono(weight, 0, d);
    }
  }

  /** After a subtract chain of at least one word, GE and LT decide the signed order of the whole numbers. */
  lemma ChainDecidesSigned(p: Psr, xs: seq<uint32>, ys: seq<uint32>)
    requires |xs| == |ys| && xs != []
    ensures var q := SubChain(p, xs, ys, true).1;
      (q.PassesCondition(0xA) <==> SignedValue(xs) >= SignedValue(ys)) &&
      (q.PassesCondition(0xB) <==> SignedValue(xs) < SignedValue(ys))
  {
    hide SubChain, Pow2, Value, SignedValue;
    var n := |xs| - 1;
    var weight := Pow2(32 * n);
    var (low, q) := SubChain(p, xs[..n], ys[..n], true);
    SubChainTop(p, xs, ys);
    SubChainSubtracts(p, xs[..n], ys[..n], true);
    ValueBelow(low);
    SignedSplits(xs);
    SignedSplits(ys);
    SignedCompare(q, xs[n], ys[n], q.c);
    DifferenceSign(weight, Value(low), Value(xs[..n]), Value(ys[..n]), Signed(xs[n]), Signed(ys[n]), Carry(!q.c));
  }

  lemma SubChainTop(p: Psr, xs: seq<uint32>, ys: seq<uint32>)
    requires |xs| == |ys| && xs != []
    ensures var n := |xs| - 1;
      var (low, q) := SubChain(p, xs[..n], ys[..n], true);
      SubChain(p, xs, ys, true).1 == AluSub(q, xs[n], ys[n], q.c).1
  {
  }

  /** The sign of a two-part difference is the sign of its upper part after the borrow. */
  lemma DifferenceSign(weight: nat, low: int, x: int, y: int, a: int, b: int, borrow: int)
    requires 0 <= low < weight && low == x - y + weight * borrow
    ensures x + weight * a < y + weight * b <==> a - b - borrow < 0
  {
    BorrowDecides(weight, low, a - b - borrow);
    assert weight * (a - b - borrow) == weight * a - weight * b - weight * borrow;
  }

  /** N is the sign of the 32-bit difference; V tells whether the signed difference fits in 32 bits. */
  lemma SignsAfterCompare(p: Psr, a: uint32, b: uint32)
    ensures var q := AluSub(p, a, b, true).1;
      (q.n <==> (a - b) % TWO32 >= TWO31) && (!q.v <==> 0 - TWO31 <= Signed(a) - Signed(b) < TWO31)
  {
  }

  /** After `CMP a, b` every condition but AL and NV holds exactly when its relation does. */
  lemma ConditionsAfterCompare(p: Psr, a: uint32, b: uint32)
    ensures var q := AluSub(p, a, b, true).1;
      (q.PassesCondition(0x0) <==> a == b) && (q.PassesCondition(0x1) <==> a != b) &&
      (q.PassesCondition(0x2) <==> a >= b) && (q.PassesCondition(0x3) <==> a < b) &&
      (q.PassesCondition(0x4) <==> (a - b) % TWO32 >= TWO31) && (q.PassesCondition(0x5) <==> (a - b) % TWO32 < TWO31) &&
      (q.PassesCondition(0x6) <==> !(0 - TWO31 <= Signed(a) - Signed(b) < TWO31)) &&
      (q.PassesCondition(0x7) <==> 0 - TWO31 <= Signed(a) - Signed(b) < TWO31) &&
      (q.PassesCondition(0x8) <==> a > b) && (q.PassesCondition(0x9) <==> a <= b) &&
      (q.PassesCondition(0xA) <==> Signed(a) >= Signed(b)) && (q.PassesCondition(0xB) <==> Signed(a) < Signed(b)) &&
      (q.PassesCondition(0xC) <==> Signed(a) > Signed(b)) && (q.PassesCondition(0xD) <==> Signed(a) <= Signed(b))
  {
    SignedCompare(p, a, b, true);
    SignsAfterCompare(p, a, b);
  }
}
