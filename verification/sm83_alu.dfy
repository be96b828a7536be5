/** The SM83's eight-bit arithmetic and its decimal adjustment. */
module Sm83Alu {
  import opened Words
  import opened Arith

  /** Result, half-carry, carry. */
  function Add8(a: uint8, v: uint8, carryIn: bool): (uint8, bool, bool) {
    var c := if carryIn then 1 else 0;
    ((a + v + c) % 0x100, a % 16 + v % 16 + c > 0x0F, a + v + c > 0xFF)
  }

  function Sub8(a: uint8, v: uint8, carryIn: bool): (uint8, bool, bool) {
    var c := if carryIn then 1 else 0;
    ((a - v - c) % 0x100, a % 16 < v % 16 + c, a < v + c)
  }

  /** `daa`: the adjusted accumulator and the carry, which it never clears. */
  function Daa8(a: uint8, n: bool, h: bool, c: bool): (uint8, bool) {
    var low := if h || (!n && a % 16 > 0x09) then 0x06 else 0;
    var high := if c || (!n && a > 0x99) then 0x60 else 0;
    ((if n then a - (low + high) else a + (low + high)) % 0x100, c || (!n && a > 0x99))
  }

  // ---------------------------------------------------------------------------
  // Packed decimal
  // ---------------------------------------------------------------------------

  predicate IsBcd(b: uint8) {
    b / 16 <= 9 && b % 16 <= 9
  }

  function FromBcd(b: uint8): nat {
    b / 16 * 10 + b % 16
  }

  /** One byte of `ADC A,v; DAA`. */
  function AdcDaa(a: uint8, v: uint8, carry: bool): (uint8, bool) {
    var (sum, h, c) := Add8(a, v, carry);
    Daa8(sum, false, h, c)
  }

  /** One byte of `SBC A,v; DAA`. */
  function SbcDaa(a: uint8, v: uint8, borrow: bool): (uint8, bool) {
    var (difference, h, c) := Sub8(a, v, borrow);
    Daa8(difference, true, h, c)
  }

  function Bit(b: bool): nat {
    if b then 1 else 0
  }

  lemma Nibbles(b: uint8)
    ensures b == b / 16 * 16 + b % 16
  {
  }

  lemma TwoDigits(high: nat, low: nat)
    requires high <= 15 && low <= 15
    ensures (high * 16 + low) / 16 == high && (high * 16 + low) % 16 == low
  {
  }

  lemma ByteOf(x: int, e: nat)
    requires e < 0x100 && (x == e || x == e + 0x100 || x == e - 0x100)
    ensures x % 0x100 == e
  {
  }

  /** When DAA corrects after an addition: each column by its own carry, or by having reached ten. */
  lemma SumCorrections(u: nat, l: nat, s: nat)
    requires u <= 18 && l <= 19 && s == if u * 16 + l > 0xFF then u * 16 + l - 0x100 else u * 16 + l
    ensures l > 15 || s % 16 > 9 <==> l >= 10
    ensures u * 16 + l > 0xFF || s > 0x99 <==> u * 10 + l >= 100
  {
    if l <= 15 {
      DivUniqueLeft(s, if u * 16 + l > 0xFF then u - 16 else u, 16, l);
    }
  }

  /** Adding two digit pairs that give the column sums `u` and `l`, before adjustment. */
  lemma AdjustSum(u: nat, l: nat)
    requires u <= 18 && l <= 19
    ensures var t := u * 16 + l;
      var (r, c) := Daa8(t % 0x100, false, l > 15, t > 0xFF);
      IsBcd(r) && FromBcd(r) + (if c then 100 else 0) == u * 10 + l
  {
    var t := u * 16 + l;
    var s := if t > 0xFF then t - 0x100 else t;
    ByteOf(t, s);
    SumCorrections(u, l, s);
    var high := (if u * 10 + l >= 100 then u - 10 else u) + if l >= 10 then 1 else 0;
    var low := if l >= 10 then l - 10 else l;
    ByteOf(s + (if l >= 10 then 6 else 0) + (if u * 10 + l >= 100 then 0x60 else 0), high * 16 + low);
    TwoDigits(high, low);
  }

  /** Subtracting two digit pairs that give the column differences `u` and `l`, before adjustment. */
  lemma AdjustDifference(u: int, l: int)
    requires -9 <= u <= 9 && -10 <= l <= 9
    ensures var t := u * 16 + l;
      var (r, c) := Daa8(t % 0x100, true, l < 0, t < 0);
      IsBcd(r) && FromBcd(r) - (if c then 100 else 0) == u * 10 + l
  {
    var t := u * 16 + l;
    var s := if t < 0 then t + 0x100 else t;
    ByteOf(t, s);
    var high := (if t < 0 then u + 10 else u) - if l < 0 then 1 else 0;
    var low := if l < 0 then l + 10 else l;
    ByteOf(s - (if l < 0 then 6 else 0) - (if t < 0 then 0x60 else 0), high * 16 + low);
    TwoDigits(high, low);
  }

  /** One byte of decimal addition: two digits, and the decimal carry in the carry flag. */
  lemma AddByte(a: uint8, v: uint8, carry: bool)
    requires IsBcd(a) && IsBcd(v)
    ensures var (r, c) := AdcDaa(a, v, carry); IsBcd(r) && FromBcd(r) + (if c then 100 else 0) == FromBcd(a) + FromBcd(v) + Bit(carry)
  {
    Nibbles(a);
    Nibbles(v);
    AdjustSum(a / 16 + v / 16, a % 16 + v % 16 + Bit(carry));
  }

  lemma SubByte(a: uint8, v: uint8, borrow: bool)
    requires IsBcd(a) && IsBcd(v)
    ensures var (r, c) := SbcDaa(a, v, borrow); IsBcd(r) && FromBcd(r) - (if c then 100 else 0) == FromBcd(a) - FromBcd(v) - Bit(borrow)
  {
    Nibbles(a);
    Nibbles(v);
    AdjustDifference((a / 16 as int) - v / 16, (a % 16 as int) - v % 16 - Bit(borrow));
  }

  // ---------------------------------------------------------------------------
  // Numbers of any length
  // ---------------------------------------------------------------------------

  ghost predicate AllBcd(bytes: seq<uint8>) {
    forall i :: 0 <= i < |bytes| ==> IsBcd(bytes[i])
  }

  /** A packed-decimal number, least significant byte first. */
  function Decimal(bytes: seq<uint8>): nat {
    if bytes == [] then 0 else FromBcd(bytes[0]) + 100 * Decimal(bytes[1..])
  }

  function Pow100(n: nat): (p: nat)
    ensures p > 0
  {
    if n == 0 then 1 else 100 * Pow100(n - 1)
  }

  /** The loop a program runs: ADC and DAA on each byte, the carry flag linking one to the next. */
  function AddLoop(x: seq<uint8>, y: seq<uint8>, carry: bool): (r: (seq<uint8>, bool))
    requires |x| == |y|
    ensures |r.0| == |x|
  {
    if x == [] then ([], carry)
    else
      var (b, c) := AdcDaa(x[0], y[0], carry);
      var rest := AddLoop(x[1..], y[1..], c);
      ([b] + rest.0, rest.1)
  }

  function SubLoop(x: seq<uint8>, y: seq<uint8>, borrow: bool): (r: (seq<uint8>, bool))
    requires |x| == |y|
    ensures |r.0| == |x|
  {
    if x == [] then ([], borrow)
    else
      var (b, c) := SbcDaa(x[0], y[0], borrow);
      var rest := SubLoop(x[1..], y[1..], c);
      ([b] + rest.0, rest.1)
  }

  lemma {:induction false} AddLoopAdds(x: seq<uint8>, y: seq<uint8>, carry: bool)
    requires |x| == |y| && AllBcd(x) && AllBcd(y)
    ensures var (r, c) := AddLoop(x, y, carry);
      AllBcd(r) && Decimal(r) + (if c then Pow100(|x|) else 0) == Decimal(x) + Decimal(y) + Bit(carry)
  {
    if x != [] {
      var (b, c) := AdcDaa(x[0], y[0], carry);
      AddByte(x[0], y[0], carry);
      AddLoopAdds(x[1..], y[1..], c);
      var rest := AddLoop(x[1..], y[1..], c);
      Cons(b, rest.0);
      Column(FromBcd(b), FromBcd(x[0]), FromBcd(y[0]), Bit(carry), c,
             Decimal(rest.0), Decimal(x[1..]), Decimal(y[1..]), rest.1, Pow100(|x| - 1));
    }
  }

  /** A column and the columns above it. */
  lemma Column(b: int, x: int, y: int, k: int, c: bool, rest: int, dx: int, dy: int, c': bool, p: int)
    requires b + (if c then 100 else 0) == x + y + k
    requires rest + (if c' then p else 0) == dx + dy + Bit(c)
    ensures b + 100 * rest + (if c' then 100 * p else 0) == (x + 100 * dx) + (y + 100 * dy) + k
  {
  }

  lemma Cons(b: uint8, rest: seq<uint8>)
    requires IsBcd(b) && AllBcd(rest)
    ensures AllBcd([b] + rest) && Decimal([b] + rest) == FromBcd(b) + 100 * Decimal(rest)
  {
    assert ([b] + rest)[1..] == rest;
  }

  lemma {:induction false} SubLoopSubtracts(x: seq<uint8>, y: seq<uint8>, borrow: bool)
    requires |x| == |y| && AllBcd(x) && AllBcd(y)
    ensures var (r, c) := SubLoop(x, y, borrow);
      AllBcd(r) && Decimal(r) - (if c then Pow100(|x|) else 0) == Decimal(x) - Decimal(y) - Bit(borrow)
  {
    if x != [] {
      var (b, c) := SbcDaa(x[0], y[0], borrow);
      SubByte(x[0], y[0], borrow);
      SubLoopSubtracts(x[1..], y[1..], c);
      var rest := SubLoop(x[1..], y[1..], c);
      Cons(b, rest.0);
      ColumnLess(FromBcd(b), FromBcd(x[0]), FromBcd(y[0]), Bit(borrow), c,
                 Decimal(rest.0), Decimal(x[1..]), Decimal(y[1..]), rest.1, Pow100(|x| - 1));
    }
  }

  lemma ColumnLess(b: int, x: int, y: int, k: int, c: bool, rest: int, dx: int, dy: int, c': bool, p: int)
    requires b - (if c then 100 else 0) == x - y - k
    requires rest - (if c' then p else 0) == dx - dy - Bit(c)
    ensures b + 100 * rest - (if c' then 100 * p else 0) == (x + 100 * dx) - (y + 100 * dy) - k
  {
  }

  lemma {:induction false} DecimalBound(x: seq<uint8>)
    requires AllBcd(x)
    ensures Decimal(x) < Pow100(|x|)
  {
    if x != [] {
      DecimalBound(x[1..]);
    }
  }

  /**
   * For packed-decimal numbers of any length the loop leaves their decimal sum reduced modulo 100^n, still
   * packed decimal, and the carry flag is the decimal carry.
   */
  lemma DecimalAddition(x: seq<uint8>, y: seq<uint8>, carry: bool)
    requires |x| == |y| && AllBcd(x) && AllBcd(y)
    ensures var (r, c), total, span := AddLoop(x, y, carry), Decimal(x) + Decimal(y) + Bit(carry), Pow100(|x|);
      AllBcd(r) && Decimal(r) == (if total >= span then total - span else total) < span && (c <==> total >= span)
  {
    AddLoopAdds(x, y, carry);
    DecimalBound(AddLoop(x, y, carry).0);
  }

  /** Likewise the difference, with the carry flag the decimal borrow. */
  lemma DecimalSubtraction(x: seq<uint8>, y: seq<uint8>, borrow: bool)
    requires |x| == |y| && AllBcd(x) && AllBcd(y)
    ensures var (r, c), total, span := SubLoop(x, y, borrow), Decimal(x) - Decimal(y) - Bit(borrow), Pow100(|x|);
      AllBcd(r) && Decimal(r) == (if total < 0 then total + span else total) < span && (c <==> total < 0)
  {
    SubLoopSubtracts(x, y, borrow);
    DecimalBound(SubLoop(x, y, borrow).0);
  }
}
