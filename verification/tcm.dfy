/** Tightly-coupled memories, mirrored through their regions and spliced over a bus by priority. */
module TightlyCoupled {
  import opened Words
  import opened Arith

  const TWO32: nat := 0x1_0000_0000
  const PAGE: nat := 0x1000

  // ---------------------------------------------------------------------------
  // One memory
  // ---------------------------------------------------------------------------

  datatype TcmState = TcmState(data: seq<uint8>, base: uint32, regionSize: uint32, enabled: bool, loadMode: bool)

  function Wrapping(x: int): uint32 {
    x % TWO32
  }

  /** `512 << field` in 32 bits: a field of 23 or more shifts everything out. */
  function RegionSize(field: nat): uint32 {
    Wrapping(512 * Pow2(field))
  }

  function SizeField(register: uint32): (field: nat)
    ensures field < 32
  {
    register / 2 % 32
  }

  function PageOf(x: uint32): uint32 {
    x - x % PAGE
  }

  function Configured(t: TcmState, register: uint32, baseIsFixed: bool): TcmState {
    t.(regionSize := RegionSize(SizeField(register)), base := if baseIsFixed then 0 else PageOf(register))
  }

  function TrailingZeros(x: nat): (n: nat)
    ensures n <= x
    decreases x
  {
    if x == 0 || x % 2 == 1 then 0 else 1 + TrailingZeros(x / 2)
  }

  function FieldBack(regionSize: uint32): nat {
    if regionSize < 512 then 0 else TrailingZeros(regionSize / 512) % 32
  }

  function SizeRegister(t: TcmState): nat {
    PageOf(t.base) + FieldBack(t.regionSize) * 2
  }

  predicate InRegion(t: TcmState, addr: uint32) {
    t.regionSize != 0 && Wrapping(addr - t.base) < t.regionSize
  }

  predicate ServesReads(t: TcmState, addr: uint32) {
    t.enabled && !t.loadMode && InRegion(t, addr)
  }

  predicate ServesWrites(t: TcmState, addr: uint32) {
    t.enabled && InRegion(t, addr)
  }

  function Offset(t: TcmState, addr: uint32): (offset: nat)
    requires |t.data| > 0
    ensures offset < |t.data|
  {
    Wrapping(addr - t.base) % |t.data|
  }

  function ReadTcm(t: TcmState, addr: uint32): uint8
    requires |t.data| > 0
  {
    t.data[Offset(t, addr)]
  }

  function WriteTcm(t: TcmState, addr: uint32, value: uint8): (t': TcmState)
    requires |t.data| > 0
    ensures |t'.data| == |t.data|
  {
    t.(data := t.data[Offset(t, addr) := value])
  }

  class Tcm {
    const data: array<uint8>
    var base: uint32
    var regionSize: uint32
    var enabled: bool
    var loadMode: bool

    ghost predicate Valid() {
      data.Length > 0
    }

    ghost function View(): TcmState
      reads this, data
    {
      TcmState(data[..], base, regionSize, enabled, loadMode)
    }

    constructor (physicalSize: nat)
      requires physicalSize > 0
      ensures Valid() && fresh(data) && View() == TcmState(seq(physicalSize, _ => 0), 0, 0, false, false)
    {
      data := new uint8[physicalSize](_ => 0);
      base, regionSize, enabled, loadMode := 0, 0, false, false;
      new;
      assert data[..] == seq(physicalSize, _ => 0);
    }

    method SetEnabled(on: bool)
      modifies this`enabled
      ensures enabled == on
    {
      enabled := on;
    }

    method SetLoadMode(on: bool)
      modifies this`loadMode
      ensures loadMode == on
    {
      loadMode := on;
    }

    method Configure(register: uint32, baseIsFixed: bool)
      modifies this`base, this`regionSize
      ensures View() == Configured(old(View()), register, baseIsFixed)
    {
      var field := register / 2 % 32;
      regionSize := RegionSize(field);
      base := if baseIsFixed then 0 else PageOf(register);
    }

    function RespondsToRead(addr: uint32): (r: bool)
      reads this, data
      ensures r == ServesReads(View(), addr)
    {
      enabled && !loadMode && regionSize != 0 && Wrapping(addr - base) < regionSize
    }

    function RespondsToWrite(addr: uint32): (r: bool)
      reads this, data
      ensures r == ServesWrites(View(), addr)
    {
      enabled && regionSize != 0 && Wrapping(addr - base) < regionSize
    }

    method Read8(addr: uint32) returns (value: uint8)
      requires Valid()
      ensures value == ReadTcm(View(), addr)
    {
      value := data[Wrapping(addr - base) % data.Length];
    }

    method Write8(addr: uint32, value: uint8)
      requires Valid()
      modifies data
      ensures View() == WriteTcm(old(View()), addr, value)
    {
      var offset := Wrapping(addr - base) % data.Length;
      data[offset] := value;
    }
  }

  // ---------------------------------------------------------------------------
  // The bus behind
  // ---------------------------------------------------------------------------

  datatype Access =
    | R8(addr: uint32) | R16(addr: uint32) | R32(addr: uint32)
    | W8(addr: uint32, value8: uint8) | W16(addr: uint32, value16: uint16) | W32(addr: uint32, value32: uint32)

  /** How a device answers a read, given every access made to it before: any side effect is allowed. */
  datatype Answers = Answers(byte: (seq<Access>, uint32) -> uint8, half: (seq<Access>, uint32) -> uint16,
                             word: (seq<Access>, uint32) -> uint32)

  /** Any bus at all: byte and wide accesses need not agree with each other. */
  class Device {
    const answers: Answers
    var log: seq<Access>

    constructor (answers: Answers)
      ensures this.answers == answers && log == []
    {
      this.answers := answers;
      log := [];
    }

    method Read8(addr: uint32) returns (value: uint8)
      modifies this
      ensures value == answers.byte(old(log), addr) && log == old(log) + [R8(addr)]
    {
      value := answers.byte(log, addr);
      log := log + [R8(addr)];
    }

    method Read16(addr: uint32) returns (value: uint16)
      modifies this
      ensures value == answers.half(old(log), addr) && log == old(log) + [R16(addr)]
    {
      value := answers.half(log, addr);
      log := log + [R16(addr)];
    }

    method Read32(addr: uint32) returns (value: uint32)
      modifies this
      ensures value == answers.word(old(log), addr) && log == old(log) + [R32(addr)]
    {
      value := answers.word(log, addr);
      log := log + [R32(addr)];
    }

    method Write(access: Access)
      modifies this
      ensures log == old(log) + [access]
    {
      log := log + [access];
    }
  }

  // ---------------------------------------------------------------------------
  // The overlay, as functions
  // ---------------------------------------------------------------------------

  datatype Overlay = Overlay(itcm: TcmState, dtcm: TcmState, log: seq<Access>)

  ghost predicate HasMemory(s: Overlay) {
    |s.itcm.data| > 0 && |s.dtcm.data| > 0
  }

  datatype Server = Itcm | Dtcm | Inner

  function ReadServer(s: Overlay, addr: uint32): Server {
    if ServesReads(s.itcm, addr) then Itcm else if ServesReads(s.dtcm, addr) then Dtcm else Inner
  }

  function WriteServer(s: Overlay, addr: uint32): Server {
    if ServesWrites(s.itcm, addr) then Itcm else if ServesWrites(s.dtcm, addr) then Dtcm else Inner
  }

  function Byte(a: Answers, s: Overlay, addr: uint32): (r: (uint8, Overlay))
    requires HasMemory(s)
    ensures HasMemory(r.1)
  {
    match ReadServer(s, addr)
    case Itcm => (ReadTcm(s.itcm, addr), s)
    case Dtcm => (ReadTcm(s.dtcm, addr), s)
    case Inner => (a.byte(s.log, addr), s.(log := s.log + [R8(addr)]))
  }

  /** `n` bytes from `addr`, one byte access each. */
  function Bytes(a: Answers, s: Overlay, addr: uint32, n: nat): (r: (seq<uint8>, Overlay))
    requires HasMemory(s)
    ensures HasMemory(r.1) && |r.0| == n
  {
    if n == 0 then ([], s)
    else
      var first := Bytes(a, s, addr, n - 1);
      var last := Byte(a, first.1, Wrapping(addr + n - 1));
      (first.0 + [last.0], last.1)
  }

  function PutByte(s: Overlay, addr: uint32, value: uint8): (s': Overlay)
    requires HasMemory(s)
    ensures HasMemory(s')
  {
    match WriteServer(s, addr)
    case Itcm => s.(itcm := WriteTcm(s.itcm, addr, value))
    case Dtcm => s.(dtcm := WriteTcm(s.dtcm, addr, value))
    case Inner => s.(log := s.log + [W8(addr, value)])
  }

  function PutBytes(s: Overlay, addr: uint32, values: seq<uint8>): (s': Overlay)
    requires HasMemory(s)
    ensures HasMemory(s')
    decreases |values|
  {
    if values == [] then s
    else PutByte(PutBytes(s, addr, values[..|values| - 1]), Wrapping(addr + |values| - 1), values[|values| - 1])
  }

  // ---------------------------------------------------------------------------
  // The overlay, as a bus
  // ---------------------------------------------------------------------------

  class TcmBus {
    const inner: Device
    const itcm: Tcm
    const dtcm: Tcm

    ghost predicate Valid() {
      itcm.Valid() && dtcm.Valid() && itcm != dtcm && itcm.data != dtcm.data
    }

    ghost function View(): Overlay
      reads inner, itcm, dtcm, itcm.data, dtcm.data
    {
      Overlay(itcm.View(), dtcm.View(), inner.log)
    }

    constructor (inner: Device, itcm: Tcm, dtcm: Tcm)
      requires itcm.Valid() && dtcm.Valid() && itcm != dtcm && itcm.data != dtcm.data
      ensures Valid() && this.inner == inner && this.itcm == itcm && this.dtcm == dtcm
    {
      this.inner := inner;
      this.itcm := itcm;
      this.dtcm := dtcm;
    }

    method Read8(addr: uint32) returns (value: uint8)
      requires Valid()
      modifies inner
      ensures (value, View()) == Byte(inner.answers, old(View()), addr)
    {
      if itcm.RespondsToRead(addr) {
        value := itcm.Read8(addr);
      } else if dtcm.RespondsToRead(addr) {
        value := dtcm.Read8(addr);
      } else {
        value := inner.Read8(addr);
      }
    }

    method Write8(addr: uint32, value: uint8)
      requires Valid()
      modifies inner, itcm.data, dtcm.data
      ensures View() == PutByte(old(View()), addr, value)
    {
      if itcm.RespondsToWrite(addr) {
        itcm.Write8(addr, value);
      } else if dtcm.RespondsToWrite(addr) {
        dtcm.Write8(addr, value);
      } else {
        inner.Write(W8(addr, value));
      }
    }

    /** Answered from byte accesses if a TCM has the first byte, else forwarded whole. */
    method Read16(addr: uint32) returns (value: uint16)
      requires Valid()
      modifies inner
      ensures if ReadServer(old(View()), addr) != Inner then
          var (bytes, after) := Bytes(inner.answers, old(View()), addr, 2);
          value == FromLittleEndian(bytes) && View() == after
        else
          value == inner.answers.half(old(inner.log), addr) && View() == old(View()).(log := old(inner.log) + [R16(addr)])
    {
      if itcm.RespondsToRead(addr) || dtcm.RespondsToRead(addr) {
        ghost var s := View();
        var b0 := Read8(addr);
        var b1 := Read8(Wrapping(addr + 1));
        TwoBytes(inner.answers, s, addr);
        value := HalfOf(b0, b1);
      } else {
        value := inner.Read16(addr);
      }
    }

    method Read32(addr: uint32) returns (value: uint32)
      requires Valid()
      modifies inner
      ensures if ReadServer(old(View()), addr) != Inner then
          var (bytes, after) := Bytes(inner.answers, old(View()), addr, 4);
          value == FromLittleEndian(bytes) && View() == after
        else
          value == inner.answers.word(old(inner.log), addr) && View() == old(View()).(log := old(inner.log) + [R32(addr)])
    {
      if itcm.RespondsToRead(addr) || dtcm.RespondsToRead(addr) {
        ghost var s := View();
        var b0 := Read8(addr);
        var b1 := Read8(Wrapping(addr + 1));
        var b2 := Read8(Wrapping(addr + 2));
        var b3 := Read8(Wrapping(addr + 3));
        FourBytes(inner.answers, s, addr);
        value := WordOf(b0, b1, b2, b3);
      } else {
        value := inner.Read32(addr);
      }
    }

    method Write16(addr: uint32, value: uint16)
      requires Valid()
      modifies inner, itcm.data, dtcm.data
      ensures View() ==
        if WriteServer(old(View()), addr) != Inner then PutBytes(old(View()), addr, [value % 0x100, value / 0x100])
        else old(View()).(log := old(inner.log) + [W16(addr, value)])
    {
      if itcm.RespondsToWrite(addr) || dtcm.RespondsToWrite(addr) {
        ghost var s := View();
        Write8(addr, value % 0x100);
        Write8(Wrapping(addr + 1), value / 0x100);
        PutTwo(s, addr, value % 0x100, value / 0x100);
      } else {
        inner.Write(W16(addr, value));
      }
    }

    method Write32(addr: uint32, value: uint32)
      requires Valid()
      modifies inner, itcm.data, dtcm.data
      ensures View() ==
        if WriteServer(old(View()), addr) != Inner then PutBytes(old(View()), addr, ToLittleEndian(value, 4))
        else old(View()).(log := old(inner.log) + [W32(addr, value)])
    {
      if itcm.RespondsToWrite(addr) || dtcm.RespondsToWrite(addr) {
        ghost var s := View();
        WordBytes(value);
        Write8(addr, value % 0x100);
        Write8(Wrapping(addr + 1), value / 0x100 % 0x100);
        Write8(Wrapping(addr + 2), value / 0x1_0000 % 0x100);
        Write8(Wrapping(addr + 3), value / 0x100_0000);
        PutFour(s, addr, value % 0x100, value / 0x100 % 0x100, value / 0x1_0000 % 0x100, value / 0x100_0000);
      } else {
        inner.Write(W32(addr, value));
      }
    }
  }

  /** `u16::from_le_bytes`. */
  function HalfOf(b0: uint8, b1: uint8): (value: uint16)
    ensures value == FromLittleEndian([b0, b1])
  {
    FromLittleEndianBound([b0, b1]);
    assert Pow256(2) == 0x1_0000;
    FromLittleEndian([b0, b1])
  }

  /** `u32::from_le_bytes`. */
  function WordOf(b0: uint8, b1: uint8, b2: uint8, b3: uint8): (value: uint32)
    ensures value == FromLittleEndian([b0, b1, b2, b3])
  {
    FromLittleEndianBound([b0, b1, b2, b3]);
    assert Pow256(4) == 0x1_0000_0000;
    FromLittleEndian([b0, b1, b2, b3])
  }

  lemma OneMoreByte(a: Answers, s: Overlay, addr: uint32, n: nat, before: seq<uint8>, s': Overlay)
    requires HasMemory(s) && Bytes(a, s, addr, n) == (before, s')
    ensures HasMemory(s') && var (b, s'') := Byte(a, s', Wrapping(addr + n)); Bytes(a, s, addr, n + 1) == (before + [b], s'')
  {
  }

  lemma TwoBytes(a: Answers, s: Overlay, addr: uint32)
    requires HasMemory(s)
    ensures var (b0, s1) := Byte(a, s, addr);
      var (b1, s2) := Byte(a, s1, Wrapping(addr + 1));
      Bytes(a, s, addr, 2) == ([b0, b1], s2)
  {
    var (b0, s1) := Byte(a, s, addr);
    var b1 := Byte(a, s1, Wrapping(addr + 1)).0;
    assert Wrapping(addr + 0) == addr;
    OneMoreByte(a, s, addr, 0, [], s);
    assert [] + [b0] == [b0];
    OneMoreByte(a, s, addr, 1, [b0], s1);
    assert [b0] + [b1] == [b0, b1];
  }

  lemma FourBytes(a: Answers, s: Overlay, addr: uint32)
    requires HasMemory(s)
    ensures var (b0, s1) := Byte(a, s, addr);
      var (b1, s2) := Byte(a, s1, Wrapping(addr + 1));
      var (b2, s3) := Byte(a, s2, Wrapping(addr + 2));
      var (b3, s4) := Byte(a, s3, Wrapping(addr + 3));
      Bytes(a, s, addr, 4) == ([b0, b1, b2, b3], s4)
  {
    var (b0, s1) := Byte(a, s, addr);
    var (b1, s2) := Byte(a, s1, Wrapping(addr + 1));
    var (b2, s3) := Byte(a, s2, Wrapping(addr + 2));
    var b3 := Byte(a, s3, Wrapping(addr + 3)).0;
    TwoBytes(a, s, addr);
    OneMoreByte(a, s, addr, 2, [b0, b1], s2);
    assert [b0, b1] + [b2] == [b0, b1, b2];
    OneMoreByte(a, s, addr, 3, [b0, b1, b2], s3);
    assert [b0, b1, b2] + [b3] == [b0, b1, b2, b3];
  }

  lemma PutTwo(s: Overlay, addr: uint32, b0: uint8, b1: uint8)
    requires HasMemory(s)
    ensures PutBytes(s, addr, [b0, b1]) == PutByte(PutByte(s, addr, b0), Wrapping(addr + 1), b1)
  {
    assert [b0, b1][..1] == [b0] && [b0][..0] == [];
    assert Wrapping(addr + 0) == addr;
    assert PutBytes(s, addr, [b0]) == PutByte(s, addr, b0);
  }

  lemma PutFour(s: Overlay, addr: uint32, b0: uint8, b1: uint8, b2: uint8, b3: uint8)
    requires HasMemory(s)
    ensures PutBytes(s, addr, [b0, b1, b2, b3]) ==
      PutByte(PutByte(PutByte(PutByte(s, addr, b0), Wrapping(addr + 1), b1), Wrapping(addr + 2), b2), Wrapping(addr + 3), b3)
  {
    PutTwo(s, addr, b0, b1);
    assert [b0, b1, b2, b3][..3] == [b0, b1, b2] && [b0, b1, b2][..2] == [b0, b1];
    assert PutBytes(s, addr, [b0, b1, b2]) == PutByte(PutBytes(s, addr, [b0, b1]), Wrapping(addr + 2), b2);
  }

  lemma WordBytes(value: uint32)
    ensures ToLittleEndian(value, 4) == [value % 0x100, value / 0x100 % 0x100, value / 0x1_0000 % 0x100, value / 0x100_0000]
  {
    assert ToLittleEndian(value, 4) == [value % 256] + ToLittleEndian(value / 256, 3);
    assert ToLittleEndian(value / 256, 3) == [value / 256 % 256] + ToLittleEndian(value / 256 / 256, 2);
    assert ToLittleEndian(value / 256 / 256, 2) == [value / 256 / 256 % 256] + ToLittleEndian(value / 256 / 256 / 256, 1);
  }

  // ---------------------------------------------------------------------------
  // Configuration
  // ---------------------------------------------------------------------------

  /** What `Configure` leaves, and a memory never configured. */
  predicate Aligned(t: TcmState) {
    t.base % PAGE == 0 && t.regionSize % 512 == 0
  }

  lemma Pow2To23()
    ensures Pow2(23) == 0x80_0000 && Pow2(32) == TWO32
  {
    assert Pow2(8) == 256;
    Pow2Add(8, 8);
    assert Pow2(7) == 128;
    Pow2Add(16, 7);
    Pow2Add(16, 16);
  }

  /** 512 shifted left in 32 bits is 512 times a 23-bit shift. */
  lemma RegionIsSectors(field: nat)
    ensures RegionSize(field) == 512 * (Pow2(field) % 0x80_0000)
  {
    ModScale(Pow2(field), 0x80_0000, 512);
  }

  lemma ConfiguredIsAligned(t: TcmState, register: uint32, baseIsFixed: bool)
    ensures Aligned(Configured(t, register, baseIsFixed))
  {
    RegionIsSectors(SizeField(register));
    MultipleMod(Pow2(SizeField(register)) % 0x80_0000, 512);
    PageOfPage(register);
  }

  /** Fields up to 22 give their size; the rest give none at all. */
  lemma RegionOf(field: nat)
    ensures field <= 22 ==> RegionSize(field) == 512 * Pow2(field)
    ensures field >= 23 ==> RegionSize(field) == 0
  {
    RegionIsSectors(field);
    Pow2To23();
    if field <= 22 {
      Pow2Mono(field, 22);
      assert Pow2(23) == Pow2(22) * 2;
      SmallMod(Pow2(field), 0x80_0000);
    } else {
      Pow2Add(field - 23, 23);
      MultipleMod(Pow2(field - 23), 0x80_0000);
    }
  }

  lemma MultipleMod(q: nat, m: nat)
    requires m > 0
    ensures (q * m) % m == 0
  {
    DivUniqueLeft(q * m, q, m, 0);
  }

  lemma {:induction false} ZerosOfPow(n: nat)
    ensures TrailingZeros(Pow2(n)) == n
  {
    if n > 0 {
      ZerosOfPow(n - 1);
    }
  }

  lemma FieldReadsBack(field: nat)
    requires field < 32
    ensures FieldBack(RegionSize(field)) == if field <= 22 then field else 0
  {
    RegionOf(field);
    if field <= 22 {
      Pow2Mono(0, field);
      ZerosOfPow(field);
      assert RegionSize(field) / 512 == Pow2(field);
      SmallMod(field, 32);
    }
  }

  lemma PageOfPage(x: uint32)
    ensures PageOf(x) % PAGE == 0 && PageOf(PageOf(x)) == PageOf(x)
  {
  }

  /** The register reads back its base page and its size field exactly when the field is at most 22. */
  lemma SizeRegisterReadsBack(t: TcmState, register: uint32)
    ensures var back := SizeRegister(Configured(t, register, false));
      back == PageOf(register) + 2 * SizeField(register) <==> SizeField(register) <= 22
    ensures SizeField(register) <= 22 ==> SizeRegister(Configured(t, register, true)) == 2 * SizeField(register)
  {
    FieldReadsBack(SizeField(register));
    PageOfPage(register);
    PageOfPage(0);
  }

  /** Configuring from what reads back changes nothing exactly when the region exists; otherwise it maps one sector. */
  lemma ReconfigureIsIdentity(t: TcmState, register: uint32)
    ensures var once := Configured(t, register, false);
      SizeRegister(once) < TWO32 &&
      var twice := Configured(once, SizeRegister(once), false);
      (twice == once <==> SizeField(register) <= 22) &&
      (SizeField(register) > 22 ==> twice == once.(regionSize := 512))
  {
    var field := SizeField(register);
    FieldReadsBack(field);
    PageOfPage(register);
    PageAndField(PageOf(register), if field <= 22 then field else 0);
    RegionOf(field);
    RegionOf(0);
  }

  lemma PageAndField(page: nat, field: nat)
    requires page % PAGE == 0 && field < 32 && page < TWO32
    ensures page + 2 * field < TWO32 && SizeField(page + 2 * field) == field && PageOf(page + 2 * field) == page
  {
  }

  // ---------------------------------------------------------------------------
  // Wide accesses stay in one memory
  // ---------------------------------------------------------------------------

  /** An aligned word lies wholly inside a region or wholly outside it, wrap-around regions included. */
  lemma WordStaysTogether(t: TcmState, addr: uint32, k: nat)
    requires Aligned(t) && addr % 4 == 0 && k < 4
    ensures Wrapping(addr + k) == addr + k && Wrapping(addr + k - t.base) == Wrapping(addr - t.base) + k
    ensures Wrapping(addr - t.base) % 4 == 0
    ensures InRegion(t, addr + k) <==> InRegion(t, addr)
  {
    OffsetInWords(addr, t.base);
    StaysInBlock((addr as int) - t.base, k, TWO32);
    StaysInBlock(addr, k, TWO32);
    SmallMod(addr, TWO32);
    BelowTogether(Wrapping(addr - t.base), k, t.regionSize);
  }

  lemma OffsetInWords(addr: int, base: int)
    requires addr % 4 == 0 && base % PAGE == 0
    ensures (addr - base) % 4 == 0
  {
    Recompose(base, PAGE);
  }

  lemma BelowTogether(d: nat, k: nat, size: nat)
    requires d % 4 == 0 && size % 512 == 0 && k < 4
    ensures d + k < size <==> d < size
  {
    Recompose(size, 512);
  }

  /** Reducing modulo a whole number of words keeps a word's bytes side by side. */
  lemma StaysInBlock(d: int, k: nat, m: nat)
    requires d % 4 == 0 && k < 4 && m > 0 && m % 4 == 0
    ensures (d + k) % m == d % m + k && d % m + 4 <= m && d % m % 4 == 0
  {
    Recompose(d, m);
    var q, r := d / m, d % m;
    Recompose(m, 4);
    var n := m / 4;
    assert q * m == q * n * 4 by { MulAssoc(q, n, 4); }
    assert r == 4 * (d / 4 - q * n);
    DivUniqueLeft(d + k, q, m, r + k);
  }

  ghost predicate AlignedOverlay(s: Overlay) {
    HasMemory(s) && Aligned(s.itcm) && Aligned(s.dtcm)
  }

  lemma SameServer(s: Overlay, addr: uint32, k: nat)
    requires AlignedOverlay(s) && addr % 4 == 0 && k < 4
    ensures addr + k < TWO32 && Wrapping(addr + k) == addr + k
    ensures ReadServer(s, addr + k) == ReadServer(s, addr) && WriteServer(s, addr + k) == WriteServer(s, addr)
  {
    WordStaysTogether(s.itcm, addr, k);
    WordStaysTogether(s.dtcm, addr, k);
  }

  /** The memory that answers. */
  function Serving(s: Overlay, server: Server): TcmState
    requires !server.Inner?
  {
    if server.Itcm? then s.itcm else s.dtcm
  }

  /** A wide read a TCM answers comes from that TCM alone, byte by byte through its mirror, and the bus sees nothing. */
  lemma WideReadIsOneMemory(a: Answers, s: Overlay, addr: uint32)
    requires AlignedOverlay(s) && addr % 4 == 0 && !ReadServer(s, addr).Inner?
    ensures var t := Serving(s, ReadServer(s, addr));
      addr + 3 < TWO32 &&
      Bytes(a, s, addr, 4) == ([ReadTcm(t, addr), ReadTcm(t, addr + 1), ReadTcm(t, addr + 2), ReadTcm(t, addr + 3)], s) &&
      Bytes(a, s, addr, 2) == ([ReadTcm(t, addr), ReadTcm(t, addr + 1)], s)
  {
    SameServer(s, addr, 1);
    SameServer(s, addr, 2);
    SameServer(s, addr, 3);
    TwoBytes(a, s, addr);
    FourBytes(a, s, addr);
  }

  // ---------------------------------------------------------------------------
  // Reading back
  // ---------------------------------------------------------------------------

  /**
   * Outside load mode, a byte written to a TCM is read back at exactly the addresses that TCM serves at the
   * same place in its SRAM; every other address reads as before.
   */
  lemma WriteReadsBack(a: Answers, s: Overlay, addr: uint32, value: uint8, addr': uint32)
    requires HasMemory(s) && !s.itcm.loadMode && !s.dtcm.loadMode && !WriteServer(s, addr).Inner?
    ensures var server := WriteServer(s, addr);
      var mirrored := ReadServer(s, addr') == server && Offset(Serving(s, server), addr') == Offset(Serving(s, server), addr);
      Byte(a, PutByte(s, addr, value), addr').0 == if mirrored then value else Byte(a, s, addr').0
  {
    var server := WriteServer(s, addr);
    var t := Serving(s, server);
    WriteThenRead(t, addr, value, addr');
    assert ReadServer(PutByte(s, addr, value), addr') == ReadServer(s, addr');
  }

  lemma WriteThenRead(t: TcmState, addr: uint32, value: uint8, addr': uint32)
    requires |t.data| > 0
    ensures ReadTcm(WriteTcm(t, addr, value), addr') == if Offset(t, addr') == Offset(t, addr) then value else ReadTcm(t, addr')
  {
  }

  /** In load mode the TCM takes the write, and no read sees it until load mode ends. */
  lemma LoadModeHidesWrites(a: Answers, s: Overlay, addr: uint32, value: uint8, addr': uint32)
    requires HasMemory(s) && s.itcm.loadMode && WriteServer(s, addr) == Itcm
    ensures Byte(a, PutByte(s, addr, value), addr').0 == Byte(a, s, addr').0
    ensures var ended := PutByte(s, addr, value).(itcm := PutByte(s, addr, value).itcm.(loadMode := false));
      Byte(a, ended, addr).0 == value
  {
  }

  function WithServing(s: Overlay, server: Server, t: TcmState): Overlay {
    if server.Itcm? then s.(itcm := t) else s.(dtcm := t)
  }

  function Spliced(data: seq<uint8>, o: nat, bytes: seq<uint8>): seq<uint8>
    requires o + |bytes| <= |data|
  {
    data[..o] + bytes + data[o + |bytes|..]
  }

  /** An aligned word written to a TCM whose SRAM is a whole number of words reads back. */
  lemma WordReadsBack(a: Answers, s: Overlay, addr: uint32, value: uint32)
    requires AlignedOverlay(s) && !s.itcm.loadMode && !s.dtcm.loadMode && addr % 4 == 0 && !WriteServer(s, addr).Inner?
    requires |Serving(s, WriteServer(s, addr)).data| % 4 == 0
    ensures var after := PutBytes(s, addr, ToLittleEndian(value, 4));
      !ReadServer(after, addr).Inner? && Bytes(a, after, addr, 4).1 == after &&
      FromLittleEndian(Bytes(a, after, addr, 4).0) == value
  {
    var server, bytes := WriteServer(s, addr), ToLittleEndian(value, 4);
    var t := Serving(s, server);
    OffsetsRun(t, addr, 0);
    PutWord(s, addr, bytes, 4, server, t, Offset(t, addr));
    assert bytes[..4] == bytes;
    var after := PutBytes(s, addr, bytes);
    WordComesBack(a, after, addr, bytes, t);
    assert Pow256(4) == 0x1_0000_0000;
    LittleEndianRoundTrip(value, 4);
  }

  lemma WordComesBack(a: Answers, after: Overlay, addr: uint32, bytes: seq<uint8>, t: TcmState)
    requires AlignedOverlay(after) && addr % 4 == 0 && |bytes| == 4 && !ReadServer(after, addr).Inner?
    requires Aligned(t) && |t.data| > 0 && |t.data| % 4 == 0 && Offset(t, addr) + 4 <= |t.data|
    requires Serving(after, ReadServer(after, addr)) == t.(data := Spliced(t.data, Offset(t, addr), bytes))
    ensures Bytes(a, after, addr, 4) == (bytes, after)
  {
    WideReadIsOneMemory(a, after, addr);
    var spliced := Spliced(t.data, Offset(t, addr), bytes);
    ReadOne(t, spliced, addr, 0);
    ReadOne(t, spliced, addr, 1);
    ReadOne(t, spliced, addr, 2);
    ReadOne(t, spliced, addr, 3);
    assert bytes == [bytes[0], bytes[1], bytes[2], bytes[3]];
  }

  lemma ReadOne(t: TcmState, data: seq<uint8>, addr: uint32, k: nat)
    requires Aligned(t) && |data| == |t.data| > 0 && |t.data| % 4 == 0 && addr % 4 == 0 && k < 4
    ensures addr + k < TWO32 && Offset(t, addr) + k < |data|
    ensures ReadTcm(t.(data := data), addr + k) == data[Offset(t, addr) + k]
  {
    OffsetsRun(t, addr, k);
  }

  /** One byte of an aligned word goes to its place in the serving TCM. */
  lemma PutOne(s: Overlay, addr: uint32, k: nat, value: uint8, server: Server, t: TcmState)
    requires AlignedOverlay(s) && addr % 4 == 0 && k < 4
    requires server == WriteServer(s, addr) && !server.Inner? && t == Serving(s, server) && |t.data| % 4 == 0
    ensures Offset(t, addr) + 4 <= |t.data|
    ensures PutByte(s, Wrapping(addr + k), value) == WithServing(s, server, t.(data := t.data[Offset(t, addr) + k := value]))
  {
    SameServer(s, addr, k);
    OffsetsRun(t, addr, k);
  }

  /** Which memory serves, and where in it, does not depend on what is stored. */
  lemma PutNext(s: Overlay, addr: uint32, k: nat, value: uint8, server: Server, t: TcmState, data: seq<uint8>, o: nat)
    requires AlignedOverlay(s) && addr % 4 == 0 && k < 4 && |data| == |t.data|
    requires server == WriteServer(s, addr) && !server.Inner? && t == Serving(s, server) && |t.data| % 4 == 0
    requires o == Offset(t, addr)
    ensures o + 4 <= |data| && HasMemory(WithServing(s, server, t.(data := data)))
    ensures PutByte(WithServing(s, server, t.(data := data)), Wrapping(addr + k), value) ==
      WithServing(s, server, t.(data := data[o + k := value]))
  {
    var s', t' := WithServing(s, server, t.(data := data)), t.(data := data);
    assert WriteServer(s', addr) == server;
    PutOne(s', addr, k, value, server, t');
  }

  /** `server` has the aligned word at `addr`, from place `o` of its SRAM. */
  ghost predicate Holds(s: Overlay, addr: uint32, server: Server, t: TcmState, o: nat) {
    AlignedOverlay(s) && addr % 4 == 0 && server == WriteServer(s, addr) && !server.Inner? && t == Serving(s, server) &&
    |t.data| % 4 == 0 && o == Offset(t, addr) && o + 4 <= |t.data|
  }

  /** The overlay once the serving TCM holds `data`. */
  function Holding(s: Overlay, server: Server, t: TcmState, data: seq<uint8>): Overlay {
    WithServing(s, server, t.(data := data))
  }

  lemma PutNth(s: Overlay, addr: uint32, bytes: seq<uint8>, n: nat, server: Server, t: TcmState, o: nat)
    requires Holds(s, addr, server, t, o) && n < |bytes| == 4
    requires PutBytes(s, addr, bytes[..n]) == Holding(s, server, t, Spliced(t.data, o, bytes[..n]))
    ensures PutBytes(s, addr, bytes[..n + 1]) == Holding(s, server, t, Spliced(t.data, o, bytes[..n])[o + n := bytes[n]])
  {
    PutNext(s, addr, n, bytes[n], server, t, Spliced(t.data, o, bytes[..n]), o);
    LastPut(s, addr, bytes, n + 1);
  }

  /** Writing the first n bytes of a word splices them into the serving TCM's SRAM and changes nothing else. */
  lemma {:induction false} PutWord(s: Overlay, addr: uint32, bytes: seq<uint8>, n: nat, server: Server, t: TcmState, o: nat)
    requires Holds(s, addr, server, t, o) && n <= |bytes| == 4
    ensures PutBytes(s, addr, bytes[..n]) == Holding(s, server, t, Spliced(t.data, o, bytes[..n]))
  {
    if n == 0 {
      assert Spliced(t.data, o, []) == t.data;
    } else {
      PutWord(s, addr, bytes, n - 1, server, t, o);
      PutNth(s, addr, bytes, n - 1, server, t, o);
      SpliceOne(t.data, o, bytes, n - 1);
    }
  }

  lemma LastPut(s: Overlay, addr: uint32, bytes: seq<uint8>, n: nat)
    requires HasMemory(s) && 0 < n <= |bytes|
    ensures PutBytes(s, addr, bytes[..n]) == PutByte(PutBytes(s, addr, bytes[..n - 1]), Wrapping(addr + n - 1), bytes[n - 1])
  {
    assert bytes[..n][..n - 1] == bytes[..n - 1];
  }

  lemma SpliceOne(data: seq<uint8>, o: nat, bytes: seq<uint8>, n: nat)
    requires n < |bytes| && o + |bytes| <= |data|
    ensures Spliced(data, o, bytes[..n])[o + n := bytes[n]] == Spliced(data, o, bytes[..n + 1])
  {
  }

  /** With whole words of SRAM, an aligned word's bytes are side by side in it. */
  lemma OffsetsRun(t: TcmState, addr: uint32, k: nat)
    requires Aligned(t) && addr % 4 == 0 && k < 4 && |t.data| > 0 && |t.data| % 4 == 0
    ensures addr + k < TWO32 && Offset(t, addr) + 4 <= |t.data| && Offset(t, addr + k) == Offset(t, addr) + k
  {
    hide Wrapping, InRegion, Aligned;
    WordStaysTogether(t, addr, k);
    StaysInBlock(Wrapping(addr - t.base), k, |t.data|);
  }
}
