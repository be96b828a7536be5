/** The banked register file: every register lives in one place, and a mode selects which. */
module ArmRegisters {
  import opened Words
  import opened ArmPsr

  datatype RegisterFile = RegisterFile(
    low: seq<uint32>,      // R0-R7
    high: seq<uint32>,     // R8-R12, every mode but FIQ
    highFiq: seq<uint32>,  // R8-R12, FIQ
    sp: seq<uint32>,       // R13 per bank
    lr: seq<uint32>,       // R14 per bank
    pc: uint32,
    spsr: seq<Psr>)        // per bank; User's is never read

  ghost predicate WellShaped(r: RegisterFile) {
    |r.low| == 8 && |r.high| == 5 && |r.highFiq| == 5 &&
    |r.sp| == BANK_COUNT && |r.lr| == BANK_COUNT && |r.spsr| == BANK_COUNT
  }

  const CLEAR_PSR := Psr(false, false, false, false, 0, false, false, false, 0)

  const CLEAR_FILE := RegisterFile(
    [0, 0, 0, 0, 0, 0, 0, 0], [0, 0, 0, 0, 0], [0, 0, 0, 0, 0],
    [0, 0, 0, 0, 0, 0], [0, 0, 0, 0, 0, 0], 0,
    [CLEAR_PSR, CLEAR_PSR, CLEAR_PSR, CLEAR_PSR, CLEAR_PSR, CLEAR_PSR])

  type Registers = r: RegisterFile | WellShaped(r) ghost witness CLEAR_FILE

  function Read(r: Registers, mode: Mode, index: nat): uint32
    requires index < 16
  {
    if index < 8 then r.low[index]
    else if index < 13 then if mode.Fiq? then r.highFiq[index - 8] else r.high[index - 8]
    else if index == 13 then r.sp[Bank(mode)]
    else if index == 14 then r.lr[Bank(mode)]
    else r.pc
  }

  function Write(r: Registers, mode: Mode, index: nat, value: uint32): Registers
    requires index < 16
  {
    if index < 8 then r.(low := r.low[index := value])
    else if index < 13 then
      if mode.Fiq? then r.(highFiq := r.highFiq[index - 8 := value]) else r.(high := r.high[index - 8 := value])
    else if index == 13 then r.(sp := r.sp[Bank(mode) := value])
    else if index == 14 then r.(lr := r.lr[Bank(mode) := value])
    else r.(pc := value)
  }

  function Spsr(r: Registers, mode: Mode): Option<Psr> {
    if HasSpsr(mode) then Some(r.spsr[Bank(mode)]) else None
  }

  function SetSpsr(r: Registers, mode: Mode, value: Psr): Registers {
    if HasSpsr(mode) then r.(spsr := r.spsr[Bank(mode) := value]) else r
  }

  /** Whether two (mode, register) names denote the same storage. */
  predicate SameStorage(m: Mode, i: nat, m': Mode, i': nat) {
    i == i' && (8 <= i <= 12 ==> m.Fiq? == m'.Fiq?) && (13 <= i <= 14 ==> Bank(m) == Bank(m'))
  }

  /** Every mode has an R13, an R14 and a saved status of its own, but System, which shares User's and saves none. */
  lemma BanksAreApart(m: Mode, m': Mode)
    ensures Bank(m) == Bank(m') <==> m == m' || ((m.User? || m.System?) && (m'.User? || m'.System?))
    ensures HasSpsr(m) <==> m != User && m != System
    ensures IsPrivileged(m) <==> m != User
  {
  }

  /** A write is seen through exactly the names of the storage written, in every mode, and nowhere else. */
  lemma BankingLaw(r: Registers, m: Mode, i: nat, v: uint32, m': Mode, i': nat)
    requires i < 16 && i' < 16
    ensures Read(Write(r, m, i, v), m', i') == if SameStorage(m, i, m', i') then v else Read(r, m', i')
    ensures Spsr(Write(r, m, i, v), m') == Spsr(r, m')
  {
  }
}
