/** What SM83 instructions cost, and how often they use the bus. */
module Sm83Timing {
  import opened Words

  /** The rows of `CYCLES`: t-cycles, with branches not taken; zero where there is no such opcode. */
  function CycleRow(hi: nat): (row: seq<nat>)
    ensures |row| == 16
  {
    if hi == 0x0 then [4, 12, 8, 8, 4, 4, 8, 4, 20, 8, 8, 8, 4, 4, 8, 4]
    else if hi == 0x1 then [4, 12, 8, 8, 4, 4, 8, 4, 12, 8, 8, 8, 4, 4, 8, 4]
    else if hi == 0x2 then [8, 12, 8, 8, 4, 4, 8, 4, 8, 8, 8, 8, 4, 4, 8, 4]
    else if hi == 0x3 then [8, 12, 8, 8, 12, 12, 12, 4, 8, 8, 8, 8, 4, 4, 8, 4]
    else if hi == 0x4 then [4, 4, 4, 4, 4, 4, 8, 4, 4, 4, 4, 4, 4, 4, 8, 4]
    else if hi == 0x5 then [4, 4, 4, 4, 4, 4, 8, 4, 4, 4, 4, 4, 4, 4, 8, 4]
    else if hi == 0x6 then [4, 4, 4, 4, 4, 4, 8, 4, 4, 4, 4, 4, 4, 4, 8, 4]
    else if hi == 0x7 then [8, 8, 8, 8, 8, 8, 4, 8, 4, 4, 4, 4, 4, 4, 8, 4]
    else if hi == 0x8 then [4, 4, 4, 4, 4, 4, 8, 4, 4, 4, 4, 4, 4, 4, 8, 4]
    else if hi == 0x9 then [4, 4, 4, 4, 4, 4, 8, 4, 4, 4, 4, 4, 4, 4, 8, 4]
    else if hi == 0xA then [4, 4, 4, 4, 4, 4, 8, 4, 4, 4, 4, 4, 4, 4, 8, 4]
    else if hi == 0xB then [4, 4, 4, 4, 4, 4, 8, 4, 4, 4, 4, 4, 4, 4, 8, 4]
    else if hi == 0xC then [8, 12, 12, 16, 12, 16, 8, 16, 8, 16, 12, 4, 12, 24, 8, 16]
    else if hi == 0xD then [8, 12, 12, 0, 12, 16, 8, 16, 8, 16, 12, 0, 12, 0, 8, 16]
    else if hi == 0xE then [12, 12, 8, 0, 0, 16, 8, 16, 16, 4, 16, 0, 0, 0, 8, 16]
    else [12, 12, 8, 4, 0, 16, 8, 16, 12, 8, 16, 4, 0, 0, 8, 16]
  }

  function Cycles(op: uint8): nat {
    CycleRow(op / 16)[op % 16]
  }

  /** `CYCLES_BRANCH_TAKEN`: what a taken branch adds. */
  function BranchTaken(op: uint8): nat {
    if op == 0x20 || op == 0x28 || op == 0x30 || op == 0x38 then 4
    else if op == 0xC2 || op == 0xCA || op == 0xD2 || op == 0xDA then 4
    else if op == 0xC0 || op == 0xC4 || op == 0xC8 || op == 0xCC || op == 0xD0 || op == 0xD4 || op == 0xD8 || op == 0xDC then 12
    else 0
  }

  /** `cb_cycles`, prefix included. */
  function CbCycles(op: uint8): nat {
    if op % 8 == 6 then if 0x40 <= op < 0x80 then 12 else 16 else 8
  }

  predicate Undefined(op: uint8) {
    op == 0xD3 || op == 0xDB || op == 0xDD || op == 0xE3 || op == 0xE4 || op == 0xEB || op == 0xEC || op == 0xED ||
    op == 0xF4 || op == 0xFC || op == 0xFD
  }

  /** A zero in the table is exactly an opcode that does not exist. */
  lemma ZeroMeansUndefined(op: uint8)
    ensures Cycles(op) == 0 <==> Undefined(op)
  {
    assert op == op / 16 * 16 + op % 16;
  }

  /** What `execute` returns. */
  function Cost(op: uint8, taken: bool, cb: uint8): nat {
    if op == 0xCB then CbCycles(cb)
    else if Undefined(op) then 4
    else Cycles(op) + if taken then BranchTaken(op) else 0
  }

  /** One operand access when the three-bit field names (HL). */
  function Indirect(field: nat): nat {
    if field == 6 then 1 else 0
  }

  /** Bus accesses of an instruction, its own opcode fetch included. */
  function Accesses(op: uint8, taken: bool, cb: uint8): nat {
    if op < 0x40 then
      if op % 16 == 1 then 3
      else if op % 8 == 2 then 2
      else if op == 0x08 then 5
      else if op % 8 == 4 || op % 8 == 5 then 1 + 2 * Indirect(op / 8)
      else if op % 8 == 6 then 2 + Indirect(op / 8)
      else if op == 0x10 || op == 0x18 || op == 0x20 || op == 0x28 || op == 0x30 || op == 0x38 then 2
      else 1
    else if op == 0x76 then 1
    else if op < 0x80 then 1 + Indirect(op % 8) + Indirect(op / 8 % 8)
    else if op < 0xC0 then 1 + Indirect(op % 8)
    else if op % 8 == 6 then 2
    else if op % 8 == 7 then 3
    else if op == 0xC1 || op == 0xD1 || op == 0xE1 || op == 0xF1 then 3
    else if op == 0xC5 || op == 0xD5 || op == 0xE5 || op == 0xF5 then 3
    else if op == 0xC3 || op == 0xC2 || op == 0xCA || op == 0xD2 || op == 0xDA then 3
    else if op == 0xCD then 5
    else if op == 0xC4 || op == 0xCC || op == 0xD4 || op == 0xDC then if taken then 5 else 3
    else if op == 0xC9 || op == 0xD9 then 3
    else if op == 0xC0 || op == 0xC8 || op == 0xD0 || op == 0xD8 then if taken then 3 else 1
    else if op == 0xE0 || op == 0xF0 then 3
    else if op == 0xE2 || op == 0xF2 || op == 0xE8 || op == 0xF8 then 2
    else if op == 0xEA || op == 0xFA then 4
    else if op == 0xCB then 2 + if cb % 8 != 6 then 0 else if 0x40 <= cb < 0x80 then 1 else 2
    else 1
  }

  /** T-cycles in which an instruction leaves the bus alone; STOP is charged for one access fewer than it makes. */
  function Internal(op: uint8, taken: bool): int {
    if op == 0x10 then -4
    else if op < 0x40 then
      if op % 8 == 3 || op % 16 == 9 || op == 0x18 then 4
      else if op == 0x20 || op == 0x28 || op == 0x30 || op == 0x38 then if taken then 4 else 0
      else 0
    else if op < 0xC0 then 0
    else if op % 8 == 7 || op == 0xC5 || op == 0xD5 || op == 0xE5 || op == 0xF5 then 4
    else if op == 0xC3 || op == 0xC9 || op == 0xCD || op == 0xD9 || op == 0xF8 || op == 0xF9 then 4
    else if op == 0xE8 then 8
    else if op == 0xC2 || op == 0xCA || op == 0xD2 || op == 0xDA || op == 0xC4 || op == 0xCC || op == 0xD4 || op == 0xDC then if taken then 4 else 0
    else if op == 0xC0 || op == 0xC8 || op == 0xD0 || op == 0xD8 then if taken then 8 else 4
    else 0
  }

  /** The tables charge one opcode for its traffic and its internal cycles, and for nothing else. */
  ghost predicate Exact(op: uint8, taken: bool, cb: uint8) {
    Cost(op, taken, cb) == 4 * Accesses(op, taken, cb) + Internal(op, taken)
  }

  /** Rows 0 and 1. */
  lemma FirstRows(op: uint8, taken: bool, cb: uint8)
    requires 0x00 <= op < 0x20
    ensures Exact(op, taken, cb)
  {
    assert op == 16 * (op / 16) + op % 16;
  }

  /** Rows 2 and 3. */
  lemma BranchRows(op: uint8, taken: bool, cb: uint8)
    requires 0x20 <= op < 0x40
    ensures Exact(op, taken, cb)
  {
    assert op == 16 * (op / 16) + op % 16;
  }

  /** Moves to B, C, D and E. */
  lemma LowMoveRows(op: uint8, taken: bool, cb: uint8)
    requires 0x40 <= op < 0x60
    ensures Exact(op, taken, cb)
  {
    assert op == 16 * (op / 16) + op % 16;
  }

  /** Moves to H and L. */
  lemma HighMoveRow(op: uint8, taken: bool, cb: uint8)
    requires 0x60 <= op < 0x70
    ensures Exact(op, taken, cb)
  {
    assert op == 16 * (op / 16) + op % 16;
  }

  /** Moves to memory and A, and HALT. */
  lemma LastMoveRow(op: uint8, taken: bool, cb: uint8)
    requires 0x70 <= op < 0x80
    ensures Exact(op, taken, cb)
  {
    assert op == 16 * (op / 16) + op % 16;
  }

  /** Arithmetic on registers. */
  lemma ArithmeticRows(op: uint8, taken: bool, cb: uint8)
    requires 0x80 <= op < 0xC0
    ensures Exact(op, taken, cb)
  {
    assert op == 16 * (op / 16) + op % 16;
  }

  /** Row C. */
  lemma CallRow(op: uint8, taken: bool, cb: uint8)
    requires 0xC0 <= op < 0xD0
    ensures Exact(op, taken, cb)
  {
    assert op == 16 * (op / 16) + op % 16;
  }

  /** Row D. */
  lemma ReturnRow(op: uint8, taken: bool, cb: uint8)
    requires 0xD0 <= op < 0xE0
    ensures Exact(op, taken, cb)
  {
    assert op == 16 * (op / 16) + op % 16;
  }

  /** Rows E and F. */
  lemma LastRows(op: uint8, taken: bool, cb: uint8)
    requires 0xE0 <= op < 0x100
    ensures Exact(op, taken, cb)
  {
    assert op == 16 * (op / 16) + op % 16;
  }

  /**
   * For every opcode, taken or not, the tables come to four cycles an access and the instruction's internal cycles.
   * So they cover the traffic of all but STOP, which costs 4 and uses the bus for 8, in a positive multiple of four.
   */
  lemma CostCoversAccesses(op: uint8, taken: bool, cb: uint8)
    ensures Exact(op, taken, cb)
    ensures Cost(op, taken, cb) >= 4 && Cost(op, taken, cb) % 4 == 0 && (4 * Accesses(op, taken, cb) <= Cost(op, taken, cb) <==> op != 0x10)
    ensures op == 0x10 ==> Cost(op, taken, cb) == 4 && 4 * Accesses(op, taken, cb) == 8
  {
    if op < 0x20 {
      FirstRows(op, taken, cb);
    } else if op < 0x40 {
      BranchRows(op, taken, cb);
    } else if op < 0x60 {
      LowMoveRows(op, taken, cb);
    } else if op < 0x70 {
      HighMoveRow(op, taken, cb);
    } else if op < 0x80 {
      LastMoveRow(op, taken, cb);
    } else if op < 0xC0 {
      ArithmeticRows(op, taken, cb);
    } else if op < 0xD0 {
      CallRow(op, taken, cb);
    } else if op < 0xE0 {
      ReturnRow(op, taken, cb);
    } else {
      LastRows(op, taken, cb);
    }
  }
}
