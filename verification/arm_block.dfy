/** Block transfers: what STM stores where, and that the inverse LDM brings it all back. */
module ArmBlock {
  import opened Words
  import opened Arith
  import opened ArmShift
  import opened ArmPsr
  import opened ArmRegisters
  import opened ArmMemory
  import opened ArmCore

  /** The address of the k-th word of a transfer. */
  function Slot(start: uint32, k: nat): uint32 {
    Wrap(start + 4 * k)
  }

  /** How many listed registers come before `reg`. */
  function Rank(list: RegList, reg: nat): nat
    requires reg <= 16
  {
    if reg == 0 then 0 else Rank(list, reg - 1) + if list[reg - 1] then 1 else 0
  }

  ghost predicate Ascending(rs: seq<nat>) {
    forall i, j :: 0 <= i < j < |rs| ==> rs[i] < rs[j]
  }

  lemma {:induction false} ListedAscends(list: RegList, from: nat)
    requires from <= 16
    ensures Ascending(Listed(list, from))
    decreases 16 - from
  {
    if from < 16 {
      ListedAscends(list, from + 1);
    }
  }

  lemma {:induction false} ListedMember(list: RegList, from: nat, r: nat)
    requires from <= 16 && r < 16
    ensures r in Listed(list, from) <==> from <= r && list[r]
    decreases 16 - from
  {
    if from < 16 {
      ListedMember(list, from + 1, r);
    }
  }

  lemma SlotCases(start: uint32, k: nat)
    requires k <= 16
    ensures Slot(start, k) == if start + 4 * k < TWO32 then start + 4 * k else start + 4 * k - TWO32
  {
    if start + 4 * k < TWO32 {
      SmallMod(start + 4 * k, TWO32);
    } else {
      DivUniqueLeft(start + 4 * k, 1, TWO32, start + 4 * k - TWO32);
    }
  }

  /** Sixteen consecutive words are distinct, whatever the base and however it wraps. */
  lemma SlotsAreDistinct(start: uint32, i: nat, j: nat)
    requires i < j <= 16 || j < i <= 16
    ensures Slot(start, i) / 4 != Slot(start, j) / 4
  {
    SlotCases(start, i);
    SlotCases(start, j);
    DifferentWords(Slot(start, i), Slot(start, j));
  }

  lemma DifferentWords(a: nat, b: nat)
    requires a >= b + 4 || b >= a + 4
    ensures a / 4 != b / 4
  {
  }

  lemma NextWordWraps(addr: uint32)
    ensures NextWord(addr) == Wrap(addr + 4)
  {
  }

  lemma SlotSteps(start: uint32, k: nat)
    ensures Slot(NextWord(start), k) == Slot(start, k + 1) && Slot(start, 0) == start
  {
    NextWordWraps(start);
    ModEarly(start + 4, 4 * k, TWO32);
    SmallMod(start, TWO32);
  }

  /** A word outside the slots keeps its contents. */
  lemma {:induction false} OtherWordsKept(m: Memory, addr: uint32, values: seq<uint32>, w: nat)
    requires forall k :: 0 <= k < |values| ==> Slot(addr, k) / 4 != w
    ensures var after := StoreWords(m, addr, values); (w in after <==> w in m) && (w in m ==> after[w] == m[w])
    decreases |values|
  {
    if values != [] {
      assert Slot(addr, 0) / 4 != w;
      var next := NextWord(addr);
      forall i | 0 <= i < |values| - 1 ensures Slot(next, i) / 4 != w {
        SlotSteps(addr, i);
      }
      OtherWordsKept(m[addr / 4 := values[0]], NextWord(addr), values[1..], w);
    }
  }

  /** The k-th slot holds the k-th value. */
  lemma {:induction false} StoredWord(m: Memory, addr: uint32, values: seq<uint32>, k: nat)
    requires k < |values| <= 16
    ensures Word(StoreWords(m, addr, values), Slot(addr, k)) == values[k]
    decreases |values|
  {
    var next := NextWord(addr);
    if k == 0 {
      forall i | 0 <= i < |values| - 1 ensures Slot(next, i) / 4 != addr / 4 {
        SlotSteps(addr, i);
        SlotsAreDistinct(addr, 0, i + 1);
      }
      OtherWordsKept(m[addr / 4 := values[0]], next, values[1..], addr / 4);
    } else {
      StoredWord(m[addr / 4 := values[0]], next, values[1..], k - 1);
      SlotSteps(addr, k - 1);
    }
  }

  /** Away from the base and R15, the k-th value is simply the k-th listed register. */
  lemma {:induction false} PlainValue(core: Core, rs: seq<nat>, rn: nat, first: bool, wb: Option<uint32>, k: nat)
    requires (forall i :: 0 <= i < |rs| ==> rs[i] < 16) && k < |rs| && rs[k] < 15 && rs[k] != rn
    ensures StoredValues(core, rs, rn, first, wb, false)[k] == core.Reg(rs[k])
    decreases |rs|
  {
    if k > 0 {
      PlainValue(core, rs[1..], rn, false, wb, k - 1);
    }
  }

  /** Plain loads leave each listed register holding its word and every other register alone. */
  lemma {:induction false} LoadedWords(core: Core, mode: Mode, m: Memory, addr: uint32, rs: seq<nat>, interworking: bool, r: nat)
    requires mode == core.cpsr.CurrentMode() && r < 16
    requires forall i :: 0 <= i < |rs| ==> rs[i] < 15
    requires Ascending(rs)
    ensures var after := LoadFrom(core, mode, m, addr, rs, false, false, interworking);
      after.cpsr == core.cpsr &&
      (r !in rs ==> after.Reg(r) == core.Reg(r)) &&
      (forall k :: 0 <= k < |rs| && rs[k] == r ==> after.Reg(r) == Word(m, Slot(addr, k)))
    decreases |rs|
  {
    if rs != [] {
      var c := LoadOne(core, mode, rs[0], Word(m, addr), false, false, interworking);
      LoadedWords(c, mode, m, NextWord(addr), rs[1..], interworking, r);
      BankingLaw(core.regs, mode, rs[0], Word(m, addr), mode, r);
      forall k | 0 <= k < |rs| && rs[k] == r
        ensures LoadFrom(core, mode, m, addr, rs, false, false, interworking).Reg(r) == Word(m, Slot(addr, k))
      {
        if k > 0 {
          assert rs[1..][k - 1] == r;
          SlotSteps(addr, k - 1);
        } else {
          assert r !in rs[1..];
        }
      }
    }
  }

  /** The load that undoes a store: same registers and base, opposite direction. */
  function Inverse(op: BlockOp): BlockOp {
    op.(pre := !op.pre, up := !op.up, load := true)
  }

  /** Either direction covers the same words, and the second brings the base back. */
  lemma InverseAddresses(pre: bool, up: bool, base: uint32, bytes: nat)
    requires bytes % 4 == 0
    ensures var out := BlockAddresses(pre, up, base, bytes);
      BlockAddresses(!pre, !up, out.writeback, bytes) == Block(out.start, base)
  {
  }

  /** `core'` is `core` after anything at all happened to the listed registers and the status flags. */
  ghost predicate Clobbered(core: Core, core': Core, op: BlockOp)
    requires op.rn < 16
  {
    core'.cpsr.CurrentMode() == core.cpsr.CurrentMode() && core'.Reg(op.rn) == core.Reg(op.rn)
  }

  lemma StoreResult(core: Core, m: Memory, op: BlockOp, interworking: bool)
    requires op.rn < 15 && !op.load && !op.psrOrUser && Listed(op.list, 0) != []
    ensures var (after, m', _) := BlockTransfer(core, m, op, interworking);
      var b, rs := BlockOf(core, op), Listed(op.list, 0);
      after == (if op.writeback then core.WithReg(op.rn, b.writeback) else core) &&
      m' == StoreWords(m, b.start, StoredValues(core, rs, op.rn, true, if op.writeback then Some(b.writeback) else None, false)) &&
      b == BlockAddresses(op.pre, op.up, core.Reg(op.rn), 4 * |rs|)
  {
  }

  lemma LoadResult(core: Core, m: Memory, op: BlockOp, interworking: bool)
    requires op.rn < 15 && op.load && !op.psrOrUser && Listed(op.list, 0) != [] && op.writeback
    ensures var (after, m', _) := BlockTransfer(core, m, op, interworking);
      var b, rs := BlockOf(core, op), Listed(op.list, 0);
      after == LoadFrom(core.WithReg(op.rn, b.writeback), core.cpsr.CurrentMode(), m, b.start, rs, false, false, interworking) &&
      m' == m && b == BlockAddresses(op.pre, op.up, core.Reg(op.rn), 4 * |rs|)
  {
  }

  /** Loading the slots a store filled brings back every listed register. */
  lemma LoadUndoesStore(core: Core, m: Memory, start: uint32, rs: seq<nat>, rn: nat, wb: Option<uint32>,
                        based: Core, interworking: bool, r: nat)
    requires r < 16 && |rs| <= 16 && forall i :: 0 <= i < |rs| ==> rs[i] < 15 && rs[i] != rn
    requires Ascending(rs)
    ensures var m' := StoreWords(m, start, StoredValues(core, rs, rn, true, wb, false));
      var after := LoadFrom(based, based.cpsr.CurrentMode(), m', start, rs, false, false, interworking);
      after.cpsr == based.cpsr && after.Reg(r) == if r in rs then core.Reg(r) else based.Reg(r)
  {
    var values := StoredValues(core, rs, rn, true, wb, false);
    LoadedWords(based, based.cpsr.CurrentMode(), StoreWords(m, start, values), start, rs, interworking, r);
    if r in rs {
      var k :| 0 <= k < |rs| && rs[k] == r;
      PlainValue(core, rs, rn, true, wb, k);
      StoredWord(m, start, values, k);
    }
  }

  /** Such a list moves neither R15 nor the base. */
  lemma PlainList(list: RegList, rn: nat)
    requires rn < 15 && !list[15] && !list[rn]
    ensures var rs := Listed(list, 0); forall i :: 0 <= i < |rs| ==> rs[i] < 15 && rs[i] != rn
  {
    var rs := Listed(list, 0);
    forall i | 0 <= i < |rs| ensures rs[i] < 15 && rs[i] != rn {
      ListedMember(list, 0, rs[i]);
    }
  }

  /**
   * `STM` with writeback, then any change to the other registers, then the inverse `LDM`: every listed
   * register and the base hold what they held before, and unlisted registers keep their new values.
   * The list has neither the base nor R15; the base may be anything, address wrap included.
   */
  lemma StoreThenLoadRestores(core: Core, m: Memory, op: BlockOp, clobbered: Core, interworking: bool, r: nat)
    requires op.rn < 15 && !op.load && op.writeback && !op.psrOrUser && Listed(op.list, 0) != []
    requires !op.list[15] && !op.list[op.rn]
    requires Clobbered(BlockTransfer(core, m, op, interworking).0, clobbered, op)
    requires r < 16
    ensures var stored := BlockTransfer(core, m, op, interworking);
      var loaded := BlockTransfer(clobbered, stored.1, Inverse(op), interworking);
      loaded.0.Reg(r) == (if op.list[r] || r == op.rn then core.Reg(r) else clobbered.Reg(r)) &&
      loaded.0.cpsr == clobbered.cpsr && loaded.1 == stored.1
  {
    PlainList(op.list, op.rn);
    ListedAscends(op.list, 0);
    ListedMember(op.list, 0, r);
    var rs, b, mode := Listed(op.list, 0), BlockOf(core, op), core.cpsr.CurrentMode();
    StoreResult(core, m, op, interworking);
    BankingLaw(core.regs, mode, op.rn, b.writeback, mode, op.rn);
    InverseLoads(core.Reg(op.rn), clobbered, BlockTransfer(core, m, op, interworking).1, op, interworking);
    var based := clobbered.WithReg(op.rn, core.Reg(op.rn));
    BankingLaw(clobbered.regs, mode, op.rn, core.Reg(op.rn), mode, r);
    LoadUndoesStore(core, m, b.start, rs, op.rn, Some(b.writeback), based, interworking, r);
  }

  /** With the base where the store left it, the inverse load reads the same words and puts the base back. */
  lemma InverseLoads(base: uint32, core: Core, m: Memory, op: BlockOp, interworking: bool)
    requires op.rn < 15 && op.writeback && !op.psrOrUser && Listed(op.list, 0) != []
    requires core.Reg(op.rn) == BlockAddresses(op.pre, op.up, base, 4 * |Listed(op.list, 0)|).writeback
    ensures var b := BlockAddresses(op.pre, op.up, base, 4 * |Listed(op.list, 0)|);
      var (after, m', _) := BlockTransfer(core, m, Inverse(op), interworking);
      m' == m &&
      after == LoadFrom(core.WithReg(op.rn, base), core.cpsr.CurrentMode(), m, b.start, Listed(op.list, 0), false, false, interworking)
  {
    InverseAddresses(op.pre, op.up, base, 4 * |Listed(op.list, 0)|);
    LoadResult(core, m, Inverse(op), interworking);
  }

  /** Where `STM` puts each register: at its rank among those listed, counting up from the start. */
  lemma RegistersGoToTheirRank(core: Core, m: Memory, op: BlockOp, interworking: bool, r: nat)
    requires op.rn < 15 && !op.load && !op.psrOrUser && Listed(op.list, 0) != [] && r < 15 && r != op.rn && op.list[r]
    ensures Word(BlockTransfer(core, m, op, interworking).1, Slot(BlockOf(core, op).start, Rank(op.list, r))) == core.Reg(r)
  {
    var rs, k := Listed(op.list, 0), Rank(op.list, r);
    ListedAscends(op.list, 0);
    RankIsIndex(op.list, 0, r);
    StoreResult(core, m, op, interworking);
    var wb := if op.writeback then Some(BlockOf(core, op).writeback) else None;
    PlainValue(core, rs, op.rn, true, wb, k);
    StoredWord(m, BlockOf(core, op).start, StoredValues(core, rs, op.rn, true, wb, false), k);
  }

  lemma {:induction false} RankIsIndex(list: RegList, from: nat, r: nat)
    requires from <= r < 16 && list[r]
    ensures 0 <= Rank(list, r) - Rank(list, from) < |Listed(list, from)|
    ensures Listed(list, from)[Rank(list, r) - Rank(list, from)] == r
    decreases r - from
  {
    if from < r {
      RankIsIndex(list, from + 1, r);
    }
  }
}
