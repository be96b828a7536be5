/** Exceptions nested to any depth unwind to exactly the interrupted state. */
module ArmExceptions {
  import opened Words
  import opened ArmShift
  import opened ArmPsr
  import opened ArmRegisters
  import opened ArmCore

  /** How far past the return address the link register is. */
  function LinkOffset(e: Exception): nat {
    if e.FastInterrupt? || e.Interrupt? || e.DataAbort? then 4 else 0
  }

  /** Taking an exception at `pc`, as `step`, `raise_*_abort`, `software_interrupt` and `undefined_instruction` do. */
  function Raise(core: Core, e: Exception, base: uint32): Core {
    Enter(core, e, Wrap(core.regs.pc + LinkOffset(e)), base)
  }

  const SUBS_PC_LR_4: bv32 := 0xE25E_F004
  const MOVS_PC_LR: bv32 := 0xE1B0_F00E

  /** The instruction the handler of `e` returns with. */
  function Return(core: Core, e: Exception): Core {
    DataProcessing(core, if LinkOffset(e) == 4 then SUBS_PC_LR_4 else MOVS_PC_LR).0
  }

  lemma SubsPcDecodes()
    ensures Field(SUBS_PC_LR_4, 21) == 0x2 && Field(SUBS_PC_LR_4, 16) == 14 && Field(SUBS_PC_LR_4, 12) == 15
    ensures SUBS_PC_LR_4 & 0x0010_0000 != 0 && SUBS_PC_LR_4 & 0x0200_0000 != 0
    ensures Field(SUBS_PC_LR_4, 8) == 0 && Imm8(SUBS_PC_LR_4) == 4
  {
  }

  lemma MovsPcDecodes()
    ensures Field(MOVS_PC_LR, 21) == 0xD && Field(MOVS_PC_LR, 0) == 14 && Field(MOVS_PC_LR, 12) == 15
    ensures MOVS_PC_LR & 0x0010_0000 != 0 && MOVS_PC_LR & 0x0200_0000 == 0 && MOVS_PC_LR & 0x10 == 0
    ensures ShiftKind(MOVS_PC_LR) == 0 && Imm5(MOVS_PC_LR) == 0
  {
  }

  lemma SubsOperand(core: Core)
    ensures ShifterOperand(core, SUBS_PC_LR_4, PC_AHEAD) == (4, core.cpsr.c)
  {
    SubsPcDecodes();
  }

  lemma SubsPcRestores(core: Core)
    requires HasSpsr(core.cpsr.CurrentMode())
    ensures var b := Bank(core.cpsr.CurrentMode());
      DataProcessing(core, SUBS_PC_LR_4).0 ==
        Core(core.regs.(pc := Align(AluSub(core.cpsr, core.regs.lr[b], 4, true).0, core.regs.spsr[b].t)), core.regs.spsr[b])
  {
    SubsPcDecodes();
    assert !RegisterShift(SUBS_PC_LR_4);
    SubsOperand(core);
    var (r, q, w) := Alu(2, core.cpsr, core.Reg(14), 4, core.cpsr.c);
    assert q.CurrentMode() == core.cpsr.CurrentMode() && w;
  }

  lemma MovsPcRestores(core: Core)
    requires HasSpsr(core.cpsr.CurrentMode())
    ensures var b := Bank(core.cpsr.CurrentMode());
      DataProcessing(core, MOVS_PC_LR).0 ==
        Core(core.regs.(pc := Align(core.regs.lr[b], core.regs.spsr[b].t)), core.regs.spsr[b])
  {
    MovsPcDecodes();
    assert !RegisterShift(MOVS_PC_LR);
    assert ShifterOperand(core, MOVS_PC_LR, PC_AHEAD) == (core.Reg(14), core.cpsr.c);
    var a := core.RegPc(Field(MOVS_PC_LR, 16), PC_AHEAD);
    var (r, q, w) := Alu(0xD, core.cpsr, a, core.Reg(14), core.cpsr.c);
    assert q.CurrentMode() == core.cpsr.CurrentMode() && r == core.Reg(14) && w;
  }

  /** Either return restores the saved status and resumes `LinkOffset` before the link register. */
  lemma ReturnRestores(core: Core, e: Exception)
    requires HasSpsr(core.cpsr.CurrentMode())
    ensures var b := Bank(core.cpsr.CurrentMode());
      Return(core, e) ==
        Core(core.regs.(pc := Align(Wrap(core.regs.lr[b] - LinkOffset(e)), core.regs.spsr[b].t)), core.regs.spsr[b])
  {
    if LinkOffset(e) == 4 {
      SubsPcRestores(core);
    } else {
      MovsPcRestores(core);
    }
  }

  // ---------------------------------------------------------------------------
  // Nesting
  // ---------------------------------------------------------------------------

  /**
   * What a handler does between its own exceptions: it may leave anything in its own banked R13 (R8-R13
   * for FIQ), run to any address and change any status bit but its mode.
   */
  datatype Work = Work(sp: uint32, high: seq<uint32>, pc: uint32, status: Psr)

  /** What happens from one point to another: work, or an exception with all that happens until its return. */
  datatype Activity =
    | Done
    | Working(work: Work, rest: Activity)
    | Interrupted(e: Exception, handler: Activity, rest: Activity)

  function DoWork(core: Core, w: Work): Core {
    var m := core.cpsr.CurrentMode();
    Core(core.regs.(sp := core.regs.sp[Bank(m) := w.sp],
                    highFiq := if m.Fiq? && |w.high| == 5 then w.high else core.regs.highFiq,
                    pc := w.pc),
         w.status.(modeBits := core.cpsr.modeBits))
  }

  function Perform(core: Core, activity: Activity, base: uint32): Core
    decreases activity
  {
    match activity
    case Done => core
    case Working(w, rest) => Perform(DoWork(core, w), rest, base)
    case Interrupted(e, handler, rest) => Perform(Return(Perform(Raise(core, e, base), handler, base), e), rest, base)
  }

  /** One exception, from entry to the return of its handler. */
  function Handle(core: Core, e: Exception, handler: Activity, base: uint32): Core {
    Return(Perform(Raise(core, e, base), handler, base), e)
  }

  /** No exception is taken into a bank already in use by something it interrupts. */
  ghost predicate DistinctBanks(activity: Activity, active: set<Mode>)
    decreases activity
  {
    match activity
    case Done => true
    case Working(_, rest) => DistinctBanks(rest, active)
    case Interrupted(e, handler, rest) =>
      Fresh(e, active) && DistinctBanks(handler, active + {ExceptionMode(e)}) && DistinctBanks(rest, active)
  }

  ghost predicate Fresh(e: Exception, active: set<Mode>) {
    !e.Reset? && ExceptionMode(e) !in active
  }

  /** Shared registers and every bank in `active` are as they were. */
  ghost predicate Kept(r: Registers, r': Registers, active: set<Mode>) {
    && r'.low == r.low && r'.high == r.high
    && (Fiq in active ==> r'.highFiq == r.highFiq)
    && (forall m :: m in active ==>
          r'.sp[Bank(m)] == r.sp[Bank(m)] && r'.lr[Bank(m)] == r.lr[Bank(m)] && r'.spsr[Bank(m)] == r.spsr[Bank(m)])
  }

  /** Only User and System share a bank, and neither is an exception's mode. */
  lemma BanksDiffer(e: Exception, m: Mode)
    requires m != ExceptionMode(e)
    ensures Bank(m) != Bank(ExceptionMode(e))
  {
  }

  lemma RaiseKeeps(core: Core, e: Exception, base: uint32, active: set<Mode>)
    requires ExceptionMode(e) !in active
    ensures var m, up := ExceptionMode(e), Raise(core, e, base);
      Kept(core.regs, up.regs, active) && up.cpsr.CurrentMode() == m &&
      up.regs.spsr[Bank(m)] == core.cpsr && up.regs.lr[Bank(m)] == Wrap(core.regs.pc + LinkOffset(e))
  {
    forall m | m in active ensures Bank(m) != Bank(ExceptionMode(e)) {
      BanksDiffer(e, m);
    }
    ModeEncodingsRoundTrip(ExceptionMode(e));
  }

  lemma AlignOffset(pc: uint32, offset: nat, t: bool)
    requires offset <= 4
    ensures Align(Wrap(Wrap(pc + offset) - offset), t) == Align(pc, t)
  {
  }

  /** A handler's activity keeps every outer bank, and its own mode, link register and saved status. */
  lemma {:induction false} PerformedKeeps(core: Core, activity: Activity, base: uint32, active: set<Mode>, m: Mode)
    requires DistinctBanks(activity, active + {m}) && core.cpsr.CurrentMode() == m && m !in active && HasSpsr(m)
    ensures var after := Perform(core, activity, base);
      Kept(core.regs, after.regs, active) && after.cpsr.CurrentMode() == m &&
      after.regs.lr[Bank(m)] == core.regs.lr[Bank(m)] && after.regs.spsr[Bank(m)] == core.regs.spsr[Bank(m)]
    decreases activity
  {
    match activity
    case Done =>
    case Working(w, rest) =>
      forall x | x in active ensures Bank(x) != Bank(m) {
        SpsrBanksDiffer(m, x);
      }
      PerformedKeeps(DoWork(core, w), rest, base, active, m);
    case Interrupted(e, handler, rest) =>
      var inner, up := ExceptionMode(e), Raise(core, e, base);
      RaiseKeeps(core, e, base, active + {m});
      PerformedKeeps(up, handler, base, active + {m}, inner);
      HandledKeeps(core, e, handler, base, active + {m});
      PerformedKeeps(Handle(core, e, handler, base), rest, base, active, m);
  }

  /** A handled exception is invisible to what it interrupted. */
  lemma HandledKeeps(core: Core, e: Exception, handler: Activity, base: uint32, active: set<Mode>)
    requires Fresh(e, active) && core.cpsr.CurrentMode() in active
    requires var m, done := ExceptionMode(e), Perform(Raise(core, e, base), handler, base);
      Kept(Raise(core, e, base).regs, done.regs, active) && done.cpsr.CurrentMode() == m &&
      done.regs.lr[Bank(m)] == Raise(core, e, base).regs.lr[Bank(m)] &&
      done.regs.spsr[Bank(m)] == Raise(core, e, base).regs.spsr[Bank(m)]
    ensures var back := Handle(core, e, handler, base);
      Kept(core.regs, back.regs, active) && back.cpsr == core.cpsr && back.regs.pc == Align(core.regs.pc, core.cpsr.t)
  {
    ReturnedKeeps(core, e, Perform(Raise(core, e, base), handler, base), base, active);
  }

  lemma ReturnedKeeps(core: Core, e: Exception, done: Core, base: uint32, active: set<Mode>)
    requires ExceptionMode(e) !in active && Kept(Raise(core, e, base).regs, done.regs, active)
    requires var m := ExceptionMode(e);
      done.cpsr.CurrentMode() == m && done.regs.lr[Bank(m)] == Raise(core, e, base).regs.lr[Bank(m)] &&
      done.regs.spsr[Bank(m)] == Raise(core, e, base).regs.spsr[Bank(m)]
    ensures var back := Return(done, e);
      Kept(core.regs, back.regs, active) && back.cpsr == core.cpsr && back.regs.pc == Align(core.regs.pc, core.cpsr.t)
  {
    RaiseKeeps(core, e, base, active);
    ReturnResumes(done, e, core.cpsr, core.regs.pc);
    KeptThrough(core.regs, Raise(core, e, base).regs, done.regs, Return(done, e).regs, active);
  }

  /** A return with the link and saved status of an entry at `pc` in `cpsr` resumes there. */
  lemma ReturnResumes(done: Core, e: Exception, cpsr: Psr, pc: uint32)
    requires var m := ExceptionMode(e);
      done.cpsr.CurrentMode() == m && done.regs.lr[Bank(m)] == Wrap(pc + LinkOffset(e)) && done.regs.spsr[Bank(m)] == cpsr
    ensures Return(done, e) == Core(done.regs.(pc := Align(pc, cpsr.t)), cpsr)
  {
    ReturnRestores(done, e);
    AlignOffset(pc, LinkOffset(e), cpsr.t);
  }

  lemma KeptThrough(r: Registers, r1: Registers, r2: Registers, r3: Registers, active: set<Mode>)
    requires Kept(r, r1, active) && Kept(r1, r2, active) && r3 == r2.(pc := r3.pc)
    ensures Kept(r, r3, active)
  {
  }

  lemma SpsrBanksDiffer(m: Mode, x: Mode)
    requires HasSpsr(m) && x != m
    ensures Bank(x) != Bank(m)
  {
  }

  /**
   * From any state, an exception whose handler may itself be interrupted, any number of times and to any
   * depth through distinct banks, returns with the same status word, the same program counter and the
   * same registers as the interrupted code sees them.
   */
  lemma UnwindingRestores(core: Core, e: Exception, handler: Activity, base: uint32)
    requires DistinctBanks(Interrupted(e, handler, Done), {core.cpsr.CurrentMode()})
    ensures var back := Handle(core, e, handler, base);
      back.cpsr == core.cpsr && back.regs.pc == Align(core.regs.pc, core.cpsr.t) &&
      (forall r :: 0 <= r < 15 ==> back.Reg(r) == core.Reg(r)) &&
      Spsr(back.regs, core.cpsr.CurrentMode()) == Spsr(core.regs, core.cpsr.CurrentMode())
  {
    var active := {core.cpsr.CurrentMode()};
    RaiseKeeps(core, e, base, active);
    PerformedKeeps(Raise(core, e, base), handler, base, active, ExceptionMode(e));
    HandledKeeps(core, e, handler, base, active);
  }
}
