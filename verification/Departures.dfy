/** Consequences of what the simulator does differently from the architecture it models. */
module Departures {
  import opened Words
  import opened Machine
  import opened Alu
  import opened Shifter
  import opened Instructions
  import opened ExceptionEntry
  import opened Stepping
  import opened Frames
  import opened Masking
  import opened StraightLine
  import opened Unwinding

  lemma AbortIsNotSystem()
    ensures Banked(ABT) && HasSpsr(ABT)
  {
  }

  /** An abort handler that subtracts `k` from r14 resumes `k` below the interrupted program
      counter plus 4, with the status register it interrupted: 4 resumes after the aborted
      instruction, 8 re-executes it. */
  lemma AbortResumesBelow(s: State, e: Exception, done: State, w: Word, stray: bool)
    requires IsAbort(e) && KeepsOpen(Enter(s, e), done, {ABT})
    requires ClassOf(w) == ShiftClass || ClassOf(w) == ImmediateClass
    requires Returns(w) && OpOf(w) == Sub && RegAt(w, 16) == 14 && Executes(Fetched(done), w)
    ensures var r, k := StepOn(done, w, stray), OperandOf(Fetched(done), w, stray).operand;
            Psr(r) == Psr(s) && r.tab[PC] == Difference(Forward4(Align(s.tab[PC])), k, true)
  {
    hide ClassOf, Returns, OpOf, RegAt, Executes, Enter, StepOn, Process, Fetched, OperandOf, Control, ModeBits,
      Difference, EntryPsr, SeenPc, CarryIn, HasSpsr, Banked;
    var f, r, sh := Fetched(done), StepOn(done, w, stray), OperandOf(Fetched(done), w, stray);
    EnterExact(s, e);
    ControlDetermines(Psr(done), Psr(Enter(s, e)));
    FetchFrame(done);
    UnfoldStep(done, w, stray);
    ReturnFrame(f, w, sh);
    AbortIsNotSystem();
    SeenIsAligned(s.tab[PC]);
  }

  /** The register forms of the miscellaneous space: BX, BLX, CLZ, BKPT and the saturating
      additions, under every condition. */
  predicate Miscellaneous(w: Word) { Matches(w, 0x0F90_0090, 0x0100_0010) }

  lemma MiscellaneousDecodes(w: Word)
    requires Miscellaneous(w)
    ensures ClassOf(w) == ShiftClass
    ensures Compares(OpOf(w)) && !SetsFlags(w)
  {
  }

  /** The register-shift test comes before the one for miscellaneous instructions, so each of
      them executes as a comparison: it never branches, never writes a register, and at most
      changes flags, which a failed condition leaves alone too. */
  lemma MiscellaneousCompares(s: State, w: Word, stray: bool)
    requires Miscellaneous(w)
    ensures var f, r := Fetched(s), StepOn(s, w, stray);
            && OnlyTouches(f, r, PC) && r.tab[PC] == f.tab[PC]
            && (!Executes(f, w) ==> r == f)
            && (Executes(f, w) ==>
                  r == WriteFlags(f, FlagsFrom(f, w, OperandOf(f, w, stray))))
  {
    hide ClassOf, OpOf, Fetched, Control, AluValue, WrittenFlags, ReadReg, RegAt, OperandOf, WriteFlags, Executes,
      SetsFlags, CarryIn, OnlyTouches, Miscellaneous;
    MiscellaneousDecodes(w);
    FetchFrame(s);
    UnfoldStep(s, w, stray);
    var f := Fetched(s);
    var sh := OperandOf(f, w, stray);
    ProcessFrame(f, w, sh);
    WriteFlagsFrame(f, FlagsFrom(f, w, sh));
  }

  // ---------------------------------------------------------------------------
  // Why handlers must not write the control field
  // ---------------------------------------------------------------------------

  lemma MsrControlDecodes()
    ensures ClassOf(0xE321_F013) == MsrClass && CondOf(0xE321_F013) == 14 && !Bit(0xE321_F013, 22)
    ensures Bit(0xE321_F013, 25) && Field4(0xE321_F013, 16) == 1 && ImmediateRotation(0xE321_F013) == 0
    ensures Ror(0xE321_F013 & 0xFF, 0) == 0x13
  {
  }

  /** In an IRQ handler, MSR CPSR_c, #0x13 switches to supervisor mode. */
  lemma MsrSwitchesMode(f: State)
    requires Mode(f) == IRQ
    ensures Mode(Msr(f, 0xE321_F013)) == SVC
    ensures forall m | Banked(m) :: Spsr(Msr(f, 0xE321_F013), m) == Spsr(f, m)
  {
  }

  /** Two words end the masking of a handler that is still open: after the mode switch,
      MOVS PC, LR installs whatever the supervisor SPSR last held. */
  lemma ControlFieldEscapes(s: State, stray: bool)
    requires Mode(s) == IRQ
    ensures var r := StepOn(StepOn(s, 0xE321_F013, stray), ReturnWord(SoftwareInterrupt), false);
            Psr(r) == Spsr(s, SVC)
  {
    hide ClassOf, Msr, Fetched, ModeBits, Process, ReturnWord, Link, SpsrSlot, Control;
    MsrControlDecodes();
    FetchFrame(s);
    var f := Fetched(s);
    MsrSwitchesMode(f);
    ReturnExact(StepOn(s, 0xE321_F013, stray), SoftwareInterrupt);
    SvcSlots();
  }

  lemma SvcSlots()
    ensures Banked(SVC) && SpsrSlot(SVC) > CPSR && SpsrSlot(SVC) < NBREG
  {
  }

  lemma NibbleDiffers(psr: Word)
    requires ModeBits(psr) == IRQ
    ensures Nibble(0x13) != Nibble(psr)
  {
  }

  lemma ControlFieldBarred(s: State, stray: bool)
    requires Mode(s) == IRQ
    ensures !Allowed(s, Tick(0xE321_F013, stray))
  {
    hide ClassOf, Fetched, ModeBits, Nibble, Control, Ror, ImmediateRotation;
    FetchFrame(s);
    MsrControlDecodes();
    NibbleDiffers(Psr(s));
    assert MsrOperand(Fetched(s), 0xE321_F013) == 0x13;
  }

  /** In supervisor mode MOVS PC, LR is allowed and ends no interrupt handler. */
  lemma SvcReturnAllowed(s: State, k: Handlers)
    requires Mode(s) == SVC
    ensures var movs := Tick(ReturnWord(SoftwareInterrupt), false);
            Allowed(s, movs) && Track(k, s, movs) == k
  {
    hide ClassOf, Fetched, ModeBits, Control, Returns, Executes, Field4;
    FetchFrame(s);
    MovsDecodes();
    SvcSlots();
  }

  /** The cost: with IRQs enabled in that stale status, an IRQ is taken inside the handler
      that is still open. Only the mode change breaks the rule of masked runs. */
  lemma ControlFieldNests(s: State, stray: bool, k: Handlers)
    requires Mode(s) == IRQ && k.irq && !IrqMasked(Spsr(s, SVC))
    ensures var msr, rest := Tick(0xE321_F013, stray), [Tick(ReturnWord(SoftwareInterrupt), false), Signal(Interrupt)];
            && !Allowed(s, msr) && AllowedRun(Apply(s, msr), rest)
            && !NeverNested(k, s, [msr] + rest)
  {
    hide ClassOf, Msr, Fetched, ModeBits, ReturnWord, Spsr, Psr, StepOn, IrqMasked, Enter, Allowed, TakesReturn;
    var msr, movs, irq := Tick(0xE321_F013, stray), Tick(ReturnWord(SoftwareInterrupt), false), Signal(Interrupt);
    var s1 := Apply(s, msr);
    var s2 := Apply(s1, movs);
    ControlFieldBarred(s, stray);
    ControlFieldEscapes(s, stray);
    SwitchedToSvc(s, stray, k);
    SvcReturnAllowed(s1, k);
    UnmaskedAllowed(s2);
    assert [msr] + [movs, irq] == [msr, movs, irq] && [msr, movs, irq][1..] == [movs, irq] && [movs, irq][1..] == [irq];
    assert !NeverNested(k, s2, [irq]);
    assert !NeverNested(k, s1, [movs, irq]);
    assert [irq][1..] == [];
    assert AllowedRun(s2, [irq]);
  }

  lemma SwitchedToSvc(s: State, stray: bool, k: Handlers)
    requires Mode(s) == IRQ
    ensures Mode(StepOn(s, 0xE321_F013, stray)) == SVC
    ensures Track(k, s, Tick(0xE321_F013, stray)) == k
  {
    hide ClassOf, Msr, Fetched, ModeBits, Control;
    MsrControlDecodes();
    FetchFrame(s);
    MsrSwitchesMode(Fetched(s));
  }

  lemma UnmaskedAllowed(s: State)
    requires !IrqMasked(Psr(s))
    ensures Allowed(s, Signal(Interrupt))
  {
  }
}
