/** `arm_exception.c`: exception entry as the simulator performs it, step by step. */
module Exceptions {
  import opened Words
  import opened Machine
  import opened Core
  import opened ExceptionEntry

  /** `branch_handler`: the vector just written to r15 is read back and dereferenced. */
  method BranchHandler(p: ArmCore)
    requires p.Valid()
    modifies p.tab
    ensures p.View() == WithSlot(old(p.View()), PC, old(p.mem)(Back4(SeenPc(old(p.tab[PC])))))
  {
    var pc := p.ReadRegister(15);
    var handlerAddress := p.ReadWord(Back4(pc));
    p.WriteRegister(15, handlerAddress);
  }

  /** `save_state_and_change_mode`, for the exceptions that are not aborts. */
  method SaveStateAndChangeMode(p: ArmCore, e: Exception, mode: Word)
    requires p.Valid()
    requires !IsAbort(e) && !e.Reset? && mode == ModeOf(e)
    modifies p.tab
    ensures p.View() == Saved(old(p.View()), e)
  {
    hide Slot, SpsrSlot, WithMode, SetBit, ClrBit, SeenPc, Back4, MaskedPsr, FastPsr, ModeBits, ModeOf,
      WithSlot, WithPsr, Psr, Mode;
    ghost var before := p.View();
    var pc := p.ReadRegister(15);
    var cpsr := p.ReadCpsr();
    ModeOfRange(e);
    ModeBitsOfWithMode(cpsr, mode);
    UnderNewMode(before, WithMode(cpsr, mode), mode, Back4(pc), cpsr);
    p.SetMode(mode);
    p.WriteRegister(14, Back4(pc));
    p.WriteSpsr(cpsr);
    cpsr := p.ReadCpsr();
    cpsr := ClrBit(cpsr, 5);
    if e == Reset || e == FastInterrupt {
      cpsr := SetBit(cpsr, 6);
    }
    cpsr := SetBit(cpsr, 7);
    if e != UndefinedInstruction || e != SoftwareInterrupt {
      cpsr := SetBit(cpsr, 8);
    }
    p.WriteCpsr(cpsr);
    MaskedInSteps(Psr(before), mode);
    FastInSteps(Psr(before), mode);
    var exceptionVectorAddress;
    match e {
      case Reset => exceptionVectorAddress := 0x0;
      case UndefinedInstruction => exceptionVectorAddress := 0x4;
      case SoftwareInterrupt => exceptionVectorAddress := 0x8;
      case PrefetchAbort => exceptionVectorAddress := 0xC;
      case DataAbort => exceptionVectorAddress := 0x10;
      case Interrupt => exceptionVectorAddress := 0x18;
      case FastInterrupt => exceptionVectorAddress := 0x1C;
    }
    p.WriteRegister(15, exceptionVectorAddress);
    PsrWrittenTwice(before, WithMode(Psr(before), mode), mode, Back4(pc), Psr(before), cpsr);
  }

  /** State saved, masks set and the vector in r15. */
  function Saved(s: State, e: Exception): State {
    var m := ModeOf(e);
    var linked := WithSlot(s, Slot(m, LR), EntryLink(e, s.tab[PC]));
    WithSlot(WithPsr(WithSlot(linked, SpsrSlot(m), Psr(s)), EntryPsr(e, Psr(s))), PC, Vector(e))
  }

  /** r14 and the SPSR written after the mode change are those of the new mode. */
  lemma UnderNewMode(s: State, psr: Word, m: Word, link: Word, saved: Word)
    requires ModeBits(psr) == m && Banked(m)
    ensures Mode(WithPsr(s, psr)) == m
    ensures Mode(WithSlot(WithPsr(s, psr), Slot(m, LR), link)) == m
    ensures Psr(WithSlot(WithSlot(WithPsr(s, psr), Slot(m, LR), link), SpsrSlot(m), saved)) == psr
    ensures s.tab[PC] == WithPsr(s, psr).tab[PC]
  {
  }

  lemma PsrWrittenTwice(s: State, psr: Word, m: Word, link: Word, saved: Word, last: Word)
    ensures WithPsr(WithSlot(WithSlot(WithPsr(s, psr), Slot(m, LR), link), SpsrSlot(m), saved), last)
            == WithPsr(WithSlot(WithSlot(s, Slot(m, LR), link), SpsrSlot(m), saved), last)
  {
  }

  lemma ModeBitsOfWithMode(psr: Word, m: Word)
    requires m < 32
    ensures ModeBits(WithMode(psr, m)) == m
  {
  }

  lemma MaskedInSteps(psr: Word, m: Word)
    requires m < 32
    ensures SetBit(SetBit(ClrBit(WithMode(psr, m), 5), 7), 8) == MaskedPsr(psr, m)
  {
  }

  lemma FastInSteps(psr: Word, m: Word)
    requires m < 32
    ensures SetBit(SetBit(SetBit(ClrBit(WithMode(psr, m), 5), 6), 7), 8) == FastPsr(psr, m)
  {
  }

  lemma AbortInStep(psr: Word, m: Word)
    requires m < 32
    ensures WithMode(psr, m) == AbortPsr(psr, m)
  {
  }

  /** `gest_abort`: the T and I bits it computes are never written back. */
  method GestAbort(p: ArmCore, ghost e: Exception, adrVect: Word)
    requires p.Valid() && IsAbort(e) && adrVect == Vector(e)
    modifies p.tab
    ensures p.View() == Saved(old(p.View()), e)
  {
    hide Slot, SpsrSlot, WithMode, SetBit, ClrBit, SeenPc, Back4, AbortPsr, ModeBits,
      WithSlot, WithPsr, Psr, Mode;
    ghost var before := p.View();
    var pc := p.ReadRegister(15);
    var cpsr := p.ReadCpsr();
    ModeBitsOfWithMode(cpsr, ABT);
    UnderNewMode(before, WithMode(cpsr, ABT), ABT, pc, cpsr);
    p.SetMode(ABT);
    p.WriteRegister(14, pc);
    p.WriteSpsr(cpsr);
    cpsr := ClrBit(cpsr, 5);
    cpsr := SetBit(cpsr, 7);
    AbortInStep(Psr(before), ABT);
    PsrWrittenOnce(before, WithMode(Psr(before), ABT), ABT, pc, Psr(before));
    p.WriteRegister(15, adrVect);
  }

  lemma PsrWrittenOnce(s: State, psr: Word, m: Word, link: Word, saved: Word)
    ensures WithSlot(WithSlot(WithPsr(s, psr), Slot(m, LR), link), SpsrSlot(m), saved)
            == WithPsr(WithSlot(WithSlot(s, Slot(m, LR), link), SpsrSlot(m), saved), psr)
  {
  }

  /** Entering is saving, then reading the handler's address from the vector. */
  lemma SavedThenBranched(s: State, e: Exception)
    requires !e.Reset?
    ensures Enter(s, e) == WithSlot(Saved(s, e), PC, s.mem(Vector(e)))
    ensures Back4(SeenPc(Saved(s, e).tab[PC])) == Vector(e)
  {
  }

  /** `arm_exception`: a request byte that names no exception does nothing. */
  method ArmException(p: ArmCore, code: bv8)
    requires p.Valid()
    modifies p.tab
    ensures p.View() == Raise(old(p.View()), code)
  {
    hide Saved, EntryPsr, SeenPc, Back4, Psr;
    ghost var before := p.View();
    if RequestOf(code).Known? && code != 1 {
      SavedThenBranched(before, RequestOf(code).e);
    }
    if code == 1 {
      p.WriteCpsr(0x1D3);
      p.WriteUsrRegister(15, 0);
    } else if code == 2 {
      SaveStateAndChangeMode(p, UndefinedInstruction, UND);
      BranchHandler(p);
    } else if code == 3 {
      SaveStateAndChangeMode(p, SoftwareInterrupt, SVC);
      BranchHandler(p);
    } else if code == 4 {
      GestAbort(p, PrefetchAbort, 0xC);
      BranchHandler(p);
    } else if code == 5 {
      GestAbort(p, DataAbort, 0x10);
      BranchHandler(p);
    } else if code == 6 {
      SaveStateAndChangeMode(p, Interrupt, IRQ);
      BranchHandler(p);
    } else if code == 7 {
      SaveStateAndChangeMode(p, FastInterrupt, FIQ);
      BranchHandler(p);
    }
  }

  /** `arm_create`: a fresh processor is a reset one, whatever its registers held. */
  method ArmCreate(garbage: seq<Word>, mem: Memory) returns (p: ArmCore)
    requires |garbage| == NBREG
    ensures p.Valid() && fresh(p) && fresh(p.tab)
    ensures p.View() == WithSlot(WithPsr(Store(garbage, mem), 0x1D3), PC, 0)
  {
    p := new ArmCore(garbage, mem);
    ghost var before := p.View();
    ArmException(p, 1);
    assert p.View().tab == WithSlot(WithPsr(Store(garbage, mem), 0x1D3), PC, 0).tab;
  }
}
