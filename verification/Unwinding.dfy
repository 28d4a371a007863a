/** Nested exceptions: entry and return compose into a stack discipline. */
module Unwinding {
  import opened Words
  import opened Machine
  import opened Alu
  import opened Shifter
  import opened Instructions
  import opened ExceptionEntry
  import opened Stepping
  import opened Frames

  // ---------------------------------------------------------------------------
  // Handlers and how they return
  // ---------------------------------------------------------------------------

  /** Words a handler body may use: data processing that is neither a return nor a write to
      r14, an MSR that leaves the control field alone, branches without link, and words the
      dispatcher ignores. */
  predicate Harmless(w: Word) {
    match ClassOf(w)
    case ShiftClass | ImmediateClass => !Returns(w) && (Compares(OpOf(w)) || RegAt(w, 12) != 14)
    case MsrClass => !Bit(w, 22) && Field4(w, 16) & 1 == 0
    case BranchClass => !Links(w)
    case Silent => true
    case _ => false
  }

  /** The return sequence of each handler: SUBS PC, LR, #4 after an abort, MOVS PC, LR
      otherwise. */
  function ReturnWord(e: Exception): Word {
    if IsAbort(e) then 0xE25E_F004 else 0xE1B0_F00E
  }

  /** A run of the machine with its nesting made explicit: words executed, and exceptions
      whose handler runs and then returns. */
  datatype Trace =
    | Done
    | Exec(w: Word, stray: bool, next: Trace)
    | Call(e: Exception, handler: Trace, next: Trace)

  function Run(s: State, t: Trace): State
    decreases t
  {
    match t
    case Done => s
    case Exec(w, stray, next) => Run(StepOn(s, w, stray), next)
    case Call(e, handler, next) => Run(StepOn(Run(Enter(s, e), handler), ReturnWord(e), false), next)
  }

  /** Every executed word is harmless; a reset opens no frame. */
  predicate Plain(t: Trace) {
    match t
    case Done => true
    case Exec(w, _, next) => Harmless(w) && Plain(next)
    case Call(e, handler, next) => !e.Reset? && Plain(handler) && Plain(next)
  }

  /** No exception is taken while another one handled in the same mode is open. */
  predicate NoReentry(t: Trace, open: set<Word>) {
    match t
    case Done => true
    case Exec(_, _, next) => NoReentry(next, open)
    case Call(e, handler, next) =>
      ModeOf(e) !in open && NoReentry(handler, open + {ModeOf(e)}) && NoReentry(next, open)
  }

  // ---------------------------------------------------------------------------
  // Single steps
  // ---------------------------------------------------------------------------

  /** Memory, control bits, and the return state of every mode are as before. */
  ghost predicate KeepsBanks(s: State, r: State) {
    && r.mem == s.mem
    && Control(Psr(r)) == Control(Psr(s))
    && forall m | Banked(m) :: Link(r, m) == Link(s, m) && Spsr(r, m) == Spsr(s, m)
  }

  lemma TouchesKeepsBanks(s: State, r: State, mode: Word, rd: Reg)
    requires OnlyTouches(s, r, Slot(mode, rd)) && rd != 14
    ensures KeepsBanks(s, r)
  {
  }

  lemma HarmlessExecute(s: State, w: Word, stray: bool)
    requires Harmless(w)
    ensures KeepsBanks(s, Execute(s, w, stray))
  {
    hide ClassOf, Returns, OpOf, RegAt, Process, ShiftedOperand, RotatedImmediate, Msr, Branch,
      Links, Bit, Field4, Control, Slot, Mode, KeepsBanks, OnlyTouches, SpsrSlot;
    assert Slot(Mode(s), 15) == PC;
    var r := Execute(s, w, stray);
    match ClassOf(w) {
      case ShiftClass =>
        ProcessFrame(s, w, ShiftedOperand(s, OperandField(w), stray));
        TouchesKeepsBanks(s, r, Mode(s), if Compares(OpOf(w)) then 15 else RegAt(w, 12));
      case ImmediateClass =>
        ProcessFrame(s, w, RotatedImmediate(s, OperandField(w)));
        TouchesKeepsBanks(s, r, Mode(s), if Compares(OpOf(w)) then 15 else RegAt(w, 12));
      case MsrClass =>
        MsrFrame(s, w);
        TouchesKeepsBanks(s, r, Mode(s), 15);
      case BranchClass =>
        BranchFrame(s, w);
        TouchesKeepsBanks(s, r, Mode(s), 15);
      case _ =>
        SameKeepsBanks(s);
    }
  }

  lemma SameKeepsBanks(s: State)
    ensures KeepsBanks(s, s)
  {
  }

  lemma FetchKeepsBanks(s: State)
    ensures KeepsBanks(s, Fetched(s)) && Psr(Fetched(s)) == Psr(s)
  {
  }

  lemma HarmlessStep(s: State, w: Word, stray: bool)
    requires Harmless(w)
    ensures KeepsBanks(s, StepOn(s, w, stray))
  {
    hide Harmless, Execute, Control, Fetched, Link, Spsr;
    FetchKeepsBanks(s);
    HarmlessExecute(Fetched(s), w, stray);
  }

  /** Where a frame resumes: the stored program counter as instructions see it. */
  function Resume(pc: Word): Word { Back4(SeenPc(pc)) }

  lemma AlignThenAdd(pc: Word, w: Word, a: Word)
    requires w == pc + 4 && a == pc & 0xFFFF_FFFD
    ensures w & 0xFFFF_FFFD == a + 4
  {
  }

  lemma AlignOf(w: Word, seen: Word)
    requires w & 0xFFFF_FFFD == seen
    ensures Align(w) == seen
  {
  }

  lemma SeenIsAligned(pc: Word)
    ensures SeenPc(pc) == Forward4(Align(pc))
  {
    var w, a := Forward4(pc), Align(pc);
    AlignThenAdd(pc, w, a);
    hide Align, Forward4;
    AlignOf(w, a + 4);
    Forward4Of(a);
  }

  lemma Forward4Of(a: Word)
    ensures Forward4(a) == a + 4
  {
  }

  /** A frame resumes at the interrupted address with bit 1 cleared. */
  lemma ResumeIsAlign(pc: Word)
    ensures Resume(pc) == Align(pc)
  {
  }

  /** Resuming a resumed address changes nothing, and no instruction can tell them apart. */
  lemma ResumeInvisible(pc: Word)
    ensures Resume(Resume(pc)) == Resume(pc)
    ensures SeenPc(Resume(pc)) == SeenPc(pc)
  {
  }

  /** What entry leaves behind, register by register. */
  lemma EnterExact(s: State, e: Exception)
    requires !e.Reset?
    ensures var r, m := Enter(s, e), ModeOf(e);
            && r.mem == s.mem
            && Psr(r) == EntryPsr(e, Psr(s)) && Mode(r) == m
            && Spsr(r, m) == Psr(s) && Link(r, m) == EntryLink(e, s.tab[PC])
            && r.tab[PC] == s.mem(Vector(e))
            && (forall n | 0 <= n < NBREG && n != PC && n != CPSR && n != Slot(m, LR) && n != SpsrSlot(m)
                  :: r.tab[n] == s.tab[n])
            && (forall k | Banked(k) && k != m :: Link(r, k) == Link(s, k) && Spsr(r, k) == Spsr(s, k))
  {
    hide EntryPsr, EntryLink, Vector, ModeOf, ModeBits;
    ModeOfRange(e);
    EntryPsrMode(e, Psr(s));
    var r, m := Enter(s, e), ModeOf(e);
    SlotExact(m, LR, m, LR);
    forall k | Banked(k) && k != m ensures Link(r, k) == Link(s, k) && Spsr(r, k) == Spsr(s, k) {
      SlotExact(m, LR, k, LR);
      SlotExact(k, LR, m, LR);
      SpsrSlotExact(m, k);
    }
  }

  lemma EntryPsrMode(e: Exception, psr: Word)
    requires !e.Reset?
    ensures ModeBits(EntryPsr(e, psr)) == ModeOf(e)
  {
  }

  // ---------------------------------------------------------------------------
  // The return sequences
  // ---------------------------------------------------------------------------

  lemma MovsDecodes()
    ensures ClassOf(0xE1B0_F00E) == ShiftClass && Returns(0xE1B0_F00E) && CondOf(0xE1B0_F00E) == 14
    ensures OpOf(0xE1B0_F00E) == Mov && OperandField(0xE1B0_F00E) == 0xE
    ensures !Bit(0xE, 4) && !Unshifted(0xE) && KindOf(0xE) == LSL && ShiftImm(0xE) == 0
    ensures RegAt(0xE, 0) == 14
  {
  }

  lemma SubsDecodes()
    ensures ClassOf(0xE25E_F004) == ImmediateClass && Returns(0xE25E_F004) && CondOf(0xE25E_F004) == 14
    ensures OpOf(0xE25E_F004) == Sub && OperandField(0xE25E_F004) == 4 && RegAt(0xE25E_F004, 16) == 14
    ensures ImmediateRotation(4) == 0 && 4 & 0xFF == 4 as Word
  {
  }

  lemma MovsOperand(s: State, stray: bool)
    ensures ShiftedOperand(s, 0xE, stray).operand == ReadReg(s, 14)
  {
  }

  lemma SubsOperand(s: State)
    ensures RotatedImmediate(s, 4).operand == 4
  {
  }

  lemma AlwaysExecutes(s: State, w: Word)
    requires CondOf(w) == 14
    ensures Executes(s, w)
  {
  }

  lemma MovsValue(a: Word, operand: Word, c: bool)
    ensures AluValue(Mov, a, operand, c) == operand
  {
  }

  lemma SubsValue(a: Word, c: bool)
    ensures AluValue(Sub, a, 4, c) == Back4(a)
  {
  }

  lemma BankedHasSpsr(m: Word)
    requires Banked(m)
    ensures HasSpsr(m)
  {
  }

  /** A return sequence restores the saved status register of the mode it runs in and
      resumes at that mode's r14, less 4 after an abort; it writes nothing else. */
  lemma ReturnExact(s: State, e: Exception)
    requires Banked(Mode(s))
    ensures var r, m := StepOn(s, ReturnWord(e), false), Mode(s);
            && r.mem == s.mem
            && Psr(r) == Spsr(s, m)
            && r.tab[PC] == (if IsAbort(e) then Back4(Link(s, m)) else Link(s, m))
            && forall n | 0 <= n < NBREG && n != PC && n != CPSR :: r.tab[n] == s.tab[n]
  {
    hide ClassOf, Returns, CondOf, OpOf, RegAt, OperandField, Process, ShiftedOperand, RotatedImmediate,
      AluValue, Fetched, CarryIn, Control, Banked, HasSpsr, Back4, Slot, SpsrSlot, ModeBits, Executes;
    var f, w := Fetched(s), ReturnWord(e);
    FetchFrame(s);
    BankedHasSpsr(Mode(s));
    BankedSlots(Mode(s));
    MovsDecodes();
    SubsDecodes();
    AlwaysExecutes(f, w);
    if IsAbort(e) {
      var sh := RotatedImmediate(f, 4);
      ReturnFrame(f, w, sh);
      SubsOperand(f);
      SubsValue(ReadReg(f, 14), CarryIn(f));
    } else {
      var sh := ShiftedOperand(f, 0xE, false);
      ReturnFrame(f, w, sh);
      MovsOperand(f, false);
      MovsValue(ReadReg(f, RegAt(w, 16)), sh.operand, CarryIn(f));
    }
  }

  lemma BankedSlots(m: Word)
    requires Banked(m)
    ensures Slot(m, LR) != PC && Slot(m, LR) != CPSR && SpsrSlot(m) > CPSR
  {
  }

  // ---------------------------------------------------------------------------
  // Frames that never share a mode unwind exactly
  // ---------------------------------------------------------------------------

  /** Memory, control bits, and the return state of the open modes are as before. */
  ghost predicate KeepsOpen(s: State, r: State, open: set<Word>) {
    && r.mem == s.mem
    && Control(Psr(r)) == Control(Psr(s))
    && forall m | m in open :: Link(r, m) == Link(s, m) && Spsr(r, m) == Spsr(s, m)
  }

  predicate AllBanked(modes: set<Word>) { forall m | m in modes :: Banked(m) }

  /** A handler that kept its own return state returns to where it was called from. */
  lemma CallUnwinds(s: State, e: Exception, done: State, open: set<Word>)
    requires !e.Reset? && ModeOf(e) !in open && AllBanked(open)
    requires KeepsOpen(Enter(s, e), done, open + {ModeOf(e)})
    ensures var r := StepOn(done, ReturnWord(e), false);
            && Psr(r) == Psr(s)
            && r.tab[PC] == Resume(s.tab[PC])
            && KeepsOpen(s, r, open)
            && forall n | 0 <= n < NBREG && n != PC && n != CPSR :: r.tab[n] == done.tab[n]
  {
    hide StepOn, Enter, ReturnWord, ModeOf, Control, Slot, SpsrSlot, EntryPsr, Back4, SeenPc, ModeBits, Banked;
    var m, r := ModeOf(e), StepOn(done, ReturnWord(e), false);
    ModeOfRange(e);
    EnterExact(s, e);
    ControlDetermines(Psr(done), Psr(Enter(s, e)));
    ReturnExact(done, e);
    forall k | k in open ensures Link(r, k) == Link(s, k) && Spsr(r, k) == Spsr(s, k) {
      BankedSlots(k);
    }
  }

  /** Whatever runs, harmless code and frames that do not share a mode with an open one
      leave the control bits and the return state of every open frame alone. */
  lemma {:induction false} RunKeepsOpen(s: State, t: Trace, open: set<Word>)
    requires Plain(t) && NoReentry(t, open) && AllBanked(open)
    ensures KeepsOpen(s, Run(s, t), open)
    decreases t
  {
    hide StepOn, Enter, ReturnWord, ModeOf, Control, Link, Spsr, Harmless, Resume, Psr, Banked;
    match t
    case Done =>
    case Exec(w, stray, next) =>
      HarmlessStep(s, w, stray);
      RunKeepsOpen(StepOn(s, w, stray), next, open);
    case Call(e, handler, next) =>
      ModeOfRange(e);
      var done := Run(Enter(s, e), handler);
      RunKeepsOpen(Enter(s, e), handler, open + {ModeOf(e)});
      CallUnwinds(s, e, done, open);
      RunKeepsOpen(StepOn(done, ReturnWord(e), false), next, open);
  }

  /** Nothing but exceptions at the outermost level. */
  predicate FramesOnly(t: Trace) {
    t.Done? || (t.Call? && FramesOnly(t.next))
  }

  /** The outermost run ends with the status register it started with, bit for bit, and
      with the program counter it started with, as every instruction sees it. */
  lemma {:induction false} Unwinds(s: State, t: Trace)
    requires Plain(t) && FramesOnly(t) && NoReentry(t, {})
    ensures Psr(Run(s, t)) == Psr(s)
    ensures Run(s, t).tab[PC] == if t.Done? then s.tab[PC] else Resume(s.tab[PC])
    decreases t
  {
    hide StepOn, Enter, ReturnWord, ModeOf, Control, Link, Spsr, Harmless, Resume, Psr, Banked;
    match t
    case Done =>
    case Call(e, handler, next) =>
      ModeOfRange(e);
      var done := Run(Enter(s, e), handler);
      RunKeepsOpen(Enter(s, e), handler, {} + {ModeOf(e)});
      CallUnwinds(s, e, done, {});
      Unwinds(StepOn(done, ReturnWord(e), false), next);
      ResumeInvisible(s.tab[PC]);
  }
}
