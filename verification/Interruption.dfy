/** A user program runs the same with and without the exceptions taken along the way. */
module Interruption {
  import opened Words
  import opened Machine
  import opened Alu
  import opened Instructions
  import opened ExceptionEntry
  import opened Stepping
  import opened Frames
  import opened Unwinding
  import opened Transparency

  /** A data-processing word that writes no register shared with user mode but those in
      `hidden`: a comparison, a branch through r15, or a write to a register that is hidden
      or that `mode` keeps private. */
  predicate PrivateWord(w: Word, mode: Word, hidden: set<Reg>) {
    && Harmless(w)
    && ((ClassOf(w) == ShiftClass || ClassOf(w) == ImmediateClass) ==>
          Compares(OpOf(w)) || RegAt(w, 12) == 15 || RegAt(w, 12) in hidden || Private(mode, RegAt(w, 12)))
  }

  /** Handler code for `mode`, with the exceptions it takes itself. */
  predicate PrivateTrace(t: Trace, mode: Word, hidden: set<Reg>) {
    match t
    case Done => true
    case Exec(w, _, next) => PrivateWord(w, mode, hidden) && PrivateTrace(next, mode, hidden)
    case Call(e, handler, next) =>
      !e.Reset? && PrivateTrace(handler, ModeOf(e), hidden) && PrivateTrace(next, mode, hidden)
  }

  lemma {:induction false} PrivateIsPlain(t: Trace, mode: Word, hidden: set<Reg>)
    requires PrivateTrace(t, mode, hidden)
    ensures Plain(t)
    decreases t
  {
    hide Harmless, ModeOf;
    match t
    case Done =>
    case Exec(_, _, next) => PrivateIsPlain(next, mode, hidden);
    case Call(e, handler, next) =>
      PrivateIsPlain(handler, ModeOf(e), hidden);
      PrivateIsPlain(next, mode, hidden);
  }

  ghost predicate KeepsUser(s: State, r: State, hidden: set<Reg>) {
    forall n: Reg | n < PC && n !in hidden :: r.tab[n] == s.tab[n]
  }

  lemma TouchesKeepsUser(s: State, r: State, dest: nat, hidden: set<Reg>)
    requires OnlyTouches(s, r, dest) && (dest < PC ==> dest in hidden)
    ensures KeepsUser(s, r, hidden)
  {
  }

  lemma PrivateStep(s: State, w: Word, stray: bool, hidden: set<Reg>)
    requires PrivateWord(w, Mode(s), hidden)
    ensures KeepsUser(s, StepOn(s, w, stray), hidden) && Mode(StepOn(s, w, stray)) == Mode(s)
  {
    hide ClassOf, Returns, Compares, OpOf, RegAt, Process, ShiftedOperand, RotatedImmediate, Msr, Branch,
      Links, Bit, Field4, Control, Slot, Fetched, OnlyTouches, Private, ModeBits;
    FetchFrame(s);
    var f, r := Fetched(s), StepOn(s, w, stray);
    TouchesKeepsUser(s, f, PC, hidden);
    assert Slot(Mode(s), 15) == PC;
    match ClassOf(w) {
      case ShiftClass =>
        ProcessFrame(f, w, ShiftedOperand(f, OperandField(w), stray));
        PrivateDestination(f, w, hidden);
        TouchesKeepsUser(f, r, Destination(f, w), hidden);
      case ImmediateClass =>
        ProcessFrame(f, w, RotatedImmediate(f, OperandField(w)));
        PrivateDestination(f, w, hidden);
        TouchesKeepsUser(f, r, Destination(f, w), hidden);
      case MsrClass =>
        MsrFrame(f, w);
        TouchesKeepsUser(f, r, PC, hidden);
      case BranchClass =>
        BranchFrame(f, w);
        TouchesKeepsUser(f, r, PC, hidden);
      case _ =>
    }
    HarmlessStep(s, w, stray);
    ControlSame(s, r);
  }

  lemma PrivateDestination(s: State, w: Word, hidden: set<Reg>)
    requires Compares(OpOf(w)) || RegAt(w, 12) == 15 || RegAt(w, 12) in hidden || Private(Mode(s), RegAt(w, 12))
    ensures Destination(s, w) < PC ==> Destination(s, w) in hidden
  {
  }

  lemma ControlSame(s: State, r: State)
    requires Control(Psr(r)) == Control(Psr(s))
    ensures Mode(r) == Mode(s)
  {
  }

  lemma CallKeepsUser(s: State, e: Exception, done: State, hidden: set<Reg>)
    requires !e.Reset? && Banked(Mode(done))
    requires KeepsUser(Enter(s, e), done, hidden)
    ensures KeepsUser(s, StepOn(done, ReturnWord(e), false), hidden)
  {
    hide Enter, StepOn, ReturnWord, ModeOf, ModeBits, Banked;
    ModeOfRange(e);
    BankedAbove(ModeOf(e));
    EnterExact(s, e);
    ReturnExact(done, e);
  }

  lemma BankedAbove(m: Word)
    requires Banked(m)
    ensures Slot(m, LR) > CPSR && SpsrSlot(m) > CPSR
  {
  }

  /** Private handler code and everything nested in it leave the user registers outside
      `hidden` alone. */
  lemma {:induction false} PrivateRun(s: State, t: Trace, open: set<Word>, hidden: set<Reg>)
    requires PrivateTrace(t, Mode(s), hidden) && NoReentry(t, open) && AllBanked(open) && Mode(s) in open
    ensures KeepsUser(s, Run(s, t), hidden) && Mode(Run(s, t)) == Mode(s)
    decreases t
  {
    hide StepOn, Enter, ReturnWord, ModeOf, PrivateWord, Control, Psr, Link, Spsr, Resume, Mode, Banked;
    match t
    case Done =>
    case Exec(w, stray, next) =>
      PrivateStep(s, w, stray, hidden);
      PrivateRun(StepOn(s, w, stray), next, open, hidden);
    case Call(e, handler, next) =>
      var m, inside := ModeOf(e), Enter(s, e);
      var done := Run(inside, handler);
      ModeOfRange(e);
      EnterMode(s, e);
      PrivateRun(inside, handler, open + {m}, hidden);
      PrivateIsPlain(handler, m, hidden);
      RunKeepsOpen(inside, handler, open + {m});
      CallUnwinds(s, e, done, open);
      CallKeepsUser(s, e, done, hidden);
      var r := StepOn(done, ReturnWord(e), false);
      ControlSame(s, r);
      PrivateRun(r, next, open, hidden);
  }

  lemma EnterMode(s: State, e: Exception)
    requires !e.Reset?
    ensures Mode(Enter(s, e)) == ModeOf(e)
  {
  }

  // ---------------------------------------------------------------------------
  // Erasing the interruptions
  // ---------------------------------------------------------------------------

  /** A user program interrupted now and then by well-behaved handlers. */
  predicate Interrupted(t: Trace, hidden: set<Reg>) {
    match t
    case Done => true
    case Exec(w, _, next) => UserWord(w) && Ignores(w, hidden) && Interrupted(next, hidden)
    case Call(e, handler, next) =>
      && !e.Reset? && PrivateTrace(handler, ModeOf(e), hidden) && NoReentry(handler, {ModeOf(e)})
      && Interrupted(next, hidden)
  }

  /** The program alone. */
  function Erase(t: Trace): Trace {
    match t
    case Done => Done
    case Exec(w, stray, next) => Exec(w, stray, Erase(next))
    case Call(_, _, next) => Erase(next)
  }

  /** Each word executed at the outermost level is the one memory holds where the processor
      fetches. */
  predicate Fetches(s: State, t: Trace)
    decreases t
  {
    match t
    case Done => true
    case Exec(w, stray, next) => w == s.mem(FetchAddress(s)) && Fetches(StepOn(s, w, stray), next)
    case Call(e, handler, next) => Fetches(StepOn(Run(Enter(s, e), handler), ReturnWord(e), false), next)
  }

  /** One interruption is invisible to the program it interrupts. */
  lemma CallInvisible(s: State, e: Exception, handler: Trace, hidden: set<Reg>)
    requires !e.Reset? && PrivateTrace(handler, ModeOf(e), hidden) && NoReentry(handler, {ModeOf(e)})
    ensures SameView(s, StepOn(Run(Enter(s, e), handler), ReturnWord(e), false), hidden)
  {
    hide StepOn, Enter, ReturnWord, ModeOf, Control, Link, Spsr, Resume, SeenPc, Run, Mode, Banked, Psr;
    var m, inside := ModeOf(e), Enter(s, e);
    var done := Run(inside, handler);
    ModeOfRange(e);
    EnterMode(s, e);
    PrivateRun(inside, handler, {m}, hidden);
    PrivateIsPlain(handler, m, hidden);
    assert {} + {m} == {m};
    RunKeepsOpen(inside, handler, {m});
    CallUnwinds(s, e, done, {});
    CallKeepsUser(s, e, done, hidden);
    ResumeInvisible(s.tab[PC]);
  }

  lemma {:induction false} EraseFrom(a: State, b: State, t: Trace, hidden: set<Reg>)
    requires SameView(a, b, hidden) && Mode(a) == USR && Interrupted(t, hidden)
    ensures SameView(Run(a, t), Run(b, Erase(t)), hidden)
    ensures Fetches(a, t) <==> Fetches(b, Erase(t))
    decreases t
  {
    hide StepOn, Enter, ReturnWord, ModeOf, UserWord, Ignores, SameView, ModeBits, Psr, FetchAddress;
    match t
    case Done =>
    case Exec(w, stray, next) =>
      UserFetch(a, b, hidden);
      UserStep(a, b, w, stray, hidden);
      UserIsView(StepOn(a, w, stray), StepOn(b, w, stray), hidden);
      UserStepConfined(a, w, stray);
      EraseFrom(StepOn(a, w, stray), StepOn(b, w, stray), next, hidden);
    case Call(e, handler, next) =>
      var r := StepOn(Run(Enter(a, e), handler), ReturnWord(e), false);
      CallInvisible(a, e, handler, hidden);
      ViewJoins(a, b, r, hidden);
      EraseFrom(r, b, next, hidden);
  }

  lemma ViewJoins(a: State, b: State, r: State, hidden: set<Reg>)
    requires SameView(a, b, hidden) && SameView(a, r, hidden)
    ensures SameView(r, b, hidden) && Mode(r) == Mode(a)
  {
  }

  /** Whatever exceptions interrupt a user program, and whatever their handlers do with their
      private registers and with registers the program does not read, the program ends as if
      it had run alone; and alone it runs through the words memory holds exactly when it did
      so interrupted. */
  lemma InterruptionsInvisible(s: State, t: Trace, hidden: set<Reg>)
    requires Mode(s) == USR && Interrupted(t, hidden)
    ensures SameView(Run(s, t), Run(s, Erase(t)), hidden)
    ensures Fetches(s, t) <==> Fetches(s, Erase(t))
  {
    hide Run, Erase, Interrupted, SeenPc, ModeBits, Fetches;
    EraseFrom(s, s, t, hidden);
  }

  /** MOV r1, #k, the body of every handler in the repository's interruption example, is
      private in any mode once r1 is hidden. */
  lemma ExampleHandlerPrivate(k: Word, mode: Word)
    requires k < 256
    ensures PrivateWord(0xE3A0_1000 | k, mode, {1})
  {
  }
}
