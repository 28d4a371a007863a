/** Why nested frames must not share a mode: the converse of unwinding. */
module Reentry {
  import opened Words
  import opened Machine
  import opened ExceptionEntry
  import opened Stepping
  import opened Unwinding

  /** The machine cannot leave the modes in `loop` by returning: it is in one of them and
      each one's saved status leads back into them. */
  ghost predicate Trapped(s: State, loop: set<Word>) {
    Mode(s) in loop && AllBanked(loop) && forall m | m in loop :: ModeBits(Spsr(s, m)) in loop
  }

  lemma TrappedEnter(s: State, e: Exception, loop: set<Word>)
    requires Trapped(s, loop) && !e.Reset?
    ensures Trapped(Enter(s, e), loop + {ModeOf(e)})
  {
    hide Enter, ModeOf, Spsr, Link, ModeBits, Banked;
    ModeOfRange(e);
    EnterExact(s, e);
  }

  lemma TrappedReturn(s: State, e: Exception, loop: set<Word>)
    requires Trapped(s, loop)
    ensures Trapped(StepOn(s, ReturnWord(e), false), loop)
  {
    hide StepOn, ReturnWord, ModeBits, Banked, SpsrSlot, Slot;
    ReturnExact(s, e);
    forall m | m in loop ensures Spsr(StepOn(s, ReturnWord(e), false), m) == Spsr(s, m) {
      BankedSlots(m);
    }
  }

  lemma KeepsBanksMode(s: State, r: State)
    requires KeepsBanks(s, r)
    ensures Mode(r) == Mode(s)
  {
  }

  lemma TrappedStep(s: State, w: Word, stray: bool, loop: set<Word>)
    requires Trapped(s, loop) && Harmless(w)
    ensures Trapped(StepOn(s, w, stray), loop)
  {
    hide StepOn, Harmless, ModeBits, Banked, Spsr, Link, Control;
    HarmlessStep(s, w, stray);
    KeepsBanksMode(s, StepOn(s, w, stray));
  }

  lemma {:induction false} TrappedRun(s: State, t: Trace, loop: set<Word>) returns (larger: set<Word>)
    requires Trapped(s, loop) && Plain(t)
    ensures Trapped(Run(s, t), larger)
    decreases t
  {
    hide StepOn, Enter, ReturnWord, ModeOf, Harmless, Trapped;
    match t
    case Done =>
      larger := loop;
    case Exec(w, stray, next) =>
      TrappedStep(s, w, stray, loop);
      larger := TrappedRun(StepOn(s, w, stray), next, loop);
    case Call(e, handler, next) =>
      TrappedEnter(s, e, loop);
      larger := TrappedRun(Enter(s, e), handler, loop + {ModeOf(e)});
      TrappedReturn(Run(Enter(s, e), handler), e, larger);
      larger := TrappedRun(StepOn(Run(Enter(s, e), handler), ReturnWord(e), false), next, larger);
  }

  /** The open frames' modes, outermost first: the last is current and each one's saved
      status leads to the one below. */
  ghost predicate Linked(s: State, stack: seq<Word>) {
    && (stack != [] ==> Mode(s) == stack[|stack| - 1])
    && (forall i | 0 <= i < |stack| :: Banked(stack[i]))
    && (forall i | 0 < i < |stack| :: ModeBits(Spsr(s, stack[i])) == stack[i - 1])
    && (forall i, j | 0 <= i < j < |stack| :: stack[i] != stack[j])
  }

  function Modes(stack: seq<Word>): set<Word> { set m | m in stack }

  /** Entering the mode of an open frame closes a loop of saved modes. */
  lemma ReentryTraps(s: State, e: Exception, stack: seq<Word>, k: nat)
    requires Linked(s, stack) && !e.Reset? && k < |stack| && stack[k] == ModeOf(e)
    ensures Trapped(Enter(s, e), Modes(stack[k..]))
  {
    hide Enter, ModeOf, Spsr, Link, ModeBits, Banked;
    EnterExact(s, e);
    var r, loop := Enter(s, e), Modes(stack[k..]);
    assert stack[k..][0] == stack[k] && stack[k..][|stack| - 1 - k] == stack[|stack| - 1];
    forall m | m in loop ensures ModeBits(Spsr(r, m)) in loop {
      var i :| 0 <= i < |stack| - k && stack[k..][i] == m;
      if i > 0 {
        assert stack[k..][i - 1] == stack[k + i - 1] && stack[k..][i] == stack[k + i];
      }
    }
  }

  lemma LinkedEnter(s: State, e: Exception, stack: seq<Word>)
    requires Linked(s, stack) && !e.Reset? && ModeOf(e) !in stack
    ensures Linked(Enter(s, e), stack + [ModeOf(e)])
    ensures Modes(stack + [ModeOf(e)]) == Modes(stack) + {ModeOf(e)}
  {
    hide Enter, ModeOf, Spsr, Link, ModeBits, Banked;
    ModeOfRange(e);
    EnterExact(s, e);
  }

  lemma LinkedKept(s: State, r: State, stack: seq<Word>)
    requires Linked(s, stack) && Mode(r) == Mode(s)
    requires forall m | m in Modes(stack) :: Spsr(r, m) == Spsr(s, m)
    ensures Linked(r, stack)
  {
  }

  /** A run that opens a frame in the mode of an open one never gets back out. */
  lemma {:induction false} ReentryNeverReturns(s: State, t: Trace, stack: seq<Word>)
    returns (loop: set<Word>)
    requires Linked(s, stack) && Plain(t) && !NoReentry(t, Modes(stack))
    ensures Trapped(Run(s, t), loop)
    decreases t
  {
    hide StepOn, Enter, ReturnWord, ModeOf, Harmless, Trapped, Linked, Spsr, Link, Control, Psr, Banked, Resume;
    match t
    case Exec(w, stray, next) =>
      var r := StepOn(s, w, stray);
      HarmlessStep(s, w, stray);
      KeepsBanksMode(s, r);
      LinkedBanked(s, stack);
      LinkedKept(s, r, stack);
      loop := ReentryNeverReturns(r, next, stack);
    case Call(e, handler, next) =>
      var m, open := ModeOf(e), Modes(stack);
      if m in stack {
        var k :| 0 <= k < |stack| && stack[k] == m;
        ReentryTraps(s, e, stack, k);
        loop := TrappedRun(Enter(s, e), handler, Modes(stack[k..]));
        TrappedReturn(Run(Enter(s, e), handler), e, loop);
        loop := TrappedRun(StepOn(Run(Enter(s, e), handler), ReturnWord(e), false), next, loop);
      } else {
        LinkedEnter(s, e, stack);
        LinkedBanked(s, stack);
        ModeOfRange(e);
        if !NoReentry(handler, open + {m}) {
          loop := ReentryNeverReturns(Enter(s, e), handler, stack + [m]);
          TrappedReturn(Run(Enter(s, e), handler), e, loop);
          loop := TrappedRun(StepOn(Run(Enter(s, e), handler), ReturnWord(e), false), next, loop);
        } else {
          var done := Run(Enter(s, e), handler);
          var r := StepOn(done, ReturnWord(e), false);
          RunKeepsOpen(Enter(s, e), handler, open + {m});
          CallUnwinds(s, e, done, open);
          LinkedKept(s, r, stack);
          loop := ReentryNeverReturns(r, next, stack);
        }
      }
  }

  lemma LinkedBanked(s: State, stack: seq<Word>)
    requires Linked(s, stack)
    ensures AllBanked(Modes(stack))
  {
  }

  /** From a mode without a saved status register (user or system mode), a run gives back
      its control bits exactly when no frame shares its mode with an open one; a run of
      frames alone then also gives back the flags and the program counter. */
  lemma UnwindsExactly(s: State, t: Trace)
    requires !HasSpsr(Mode(s)) && Plain(t)
    ensures Control(Psr(Run(s, t))) == Control(Psr(s)) <==> NoReentry(t, {})
    ensures FramesOnly(t) ==>
              (Psr(Run(s, t)) == Psr(s) && SeenPc(Run(s, t).tab[PC]) == SeenPc(s.tab[PC])
               <==> NoReentry(t, {}))
  {
    hide Run, Control, SeenPc, Resume, ModeBits, Banked, HasSpsr, Plain, NoReentry, FramesOnly;
    assert Modes([]) == {};
    var r := Run(s, t);
    if NoReentry(t, {}) {
      RunKeepsOpen(s, t, {});
      if FramesOnly(t) {
        Unwinds(s, t);
        ResumeInvisible(s.tab[PC]);
      }
    } else {
      var loop := ReentryNeverReturns(s, t, []);
      BankedHasSpsr(Mode(r));
      if Control(Psr(r)) == Control(Psr(s)) { ControlDetermines(Psr(r), Psr(s)); }
    }
  }
}
