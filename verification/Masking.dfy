/** Interrupt masking over arbitrary runs: no bracketing is assumed, handlers may take any
    exception, and returns may happen anywhere. */
module Masking {
  import opened Words
  import opened Machine
  import opened Alu
  import opened Shifter
  import opened Instructions
  import opened ExceptionEntry
  import opened DataLaws
  import opened DataProcessing
  import opened Stepping
  import opened Frames
  import opened Unwinding

  /** An instruction, or an exception raised from outside. */
  datatype Event = Tick(w: Word, stray: bool) | Signal(e: Exception)

  function Apply(s: State, ev: Event): State {
    match ev
    case Tick(w, stray) => StepOn(s, w, stray)
    case Signal(e) => Enter(s, e)
  }

  /** Which interrupt handlers have started and not yet returned, with the modes entered
      since each one started. */
  datatype Handlers = Handlers(irq: bool, irqSince: set<Word>, fiq: bool, fiqSince: set<Word>)

  const IDLE: Handlers := Handlers(false, {}, false, {})

  function Started(k: Handlers, e: Exception): Handlers {
    match e
    case Reset => Handlers(false, {}, false, {})
    case Interrupt => Handlers(true, {}, k.fiq, k.fiqSince + {IRQ})
    case FastInterrupt => Handlers(k.irq, k.irqSince + {FIQ}, true, {})
    case _ => Handlers(k.irq, k.irqSince + {ModeOf(e)}, k.fiq, k.fiqSince + {ModeOf(e)})
  }

  /** A return executed in an interrupt mode ends that interrupt's handler. */
  function Ended(k: Handlers, mode: Word): Handlers {
    if mode == IRQ then k.(irq := false) else if mode == FIQ then k.(fiq := false) else k
  }

  predicate TakesReturn(s: State, w: Word) {
    (ClassOf(w) == ShiftClass || ClassOf(w) == ImmediateClass) && Returns(w) && Executes(Fetched(s), w)
  }

  function Track(k: Handlers, s: State, ev: Event): Handlers {
    match ev
    case Signal(e) => Started(k, e)
    case Tick(w, _) =>
      if ClassOf(w) == SwiClass then Started(k, SoftwareInterrupt)
      else if TakesReturn(s, w) then Ended(k, Mode(s))
      else k
  }

  /** An MSR whose operand has the four mode bits the destination has already. */
  predicate KeepsNibble(s: State, w: Word) {
    Nibble(MsrOperand(s, w)) == Nibble(if Bit(w, 22) then Spsr(s, Mode(s)) else Psr(s))
  }

  function Nibble(psr: Word): Word { psr & 0xF }

  /** Interrupts are signalled only when not masked, and privileged code does not change the
      mode with MSR, now or on return. Everything else is allowed. */
  predicate Allowed(s: State, ev: Event) {
    match ev
    case Signal(e) => (e.Interrupt? ==> !IrqMasked(Psr(s))) && (e.FastInterrupt? ==> !FiqMasked(Psr(s)))
    case Tick(w, _) =>
      && Modelled(w) && Defined(Fetched(s), w)
      && (ClassOf(w) == MsrClass ==> !Privileged(Mode(s)) || Field4(w, 16) & 1 == 0 || KeepsNibble(Fetched(s), w))
  }

  // ---------------------------------------------------------------------------
  // The invariant
  // ---------------------------------------------------------------------------

  predicate Masked(psr: Word, fiqToo: bool) {
    IrqMasked(psr) && (fiqToo ==> FiqMasked(psr))
  }

  /** Since the handler of mode `base` started, every status register in use, current or
      saved, masks its interrupt and belongs to `base` or to a mode entered since. */
  predicate Guarded(s: State, base: Word, since: set<Word>, fiqToo: bool) {
    && Masked(Psr(s), fiqToo)
    && Mode(s) in since + {base}
    && base !in since
    && forall m | m in since ::
         Banked(m) && Masked(Spsr(s, m), fiqToo) && ModeBits(Spsr(s, m)) in since + {base}
  }

  predicate Inv(s: State, k: Handlers) {
    && (k.irq ==> Guarded(s, IRQ, k.irqSince, false))
    && (k.fiq ==> Guarded(s, FIQ, k.fiqSince, true))
  }

  /** Two saved or current status registers that agree on mode and masks. */
  predicate SameGuard(a: Word, b: Word) {
    ModeBits(a) == ModeBits(b) && IrqMasked(a) == IrqMasked(b) && FiqMasked(a) == FiqMasked(b)
  }

  ghost predicate SameGuards(s: State, r: State) {
    SameGuard(Psr(s), Psr(r)) && forall m | Banked(m) :: SameGuard(Spsr(s, m), Spsr(r, m))
  }

  lemma GuardedEnter(s: State, e: Exception, base: Word, since: set<Word>, fiqToo: bool)
    requires Guarded(s, base, since, fiqToo) && !e.Reset? && ModeOf(e) != base
    ensures Guarded(Enter(s, e), base, since + {ModeOf(e)}, fiqToo)
  {
    hide ModeBits, IrqMasked, FiqMasked, Banked, Psr, Spsr, Link, Enter, ModeOf, EntryPsr;
    ModeOfRange(e);
    EnterExact(s, e);
    EntryPsrExact(e, Psr(s));
  }

  lemma GuardedStart(s: State, e: Exception)
    requires e.Interrupt? || e.FastInterrupt?
    ensures Guarded(Enter(s, e), ModeOf(e), {}, e.FastInterrupt?)
  {
  }

  lemma GuardedReturn(s: State, r: State, base: Word, since: set<Word>, fiqToo: bool)
    requires Guarded(s, base, since, fiqToo) && Mode(s) != base
    requires Psr(r) == Spsr(s, Mode(s))
    requires forall m | Banked(m) :: Spsr(r, m) == Spsr(s, m)
    ensures Guarded(r, base, since, fiqToo)
  {
  }

  // ---------------------------------------------------------------------------
  // Every allowed event keeps it
  // ---------------------------------------------------------------------------

  lemma InvSignal(s: State, k: Handlers, e: Exception)
    requires Inv(s, k) && Allowed(s, Signal(e))
    ensures Inv(Enter(s, e), Started(k, e))
  {
    hide ModeBits, IrqMasked, FiqMasked, Banked, Psr, Spsr, Enter;
    if !e.Reset? {
      if e.Interrupt? || e.FastInterrupt? { GuardedStart(s, e); }
      if k.irq && !e.Interrupt? { GuardedEnter(s, e, IRQ, k.irqSince, false); }
      if k.fiq && !e.FastInterrupt? { GuardedEnter(s, e, FIQ, k.fiqSince, true); }
    }
  }

  lemma TouchesSameGuards(s: State, r: State, mode: Word, rd: Reg)
    requires OnlyTouches(s, r, Slot(mode, rd))
    ensures SameGuards(s, r)
  {
  }

  lemma MergeKeepsGuard(psr: Word, operand: Word, mask: Word)
    requires mask & 0x0FFF_FFDF == 0 || (mask & 0x0FFF_FFD0 == 0 && Nibble(operand) == Nibble(psr))
    ensures SameGuard(psr, Merge(psr, operand, mask))
  {
  }

  /** What MSR can reach: nothing but mode bits in the control field, the state bit of an
      SPSR apart, and no mode bits without that field or from user mode. */
  lemma MaskReach(privileged: bool, fields: bv4)
    ensures CpsrMask(privileged, fields) & 0x0FFF_FFD0 == 0 && SpsrMask(fields) & 0x0FFF_FFD0 == 0
    ensures !privileged || fields & 1 == 0 ==> CpsrMask(privileged, fields) & 0x0FFF_FFDF == 0
    ensures fields & 1 == 0 ==> SpsrMask(fields) & 0x0FFF_FFDF == 0
  {
  }

  lemma PsrGuards(s: State, v: Word)
    requires SameGuard(Psr(s), v)
    ensures SameGuards(s, WithPsr(s, v))
  {
  }

  lemma SpsrGuards(s: State, v: Word)
    requires Banked(Mode(s)) && SameGuard(Spsr(s, Mode(s)), v)
    ensures SameGuards(s, WithSlot(s, SpsrSlot(Mode(s)), v))
  {
    hide SameGuard, ModeBits, Banked;
    var r := WithSlot(s, SpsrSlot(Mode(s)), v);
    SameGuardSelf(s);
    forall m | Banked(m) ensures SameGuard(Spsr(s, m), Spsr(r, m)) {
      SpsrSlotExact(m, Mode(s));
    }
  }

  /** An MSR without the control field, or one that leaves the mode bits as they are, moves
      no mode and no mask, current or saved. */
  lemma MsrSameGuards(s: State, w: Word)
    requires SpsrDefined(Mode(s)) || !Executes(s, w) || !Bit(w, 22)
    requires !Privileged(Mode(s)) || Field4(w, 16) & 1 == 0 || KeepsNibble(s, w)
    ensures SameGuards(s, Msr(s, w))
  {
    hide Bit, Field4, Executes, MsrOperand, ModeBits, Touches, Merge, SpsrMask, CpsrMask, SameGuard, SameGuards,
      WithPsr, WithSlot, Psr, Spsr, Nibble, Banked;
    var fields, v := Field4(w, 16), MsrOperand(s, w);
    SameGuardSelf(s);
    MaskReach(Privileged(Mode(s)), fields);
    if !Executes(s, w) || MsrRefused(s, Bit(w, 22), v) {
    } else if Bit(w, 22) {
      MergeKeepsGuard(Spsr(s, Mode(s)), v, SpsrMask(fields));
      SpsrGuards(s, Merge(Spsr(s, Mode(s)), v, SpsrMask(fields)));
    } else {
      MergeKeepsGuard(Psr(s), v, CpsrMask(Privileged(Mode(s)), fields));
      PsrGuards(s, Merge(Psr(s), v, CpsrMask(Privileged(Mode(s)), fields)));
    }
  }

  lemma SameGuardSelf(s: State)
    ensures SameGuards(s, s) && forall x :: SameGuard(x, x)
  {
  }

  lemma InvKept(s: State, r: State, k: Handlers)
    requires Inv(s, k) && SameGuards(s, r)
    ensures Inv(r, k)
  {
  }

  lemma GuardedMode(s: State, base: Word, since: set<Word>, fiqToo: bool)
    requires Guarded(s, base, since, fiqToo) && Banked(base)
    ensures Banked(Mode(s)) && HasSpsr(Mode(s))
  {
  }

  lemma InvReturn(f: State, k: Handlers, w: Word, sh: Shifted)
    requires Inv(f, k) && Returns(w) && Executes(f, w)
    ensures Inv(Process(f, w, sh), Ended(k, Mode(f)))
  {
    hide Returns, Executes, Guarded, Process, Spsr, Psr, ModeBits, AluValue, OpOf, ReadReg, CarryIn, HasSpsr, Banked;
    var r := Process(f, w, sh);
    ReturnFrame(f, w, sh);
    assert forall m | Banked(m) :: Spsr(r, m) == Spsr(f, m) by { SpsrUntouched(f, r); }
    if Ended(k, Mode(f)).irq {
      BankedBases();
      GuardedMode(f, IRQ, k.irqSince, false);
      GuardedReturn(f, r, IRQ, k.irqSince, false);
    }
    if Ended(k, Mode(f)).fiq {
      BankedBases();
      GuardedMode(f, FIQ, k.fiqSince, true);
      GuardedReturn(f, r, FIQ, k.fiqSince, true);
    }
  }

  lemma BankedBases()
    ensures Banked(IRQ) && Banked(FIQ)
  {
  }

  lemma SpsrUntouched(s: State, r: State)
    requires forall n | 0 <= n < NBREG && n != PC && n != CPSR :: r.tab[n] == s.tab[n]
    ensures forall m :: Spsr(r, m) == Spsr(s, m)
  {
  }

  lemma InvProcess(f: State, k: Handlers, w: Word, sh: Shifted)
    requires Inv(f, k)
    ensures Inv(Process(f, w, sh), if Returns(w) && Executes(f, w) then Ended(k, Mode(f)) else k)
  {
    hide Returns, Executes, Inv, Process, OnlyTouches, Compares, OpOf, RegAt, ModeBits, SameGuards, Slot;
    if Returns(w) {
      if Executes(f, w) { InvReturn(f, k, w, sh); } else { Skipped(f, w, sh); }
    } else {
      ProcessFrame(f, w, sh);
      assert Slot(Mode(f), 15) == PC;
      TouchesSameGuards(f, Process(f, w, sh), Mode(f), if Compares(OpOf(w)) then 15 else RegAt(w, 12));
      InvKept(f, Process(f, w, sh), k);
    }
  }

  lemma FetchedGuards(s: State)
    ensures SameGuards(s, Fetched(s)) && Psr(Fetched(s)) == Psr(s)
  {
  }

  lemma InvTick(s: State, k: Handlers, w: Word, stray: bool)
    requires Inv(s, k) && Allowed(s, Tick(w, stray))
    ensures Inv(StepOn(s, w, stray), Track(k, s, Tick(w, stray)))
  {
    hide ClassOf, Returns, Executes, Process, ShiftedOperand, RotatedImmediate, Msr, Branch, Enter, Fetched,
      Inv, SameGuards, OnlyTouches, Bit, Field4, Started, Ended, ModeBits, Slot, Links, Privileged;
    var f, r := Fetched(s), StepOn(s, w, stray);
    FetchedGuards(s);
    InvKept(s, f, k);
    assert Slot(Mode(f), 15) == PC;
    match ClassOf(w) {
      case ShiftClass => InvProcess(f, k, w, ShiftedOperand(f, OperandField(w), stray));
      case ImmediateClass => InvProcess(f, k, w, RotatedImmediate(f, OperandField(w)));
      case MsrClass =>
        assert Mode(f) == Mode(s);
        MsrSameGuards(f, w);
        InvKept(f, r, k);
      case BranchClass =>
        BranchFrame(f, w);
        TouchesSameGuards(f, r, Mode(f), if Links(w) then LR else 15);
        InvKept(f, r, k);
      case SwiClass => InvSignal(f, k, SoftwareInterrupt);
      case _ =>
    }
  }

  // ---------------------------------------------------------------------------
  // Whole runs
  // ---------------------------------------------------------------------------

  function RunEvents(s: State, evs: seq<Event>): State
    decreases |evs|
  {
    if evs == [] then s else RunEvents(Apply(s, evs[0]), evs[1..])
  }

  function TrackEvents(k: Handlers, s: State, evs: seq<Event>): Handlers
    decreases |evs|
  {
    if evs == [] then k else TrackEvents(Track(k, s, evs[0]), Apply(s, evs[0]), evs[1..])
  }

  predicate AllowedRun(s: State, evs: seq<Event>)
    decreases |evs|
  {
    evs == [] || (Allowed(s, evs[0]) && AllowedRun(Apply(s, evs[0]), evs[1..]))
  }

  /** No IRQ is taken while an IRQ or FIQ handler is open, and no FIQ while an FIQ one is. */
  predicate NeverNested(k: Handlers, s: State, evs: seq<Event>)
    decreases |evs|
  {
    evs == [] ||
    (&& (evs[0] == Signal(Interrupt) ==> !k.irq && !k.fiq)
     && (evs[0] == Signal(FastInterrupt) ==> !k.fiq)
     && NeverNested(Track(k, s, evs[0]), Apply(s, evs[0]), evs[1..]))
  }

  lemma InvMasks(s: State, k: Handlers)
    requires Inv(s, k)
    ensures k.irq || k.fiq ==> IrqMasked(Psr(s))
    ensures k.fiq ==> FiqMasked(Psr(s))
  {
  }

  lemma {:induction false} MaskingHolds(s: State, k: Handlers, evs: seq<Event>)
    requires Inv(s, k) && AllowedRun(s, evs)
    ensures Inv(RunEvents(s, evs), TrackEvents(k, s, evs)) && NeverNested(k, s, evs)
    decreases |evs|
  {
    hide StepOn, Enter, Track, Inv, IrqMasked, FiqMasked, Psr, ClassOf, Fetched;
    if evs != [] {
      InvMasks(s, k);
      match evs[0]
      case Tick(w, stray) =>
        InvTick(s, k, w, stray);
        MaskingHolds(Apply(s, evs[0]), Track(k, s, evs[0]), evs[1..]);
      case Signal(e) =>
        InvSignal(s, k, e);
        assert Track(k, s, Signal(e)) == Started(k, e) by { TrackSignal(k, s, e); }
        MaskingHolds(Apply(s, evs[0]), Track(k, s, evs[0]), evs[1..]);
    }
  }

  lemma TrackSignal(k: Handlers, s: State, e: Exception)
    ensures Track(k, s, Signal(e)) == Started(k, e)
  {
  }

  lemma MaskBits(psr: Word)
    ensures IrqMasked(psr) <==> psr & 0x80 != 0
    ensures FiqMasked(psr) <==> psr & 0x40 != 0
  {
  }

  /** From any state whatsoever: interrupt handlers are never re-entered, no IRQ is taken
      under an FIQ, and while a handler is open its interrupt stays masked, whatever aborts,
      software interrupts and undefined instructions nest inside it. */
  lemma InterruptsNeverNest(s: State, evs: seq<Event>)
    requires AllowedRun(s, evs)
    ensures NeverNested(IDLE, s, evs)
    ensures var r, k := RunEvents(s, evs), TrackEvents(IDLE, s, evs);
            && (k.irq || k.fiq ==> Psr(r) & 0x80 != 0)
            && (k.fiq ==> Psr(r) & 0x40 != 0)
  {
    hide RunEvents, TrackEvents, AllowedRun, NeverNested, IrqMasked, FiqMasked, Psr, Guarded;
    MaskingHolds(s, IDLE, evs);
    InvMasks(RunEvents(s, evs), TrackEvents(IDLE, s, evs));
    MaskBits(Psr(RunEvents(s, evs)));
  }

  // ---------------------------------------------------------------------------
  // The same in terms of the events alone
  // ---------------------------------------------------------------------------

  lemma TakesReturnExact(s: State, w: Word)
    ensures TakesReturn(s, w) <==>
            && (ClassOf(w) == ShiftClass || ClassOf(w) == ImmediateClass)
            && !OnlyCompares(w) && SBit(w) && Rd(w) == 15 && Executes(s, w)
  {
    hide ClassOf, Fetched, OpOf, RegAt, SetsFlags, OnlyCompares, SBit, Rd, Executes;
    FieldsExact(w);
    FetchedExecutes(s, w);
  }

  /** The event at `l` ends the handlers of an interrupt mode: a return from it, or a reset. */
  predicate Ends(s: State, evs: seq<Event>, l: nat, mode: Word)
    requires l < |evs|
  {
    match evs[l]
    case Signal(e) => e.Reset?
    case Tick(w, _) => var at := RunEvents(s, evs[..l]); TakesReturn(at, w) && Mode(at) == mode
  }

  lemma {:induction false} RunSplits(k: Handlers, s: State, evs: seq<Event>, n: nat)
    requires n < |evs|
    ensures var at, k1 := RunEvents(s, evs[..n]), TrackEvents(k, s, evs[..n]);
            && RunEvents(s, evs[..n + 1]) == Apply(at, evs[n])
            && TrackEvents(k, s, evs[..n + 1]) == Track(k1, at, evs[n])
            && (AllowedRun(s, evs) ==> Allowed(at, evs[n]))
            && (NeverNested(k, s, evs) ==>
                  && (evs[n] == Signal(Interrupt) ==> !k1.irq && !k1.fiq)
                  && (evs[n] == Signal(FastInterrupt) ==> !k1.fiq))
    decreases n
  {
    hide Apply, Track, Allowed;
    if n == 0 {
      assert evs[..1] == [evs[0]] && evs[..1][1..] == [];
    } else {
      var rest := evs[1..];
      assert evs[..n][1..] == rest[..n - 1] && evs[..n + 1][1..] == rest[..n];
      RunSplits(Track(k, s, evs[0]), Apply(s, evs[0]), rest, n - 1);
    }
  }

  lemma StillOpen(k: Handlers, s: State, ev: Event)
    ensures var ends := match ev
                        case Signal(e) => e.Reset?
                        case Tick(w, _) => TakesReturn(s, w);
            && (k.irq && !(ends && (ev.Signal? || Mode(s) == 0x12)) ==> Track(k, s, ev).irq)
            && (k.fiq && !(ends && (ev.Signal? || Mode(s) == 0x11)) ==> Track(k, s, ev).fiq)
  {
    hide ClassOf, TakesReturn, ModeBits;
  }

  /** The handler of an interrupt is open. */
  predicate IsOpen(k: Handlers, e: Exception) { if e.Interrupt? then k.irq else k.fiq }

  lemma StaysOpen(s: State, evs: seq<Event>, l: nat, k: Handlers, e: Exception)
    requires l < |evs| && IsOpen(k, e) && (e.Interrupt? || e.FastInterrupt?) && !Ends(s, evs, l, ModeOf(e))
    ensures IsOpen(Track(k, RunEvents(s, evs[..l]), evs[l]), e)
  {
    hide RunEvents, TakesReturn, Track, Mode;
    StillOpen(k, RunEvents(s, evs[..l]), evs[l]);
  }

  lemma Opens(k: Handlers, s: State, e: Exception)
    requires e.Interrupt? || e.FastInterrupt?
    ensures IsOpen(Track(k, s, Signal(e)), e)
  {
  }

  /** Until an event ends it, a handler stays open. */
  lemma {:induction false} OpenUntilEnded(s: State, evs: seq<Event>, i: nat, n: nat, e: Exception)
    requires i < n <= |evs| && evs[i] == Signal(e) && (e.Interrupt? || e.FastInterrupt?)
    requires forall l: nat | i < l < n :: !Ends(s, evs, l, ModeOf(e))
    ensures IsOpen(TrackEvents(IDLE, s, evs[..n]), e)
    decreases n
  {
    hide RunEvents, TrackEvents, Track, Ends, IsOpen, ModeOf, AllowedRun, NeverNested, Apply;
    var k := TrackEvents(IDLE, s, evs[..n - 1]);
    RunSplits(IDLE, s, evs, n - 1);
    if n - 1 == i {
      Opens(k, RunEvents(s, evs[..n - 1]), e);
    } else {
      OpenUntilEnded(s, evs, i, n - 1, e);
      StaysOpen(s, evs, n - 1, k, e);
    }
  }

  /** Between two IRQs, and between an FIQ and an IRQ or FIQ after it, some event ends the
      handler of the first: a return executed in its mode, or a reset. */
  lemma InterruptsAreSeparated(s: State, evs: seq<Event>, i: nat, j: nat, e: Exception)
    requires AllowedRun(s, evs) && i < j < |evs| && evs[i] == Signal(e)
    requires e.Interrupt? || e.FastInterrupt?
    requires evs[j] == Signal(Interrupt) || (evs[j] == Signal(FastInterrupt) && e.FastInterrupt?)
    ensures exists l: nat :: i < l < j && Ends(s, evs, l, ModeOf(e))
  {
    hide RunEvents, TrackEvents, AllowedRun, NeverNested, Apply, Track, Allowed, Mode;
    if forall l: nat | i < l < j :: !Ends(s, evs, l, ModeOf(e)) {
      OpenUntilEnded(s, evs, i, j, e);
      InterruptsNeverNest(s, evs);
      RunSplits(IDLE, s, evs, j);
      assert false;
    }
  }
}
