/** Exception entry by request byte, and register banking by mode number. */
module EntryLaws {
  import opened Words
  import opened Machine
  import opened ExceptionEntry
  import opened Unwinding

  // ---------------------------------------------------------------------------
  // Banking
  // ---------------------------------------------------------------------------

  /** Registers every mode `m` shares with user mode. */
  predicate SharedWithUser(m: Word, r: Reg) {
    || r < 8 || r == 15
    || (r < 13 && m != 0x11)
    || !(m == 0x11 || m == 0x12 || m == 0x13 || m == 0x17 || m == 0x1B)
  }

  /** Which pairs of mode and register are one and the same storage, and none is a status
      register: FIQ mode has its own r8 to r14, IRQ, supervisor, abort and undefined mode
      their own r13 and r14. */
  lemma BanksExact(m1: Word, r1: Reg, m2: Word, r2: Reg)
    ensures Slot(m1, r1) == Slot(m2, r2) <==>
            r1 == r2 && (m1 == m2 || (SharedWithUser(m1, r1) && SharedWithUser(m2, r2)))
    ensures Slot(0x10, r1) == r1 && Slot(m1, r1) != 16 && Slot(m1, r1) != SpsrSlot(m2)
  {
    SlotExact(m1, r1, m2, r2);
  }

  /** The current mode is bits 4 to 0 of the CPSR. */
  lemma ModeExact(s: State)
    ensures Mode(s) == s.tab[16] & 31
  {
  }

  // ---------------------------------------------------------------------------
  // Entry
  // ---------------------------------------------------------------------------

  /** The five saved modes, by request byte. */
  function HandlerMode(code: bv8): Word {
    match code
    case 2 => 0x1B
    case 3 => 0x13
    case 4 | 5 => 0x17
    case 6 => 0x12
    case _ => 0x11
  }

  /** Where the address of the handler is kept. */
  function HandlerSlot(code: bv8): Word {
    if code <= 5 then 4 * ((code as bv32) - 1) else 4 * (code as bv32)
  }

  /** What the handler finds in its r14. */
  function HandlerLink(code: bv8, pc: Word): Word {
    if code == 4 || code == 5 then (pc & 0xFFFF_FFFD) + 4 else pc & 0xFFFF_FFFD
  }

  // The CPSR after an abort, which changes mode bits only, and after any other exception, which
  // clears T, sets I and A, and sets F if it is FIQ.
  predicate ChangesMode(m: Word, before: Word, psr: Word) {
    psr & 0x1F == m && psr & 0xFFFF_FFE0 == before & 0xFFFF_FFE0
  }

  predicate MasksToo(m: Word, fast: bool, before: Word, psr: Word) {
    && psr & 0x1F == m && psr & 0x1A0 == 0x180
    && psr & 0xFFFF_FE00 == before & 0xFFFF_FE00
    && psr & 0x40 == if fast then 0x40 else before & 0x40
  }

  predicate HandlerPsr(code: bv8, before: Word, psr: Word) {
    if code == 4 || code == 5 then ChangesMode(HandlerMode(code), before, psr)
    else MasksToo(HandlerMode(code), code == 7, before, psr)
  }

  lemma AbortBits(before: Word, m: Word)
    requires m < 32
    ensures ChangesMode(m, before, AbortPsr(before, m))
  {
  }

  lemma MaskedBits(before: Word, m: Word)
    requires m < 32
    ensures MasksToo(m, false, before, MaskedPsr(before, m))
  {
  }

  lemma FastBits(before: Word, m: Word)
    requires m < 32
    ensures MasksToo(m, true, before, FastPsr(before, m))
  {
  }

  lemma HandlerModeExact(code: bv8, e: Exception)
    requires 2 <= code <= 7 && RequestOf(code) == Known(e)
    ensures ModeOf(e) == HandlerMode(code)
    ensures IsAbort(e) <==> code == 4 || code == 5
    ensures !e.Reset? && (e.FastInterrupt? <==> code == 7)
  {
  }

  lemma HandlerPsrExact(code: bv8, e: Exception, psr: Word)
    requires 2 <= code <= 7 && RequestOf(code) == Known(e)
    ensures HandlerPsr(code, psr, EntryPsr(e, psr))
  {
    hide RequestOf, ModeOf, HandlerMode, IsAbort, ChangesMode, MasksToo, AbortPsr, MaskedPsr, FastPsr;
    HandlerModeExact(code, e);
    ModeOfRange(e);
    AbortBits(psr, ModeOf(e));
    MaskedBits(psr, ModeOf(e));
    FastBits(psr, ModeOf(e));
  }

  lemma SeenForward(pc: Word, seen: Word)
    requires seen == Forward4(Align(pc))
    ensures seen == (pc & 0xFFFF_FFFD) + 4 && Back4(seen) == pc & 0xFFFF_FFFD
  {
  }

  lemma HandlerLinkExact(code: bv8, e: Exception, pc: Word)
    requires 2 <= code <= 7 && RequestOf(code) == Known(e)
    ensures EntryLink(e, pc) == HandlerLink(code, pc)
  {
    hide SeenPc, Forward4, Align, Back4, RequestOf, ModeOf, HandlerMode, IsAbort;
    HandlerModeExact(code, e);
    SeenIsAligned(pc);
    SeenForward(pc, SeenPc(pc));
  }

  lemma HandlerSlotExact(code: bv8, e: Exception)
    requires 2 <= code <= 7 && RequestOf(code) == Known(e)
    ensures Vector(e) == HandlerSlot(code)
  {
  }

  /** What each request byte does. 2 is an undefined instruction, 3 SWI, 4 and 5 aborts, 6 IRQ
      and 7 FIQ: the handler's address comes from 4, 8, 12, 16, 24 and 28, its r14 is the
      interrupted address, 4 more after an abort, and its SPSR the interrupted CPSR. Nothing
      else changes. 1 is reset, and any other byte does nothing. */
  lemma RaiseExact(s: State, code: bv8)
    ensures var r, m := Raise(s, code), HandlerMode(code);
            if code == 1 then r == s.(tab := s.tab[16 := 0x1D3][15 := 0])
            else if code == 0 || code > 7 then r == s
            else
              && r.mem == s.mem
              && r.tab[15] == s.mem(HandlerSlot(code))
              && HandlerPsr(code, s.tab[16], r.tab[16])
              && r.tab[Slot(m, 14)] == HandlerLink(code, s.tab[15])
              && r.tab[SpsrSlot(m)] == s.tab[16]
              && forall n | 0 <= n < NBREG && n != 15 && n != 16 && n != Slot(m, 14) && n != SpsrSlot(m) ::
                   r.tab[n] == s.tab[n]
  {
    hide EntryPsr, EntryLink, Vector, HandlerPsr, HandlerMode, HandlerSlot, HandlerLink, ModeOf, Enter, ModeBits,
      Slot, SpsrSlot;
    if 2 <= code <= 7 {
      var e := RequestOf(code).e;
      HandlerModeExact(code, e);
      EnterExact(s, e);
      HandlerPsrExact(code, e, s.tab[16]);
      HandlerLinkExact(code, e, s.tab[15]);
      HandlerSlotExact(code, e);
    } else if code == 1 {
      ResetExact(s);
    }
  }

  lemma ResetExact(s: State)
    ensures Enter(s, Reset) == s.(tab := s.tab[16 := 0x1D3][15 := 0])
  {
  }
}
