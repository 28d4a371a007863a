/** What taking an exception does to the processor state (section A2.6 of ARM DDI 0100,
    as the simulator implements it). */
module ExceptionEntry {
  import opened Words
  import opened Machine

  datatype Exception =
    | Reset | UndefinedInstruction | SoftwareInterrupt | PrefetchAbort
    | DataAbort | Interrupt | FastInterrupt

  datatype Request = Known(e: Exception) | Unknown

  /** Exceptions are numbered by priority; any other byte requests nothing. */
  function RequestOf(code: bv8): Request {
    if code == 1 then Known(Reset) else if code == 2 then Known(UndefinedInstruction)
    else if code == 3 then Known(SoftwareInterrupt) else if code == 4 then Known(PrefetchAbort)
    else if code == 5 then Known(DataAbort) else if code == 6 then Known(Interrupt)
    else if code == 7 then Known(FastInterrupt) else Unknown
  }

  predicate IsAbort(e: Exception) { e.PrefetchAbort? || e.DataAbort? }

  /** The mode an exception is handled in. */
  function ModeOf(e: Exception): (m: Word)
    ensures m == SVC || Banked(m)
  {
    match e
    case Reset | SoftwareInterrupt => SVC
    case UndefinedInstruction => UND
    case PrefetchAbort | DataAbort => ABT
    case Interrupt => IRQ
    case FastInterrupt => FIQ
  }

  function Vector(e: Exception): Word {
    match e
    case Reset => 0x0
    case UndefinedInstruction => 0x4
    case SoftwareInterrupt => 0x8
    case PrefetchAbort => 0xC
    case DataAbort => 0x10
    case Interrupt => 0x18
    case FastInterrupt => 0x1C
  }

  // Status registers on entry to a mode `m`.
  function AbortPsr(psr: Word, m: Word): Word { (psr & 0xFFFF_FFE0) | m }
  function MaskedPsr(psr: Word, m: Word): Word { (psr & 0xFFFF_FFC0) | m | 0x180 }
  function FastPsr(psr: Word, m: Word): Word { (psr & 0xFFFF_FFC0) | m | 0x1C0 }

  /** The status register the handler starts with. An abort changes the mode alone. */
  function EntryPsr(e: Exception, psr: Word): Word {
    if e.Reset? then 0x1D3
    else if IsAbort(e) then AbortPsr(psr, ModeOf(e))
    else if e.FastInterrupt? then FastPsr(psr, ModeOf(e))
    else MaskedPsr(psr, ModeOf(e))
  }

  /** The return address as the handler finds it in r14. */
  function EntryLink(e: Exception, pc: Word): Word {
    if IsAbort(e) then SeenPc(pc) else Back4(SeenPc(pc))
  }

  /** The state in which the handler of `e` starts: its vector slot holds its address. */
  function Enter(s: State, e: Exception): State {
    if e.Reset? then WithSlot(WithPsr(s, 0x1D3), PC, 0)
    else
      var m := ModeOf(e);
      var linked := WithSlot(s, Slot(m, LR), EntryLink(e, s.tab[PC]));
      var saved := WithSlot(linked, SpsrSlot(m), Psr(s));
      WithSlot(WithPsr(saved, EntryPsr(e, Psr(s))), PC, s.mem(Vector(e)))
  }

  function Raise(s: State, code: bv8): State {
    match RequestOf(code)
    case Known(e) => Enter(s, e)
    case Unknown => s
  }

  predicate AbortMasked(psr: Word) { Bit(psr, 8) }

  /** Everything above the exception masks. */
  function HighBits(psr: Word): Word { psr & 0xFFFF_FE00 }

  lemma AbortPsrBits(psr: Word, m: Word, r: Word)
    requires m < 32 && r == (psr & 0xFFFF_FFE0) | m
    ensures && ModeBits(r) == m && HighBits(r) == HighBits(psr) && Thumb(r) == Thumb(psr)
            && FiqMasked(r) == FiqMasked(psr) && IrqMasked(r) == IrqMasked(psr)
            && AbortMasked(r) == AbortMasked(psr)
  {
  }

  lemma MaskedPsrBits(psr: Word, m: Word, r: Word)
    requires m < 32 && r == (psr & 0xFFFF_FFC0) | m | 0x180
    ensures && ModeBits(r) == m && HighBits(r) == HighBits(psr) && !Thumb(r)
            && FiqMasked(r) == FiqMasked(psr) && IrqMasked(r) && AbortMasked(r)
  {
  }

  lemma FastPsrBits(psr: Word, m: Word, r: Word)
    requires m < 32 && r == (psr & 0xFFFF_FFC0) | m | 0x1C0
    ensures && ModeBits(r) == m && HighBits(r) == HighBits(psr) && !Thumb(r)
            && FiqMasked(r) && IrqMasked(r) && AbortMasked(r)
  {
  }

  lemma ModeOfRange(e: Exception)
    ensures Banked(ModeOf(e)) && ModeOf(e) < 32 && HasSpsr(ModeOf(e))
  {
  }

  /** An interrupt, SWI or undefined instruction is handled in ARM state with IRQs and
      imprecise aborts masked, and FIQs too if it is itself one; an abort keeps every
      mask and the state bit. No other bit moves. */
  lemma EntryPsrExact(e: Exception, psr: Word)
    requires !e.Reset?
    ensures var r := EntryPsr(e, psr);
            && ModeBits(r) == ModeOf(e)
            && HighBits(r) == HighBits(psr)
            && (FiqMasked(r) <==> FiqMasked(psr) || e.FastInterrupt?)
            && (IrqMasked(r) <==> IrqMasked(psr) || !IsAbort(e))
            && (AbortMasked(r) <==> AbortMasked(psr) || !IsAbort(e))
            && (Thumb(r) <==> Thumb(psr) && IsAbort(e))
  {
    hide ModeBits, HighBits, Thumb, FiqMasked, IrqMasked, AbortMasked, ModeOf;
    ModeOfRange(e);
    if IsAbort(e) {
      AbortPsrBits(psr, ModeOf(e), AbortPsr(psr, ModeOf(e)));
    } else if e.FastInterrupt? {
      FastPsrBits(psr, ModeOf(e), FastPsr(psr, ModeOf(e)));
    } else {
      MaskedPsrBits(psr, ModeOf(e), MaskedPsr(psr, ModeOf(e)));
    }
  }
}
