/** MSR read off the bits of its encoding: the value written, where, and when nothing is. */
module MsrWords {
  import opened Words
  import opened Machine
  import opened Shifter
  import opened Instructions
  import opened OperandLaws
  import opened StraightLine

  /** The immediate rotated right by twice bits 11 to 8, or a register. */
  function Value(s: State, w: Word): Word {
    if w & 0x0200_0000 == 0 then ReadReg(s, ((w & 15) as bv4) as nat)
    else Turned(w & 0xFF, ((w >> 8) & 15) as bv8)
  }

  function Turned(b: Word, q: bv8): Word {
    if 0 < q < 16 then RotatedBy(b, 2 * q).operand else b
  }

  /** The CPSR bits in reach: the flags with bit 19 of the instruction set, and with bit 16
      set the low four mode bits, except from user mode. */
  function CpsrReach(m: Word, w: Word): Word {
    (if w & 0x0008_0000 != 0 then 0xF000_0000 else 0) | (if w & 0x0001_0000 != 0 && m != 0x10 then 0xF else 0)
  }

  /** The SPSR bits in reach: the flags, and with bit 16 set the state bit and mode bits. */
  function SpsrReach(w: Word): Word {
    (if w & 0x0008_0000 != 0 then 0xF000_0000 else 0) | (if w & 0x0001_0000 != 0 then 0x2F else 0)
  }

  /** Bit 22 of the instruction names the saved status register. */
  predicate ToSpsr(w: Word) { w & 0x0040_0000 != 0 }

  /** A value with a bit set outside the flags and the low byte; one with the state bit, meant
      for the CPSR, outside user mode; and a saved register that does not exist. */
  predicate Refuses(m: Word, w: Word, v: Word) {
    || v & 0x0FFF_FF00 != 0
    || (!ToSpsr(w) && m != 0x10 && v & 0x20 != 0)
    || (ToSpsr(w) && (m == 0x10 || m == 0x1F))
  }

  /** `r` has the bits of `v` inside `mask` and those of `psr` elsewhere. */
  ghost predicate Takes(psr: Word, v: Word, mask: Word, r: Word) {
    forall i: bv8 | i < 32 :: Bit(r, i) <==> if Bit(mask, i) then Bit(v, i) else Bit(psr, i)
  }

  lemma MergeNamed(psr: Word, v: Word, mask: Word)
    ensures Merge(psr, v, mask) == BitOr(BitAnd(psr, BitNot(mask)), BitAnd(v, mask))
  {
  }

  lemma MergeTakes(psr: Word, v: Word, mask: Word)
    ensures Takes(psr, v, mask, Merge(psr, v, mask))
  {
    hide Merge, Bit, BitAnd, BitOr, BitNot;
    MergeNamed(psr, v, mask);
    forall i: bv8 | i < 32
      ensures Bit(Merge(psr, v, mask), i) <==> if Bit(mask, i) then Bit(v, i) else Bit(psr, i)
    {
      OrBits(BitAnd(psr, BitNot(mask)), BitAnd(v, mask), i);
      AndBits(psr, BitNot(mask), i);
      AndBits(v, mask, i);
      NotBits(mask, i);
    }
  }

  lemma TurnedIsRor(b: Word, q: bv8)
    requires q < 16
    ensures 2 * q < 32 && Ror(b, 2 * q) == Turned(b, q)
  {
    hide Shl, Shr, BitOr, Ror, RotatedBy;
    RotationRange(q);
    if q != 0 { RotatedParts(b, 2 * q); } else { RorZero(b); }
  }

  lemma RorZero(b: Word)
    ensures Ror(b, 0) == b
  {
  }

  lemma ImmediateForm(w: Word)
    ensures Bit(w, 25) <==> w & 0x0200_0000 != 0
    ensures Bit(w, 22) <==> ToSpsr(w)
  {
  }

  lemma ValueExact(s: State, w: Word)
    ensures MsrOperand(s, w) == Value(s, w)
  {
    hide Bit, RegAt, ReadReg, Ror, ImmediateRotation, Turned;
    ImmediateForm(w);
    RegisterFields(w);
    RotationField(w);
    TurnedIsRor(w & 0xFF, ((w >> 8) & 15) as bv8);
  }

  lemma ReachExact(m: Word, w: Word)
    ensures CpsrMask(Privileged(m), Field4(w, 16)) == CpsrReach(m, w)
    ensures SpsrMask(Field4(w, 16)) == SpsrReach(w)
  {
  }

  lemma RefusalExact(s: State, w: Word, v: Word)
    ensures MsrRefused(s, ToSpsr(w), v) <==> Refuses(Mode(s), w, v)
  {
    hide ToSpsr, ModeBits;
  }

  /** The state an MSR leaves: the state before when its condition fails or the value is
      refused; otherwise one status register changes, in the bits in reach alone. */
  lemma MsrExact(s: State, w: Word) returns (psr: Word)
    ensures var v, m := Value(s, w), s.tab[16] & 31;
            if !Executes(s, w) || Refuses(m, w, v) then Msr(s, w) == s
            else if ToSpsr(w) then
              Takes(Spsr(s, m), v, SpsrReach(w), psr) && Msr(s, w) == s.(tab := s.tab[SpsrSlot(m) := psr])
            else Takes(s.tab[16], v, CpsrReach(m, w), psr) && Msr(s, w) == s.(tab := s.tab[16 := psr])
  {
    hide Bit, Field4, Executes, MsrOperand, MsrRefused, Value, Refuses, ToSpsr, CpsrReach, SpsrReach, CpsrMask,
      SpsrMask, Merge, Takes, Privileged, SpsrSlot;
    var v, m := Value(s, w), Mode(s);
    ValueExact(s, w);
    ImmediateForm(w);
    RefusalExact(s, w, v);
    ReachExact(m, w);
    if ToSpsr(w) {
      psr := Merge(Spsr(s, m), v, SpsrReach(w));
      MergeTakes(Spsr(s, m), v, SpsrReach(w));
    } else {
      psr := Merge(s.tab[16], v, CpsrReach(m, w));
      MergeTakes(s.tab[16], v, CpsrReach(m, w));
    }
  }

  lemma FlagsImmediateDecodes(w: Word, k: Word)
    requires k < 16 && w & 0x0FFF_FFFF == 0x0328_F200 | k
    ensures Bit(w, 25) && !Bit(w, 22) && Field4(w, 16) == 8
    ensures w & 0xFF == k && ImmediateRotation(w) == 4
  {
  }

  lemma FlagsImmediateValue(s: State, psr: Word, k: Word, v: Word, p: bool)
    requires k < 16 && v == Ror(k, 4)
    ensures !Touches(v, UNALLOC_MASK) && !Touches(v, STATE_MASK)
    ensures Merge(psr, v, CpsrMask(p, 8)) == (psr & 0x0FFF_FFFF) | (k << 28)
  {
  }

  /** MSR CPSR_f, #k << 28, written with a rotation by 4, sets the flags to the bits of `k` in
      every mode and keeps everything else. */
  lemma FlagsImmediate(s: State, w: Word, k: Word)
    requires k < 16 && w & 0x0FFF_FFFF == 0x0328_F200 | k && Executes(s, w)
    ensures Msr(s, w) == s.(tab := s.tab[16 := (s.tab[16] & 0x0FFF_FFFF) | (k << 28)])
  {
    hide Bit, Field4, Executes, ImmediateRotation, Ror, Merge, CpsrMask, Touches, Privileged, ModeBits, HasSpsr;
    FlagsImmediateDecodes(w, k);
    FlagsImmediateValue(s, s.tab[16], k, MsrOperand(s, w), Privileged(Mode(s)));
  }
}
