/** Laws of MSR as an operation on status registers. */
module MsrLaws {
  import opened Words
  import opened Machine
  import opened Instructions
  import opened Shifter
  import opened Frames

  lemma MergeBits(psr: Word, v: Word, x: Word, y: Word, once: Word, z: Word)
    requires once == (psr & !x) | (v & x) && z == x | y
    ensures (once & !y) | (v & y) == (psr & !z) | (v & z)
  {
  }

  lemma MergeTwice(psr: Word, v: Word, x: Word, y: Word)
    ensures Merge(Merge(psr, v, x), v, y) == Merge(psr, v, BitOr(x, y))
  {
    MergeBits(psr, v, x, y, Merge(psr, v, x), BitOr(x, y));
  }

  predicate AgreeInside(a: Word, b: Word, mask: Word) { a & mask == b & mask }
  predicate AgreeOutside(a: Word, b: Word, mask: Word) { a & !mask == b & !mask }

  lemma MergeSelects(psr: Word, v: Word, mask: Word, r: Word)
    requires r == (psr & !mask) | (v & mask)
    ensures AgreeInside(r, v, mask) && AgreeOutside(r, psr, mask)
  {
  }

  /** An accepted CPSR write takes the operand's bits inside its mask and keeps every other
      bit; a refused one, or one to an SPSR, leaves the CPSR as it was. */
  lemma CpsrWriteExact(s: State, toSpsr: bool, fields: bv4, v: Word)
    ensures var r, mask := MsrWrite(s, toSpsr, fields, v), CpsrMask(Privileged(Mode(s)), fields);
            if toSpsr || MsrRefused(s, toSpsr, v) then Psr(r) == Psr(s)
            else AgreeInside(Psr(r), v, mask) && AgreeOutside(Psr(r), Psr(s), mask)
  {
    hide Touches, CpsrMask, SpsrMask, ModeBits, Privileged, HasSpsr, AgreeInside, AgreeOutside;
    var mask := CpsrMask(Privileged(Mode(s)), fields);
    MergeSelects(Psr(s), v, mask, Merge(Psr(s), v, mask));
    hide Merge;
  }

  /** Byte masks add up, also when the first write has just left the privileged modes. */
  lemma CpsrMaskUnion(p0: bool, p1: bool, m1: bv4, m2: bv4)
    requires p1 == p0 || (p0 && m1 & 1 != 0)
    ensures BitOr(CpsrMask(p0, m1), CpsrMask(p1, m2)) == CpsrMask(p0, m1 | m2)
  {
  }

  lemma SpsrMaskUnion(m1: bv4, m2: bv4)
    ensures BitOr(SpsrMask(m1), SpsrMask(m2)) == SpsrMask(m1 | m2)
  {
  }

  /** Whether the processor is still privileged after an accepted CPSR write. */
  lemma PrivilegeAfter(s: State, m1: bv4, v: Word)
    requires !MsrRefused(s, false, v)
    ensures var r := MsrWrite(s, false, m1, v);
            Privileged(Mode(r)) == Privileged(Mode(s)) || (Privileged(Mode(s)) && m1 & 1 != 0)
  {
  }

  lemma PsrOverwrites(s: State, a: Word, b: Word)
    ensures WithPsr(WithPsr(s, a), b) == WithPsr(s, b)
    ensures Psr(WithPsr(s, a)) == a
  {
  }

  lemma SpsrOverwrites(s: State, a: Word, b: Word)
    ensures var n := SpsrSlot(Mode(s));
            WithSlot(WithSlot(s, n, a), n, b) == WithSlot(s, n, b)
    ensures Mode(WithSlot(s, SpsrSlot(Mode(s)), a)) == Mode(s)
    ensures Spsr(WithSlot(s, SpsrSlot(Mode(s)), a), Mode(s)) == a
  {
  }

  /** Writing two field masks one after the other is writing their union, for any operand,
      either destination and any mode: even when the first write changes the mode. */
  lemma WritesMerge(s: State, toSpsr: bool, m1: bv4, m2: bv4, v: Word)
    ensures MsrWrite(MsrWrite(s, toSpsr, m1, v), toSpsr, m2, v) == MsrWrite(s, toSpsr, m1 | m2, v)
  {
    hide Merge, CpsrMask, SpsrMask, BitOr, Touches, Mode, Psr, Spsr, WithPsr, WithSlot, Privileged, HasSpsr, SpsrSlot;
    if !MsrRefused(s, toSpsr, v) {
      var r := MsrWrite(s, toSpsr, m1, v);
      if toSpsr {
        var a := Merge(Spsr(s, Mode(s)), v, SpsrMask(m1));
        SpsrOverwrites(s, a, Merge(a, v, SpsrMask(m2)));
        MergeTwice(Spsr(s, Mode(s)), v, SpsrMask(m1), SpsrMask(m2));
        SpsrMaskUnion(m1, m2);
      } else {
        var p0, p1 := Privileged(Mode(s)), Privileged(Mode(r));
        var a := Merge(Psr(s), v, CpsrMask(p0, m1));
        PrivilegeAfter(s, m1, v);
        PsrOverwrites(s, a, Merge(a, v, CpsrMask(p1, m2)));
        MergeTwice(Psr(s), v, CpsrMask(p0, m1), CpsrMask(p1, m2));
        CpsrMaskUnion(p0, p1, m1, m2);
      }
    }
  }

  /** Order does not matter, and repeating a write adds nothing. */
  lemma WritesCommute(s: State, toSpsr: bool, m1: bv4, m2: bv4, v: Word)
    ensures MsrWrite(MsrWrite(s, toSpsr, m1, v), toSpsr, m2, v)
            == MsrWrite(MsrWrite(s, toSpsr, m2, v), toSpsr, m1, v)
    ensures MsrWrite(MsrWrite(s, toSpsr, m1, v), toSpsr, m1, v) == MsrWrite(s, toSpsr, m1, v)
  {
    hide MsrWrite;
    assert m1 | m2 == m2 | m1 && m1 | m1 == m1;
    WritesMerge(s, toSpsr, m1, m2, v);
    WritesMerge(s, toSpsr, m2, m1, v);
    WritesMerge(s, toSpsr, m1, m1, v);
  }

  /** As its masks are written, no MSR enables or disables an interrupt: the I and F bits of
      the CPSR are out of reach in every mode. */
  lemma MsrNeverMasks(s: State, w: Word)
    ensures IrqMasked(Psr(Msr(s, w))) == IrqMasked(Psr(s))
    ensures FiqMasked(Psr(Msr(s, w))) == FiqMasked(Psr(s))
  {
  }

  // ---------------------------------------------------------------------------
  // As instructions in user mode
  // ---------------------------------------------------------------------------

  /** The same instruction up to its field mask. */
  predicate SameButFields(w1: Word, w2: Word) {
    w1 & 0xFFF0_FFFF == w2 & 0xFFF0_FFFF
  }

  lemma SameButFieldsDecodes(w1: Word, w2: Word)
    requires SameButFields(w1, w2)
    ensures CondOf(w1) == CondOf(w2) && Bit(w1, 22) == Bit(w2, 22) && Bit(w1, 25) == Bit(w2, 25)
    ensures w1 & 0xFF == w2 & 0xFF && ImmediateRotation(w1) == ImmediateRotation(w2)
    ensures RegAt(w1, 0) == RegAt(w2, 0)
  {
  }

  lemma UserOperand(s: State, r: State, w1: Word, w2: Word)
    requires SameButFields(w1, w2) && Mode(r) == Mode(s)
    requires forall n | 0 <= n < NBREG && n != CPSR :: r.tab[n] == s.tab[n]
    ensures MsrOperand(r, w2) == MsrOperand(s, w1)
  {
  }

  /** The flags field alone is in reach in user mode: with it, other fields add nothing;
      without it, nothing is written. */
  lemma UserMask(m1: bv4, m2: bv4)
    ensures m1 & 8 != 0 ==> CpsrMask(false, m1 | m2) == CpsrMask(false, m1)
    ensures m1 & 8 == 0 ==> CpsrMask(false, m1) == 0
  {
  }

  lemma MergeNothing(psr: Word, v: Word)
    ensures Merge(psr, v, 0) == psr
  {
  }

  lemma PsrUnchanged(s: State)
    ensures WithPsr(s, Psr(s)) == s
  {
  }

  /** What a user-mode write does. */
  lemma UserWrite(s: State, toSpsr: bool, m: bv4, v: Word)
    requires Mode(s) == USR
    ensures var r := MsrWrite(s, toSpsr, m, v);
            && r == (if toSpsr || Touches(v, UNALLOC_MASK) then s
                     else WithPsr(s, Merge(Psr(s), v, CpsrMask(false, m))))
            && Mode(r) == USR
            && (m & 8 == 0 ==> r == s)
            && forall n | 0 <= n < NBREG && n != CPSR :: r.tab[n] == s.tab[n]
  {
    hide Merge, CpsrMask, Touches, Control, ModeBits;
    FlagFieldMask(false, m);
    UserMergeKeeps(Psr(s), v, m, CpsrMask(false, m));
    ControlDetermines(Merge(Psr(s), v, CpsrMask(false, m)), Psr(s));
    UserMask(m, m);
    MergeNothing(Psr(s), v);
    PsrUnchanged(s);
  }

  lemma UnfoldMsr(s: State, w: Word)
    ensures Msr(s, w) ==
            if Executes(s, w) then MsrWrite(s, Bit(w, 22), Field4(w, 16), MsrOperand(s, w)) else s
  {
  }

  lemma ExecutesSame(s: State, w1: Word, w2: Word)
    requires SameButFields(w1, w2)
    ensures Executes(s, w1) == Executes(s, w2)
  {
  }

  /** In user mode one MSR with two fields is two MSRs, under any condition: even when the
      first one changes the flags the second one tests. */
  lemma UserMsrSplits(s: State, w1: Word, w2: Word, both: Word)
    requires Mode(s) == USR && SameButFields(w1, w2) && SameButFields(w1, both)
    requires Field4(both, 16) == Field4(w1, 16) | Field4(w2, 16)
    ensures Msr(Msr(s, w1), w2) == Msr(s, both)
  {
    hide *;
    var r, v, m1, m2, R := Msr(s, w1), MsrOperand(s, w1), Field4(w1, 16), Field4(w2, 16), Bit(w1, 22);
    UnfoldMsr(s, w1);
    UnfoldMsr(r, w2);
    UnfoldMsr(s, both);
    ExecutesSame(s, w1, both);
    ExecutesSame(s, w1, w2);
    SameButFieldsDecodes(w1, w2);
    SameButFieldsDecodes(w1, both);
    UserWrite(s, R, m1, v);
    if Executes(s, w1) {
      UserOperand(s, s, w1, both);
      UserOperand(s, r, w1, w2);
      WritesMerge(s, R, m1, m2, v);
      UserWrite(s, R, m1 | m2, v);
      UserMask(m1, m2);
    }
  }

  lemma AlwaysPasses(s: State, w: Word)
    requires CondOf(w) >= 14
    ensures Executes(s, w)
  {
  }

  lemma ImmediateOperand(s: State, r: State, w1: Word, w2: Word)
    requires SameButFields(w1, w2) && Bit(w1, 25)
    ensures MsrOperand(r, w2) == MsrOperand(s, w1)
  {
  }

  /** In every mode, an unconditional immediate MSR with two fields is two MSRs. */
  lemma UnconditionalMsrSplits(s: State, w1: Word, w2: Word, both: Word)
    requires SameButFields(w1, w2) && SameButFields(w1, both) && CondOf(w1) >= 14 && Bit(w1, 25)
    requires Field4(both, 16) == Field4(w1, 16) | Field4(w2, 16)
    ensures Msr(Msr(s, w1), w2) == Msr(s, both)
  {
    hide *;
    var r := Msr(s, w1);
    UnfoldMsr(s, w1);
    UnfoldMsr(r, w2);
    UnfoldMsr(s, both);
    SameButFieldsDecodes(w1, w2);
    SameButFieldsDecodes(w1, both);
    AlwaysPasses(s, w1);
    AlwaysPasses(r, w2);
    AlwaysPasses(s, both);
    ImmediateOperand(s, r, w1, w2);
    ImmediateOperand(s, s, w1, both);
    WritesMerge(s, Bit(w1, 22), Field4(w1, 16), Field4(w2, 16), MsrOperand(s, w1));
  }
}
