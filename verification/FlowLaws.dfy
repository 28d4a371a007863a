/** Where the program counter goes, as an address computed from the one before. */
module FlowLaws {
  import opened Words
  import opened Machine
  import opened Alu
  import opened Shifter
  import opened Instructions
  import opened ExceptionEntry
  import opened Stepping
  import opened Unwinding
  import opened StraightLine

  // ---------------------------------------------------------------------------
  // Fetch
  // ---------------------------------------------------------------------------

  /** Where the next instruction is. */
  function Here(s: State): Word { s.tab[15] & 0xFFFF_FFFD }

  function Plus(a: Word, k: Word): Word { a + k }

  lemma BackAndForth(a: Word, seen: Word)
    requires seen == Forward4(a)
    ensures Back4(seen) == a && Forward4(Back4(seen)) == Plus(a, 4)
  {
  }

  lemma HereIsAlign(s: State)
    ensures Here(s) == Align(s.tab[15])
  {
  }

  lemma FetchMoves(s: State)
    ensures FetchAddress(s) == Here(s)
    ensures Fetched(s) == s.(tab := s.tab[15 := Plus(Here(s), 4)])
  {
    hide SeenPc, Forward4, Back4, Plus, Here, Align;
    HereIsAlign(s);
    SeenIsAligned(s.tab[15]);
    BackAndForth(Align(s.tab[15]), SeenPc(s.tab[15]));
  }

  /** A step fetches at the stored program counter without its bit 1 and moves four on. */
  lemma FetchExact(s: State)
    ensures FetchAddress(s) == s.tab[15] & 0xFFFF_FFFD
    ensures Fetched(s) == s.(tab := s.tab[15 := (s.tab[15] & 0xFFFF_FFFD) + 4])
  {
    hide FetchAddress, Fetched;
    FetchMoves(s);
  }

  /** The word a step executes is the one memory holds there. */
  lemma StepFetches(s: State, stray: bool)
    ensures Step(s, stray) == StepOn(s, s.mem(s.tab[15] & 0xFFFF_FFFD), stray)
  {
    hide StepOn, FetchAddress;
    FetchExact(s);
  }

  lemma AlignedStays(pc: Word, a: Word)
    requires a == pc & 0xFFFF_FFFD
    ensures Plus(a, 4) & 0xFFFF_FFFD == Plus(a, 4) && Forward4(Plus(a, 4)) == Plus(a, 8)
  {
  }

  lemma SeenWhenAligned(pc: Word)
    requires pc & 0xFFFF_FFFD == pc
    ensures SeenPc(pc) == Forward4(pc)
  {
    hide SeenPc, Forward4;
    SeenIsAligned(pc);
  }

  lemma ReadsAhead(s: State)
    ensures ReadReg(Fetched(s), 15) == Plus(Here(s), 8)
    ensures forall r: Reg | r != 15 :: ReadReg(Fetched(s), r) == s.tab[Slot(Mode(s), r)]
  {
    hide Fetched, SeenPc, ModeBits, Forward4, Plus;
    FetchMoves(s);
    AlignedStays(s.tab[15], Here(s));
    SeenWhenAligned(Plus(Here(s), 4));
    forall r: Reg | r != 15 ensures Slot(Mode(s), r) != 15 { SlotIsNotPc(Mode(s), r); }
  }

  /** An instruction reads r15 as eight past its own address. */
  lemma ReadsEightAhead(s: State)
    ensures ReadReg(Fetched(s), 15) == (s.tab[15] & 0xFFFF_FFFD) + 8
    ensures forall r: Reg | r != 15 :: ReadReg(Fetched(s), r) == s.tab[Slot(Mode(s), r)]
  {
    hide Fetched, ReadReg, Slot, Mode;
    ReadsAhead(s);
  }

  // ---------------------------------------------------------------------------
  // Straight runs
  // ---------------------------------------------------------------------------

  /** Words that never write r15: a comparison, a data-processing word with another Rd, an
      MSR, or a word the dispatcher ignores. */
  predicate StaysInLine(w: Word) {
    match ClassOf(w)
    case ShiftClass | ImmediateClass => w & 0x0180_0000 == 0x0100_0000 || w & 0xF000 != 0xF000
    case MsrClass | Silent => true
    case _ => false
  }

  lemma InLineDecodes(w: Word)
    ensures Compares(OpOf(w)) <==> w & 0x0180_0000 == 0x0100_0000
    ensures RegAt(w, 12) == 15 <==> w & 0xF000 == 0xF000
  {
  }

  lemma ProcessKeepsPc(f: State, w: Word, sh: Shifted)
    requires Compares(OpOf(w)) || RegAt(w, 12) != 15
    ensures Process(f, w, sh).tab[15] == f.tab[15]
  {
    hide Executes, OpOf, RegAt, SetsFlags, ReadReg, AluValue, WrittenFlags, CarryIn, WithFlags, ModeBits;
    if !Compares(OpOf(w)) { SlotIsNotPc(Mode(f), RegAt(w, 12)); }
  }

  lemma SlotIsNotPc(m: Word, r: Reg)
    requires r != 15
    ensures Slot(m, r) != 15
  {
  }

  lemma MsrKeepsPc(f: State, w: Word)
    ensures Msr(f, w).tab[15] == f.tab[15]
  {
    hide Executes, Merge, Touches, MsrOperand, Field4, Bit, Privileged, HasSpsr, ModeBits;
  }

  lemma MovesOn(s: State, w: Word, stray: bool)
    requires StaysInLine(w)
    ensures StepOn(s, w, stray).tab[15] == Plus(Here(s), 4)
  {
    hide ClassOf, Process, Msr, Fetched, ShiftedOperand, RotatedImmediate, OpOf, RegAt, Compares, Plus, Here;
    FetchMoves(s);
    InLineDecodes(w);
    var f := Fetched(s);
    match ClassOf(w)
    case ShiftClass => ProcessKeepsPc(f, w, ShiftedOperand(f, OperandField(w), stray));
    case ImmediateClass => ProcessKeepsPc(f, w, RotatedImmediate(f, OperandField(w)));
    case MsrClass => MsrKeepsPc(f, w);
    case _ =>
  }

  /** Such a word is followed by the next one. */
  lemma NextWord(s: State, w: Word, stray: bool)
    requires StaysInLine(w)
    ensures StepOn(s, w, stray).tab[15] == (s.tab[15] & 0xFFFF_FFFD) + 4
  {
    hide StepOn, StaysInLine;
    MovesOn(s, w, stray);
  }

  lemma FourOn(a: Word)
    ensures Unsigned(Plus(a, 4)) == (Unsigned(a) + 4) % 0x1_0000_0000
  {
    hide Sum, Plus, CarryOut, Unsigned;
    SumMeaning(a, 4, false);
    PlusFour(a);
    WordRange(Plus(a, 4));
    WordRange(a);
  }

  lemma PlusFour(a: Word)
    ensures Sum(a, 4, false) == Plus(a, 4)
    ensures Unsigned(4) == 4
  {
  }

  lemma ModuloStep(a: int, n: int, before: int)
    requires before == (a + 4 * n) % 0x1_0000_0000
    ensures (before + 4) % 0x1_0000_0000 == (a + 4 * (n + 1)) % 0x1_0000_0000
  {
  }

  lemma AlignedHere(s: State, r: State)
    requires r.tab[15] == Plus(Here(s), 4)
    ensures Here(r) == r.tab[15]
  {
    hide Plus;
    AlignedStays(s.tab[15], Here(s));
  }

  /** `n` words in line advance the program counter by `4 * n` modulo 2^32. */
  lemma {:induction false} LineExact(s: State, code: Code)
    requires code != [] && forall i | 0 <= i < |code| :: StaysInLine(code[i].0)
    ensures Unsigned(RunCode(s, code).tab[15]) == (Unsigned(Here(s)) + 4 * |code|) % 0x1_0000_0000
    ensures Here(RunCode(s, code)) == RunCode(s, code).tab[15]
    decreases |code|
  {
    hide StepOn, StaysInLine, Unsigned, Here, Plus;
    var last, before := |code| - 1, code[..|code| - 1];
    var s1 := RunCode(s, before);
    MovesOn(s1, code[last].0, code[last].1);
    AlignedHere(s1, RunCode(s, code));
    FourOn(Here(s1));
    if before != [] {
      LineExact(s, before);
      ModuloStep(Unsigned(Here(s)), |before|, Unsigned(Here(s1)));
    }
  }

  /** A failed condition moves on to the next word and does nothing else. */
  lemma FailedMovesOn(s: State, w: Word, stray: bool)
    requires !Executes(s, w) && Modelled(w) && ClassOf(w) != SwiClass
    ensures StepOn(s, w, stray) == s.(tab := s.tab[15 := (s.tab[15] & 0xFFFF_FFFD) + 4])
  {
    hide ClassOf, Fetched, ShiftedOperand, RotatedImmediate, FlagsOf, Passes, CondOf;
    FetchExact(s);
    assert Psr(Fetched(s)) == Psr(s);
  }

  // ---------------------------------------------------------------------------
  // Branches and software interrupts
  // ---------------------------------------------------------------------------

  lemma Times4IsFour(x: Word)
    ensures Times4(x) == 4 * x
  {
  }

  /** The distance of a branch: forward as the architecture has it, backward within 256 bytes
      whatever the upper bits of the offset say. */
  lemma OffsetExact(w: Word)
    ensures BranchOffset(w) == Distance(w)
  {
    if w & 0x0080_0000 == 0 {
      ForwardField(w);
      Times4IsFour(w & 0x00FF_FFFF);
      hide Times4, BranchOffset;
    } else {
      BackwardOffset(w);
    }
  }

  lemma ForwardField(w: Word)
    requires w & 0x0080_0000 == 0
    ensures BranchOffset(w) == Times4(w & 0x00FF_FFFF) && ManualOffset(w) == Times4(w & 0x00FF_FFFF)
  {
    hide Times4;
  }

  lemma BackwardOffset(w: Word)
    requires w & 0x0080_0000 != 0
    ensures BranchOffset(w) == 4 * (w & 0x3F) - 256
  {
  }

  /** What the architecture asks for: 24 bits with sign. */
  lemma ManualOffsetExact(w: Word)
    ensures ManualOffset(w) == if w & 0x0080_0000 == 0 then 4 * (w & 0x00FF_FFFF)
                               else 4 * (w & 0x00FF_FFFF) - 0x0400_0000
  {
    if w & 0x0080_0000 == 0 {
      ForwardField(w);
      Times4IsFour(w & 0x00FF_FFFF);
      hide Times4, ManualOffset;
    } else {
      ManualBackward(w);
    }
  }

  lemma ManualBackward(w: Word)
    requires w & 0x0080_0000 != 0
    ensures ManualOffset(w) == 4 * (w & 0x00FF_FFFF) - 0x0400_0000
  {
  }

  lemma LinkBit(w: Word)
    ensures Links(w) <==> w & 0x0100_0000 != 0
  {
  }

  lemma LinkAddress(a: Word)
    ensures Back4(Plus(a, 8)) == Plus(a, 4)
  {
  }

  /** How far a branch goes from eight past its own address. */
  function Distance(w: Word): Word {
    if w & 0x0080_0000 == 0 then 4 * (w & 0x00FF_FFFF) else 4 * (w & 0x3F) - 256
  }

  lemma SumIsPlus(a: Word, b: Word)
    ensures Sum(a, b, false) == Plus(a, b)
  {
  }

  /** A taken branch at address A goes to A + 8 plus its distance: forward where the
      architecture has it, while one meant to go backward lands within 256 bytes below A + 8
      whatever the upper bits of its offset say. BL leaves A + 4 in r14 of the current mode,
      and nothing else changes. */
  lemma BranchExact(s: State, w: Word, stray: bool)
    requires ClassOf(w) == BranchClass && Executes(s, w)
    ensures var r, a, links := StepOn(s, w, stray), Here(s), w & 0x0100_0000 != 0;
            && r.mem == s.mem
            && r.tab[15] == Plus(Plus(a, 8), Distance(w))
            && (links ==> r.tab[Slot(Mode(s), 14)] == Plus(a, 4))
            && forall n | 0 <= n < NBREG && n != 15 && (!links || n != Slot(Mode(s), 14)) :: r.tab[n] == s.tab[n]
  {
    hide ClassOf, Fetched, FlagsOf, Passes, CondOf, Links, Sum, BranchOffset, Distance, Plus, Here, Back4, SeenPc,
      ReadReg, ModeBits, Slot;
    var f := Fetched(s);
    FetchMoves(s);
    ReadsAhead(s);
    LinkBit(w);
    LinkAddress(Here(s));
    SlotIsNotPc(Mode(s), 14);
    OffsetExact(w);
    LinkedReads(f, Back4(ReadReg(f, 15)));
    SumIsPlus(ReadReg(f, 15), BranchOffset(w));
    assert Psr(f) == Psr(s);
  }

  /** Writing r14 first does not move the address a branch starts from. */
  lemma LinkedReads(f: State, link: Word)
    ensures ReadReg(WriteReg(f, 14, link), 15) == ReadReg(f, 15)
    ensures Mode(WriteReg(f, 14, link)) == Mode(f)
  {
    hide SeenPc, ModeBits;
    SlotIsNotPc(Mode(f), 14);
  }

  /** A software interrupt is request byte 3, raised after the fetch. */
  lemma SwiRaises(s: State, w: Word, stray: bool)
    requires ClassOf(w) == SwiClass
    ensures StepOn(s, w, stray) == Raise(s.(tab := s.tab[15 := (s.tab[15] & 0xFFFF_FFFD) + 4]), 3)
  {
    hide ClassOf, Fetched, Enter;
    FetchExact(s);
  }

  /** A word the dispatcher ignores moves on to the next; an MSR acts on the state that has. */
  lemma OtherWords(s: State, w: Word, stray: bool)
    ensures var next := s.(tab := s.tab[15 := (s.tab[15] & 0xFFFF_FFFD) + 4]);
            && (ClassOf(w) == Silent ==> StepOn(s, w, stray) == next)
            && (ClassOf(w) == MsrClass ==> StepOn(s, w, stray) == Msr(next, w))
  {
    hide ClassOf, Fetched, Msr;
    FetchExact(s);
  }
}
