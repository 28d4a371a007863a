/** What one instruction can and cannot reach in the processor state. */
module Frames {
  import opened Words
  import opened Machine
  import opened Alu
  import opened Shifter
  import opened Instructions
  import opened Stepping

  /** Registers agree outside `dest`, the program counter and the status register, whose
      control part agrees too. */
  ghost predicate OnlyTouches(s: State, r: State, dest: nat) {
    && r.mem == s.mem
    && Control(Psr(r)) == Control(Psr(s))
    && forall n | 0 <= n < NBREG && n != dest && n != PC && n != CPSR :: r.tab[n] == s.tab[n]
  }

  lemma WriteFlagsFrame(s: State, f: Flags)
    ensures OnlyTouches(s, WriteFlags(s, f), PC)
    ensures WriteFlags(s, f).tab[PC] == s.tab[PC]
  {
    hide WithFlags, Control;
    WithFlagsExact(Psr(s), f);
  }

  lemma CommitFrame(s: State, op: Opcode, setFlags: bool, rd: Reg, value: Word, f: Flags)
    requires !(setFlags && rd == 15 && !Compares(op))
    ensures OnlyTouches(s, Commit(s, op, setFlags, rd, value, f), if Compares(op) then PC else Slot(Mode(s), rd))
  {
    hide WithFlags, Control, Slot, Mode;
    WriteFlagsFrame(s, f);
    WriteFlagsFrame(WriteReg(s, rd, value), f);
    assert OnlyTouches(s, WriteReg(s, rd, value), Slot(Mode(s), rd));
  }

  /** The physical register a data-processing word may write; r15 stands for none. */
  function Destination(s: State, w: Word): nat {
    if Compares(OpOf(w)) then PC else Slot(Mode(s), RegAt(w, 12))
  }

  /** A data-processing instruction that is not an exception return. */
  lemma ProcessFrame(s: State, w: Word, sh: Shifted)
    requires !Returns(w)
    ensures OnlyTouches(s, Process(s, w, sh), Destination(s, w))
  {
    hide AluValue, WrittenFlags, Executes, OpOf, SetsFlags, RegAt, ReadReg, CarryIn, Mode, Slot, Control, Commit;
    CommitFrame(s, OpOf(w), SetsFlags(w), RegAt(w, 12),
                AluValue(OpOf(w), ReadReg(s, RegAt(w, 16)), sh.operand, CarryIn(s)),
                WrittenFlags(OpOf(w), ReadReg(s, RegAt(w, 16)), sh.operand, CarryIn(s), sh.carry));
  }

  /** An exception return writes the program counter and, where the mode saved one, the
      whole status register; nothing else. */
  lemma ReturnFrame(s: State, w: Word, sh: Shifted)
    requires Returns(w) && Executes(s, w)
    ensures var r := Process(s, w, sh);
            && r.mem == s.mem
            && Psr(r) == (if HasSpsr(Mode(s)) then Spsr(s, Mode(s)) else Psr(s))
            && r.tab[PC] == AluValue(OpOf(w), ReadReg(s, RegAt(w, 16)), sh.operand, CarryIn(s))
            && forall n | 0 <= n < NBREG && n != PC && n != CPSR :: r.tab[n] == s.tab[n]
  {
  }

  /** A failed condition is a no-op. */
  lemma Skipped(s: State, w: Word, sh: Shifted)
    requires !Executes(s, w)
    ensures Process(s, w, sh) == s
  {
  }

  lemma UserMergeKeeps(psr: Word, operand: Word, fields: bv4, mask: Word)
    requires mask & 0x0FFF_FFFF == 0
    ensures Control(Merge(psr, operand, mask)) == Control(psr)
  {
  }

  /** Without the control field only the flag bits are in reach, whoever asks. */
  lemma FlagFieldMask(privileged: bool, fields: bv4)
    requires !privileged || fields & 1 == 0
    ensures CpsrMask(privileged, fields) & 0x0FFF_FFFF == 0
  {
  }

  /** An MSR to the CPSR that is unprivileged or leaves the control field alone. */
  predicate FlagsOnlyMsr(s: State, w: Word) {
    !Bit(w, 22) && (!Privileged(Mode(s)) || Field4(w, 16) & 1 == 0)
  }

  lemma MsrFrame(s: State, w: Word)
    requires FlagsOnlyMsr(s, w)
    ensures OnlyTouches(s, Msr(s, w), PC)
  {
  }

  lemma BranchFrame(s: State, w: Word)
    ensures OnlyTouches(s, Branch(s, w), if Links(w) then Slot(Mode(s), LR) else PC)
  {
  }

  lemma FetchFrame(s: State)
    ensures OnlyTouches(s, Fetched(s), PC)
    ensures Psr(Fetched(s)) == Psr(s)
  {
  }
}
