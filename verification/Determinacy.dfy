/** Where the simulator's result depends on a variable it never assigned, and what it
    computes for encodings it does not implement. */
module Determinacy {
  import opened Words
  import opened Machine
  import opened Alu
  import opened Shifter
  import opened Instructions
  import opened ExceptionEntry
  import opened Stepping

  /** An instruction whose flags come from the shifter carry. */
  predicate CarryReachesFlags(w: Word) {
    !Arithmetic(OpOf(w)) && (Compares(OpOf(w)) || (SetsFlags(w) && RegAt(w, 12) != 15))
  }

  lemma FlagsDiffer(psr: Word, f: Flags, g: Flags)
    ensures WithFlags(psr, f) == WithFlags(psr, g) <==> f == g
  {
    hide WithFlags, FlagsOf, Control;
    WithFlagsExact(psr, f);
    WithFlagsExact(psr, g);
  }

  lemma WriteFlagsDiffer(s: State, f: Flags, g: Flags)
    ensures WriteFlags(s, f) == WriteFlags(s, g) <==> f == g
  {
    hide WithFlags;
    FlagsDiffer(Psr(s), f, g);
    assert Psr(WriteFlags(s, f)) == WithFlags(Psr(s), f) && Psr(WriteFlags(s, g)) == WithFlags(Psr(s), g);
  }

  /** Two shifter carries for one operand make a difference exactly when they reach the flags. */
  lemma CarryMatters(s: State, w: Word, operand: Word)
    ensures Process(s, w, Shifted(operand, true)) == Process(s, w, Shifted(operand, false))
            <==> !(Executes(s, w) && CarryReachesFlags(w))
  {
    hide Executes, AluValue, ReadReg, RegAt, OpOf, SetsFlags, CarryIn, WriteReg, WriteFlags, Restore,
      Negative, IsZero;
    var op, a := OpOf(w), ReadReg(s, RegAt(w, 16));
    var f := WrittenFlags(op, a, operand, CarryIn(s), true);
    var g := WrittenFlags(op, a, operand, CarryIn(s), false);
    WriteFlagsDiffer(s, f, g);
    WriteFlagsDiffer(WriteReg(s, RegAt(w, 12), AluValue(op, a, operand, CarryIn(s))), f, g);
  }

  lemma ShiftClassBits(w: Word)
    requires ClassOf(w) == ShiftClass
    ensures Bit(OperandField(w), 4) ==> !Bit(OperandField(w), 7)
  {
  }

  /** The next state is determined exactly unless the word is an executed RRX whose carry
      goes to the flags: the dispatcher keeps every other unassigned operand away. */
  lemma DeterminateExactly(s: State, w: Word)
    ensures StepOn(s, w, true) == StepOn(s, w, false)
            <==> !(ClassOf(w) == ShiftClass && IsRrx(OperandField(w))
                   && Executes(Fetched(s), w) && CarryReachesFlags(w))
  {
    hide ClassOf, OperandField, Fetched, Process, Msr, Branch, Enter, RotatedImmediate, Executes, CarryReachesFlags,
      ShiftedByRegister, ShiftedByImmediate, Bit, KindOf, ShiftImm;
    if ClassOf(w) == ShiftClass {
      ShiftClassBits(w);
      CarryMatters(Fetched(s), w, OperandField(w));
    }
  }

  /** Rotate right with extend (section A5.1.13): what the encoding asks for. */
  function ManualRrx(rm: Word, c: bool): Word {
    if c then 0x8000_0000 | (rm >> 1) else rm >> 1
  }

  /** The operand used for RRX is the encoding itself; it is the right one exactly when C is
      clear and half the register happens to equal it. */
  lemma RrxOperandExact(s: State, ins: Word, stray: bool)
    requires IsRrx(OperandField(ins))
    ensures var field := OperandField(ins);
            var rm := ReadReg(s, RegAt(field, 0));
            ShiftedOperand(s, field, stray).operand == ManualRrx(rm, CarryIn(s))
            <==> !CarryIn(s) && rm >> 1 == field
  {
  }

  /** MOVS r0, r0, RRX loads 0x60, wrong in every state with C set, and leaves a C that
      depends on the unassigned variable in every state at all. */
  lemma RrxFails(s: State, stray: bool)
    ensures ShiftedOperand(s, OperandField(0xE1B0_0060), stray).operand == 0x60
    ensures CarryIn(s) ==> ManualRrx(ReadReg(s, 0), CarryIn(s)) != 0x60
    ensures StepOn(s, 0xE1B0_0060, true) != StepOn(s, 0xE1B0_0060, false)
  {
    hide StepOn, Fetched;
    DeterminateExactly(s, 0xE1B0_0060);
    RrxDecodes();
  }

  lemma RrxDecodes()
    ensures ClassOf(0xE1B0_0060) == ShiftClass && IsRrx(OperandField(0xE1B0_0060))
    ensures CondOf(0xE1B0_0060) == 14 && CarryReachesFlags(0xE1B0_0060)
  {
  }

  /** An immediate shift means what the shift by a register holding its amount means. */
  lemma ImmediateAgreesWithRegister(s: State, imm: Word, reg: Word)
    requires !Unshifted(imm) && !Bit(imm, 4) && !Unshifted(reg) && Bit(reg, 4)
    requires KindOf(imm) == KindOf(reg) && RegAt(imm, 0) == RegAt(reg, 0)
    requires LowByte(ReadReg(s, RegAt(reg, 8))) == ImmediateAmount(KindOf(imm), ShiftImm(imm))
    ensures forall b1, b2 :: ShiftedOperand(s, imm, b1) == ShiftedOperand(s, reg, b2)
  {
  }
}
