/** What data-processing, MSR and branch instructions do to the processor state. */
module Instructions {
  import opened Words
  import opened Machine
  import opened Alu
  import opened Shifter

  /** A register field of an instruction. */
  function RegAt(ins: Word, lo: bv8): Reg
    requires lo <= 28
  {
    Field4(ins, lo) as nat
  }

  function CondOf(ins: Word): bv4 { Field4(ins, 28) }

  function OpOf(ins: Word): Opcode { OpcodeOf(Field4(ins, 21)) }

  predicate SetsFlags(ins: Word) { Bit(ins, 20) }

  predicate Executes(s: State, ins: Word) { Passes(FlagsOf(Psr(s)), CondOf(ins)) }

  predicate CarryIn(s: State) { Bit(Psr(s), 29) }

  // ---------------------------------------------------------------------------
  // Shifter operands
  // ---------------------------------------------------------------------------

  /** Bits 11 to 0 of an instruction. */
  function OperandField(ins: Word): Word { ins & 0xFFF }

  /** An 8-bit immediate rotated one bit at a time, starting from the C flag. */
  function RotatedImmediate(s: State, field: Word): Shifted {
    Iterate(ROR, ImmediateRotation(field), Shifted(field & 0xFF, CarryIn(s)))
  }

  function ShiftedByRegister(s: State, k: Kind, field: Word): Shifted {
    Iterate(k, LowByte(ReadReg(s, RegAt(field, 8))), Shifted(ReadReg(s, RegAt(field, 0)), CarryIn(s)))
  }

  function ShiftedByImmediate(s: State, k: Kind, field: Word): Shifted {
    Iterate(k, ImmediateAmount(k, ShiftImm(field)), Shifted(ReadReg(s, RegAt(field, 0)), CarryIn(s)))
  }

  /** ROR #0, the encoding of RRX, which the source leaves unimplemented. */
  predicate IsRrx(field: Word) {
    !Bit(field, 4) && KindOf(field) == ROR && ShiftImm(field) == 0
  }

  /** Encodings on which no shifter routine assigns the operand and its carry. */
  predicate Unshifted(field: Word) {
    if Bit(field, 4) then Bit(field, 7) else IsRrx(field)
  }

  /** The operand of a shift encoding. `stray` is the carry variable's initial content,
      which survives when no shifter routine assigns it. */
  function ShiftedOperand(s: State, field: Word, stray: bool): Shifted {
    if Unshifted(field) then Shifted(field, stray)
    else if Bit(field, 4) then ShiftedByRegister(s, KindOf(field), field)
    else ShiftedByImmediate(s, KindOf(field), field)
  }

  // ---------------------------------------------------------------------------
  // Data processing
  // ---------------------------------------------------------------------------

  function WriteFlags(s: State, f: Flags): State {
    WithPsr(s, WithFlags(Psr(s), f))
  }

  /** Writing r15 with S set: the status register is restored if the mode saved one. */
  function Restore(s: State): State {
    if HasSpsr(Mode(s)) then WithPsr(s, Spsr(s, Mode(s))) else s
  }

  function Commit(s: State, op: Opcode, setFlags: bool, rd: Reg, value: Word, f: Flags): State {
    if Compares(op) then WriteFlags(s, f)
    else
      var w := WriteReg(s, rd, value);
      if !setFlags then w else if rd == 15 then Restore(w) else WriteFlags(w, f)
  }

  function Process(s: State, ins: Word, sh: Shifted): State {
    if !Executes(s, ins) then s
    else
      var a := ReadReg(s, RegAt(ins, 16));
      Commit(s, OpOf(ins), SetsFlags(ins), RegAt(ins, 12),
             AluValue(OpOf(ins), a, sh.operand, CarryIn(s)),
             WrittenFlags(OpOf(ins), a, sh.operand, CarryIn(s), sh.carry))
  }

  /** A data-processing instruction that returns from an exception. */
  predicate Returns(ins: Word) {
    !Compares(OpOf(ins)) && SetsFlags(ins) && RegAt(ins, 12) == 15
  }

  // ---------------------------------------------------------------------------
  // MSR (section A4.1.39)
  // ---------------------------------------------------------------------------

  const UNALLOC_MASK: Word := 0x0FFF_FF00
  const USER_MASK: Word := 0xF000_0000
  const PRIV_MASK: Word := 0x0000_000F
  const STATE_MASK: Word := 0x0000_0020

  /** The bytes selected by a 4-bit field mask. */
  function ByteMask(fields: bv4): Word {
    (if fields & 1 != 0 then 0x0000_00FF else 0) | (if fields & 2 != 0 then 0x0000_FF00 else 0)
    | (if fields & 4 != 0 then 0x00FF_0000 else 0) | (if fields & 8 != 0 then 0xFF00_0000 else 0)
  }

  function Merge(psr: Word, operand: Word, mask: Word): Word {
    (psr & !mask) | (operand & mask)
  }

  /** The bits a CPSR write may change. */
  function CpsrMask(privileged: bool, fields: bv4): Word {
    BitAnd(ByteMask(fields), if privileged then BitOr(USER_MASK, PRIV_MASK) else USER_MASK)
  }

  function SpsrMask(fields: bv4): Word {
    BitAnd(ByteMask(fields), BitOr(BitOr(USER_MASK, PRIV_MASK), STATE_MASK))
  }

  predicate Touches(operand: Word, mask: Word) { operand & mask != 0 }

  /** Writes refused by the source leave the whole state as it was. */
  predicate MsrRefused(s: State, toSpsr: bool, operand: Word) {
    || Touches(operand, UNALLOC_MASK)
    || (!toSpsr && Privileged(Mode(s)) && Touches(operand, STATE_MASK))
    || (toSpsr && !HasSpsr(Mode(s)))
  }

  function MsrWrite(s: State, toSpsr: bool, fields: bv4, operand: Word): State {
    if MsrRefused(s, toSpsr, operand) then s
    else if toSpsr then
      WithSlot(s, SpsrSlot(Mode(s)), Merge(Spsr(s, Mode(s)), operand, SpsrMask(fields)))
    else WithPsr(s, Merge(Psr(s), operand, CpsrMask(Privileged(Mode(s)), fields)))
  }

  function MsrOperand(s: State, ins: Word): Word {
    if Bit(ins, 25) then Ror(ins & 0xFF, ImmediateRotation(ins)) else ReadReg(s, RegAt(ins, 0))
  }

  function Msr(s: State, ins: Word): State {
    if !Executes(s, ins) then s
    else MsrWrite(s, Bit(ins, 22), Field4(ins, 16), MsrOperand(s, ins))
  }

  // ---------------------------------------------------------------------------
  // Branches (section A4.1.5)
  // ---------------------------------------------------------------------------

  function Times4(x: Word): Word { x << 2 }

  /** The byte offset the source computes for a branch: it fills the sign in from bit 6. */
  function BranchOffset(ins: Word): Word {
    var immed := BitAnd(ins, 0x00FF_FFFF);
    if Bit(ins, 23) then Times4(BitOr(0xFFFF_FFC0, immed)) else Times4(immed)
  }

  /** The byte offset of the manual: 24 bits sign-extended to 30, then two zero bits. */
  function ManualOffset(ins: Word): Word {
    var immed := BitAnd(ins, 0x00FF_FFFF);
    if Bit(ins, 23) then Times4(BitOr(0xFF00_0000, immed)) else Times4(immed)
  }

  /** Forward branches are right; a backward one exactly when it reaches at most 64 words. */
  lemma BranchOffsetExact(ins: Word)
    ensures BranchOffset(ins) == ManualOffset(ins)
            <==> !Bit(ins, 23) || ins & 0x00FF_FFFF >= 0x00FF_FFC0
  {
  }

  /** B to 65 words back goes forward instead. */
  lemma BranchOffsetFails()
    ensures ManualOffset(0xEAFF_FFBF) == 0xFFFF_FEFC && BranchOffset(0xEAFF_FFBF) != ManualOffset(0xEAFF_FFBF)
  {
  }

  predicate Links(ins: Word) { Bit(ins, 24) }

  function Branch(s: State, ins: Word): State {
    if !Executes(s, ins) then s
    else
      var l := if Links(ins) then WriteReg(s, 14, Back4(ReadReg(s, 15))) else s;
      WriteReg(l, 15, Sum(ReadReg(l, 15), BranchOffset(ins), false))
  }
}
