/** What a data-processing word computes, read off its bits 24 to 21. */
module DataLaws {
  import opened Words
  import opened Machine
  import opened Alu
  import opened Dispatch
  import opened Shifter
  import opened Instructions
  import opened OperandLaws
  import opened Stepping
  import opened StraightLine
  import opened Unwinding

  // The fields of the encoding.
  function Code(w: Word): bv4 { ((w >> 21) & 15) as bv4 }
  function Rn(w: Word): Reg { (((w >> 16) & 15) as bv4) as nat }
  function Rd(w: Word): Reg { (((w >> 12) & 15) as bv4) as nat }
  predicate SBit(w: Word) { w & 0x0010_0000 != 0 }
  predicate CBit(psr: Word) { psr & 0x2000_0000 != 0 }
  function Low28(psr: Word): Word { psr & 0x0FFF_FFFF }

  /** User and system mode, which save no status register. */
  predicate Unsaved(m: Word) { m == 0x10 || m == 0x1F }

  predicate OnlyCompares(w: Word) { 8 <= Code(w) < 12 }

  predicate IsArithmetic(code: bv4) { 2 <= code <= 7 || code == 10 || code == 11 }

  /** The number the manual asks for, before reduction to 32 bits. */
  function Number(code: bv4, a: int, b: int, c: bool): int {
    match code
    case 2 | 10 => a - b
    case 3 => b - a
    case 4 | 11 => a + b
    case 5 => if c then a + b + 1 else a + b
    case 6 => if c then a - b else a - b - 1
    case 7 => if c then b - a else b - a - 1
    case _ => 0
  }

  /** The bit the manual asks for, from the bits of the operands at the same place. */
  predicate BitOf(code: bv4, p: bool, q: bool) {
    match code
    case 0 | 8 => p && q
    case 1 | 9 => p != q
    case 12 => p || q
    case 13 => q
    case 14 => p && !q
    case _ => !q
  }

  /** The result the manual gives each opcode: a number modulo 2^32, or bit by bit. */
  ghost predicate IsResult(code: bv4, x: Word, y: Word, c: bool, r: Word) {
    if IsArithmetic(code) then Unsigned(r) == Number(code, Unsigned(x), Unsigned(y), c) % 0x1_0000_0000
    else forall i: bv8 | i < 32 :: Bit(r, i) <==> BitOf(code, Bit(x, i), Bit(y, i))
  }

  /** The four flags one by one. */
  predicate AreFlags(code: bv4, x: Word, y: Word, shiftCarry: bool, r: Word, f: Flags) {
    && (f.n <==> r & 0x8000_0000 != 0)
    && (f.z <==> r == 0)
    && (f.c <==> !IsArithmetic(code) && shiftCarry)
    && (f.v <==> IsArithmetic(code) && x & 0x8000_0000 != 0 && y & 0x8000_0000 != 0 && r != 0)
  }

  lemma Modulo(exact: int)
    requires -TWO32 <= exact < 2 * TWO32
    ensures exact + (if exact < 0 then TWO32 else if exact >= TWO32 then -TWO32 else 0) == exact % 0x1_0000_0000
  {
  }

  lemma NumberIsExact(code: bv4, a: int, b: int, c: bool)
    requires IsArithmetic(code)
    ensures Arithmetic(OpcodeOf(code))
    ensures Number(code, a, b, c) == Exact(OpcodeOf(code), a, b, c)
  {
  }

  lemma ExactRange(op: Opcode, a: int, b: int, c: bool)
    requires 0 <= a < TWO32 && 0 <= b < TWO32
    ensures -TWO32 <= Exact(op, a, b, c) < 2 * TWO32
  {
  }

  lemma ArithmeticResult(code: bv4, x: Word, y: Word, c: bool)
    requires IsArithmetic(code)
    ensures IsResult(code, x, y, c, AluValue(OpcodeOf(code), x, y, c))
  {
    hide AluValue, Unsigned, ManualCarry, CarryOut, OpcodeOf, Number, Exact, IsArithmetic, Arithmetic;
    var op := OpcodeOf(code);
    WordRange(x);
    WordRange(y);
    NumberIsExact(code, Unsigned(x), Unsigned(y), c);
    UnsignedMeaning(op, x, y, c);
    ExactRange(op, Unsigned(x), Unsigned(y), c);
    Modulo(Exact(op, Unsigned(x), Unsigned(y), c));
  }

  lemma BitwiseCodes(code: bv4, p: bool, q: bool)
    requires !IsArithmetic(code)
    ensures !Arithmetic(OpcodeOf(code))
    ensures BitOf(code, p, q) <==>
            match OpcodeOf(code)
            case And | Tst => p && q
            case Eor | Teq => p != q
            case Orr => p || q
            case Bic => p && !q
            case Mvn => !q
            case _ => q
  {
  }

  lemma BitwiseResult(code: bv4, x: Word, y: Word, c: bool)
    requires !IsArithmetic(code)
    ensures IsResult(code, x, y, c, AluValue(OpcodeOf(code), x, y, c))
  {
    hide AluValue, Bit, BitOf, OpcodeOf;
    var r := AluValue(OpcodeOf(code), x, y, c);
    forall i: bv8 | i < 32 ensures Bit(r, i) <==> BitOf(code, Bit(x, i), Bit(y, i)) {
      BitwiseCodes(code, Bit(x, i), Bit(y, i));
      BitwiseMeaning(OpcodeOf(code), x, y, c, i);
    }
  }

  /** Every opcode, every operand. */
  lemma ResultExact(code: bv4, x: Word, y: Word, c: bool)
    ensures IsResult(code, x, y, c, AluValue(OpcodeOf(code), x, y, c))
  {
    hide IsResult, AluValue, OpcodeOf;
    if IsArithmetic(code) { ArithmeticResult(code, x, y, c); } else { BitwiseResult(code, x, y, c); }
  }

  lemma SignBit(w: Word)
    ensures Negative(w) <==> w & 0x8000_0000 != 0
  {
  }

  /** Every opcode, every operand, whether or not the flags are the manual's. */
  lemma FlagsExact(code: bv4, x: Word, y: Word, c: bool, shiftCarry: bool)
    ensures var op := OpcodeOf(code);
            AreFlags(code, x, y, shiftCarry, AluValue(op, x, y, c), WrittenFlags(op, x, y, c, shiftCarry))
  {
    hide AluValue, Negative;
    SignBit(x);
    SignBit(y);
    SignBit(AluValue(OpcodeOf(code), x, y, c));
  }

  // ---------------------------------------------------------------------------
  // The whole instruction
  // ---------------------------------------------------------------------------

  lemma CodeBits(w: Word)
    ensures OpOf(w) == OpcodeOf(((w >> 21) & 15) as bv4)
    ensures SetsFlags(w) <==> w & 0x0010_0000 != 0
  {
  }

  lemma ComparesCodes(code: bv4)
    ensures Compares(OpcodeOf(code)) <==> 8 <= code < 12
  {
  }

  /** The operand is the rotated immediate when bit 25 is set. */
  lemma OperandExact(f: State, w: Word, stray: bool)
    requires ClassOf(w) == ShiftClass || ClassOf(w) == ImmediateClass
    ensures OperandOf(f, w, stray) ==
            if w & 0x0200_0000 == 0 then ShiftedOperand(f, w & 0xFFF, stray) else RotatedImmediate(f, w & 0xFFF)
  {
    hide ShiftedOperand, RotatedImmediate, ClassOf;
    ClassExact(w);
    ImmediateBit(w);
  }

  lemma ImmediateBit(w: Word)
    ensures w & 0x0E00_0000 == 0 ==> w & 0x0200_0000 == 0
    ensures w & 0x0E00_0000 == 0x0200_0000 ==> w & 0x0200_0000 != 0
  {
  }

  lemma FetchedExecutes(s: State, w: Word)
    ensures Executes(Fetched(s), w) == Executes(s, w)
    ensures Mode(Fetched(s)) == Mode(s) && Psr(Fetched(s)) == Psr(s)
    ensures Fetched(s).mem == s.mem
    ensures Spsr(Fetched(s), Mode(s)) == Spsr(s, Mode(s))
  {
  }

  lemma SameControl(a: Word, b: Word)
    requires Control(a) == Control(b)
    ensures Low28(a) == Low28(b)
  {
  }

  lemma SavedModes(m: Word)
    ensures HasSpsr(m) <==> !Unsaved(m)
  {
  }

  /** Where an executed word puts its result `v` and its flags `g`. */
  lemma Delivered(f: State, w: Word, sh: Shifted)
    requires Executes(f, w)
    ensures var r, op, m := Process(f, w, sh), OpOf(w), Mode(f);
            var x := ReadReg(f, RegAt(w, 16));
            var v := AluValue(op, x, sh.operand, CarryIn(f));
            var g := WrittenFlags(op, x, sh.operand, CarryIn(f), sh.carry);
            && r.mem == f.mem
            && (!Compares(op) ==> r.tab[Slot(m, RegAt(w, 12))] == v)
            && (forall n | 0 <= n < NBREG && n != 16 && (Compares(op) || n != Slot(m, RegAt(w, 12))) ::
                  r.tab[n] == f.tab[n])
            && (if !Compares(op) && !SetsFlags(w) then r.tab[16] == f.tab[16]
                else if !Compares(op) && RegAt(w, 12) == 15 then
                  r.tab[16] == if HasSpsr(m) then Spsr(f, m) else f.tab[16]
                else Control(r.tab[16]) == Control(f.tab[16]) && FlagsOf(r.tab[16]) == g)
  {
    hide ReadReg, AluValue, WrittenFlags, OpOf, FlagsOf, Control, WithFlags, CarryIn, Executes, SetsFlags, ModeBits,
      RegAt, Slot;
    var x := ReadReg(f, RegAt(w, 16));
    WithFlagsExact(f.tab[16], WrittenFlags(OpOf(w), x, sh.operand, CarryIn(f), sh.carry));
    SlotExact(Mode(f), RegAt(w, 12), Mode(f), 15);
    WriteRegKeeps(f, RegAt(w, 12), AluValue(OpOf(w), x, sh.operand, CarryIn(f)));
    SlotFifteen(Mode(f), RegAt(w, 12));
  }

  lemma SlotFifteen(m: Word, r: Reg)
    ensures Slot(m, r) != 16 && Slot(m, r) < NBREG && (Slot(m, r) == 15 <==> r == 15)
    ensures Slot(m, r) != SpsrSlot(m)
  {
  }

  /** The state `r` that delivers the result `v` of `w` in the fetched state `f`: the result in
      Rd unless comparing; the saved status register after a write to r15 with S set, in a mode
      that has one; the four flags after a comparison or with S set otherwise; all else kept. */
  ghost predicate Delivers(f: State, w: Word, o: Shifted, v: Word, r: State) {
    var m, x := Mode(f), ReadReg(f, Rn(w));
    && IsResult(Code(w), x, o.operand, CBit(f.tab[16]), v)
    && r.mem == f.mem
    && (!OnlyCompares(w) ==> r.tab[Slot(m, Rd(w))] == v)
    && (forall n | 0 <= n < NBREG && n != 16 && (OnlyCompares(w) || n != Slot(m, Rd(w))) :: r.tab[n] == f.tab[n])
    && if !OnlyCompares(w) && !SBit(w) then r.tab[16] == f.tab[16]
       else if !OnlyCompares(w) && Rd(w) == 15 then
         r.tab[16] == if Unsaved(m) then f.tab[16] else Spsr(f, m)
       else
         && Low28(r.tab[16]) == Low28(f.tab[16])
         && AreFlags(Code(w), x, o.operand, o.carry, v, FlagsOf(r.tab[16]))
  }

  lemma FieldsExact(w: Word)
    ensures OpOf(w) == OpcodeOf(Code(w)) && (SetsFlags(w) <==> SBit(w))
    ensures RegAt(w, 16) == Rn(w) && RegAt(w, 12) == Rd(w)
    ensures Compares(OpcodeOf(Code(w))) <==> OnlyCompares(w)
  {
    hide OpOf, OpcodeOf, SetsFlags, RegAt;
    CodeBits(w);
    RegisterFields(w);
    ComparesCodes(Code(w));
  }

  lemma ProcessDelivers(f: State, w: Word, o: Shifted) returns (v: Word)
    requires Executes(f, w)
    ensures Delivers(f, w, o, v, Process(f, w, o))
  {
    hide ReadReg, AluValue, WrittenFlags, IsResult, AreFlags, OpcodeOf, OpOf, FlagsOf, Control, CarryIn, Executes,
      SetsFlags, Mode, RegAt, Process, Compares, Spsr, Slot, Code, Rn, Rd, SBit, OnlyCompares, CBit,
      Low28, Unsaved, HasSpsr;
    FieldsExact(w);
    CarryIsCBit(f);
    SavedModes(Mode(f));
    var code, x, r := Code(w), ReadReg(f, Rn(w)), Process(f, w, o);
    v := AluValue(OpcodeOf(code), x, o.operand, CarryIn(f));
    ResultExact(code, x, o.operand, CarryIn(f));
    FlagsExact(code, x, o.operand, CarryIn(f), o.carry);
    Delivered(f, w, o);
    if Control(r.tab[16]) == Control(f.tab[16]) { SameControl(r.tab[16], f.tab[16]); }
  }

  lemma CarryIsCBit(f: State)
    ensures CarryIn(f) == CBit(f.tab[16])
  {
  }

  /** An executed data-processing word delivers its result. */
  lemma DataWordExact(s: State, w: Word, stray: bool) returns (v: Word)
    requires (ClassOf(w) == ShiftClass || ClassOf(w) == ImmediateClass) && Executes(s, w)
    ensures Delivers(Fetched(s), w, OperandOf(Fetched(s), w, stray), v, StepOn(s, w, stray))
  {
    hide ClassOf, Fetched, OperandOf, Executes, Process, Delivers;
    FetchedExecutes(s, w);
    UnfoldStep(s, w, stray);
    v := ProcessDelivers(Fetched(s), w, OperandOf(Fetched(s), w, stray));
  }


  /** Exception returns, and the words a handler body may use. */
  lemma HandlerWordsExact(w: Word)
    ensures Returns(w) <==> !OnlyCompares(w) && SBit(w) && Rd(w) == 15
    ensures Harmless(w) <==>
            match ClassOf(w)
            case ShiftClass | ImmediateClass => OnlyCompares(w) || (Rd(w) != 14 && !(SBit(w) && Rd(w) == 15))
            case MsrClass => w & 0x0040_0000 == 0 && w & 0x0001_0000 == 0
            case BranchClass => w & 0x0100_0000 == 0
            case Silent => true
            case _ => false
  {
    hide ClassOf, OpOf, OpcodeOf, SetsFlags, RegAt, Rd, SBit, OnlyCompares, Compares, Bit, Field4, Links;
    FieldsExact(w);
    ControlFieldBits(w);
  }

  lemma ControlFieldBits(w: Word)
    ensures Bit(w, 22) <==> w & 0x0040_0000 != 0
    ensures Field4(w, 16) & 1 == 0 <==> w & 0x0001_0000 == 0
    ensures Links(w) <==> w & 0x0100_0000 != 0
  {
  }
}
