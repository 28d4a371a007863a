/** Data-processing instructions one by one and in straight-line runs. */
module StraightLine {
  import opened Words
  import opened Machine
  import opened Alu
  import opened Shifter
  import opened Instructions
  import opened Stepping
  import opened Dispatch
  import opened Frames

  // ---------------------------------------------------------------------------
  // Bitwise operations, bit by bit
  // ---------------------------------------------------------------------------

  lemma AndBits(a: Word, b: Word, i: bv8)
    requires i < 32
    ensures Bit(BitAnd(a, b), i) <==> Bit(a, i) && Bit(b, i)
  {
  }

  lemma OrBits(a: Word, b: Word, i: bv8)
    requires i < 32
    ensures Bit(BitOr(a, b), i) <==> Bit(a, i) || Bit(b, i)
  {
  }

  lemma NotBits(b: Word, i: bv8)
    requires i < 32
    ensures Bit(BitNot(b), i) <==> !Bit(b, i)
  {
  }

  lemma XorIsOrOfRest(a: Word, b: Word)
    ensures BitXor(a, b) == BitAnd(BitOr(a, b), BitNot(BitAnd(a, b)))
  {
  }

  lemma XorBits(a: Word, b: Word, i: bv8)
    requires i < 32
    ensures Bit(BitXor(a, b), i) <==> Bit(a, i) != Bit(b, i)
  {
    hide *;
    XorIsOrOfRest(a, b);
    OrBits(a, b, i);
    AndBits(a, b, i);
    NotBits(BitAnd(a, b), i);
    AndBits(BitOr(a, b), BitNot(BitAnd(a, b)), i);
  }

  /** Each bit of a bitwise result depends on the same bit of the operands alone. */
  lemma BitwiseMeaning(op: Opcode, a: Word, b: Word, c: bool, i: bv8)
    requires !Arithmetic(op) && i < 32
    ensures var x, y := Bit(a, i), Bit(b, i);
            Bit(AluValue(op, a, b, c), i) <==>
            match op
            case And | Tst => x && y
            case Eor | Teq => x != y
            case Orr => x || y
            case Bic => x && !y
            case Mvn => !y
            case _ => y
  {
    hide Bit, BitAnd, BitOr, BitXor, BitNot;
    AndBits(a, b, i);
    OrBits(a, b, i);
    XorBits(a, b, i);
    NotBits(b, i);
    AndBits(a, BitNot(b), i);
  }

  // ---------------------------------------------------------------------------
  // One instruction
  // ---------------------------------------------------------------------------

  predicate Sets(w: Word) { Compares(OpOf(w)) || SetsFlags(w) }

  function ResultOf(s: State, w: Word, sh: Shifted): Word {
    AluValue(OpOf(w), ReadReg(s, RegAt(w, 16)), sh.operand, CarryIn(s))
  }

  function FlagsFrom(s: State, w: Word, sh: Shifted): Flags {
    WrittenFlags(OpOf(w), ReadReg(s, RegAt(w, 16)), sh.operand, CarryIn(s), sh.carry)
  }

  /** A word that passes its condition delivers its result to Rd unless it only compares,
      and its flags to the CPSR if it compares or has S set; one that does not pass
      changes nothing. */
  lemma ProcessExact(s: State, w: Word, sh: Shifted)
    requires !Returns(w)
    ensures var r := Process(s, w, sh);
            if !Executes(s, w) then r == s
            else
              && (!Compares(OpOf(w)) ==> r.tab[Slot(Mode(s), RegAt(w, 12))] == ResultOf(s, w, sh))
              && FlagsOf(Psr(r)) == (if Sets(w) then FlagsFrom(s, w, sh) else FlagsOf(Psr(s)))
  {
    hide Executes, AluValue, WrittenFlags, WithFlags, FlagsOf, RegAt, ReadReg, CarryIn, OpOf, SetsFlags, Mode,
      Control, Slot;
    var f := FlagsFrom(s, w, sh);
    WithFlagsExact(Psr(s), f);
    SlotIsNotCpsr(Mode(s), RegAt(w, 12));
  }

  lemma SlotIsNotCpsr(m: Word, r: Reg)
    ensures Slot(m, r) != CPSR && Slot(m, r) < NBREG
  {
  }

  // ---------------------------------------------------------------------------
  // Runs
  // ---------------------------------------------------------------------------

  /** Data-processing words without exception returns, each with its stray carry. */
  type Code = seq<(Word, bool)>

  predicate StraightWord(w: Word) {
    (ClassOf(w) == ShiftClass || ClassOf(w) == ImmediateClass) && !Returns(w)
  }

  predicate Straight(code: Code) {
    forall i | 0 <= i < |code| :: StraightWord(code[i].0)
  }

  function RunCode(s: State, code: Code): State
    decreases |code|
  {
    if code == [] then s
    else StepOn(RunCode(s, code[..|code| - 1]), code[|code| - 1].0, code[|code| - 1].1)
  }

  /** The registers a run may write when it starts in `mode`. */
  predicate Named(mode: Word, code: Code, n: nat) {
    exists i | 0 <= i < |code| :: !Compares(OpOf(code[i].0)) && Slot(mode, RegAt(code[i].0, 12)) == n
  }

  lemma NamedGrows(mode: Word, code: Code, n: nat)
    requires code != []
    ensures Named(mode, code[..|code| - 1], n) ==> Named(mode, code, n)
  {
  }

  lemma StraightStep(s: State, w: Word, stray: bool)
    requires StraightWord(w)
    ensures OnlyTouches(s, StepOn(s, w, stray), Destination(s, w))
    ensures Mode(StepOn(s, w, stray)) == Mode(s)
  {
    hide ClassOf, Returns, Compares, OpOf, RegAt, Process, OperandOf, Fetched, Control, Slot, ModeBits;
    FetchFrame(s);
    UnfoldStep(s, w, stray);
    ProcessFrame(Fetched(s), w, OperandOf(Fetched(s), w, stray));
    ControlDetermines(Psr(StepOn(s, w, stray)), Psr(s));
  }

  /** A straight run, in any mode, changes only the registers it names, the program counter
      and the four flags: memory, mode, masks and saved status registers are constant. */
  lemma {:induction false} StraightFrame(s: State, code: Code)
    requires Straight(code)
    ensures var r := RunCode(s, code);
            && r.mem == s.mem && Control(Psr(r)) == Control(Psr(s)) && Mode(r) == Mode(s)
            && forall n: nat | n < NBREG && n != PC && n != CPSR && !Named(Mode(s), code, n) ::
                 r.tab[n] == s.tab[n]
    decreases |code|
  {
    hide StraightWord, StepOn, Control, Compares, OpOf, RegAt, Slot, Mode;
    if code != [] {
      var last, before := |code| - 1, code[..|code| - 1];
      var s1, r := RunCode(s, before), RunCode(s, code);
      StraightFrame(s, before);
      StraightStep(s1, code[last].0, code[last].1);
      forall n: nat | n < NBREG && n != PC && n != CPSR && !Named(Mode(s), code, n)
        ensures r.tab[n] == s.tab[n]
      {
        NamedGrows(Mode(s), code, n);
        assert n != Destination(s1, code[last].0);
      }
    }
  }

  /** Whether the instruction at `i` sets the flags when the run reaches it. */
  predicate SetsAt(s: State, code: Code, i: nat)
    requires i < |code|
  {
    Sets(code[i].0) && Executes(Fetched(RunCode(s, code[..i])), code[i].0)
  }

  /** The flags the instruction at `i` computes. */
  function FlagsAt(s: State, code: Code, i: nat): Flags
    requires i < |code|
  {
    var f := Fetched(RunCode(s, code[..i]));
    FlagsFrom(f, code[i].0, OperandOf(f, code[i].0, code[i].1))
  }

  lemma StepFlags(s: State, w: Word, stray: bool)
    requires StraightWord(w)
    ensures var f := Fetched(s);
            FlagsOf(Psr(StepOn(s, w, stray))) ==
            if Sets(w) && Executes(f, w) then FlagsFrom(f, w, OperandOf(f, w, stray)) else FlagsOf(Psr(s))
  {
    hide ClassOf, Returns, Sets, Executes, FlagsFrom, OperandOf, Process, Fetched, FlagsOf, OnlyTouches, Slot, Mode,
      RegAt, OpOf, ResultOf;
    FetchFrame(s);
    UnfoldStep(s, w, stray);
    ProcessExact(Fetched(s), w, OperandOf(Fetched(s), w, stray));
  }

  /** A straight run in which nothing sets the flags keeps them. */
  lemma {:induction false} NoSetterKeeps(s: State, code: Code)
    requires Straight(code)
    requires forall i: nat | i < |code| :: !SetsAt(s, code, i)
    ensures FlagsOf(Psr(RunCode(s, code))) == FlagsOf(Psr(s))
    decreases |code|
  {
    hide StraightWord, StepOn, FlagsOf, Psr, Sets, Executes, Fetched, FlagsFrom, OperandOf;
    if code != [] {
      var last, before := |code| - 1, code[..|code| - 1];
      forall i: nat | i < last ensures !SetsAt(s, before, i) { SetsAtPrefix(s, code, i); }
      NoSetterKeeps(s, before);
      assert code[..last] == before;
      StepFlags(RunCode(s, before), code[last].0, code[last].1);
      assert !SetsAt(s, code, last);
    }
  }

  lemma SetsAtPrefix(s: State, code: Code, i: nat)
    requires i < |code| - 1
    ensures var before := code[..|code| - 1];
            SetsAt(s, before, i) == SetsAt(s, code, i) && FlagsAt(s, before, i) == FlagsAt(s, code, i)
  {
    hide Sets, Executes, FlagsFrom, OperandOf, Fetched, RunCode;
    var before := code[..|code| - 1];
    assert before[..i] == code[..i] && before[i] == code[i];
  }

  /** After a straight run the flags are those of the last instruction that set them. */
  lemma {:induction false} LastSetterWins(s: State, code: Code, i: nat)
    requires Straight(code) && i < |code| && SetsAt(s, code, i)
    requires forall j: nat | i < j < |code| :: !SetsAt(s, code, j)
    ensures FlagsOf(Psr(RunCode(s, code))) == FlagsAt(s, code, i)
    decreases |code|
  {
    hide StraightWord, StepOn, FlagsOf, Psr, Sets, Executes, Fetched, FlagsFrom, OperandOf;
    var last, before := |code| - 1, code[..|code| - 1];
    assert code[..last] == before;
    StepFlags(RunCode(s, before), code[last].0, code[last].1);
    if i < last {
      forall j: nat | i <= j < last ensures SetsAt(s, before, j) == SetsAt(s, code, j) {
        SetsAtPrefix(s, code, j);
      }
      SetsAtPrefix(s, code, i);
      LastSetterWins(s, before, i);
      assert !SetsAt(s, code, last);
    }
  }

  // ---------------------------------------------------------------------------
  // The lost carry
  // ---------------------------------------------------------------------------

  /** The word with ADC turned into ADD, or ADD into ADC. */
  function SwapAdc(w: Word): Word { w ^ 0x0020_0000 }

  /** The word with SBC turned into SUB, or SUB into SBC. */
  function SwapSbc(w: Word): Word { w ^ 0x0080_0000 }

  /** Only the opcode differs. */
  predicate SameButOpcode(w: Word, x: Word) {
    && ClassOf(w) == ClassOf(x) && CondOf(w) == CondOf(x) && SetsFlags(w) == SetsFlags(x)
    && RegAt(w, 16) == RegAt(x, 16) && RegAt(w, 12) == RegAt(x, 12) && OperandField(w) == OperandField(x)
  }

  lemma SwapKeepsBits(w: Word, x: Word)
    requires w & 0x0100_0000 == 0 && (x == w ^ 0x0020_0000 || x == w ^ 0x0080_0000)
    ensures w & 0x0E00_0000 == x & 0x0E00_0000 && w & 0x90 == x & 0x90 && w & 0x10 == x & 0x10
    ensures x & 0x0100_0000 == 0
    ensures w & 0x0190_0010 != 0x0100_0000 && w & 0x01B0_0000 != 0x0100_0000 && w & 0x01B0_0000 != 0x0120_0000
    ensures x & 0x0190_0010 != 0x0100_0000 && x & 0x01B0_0000 != 0x0100_0000 && x & 0x01B0_0000 != 0x0120_0000
  {
  }

  /** Turning one of bits 21 and 23 over does not take a carry-using word to another class. */
  lemma SwapKeepsClass(w: Word, x: Word)
    requires w & 0x0100_0000 == 0
    requires x == w ^ 0x0020_0000 || x == w ^ 0x0080_0000
    ensures ClassOf(w) == ClassOf(x)
  {
    hide ClassOf;
    SwapKeepsBits(w, x);
    ClassExact(w);
    ClassExact(x);
  }

  lemma SwapKeepsFields(w: Word, x: Word)
    requires x == w ^ 0x0020_0000 || x == w ^ 0x0080_0000
    ensures CondOf(w) == CondOf(x) && SetsFlags(w) == SetsFlags(x) && OperandField(w) == OperandField(x)
    ensures Field4(w, 16) == Field4(x, 16) && Field4(w, 12) == Field4(x, 12)
  {
  }

  lemma SwapOpcode(w: Word)
    ensures OpOf(w) == Adc ==> OpOf(SwapAdc(w)) == Add && w & 0x0100_0000 == 0
    ensures OpOf(w) == Sbc ==> OpOf(SwapSbc(w)) == Sub && w & 0x0100_0000 == 0
  {
  }

  lemma SwapDecodes(w: Word)
    ensures OpOf(w) == Adc ==> OpOf(SwapAdc(w)) == Add && SameButOpcode(w, SwapAdc(w))
    ensures OpOf(w) == Sbc ==> OpOf(SwapSbc(w)) == Sub && SameButOpcode(w, SwapSbc(w))
  {
    hide OpOf, ClassOf, CondOf, SetsFlags, OperandField, Field4;
    SwapOpcode(w);
    if OpOf(w) == Adc {
      SwapKeepsClass(w, SwapAdc(w));
      SwapKeepsFields(w, SwapAdc(w));
    } else if OpOf(w) == Sbc {
      SwapKeepsClass(w, SwapSbc(w));
      SwapKeepsFields(w, SwapSbc(w));
    }
  }

  lemma CarryClear(a: Word, b: Word)
    ensures AluValue(Adc, a, b, false) == AluValue(Add, a, b, false)
    ensures AluValue(Sbc, a, b, false) == AluValue(Sub, a, b, false) - 1
  {
  }

  /** With C clear, ADC and ADD commit the same state. */
  lemma AdcAsAdd(f: State, w: Word, x: Word, sh: Shifted)
    requires SameButOpcode(w, x) && OpOf(w) == Adc && OpOf(x) == Add && !CarryIn(f)
    ensures Process(f, w, sh) == Process(f, x, sh)
  {
    hide ClassOf, AluValue, OpOf, ReadReg, RegAt, OperandField, CondOf, SetsFlags, WriteReg, WithPsr, WithFlags,
      Restore, Passes, CarryIn, Negative, IsZero;
    CarryClear(ReadReg(f, RegAt(w, 16)), sh.operand);
  }

  /** Once an arithmetic instruction was the last to set the flags, ADC is ADD in every
      respect, and SBC computes what SUB does less one. */
  lemma CarryIsLost(s: State, code: Code, i: nat, w: Word, stray: bool)
    requires Straight(code) && i < |code| && SetsAt(s, code, i) && Arithmetic(OpOf(code[i].0))
    requires forall j: nat | i < j < |code| :: !SetsAt(s, code, j)
    requires ClassOf(w) == ShiftClass || ClassOf(w) == ImmediateClass
    ensures var r := RunCode(s, code);
            && (OpOf(w) == Adc ==> StepOn(r, w, stray) == StepOn(r, SwapAdc(w), stray))
            && (OpOf(w) == Sbc ==>
                  var f, x := Fetched(r), SwapSbc(w);
                  && OpOf(x) == Sub && OperandOf(f, x, stray) == OperandOf(f, w, stray)
                  && ResultOf(f, w, OperandOf(f, w, stray)) == ResultOf(f, x, OperandOf(f, x, stray)) - 1)
  {
    hide ClassOf, Returns, RunCode, StepOn, SetsAt, AluValue, OpOf, SwapAdc, SwapSbc, Fetched, ReadReg, RegAt,
      ShiftedOperand, RotatedImmediate, OperandField, CondOf, SetsFlags, Process, Passes, Bit;
    LastSetterWins(s, code, i);
    var r := RunCode(s, code);
    var f := Fetched(r);
    var sh := OperandOf(f, w, stray);
    FetchFrame(r);
    assert !CarryIn(f);
    CarryClear(ReadReg(f, RegAt(w, 16)), sh.operand);
    SwapDecodes(w);
    if OpOf(w) == Adc {
      UnfoldStep(r, w, stray);
      UnfoldStep(r, SwapAdc(w), stray);
      AdcAsAdd(f, w, SwapAdc(w), sh);
    }
  }
}
