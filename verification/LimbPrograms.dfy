/** Multi-word arithmetic as programs: what the instructions of a carry chain leave in
    their registers. */
module LimbPrograms {
  import opened Words
  import opened Machine
  import opened Alu
  import opened Shifter
  import opened Instructions
  import opened Stepping
  import opened Frames
  import opened StraightLine
  import opened MultiWord

  /** An unconditional flag-setting instruction `op` Rd, Rn, Rm that keeps clear of r15. */
  predicate LimbWord(w: Word, op: Opcode) {
    && ClassOf(w) == ShiftClass && OpOf(w) == op && SetsFlags(w) && CondOf(w) == 14
    && OperandField(w) < 16
    && RegAt(w, 12) != 15 && RegAt(w, 16) != 15 && RegAt(w, 0) != 15
  }

  /** `v` neither reads nor writes the register `w` writes. */
  predicate LeavesResult(w: Word, v: Word) {
    RegAt(v, 12) != RegAt(w, 12) && RegAt(v, 16) != RegAt(w, 12) && RegAt(v, 0) != RegAt(w, 12)
  }

  /** One `op` and then `next` for each further limb, no result overwriting a later operand
      or another result. */
  predicate LimbCode(code: Code, op: Opcode, next: Opcode) {
    && (forall i | 0 <= i < |code| :: LimbWord(code[i].0, if i == 0 then op else next))
    && (forall i, j | 0 <= i < j < |code| :: LeavesResult(code[i].0, code[j].0))
  }

  /** The content, in `s`, of the register each instruction names at bit `lo`. */
  function Contents(s: State, code: Code, lo: bv8): (limbs: seq<Word>)
    requires lo <= 28
    ensures |limbs| == |code|
    ensures forall i | 0 <= i < |code| :: limbs[i] == ReadReg(s, RegAt(code[i].0, lo))
  {
    if code == [] then [] else [ReadReg(s, RegAt(code[0].0, lo))] + Contents(s, code[1..], lo)
  }

  /** Operations that deliver a result through the carry chain. */
  predicate Chains(op: Opcode) { Arithmetic(op) && !Compares(op) }

  lemma PlainDecodes(w: Word)
    requires OperandField(w) < 16
    ensures var f := OperandField(w);
            !Bit(f, 4) && !Unshifted(f) && KindOf(f) == LSL && ShiftImm(f) == 0 && RegAt(f, 0) == RegAt(w, 0)
  {
  }

  lemma PlainOperand(s: State, w: Word, stray: bool)
    requires OperandField(w) < 16
    ensures ShiftedOperand(s, OperandField(w), stray).operand == ReadReg(s, RegAt(w, 0))
  {
    hide OperandField, RegAt, ReadReg, CarryIn, Bit, Unshifted, KindOf, ShiftImm;
    PlainDecodes(w);
  }

  lemma FetchedReads(s: State, r: Reg)
    requires r != 15
    ensures ReadReg(Fetched(s), r) == ReadReg(s, r)
  {
  }

  lemma TouchedReads(s: State, r: State, rd: Reg, q: Reg)
    requires OnlyTouches(s, r, Slot(Mode(s), rd)) && Mode(r) == Mode(s) && q != rd && q != 15
    ensures ReadReg(r, q) == ReadReg(s, q)
  {
    hide ModeBits;
    SlotExact(Mode(s), q, Mode(s), rd);
    SlotExact(Mode(s), q, Mode(s), 15);
  }

  lemma CarryInIsFlag(s: State)
    ensures CarryIn(s) == FlagsOf(Psr(s)).c
  {
  }

  /** One limb: the result, the carry passed on, and everything else kept. */
  lemma LimbStep(s: State, w: Word, stray: bool, op: Opcode)
    requires LimbWord(w, op) && Chains(op)
    ensures StraightWord(w)
    ensures var r, a, b := StepOn(s, w, stray), ReadReg(s, RegAt(w, 16)), ReadReg(s, RegAt(w, 0));
            && ReadReg(r, RegAt(w, 12)) == AluValue(op, a, b, CarryIn(s))
            && CarryIn(r) == CarryFlag(Written, op, a, b, CarryIn(s))
            && forall q: Reg | q != RegAt(w, 12) && q != 15 :: ReadReg(r, q) == ReadReg(s, q)
  {
    hide ClassOf, OpOf, SetsFlags, CondOf, OperandField, RegAt, ReadReg, StepOn, Process, Fetched, ShiftedOperand,
      AluValue, CarryIn, FlagsOf, OnlyTouches, Slot, ModeBits, Control, Psr;
    var f, r := Fetched(s), StepOn(s, w, stray);
    var sh := OperandOf(f, w, stray);
    FetchFrame(s);
    FetchedReads(s, RegAt(w, 16));
    FetchedReads(s, RegAt(w, 0));
    PlainOperand(f, w, stray);
    UnfoldStep(s, w, stray);
    ProcessExact(f, w, sh);
    StraightStep(s, w, stray);
    LimbResult(r, s, w);
    CarryInIsFlag(r);
    CarryInIsFlag(s);
    CarryInIsFlag(f);
    assert Executes(f, w);
    forall q: Reg | q != RegAt(w, 12) && q != 15 ensures ReadReg(r, q) == ReadReg(s, q) {
      TouchedReads(s, r, RegAt(w, 12), q);
    }
  }

  lemma LimbResult(r: State, s: State, w: Word)
    requires Mode(r) == Mode(s) && RegAt(w, 12) != 15
    ensures ReadReg(r, RegAt(w, 12)) == r.tab[Slot(Mode(s), RegAt(w, 12))]
  {
  }

  lemma {:induction false} RunFront(s: State, code: Code)
    requires code != []
    ensures RunCode(s, code) == RunCode(StepOn(s, code[0].0, code[0].1), code[1..])
    decreases |code|
  {
    hide StepOn;
    if |code| > 1 {
      var before := code[..|code| - 1];
      RunFront(s, before);
      assert before[1..] == code[1..][..|code| - 2];
    }
  }

  /** `code` consists of `op` words none of which writes `q`. */
  predicate Spares(code: Code, op: Opcode, q: Reg) {
    forall i | 0 <= i < |code| :: LimbWord(code[i].0, op) && RegAt(code[i].0, 12) != q
  }

  lemma {:induction false} RunSpares(s: State, code: Code, op: Opcode, q: Reg)
    requires Spares(code, op, q) && Chains(op) && q != 15
    ensures ReadReg(RunCode(s, code), q) == ReadReg(s, q)
    decreases |code|
  {
    hide StepOn, LimbWord, RegAt, ReadReg, Chains, CarryIn;
    if code != [] {
      var last, before := |code| - 1, code[..|code| - 1];
      RunSpares(s, before, op, q);
      LimbStep(RunCode(s, before), code[last].0, code[last].1, op);
    }
  }

  /** The rest of a program reads and writes other registers than the first result. */
  lemma RestIndependent(code: Code, op: Opcode, next: Opcode)
    requires LimbCode(code, op, next) && code != []
    ensures var rd, rest := RegAt(code[0].0, 12), code[1..];
            && LimbCode(rest, next, next) && Spares(rest, next, rd)
            && forall i | 0 <= i < |rest| ::
                 RegAt(rest[i].0, 16) !in {rd, 15} && RegAt(rest[i].0, 0) !in {rd, 15}
  {
    hide RegAt, ClassOf, OpOf, CondOf, SetsFlags, OperandField;
    var w, rest := code[0].0, code[1..];
    forall i | 0 <= i < |rest| ensures LimbWord(rest[i].0, next) && LeavesResult(w, rest[i].0) {
      assert rest[i] == code[i + 1];
    }
    forall i, j | 0 <= i < j < |rest| ensures LeavesResult(rest[i].0, rest[j].0) {
      assert rest[i] == code[i + 1] && rest[j] == code[j + 1];
    }
  }

  lemma SameContents(s: State, r: State, code: Code, lo: bv8, rd: Reg)
    requires lo <= 28 && forall q: Reg | q != rd && q != 15 :: ReadReg(r, q) == ReadReg(s, q)
    requires forall i | 0 <= i < |code| :: RegAt(code[i].0, lo) !in {rd, 15}
    ensures Contents(r, code, lo) == Contents(s, code, lo)
  {
    hide ReadReg, RegAt;
  }

  lemma ContentsCons(s: State, code: Code, lo: bv8)
    requires lo <= 28 && code != []
    ensures var c := Contents(s, code, lo);
            c[0] == ReadReg(s, RegAt(code[0].0, lo)) && c[1..] == Contents(s, code[1..], lo) && c == [c[0]] + c[1..]
  {
  }

  /** The program computes the chain: its destination registers end up holding the limbs and
      C the carry. */
  lemma {:induction false} ProgramIsChain(s: State, code: Code, op: Opcode, next: Opcode)
    requires LimbCode(code, op, next) && Chains(op) && Chains(next)
    ensures var r := RunCode(s, code);
            Outcome(Contents(r, code, 12), CarryIn(r))
            == Chain(Written, op, next, Contents(s, code, 16), Contents(s, code, 0), CarryIn(s))
    decreases |code|
  {
    hide StepOn, LimbCode, LimbWord, Spares, RegAt, ReadReg, CarryIn, Chains, AluValue, CarryFlag, Contents;
    if code != [] {
      hide RunCode;
      var w, rest := code[0].0, code[1..];
      var s1, r := StepOn(s, w, code[0].1), RunCode(s, code);
      FirstLimbWord(code, op, next);
      RunFront(s, code);
      LimbStep(s, w, code[0].1, op);
      RestIndependent(code, op, next);
      SameContents(s, s1, rest, 16, RegAt(w, 12));
      SameContents(s, s1, rest, 0, RegAt(w, 12));
      ProgramIsChain(s1, rest, next, next);
      RunSpares(s1, rest, next, RegAt(w, 12));
      ContentsCons(s, code, 16);
      ContentsCons(s, code, 0);
      ContentsCons(r, code, 12);
    }
  }

  lemma FirstLimbWord(code: Code, op: Opcode, next: Opcode)
    requires LimbCode(code, op, next) && code != []
    ensures LimbWord(code[0].0, op) && RegAt(code[0].0, 12) != 15
  {
  }

  /** A program of ADDS and then ADCS computes a chain that is right exactly when no limb but
      the last carries; the register contents then are the true sum (`AddChainExact`). */
  lemma AddProgramExact(s: State, code: Code)
    requires LimbCode(code, Add, Adc) && code != []
    ensures var r, a, b := RunCode(s, code), Contents(s, code, 16), Contents(s, code, 0);
            && Outcome(Contents(r, code, 12), CarryIn(r)) == AddChain(Written, a, b, CarryIn(s))
            && (Contents(r, code, 12) == AddChain(Manual, a, b, CarryIn(s)).limbs <==> NoCarry(a, b, |a| - 1))
  {
    hide RunCode, LimbCode, Contents, CarryIn, Chain, NoCarry;
    ProgramIsChain(s, code, Add, Adc);
    WrittenAddChainExact(Contents(s, code, 16), Contents(s, code, 0), CarryIn(s));
  }

  /** A program of SUBS and then SBCS is right exactly when every limb but the last borrows. */
  lemma SubProgramExact(s: State, code: Code)
    requires LimbCode(code, Sub, Sbc) && code != []
    ensures var r, a, b := RunCode(s, code), Contents(s, code, 16), Contents(s, code, 0);
            && Outcome(Contents(r, code, 12), CarryIn(r)) == SubChain(Written, a, b, CarryIn(s))
            && (Contents(r, code, 12) == SubChain(Manual, a, b, CarryIn(s)).limbs <==> AllBorrow(a, b, true, |a| - 1))
  {
    hide RunCode, LimbCode, Contents, CarryIn, Chain, AllBorrow;
    ProgramIsChain(s, code, Sub, Sbc);
    WrittenSubChainExact(Contents(s, code, 16), Contents(s, code, 0), CarryIn(s));
  }

  // ADDS r4, r0, r2 and ADCS r5, r1, r3.
  const TWO_LIMBS: Code := [(0xE090_4002, false), (0xE0B1_5003, false)]

  lemma TwoLimbsDecode()
    ensures LimbWord(0xE090_4002, Add) && LimbWord(0xE0B1_5003, Adc) && LeavesResult(0xE090_4002, 0xE0B1_5003)
    ensures RegAt(0xE090_4002, 12) == 4 && RegAt(0xE090_4002, 16) == 0 && RegAt(0xE090_4002, 0) == 2
    ensures RegAt(0xE0B1_5003, 12) == 5 && RegAt(0xE0B1_5003, 16) == 1 && RegAt(0xE0B1_5003, 0) == 3
  {
  }

  lemma LostCarryValues()
    ensures AluValue(Add, 0xFFFF_FFFF, 1, true) == 0 && AluValue(Add, 0xFFFF_FFFF, 1, false) == 0
    ensures AluValue(Adc, 0, 0, false) == 0
  {
  }

  /** The program adds 0xFFFFFFFF and 1 to 0, in whatever state it runs. */
  lemma TwoLimbProgramFails(s: State)
    requires ReadReg(s, 0) == 0xFFFF_FFFF && ReadReg(s, 2) == 1 && ReadReg(s, 1) == 0 && ReadReg(s, 3) == 0
    ensures LimbCode(TWO_LIMBS, Add, Adc)
    ensures var r := RunCode(s, TWO_LIMBS);
            ReadReg(r, 4) == 0 && ReadReg(r, 5) == 0 && !CarryIn(r)
  {
    hide StepOn, LimbWord, RegAt, ReadReg, CarryIn, AluValue, LeavesResult;
    TwoLimbsDecode();
    LostCarryValues();
    var s1 := StepOn(s, 0xE090_4002, false);
    LimbStep(s, 0xE090_4002, false, Add);
    LimbStep(s1, 0xE0B1_5003, false, Adc);
    RunFront(s, TWO_LIMBS);
    RunFront(s1, TWO_LIMBS[1..]);
    assert TWO_LIMBS[1..][1..] == [];
  }
}
