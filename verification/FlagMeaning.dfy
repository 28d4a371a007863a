/** What the flags of an arithmetic instruction say about its operands: the manual's
    flags always, the simulator's flags exactly when the operands allow it. */
module FlagMeaning {
  import opened Words
  import opened Alu

  lemma ZeroMeaning(w: Word)
    ensures IsZero(w) <==> Unsigned(w) == 0
  {
  }

  function SignedRange(exact: int): int {
    exact + (if exact < -TWO31 then TWO32 else if exact >= TWO31 then -TWO32 else 0)
  }

  /** Reading the operands as signed moves the true result by a multiple of 2^32, which the
      reduced result does not see. */
  lemma RangesAgree(unsigned: int, signed: int, k: int)
    requires -1 <= k <= 2 && signed == unsigned - k * TWO32
    requires -TWO32 <= unsigned < 2 * TWO32 && -TWO32 <= signed < TWO32
    ensures var low := unsigned + (if unsigned < 0 then TWO32 else if unsigned >= TWO32 then -TWO32 else 0);
            SignedRange(signed) == if low >= TWO31 then low - TWO32 else low
  {
  }

  /** The word result, read as a signed number, is the true signed result modulo 2^32. */
  lemma SignedMeaning(op: Opcode, a: Word, b: Word, c: bool)
    requires Arithmetic(op)
    ensures Signed(AluValue(op, a, b, c)) == SignedRange(Exact(op, Signed(a), Signed(b), c))
  {
    hide AluValue, Unsigned, Negative, ManualCarry, CarryOut, SignedRange;
    UnsignedMeaning(op, a, b, c);
    WordRange(a);
    WordRange(b);
    WordRange(AluValue(op, a, b, c));
    var x, y := One(Negative(a)), One(Negative(b));
    RangesAgree(Exact(op, Unsigned(a), Unsigned(b), c), Exact(op, Signed(a), Signed(b), c),
                if Adds(op) then x + y else if op.Rsb? || op.Rsc? then y - x else x - y);
  }

  /** Overflow is visible in three signs: a sum overflows when both operands have the
      sign the result lacks, a difference when the minuend alone does. */
  lemma OverflowBySigns(op: Opcode, a: Word, b: Word, c: bool)
    requires Arithmetic(op)
    ensures var r := Negative(AluValue(op, a, b, c));
            ManualOverflow(op, a, b, c) <==>
            if Adds(op) then Negative(a) == Negative(b) != r
            else if op.Rsb? || op.Rsc? then Negative(a) != Negative(b) == !r
            else Negative(b) != Negative(a) == !r
  {
    hide AluValue, Unsigned, Negative, IsZero;
    SignedMeaning(op, a, b, c);
    WordRange(a);
    WordRange(b);
    WordRange(AluValue(op, a, b, c));
  }

  /** The operands on which the simulator's V is the manual's. */
  predicate OverflowRight(op: Opcode, a: Word, b: Word, c: bool) {
    var exact := Exact(op, Signed(a), Signed(b), c);
    if Negative(a) && Negative(b)
    then if Adds(op) then -TWO32 < exact < -TWO31 else exact == 0
    else -TWO31 <= exact < TWO31
  }

  /** The operands on which the simulator's C is the manual's: nothing to report. */
  predicate CarryRight(op: Opcode, a: Word, b: Word, c: bool) {
    var exact := Exact(op, Unsigned(a), Unsigned(b), c);
    if Adds(op) then exact < TWO32 else exact < 0
  }

  lemma WrittenOverflowExact(op: Opcode, a: Word, b: Word, c: bool, sc: bool, oldV: bool)
    requires Arithmetic(op)
    ensures WrittenFlags(op, a, b, c, sc).v == ManualFlags(op, a, b, c, sc, oldV).v
            <==> OverflowRight(op, a, b, c)
  {
    hide AluValue, Unsigned, Negative, IsZero;
    var r := AluValue(op, a, b, c);
    SignedMeaning(op, a, b, c);
    WordRange(a);
    WordRange(b);
    WordRange(r);
    ZeroMeaning(r);
  }

  /** The simulator sets the flags the manual asks for exactly when C and V both come
      out right; N and Z always do. A bitwise operation is right exactly when V was clear. */
  lemma WrittenFlagsExact(op: Opcode, a: Word, b: Word, c: bool, sc: bool, oldV: bool)
    ensures WrittenFlags(op, a, b, c, sc) == ManualFlags(op, a, b, c, sc, oldV)
            <==> if Arithmetic(op) then CarryRight(op, a, b, c) && OverflowRight(op, a, b, c)
                 else !oldV
  {
    hide AluValue, Unsigned, Negative, IsZero, OverflowRight, ManualOverflow;
    if Arithmetic(op) {
      WrittenOverflowExact(op, a, b, c, sc, oldV);
    }
  }

  // ---------------------------------------------------------------------------
  // Conditions after a comparison
  // ---------------------------------------------------------------------------

  /** What a condition is documented to say after `CMP a, b` (section A3.2). */
  predicate Relation(cond: bv4, a: Word, b: Word) {
    if cond == 0 then Unsigned(a) == Unsigned(b)
    else if cond == 1 then Unsigned(a) != Unsigned(b)
    else if cond == 2 then Unsigned(a) >= Unsigned(b)
    else if cond == 3 then Unsigned(a) < Unsigned(b)
    else if cond == 4 then Signed(AluValue(Cmp, a, b, false)) < 0
    else if cond == 5 then Signed(AluValue(Cmp, a, b, false)) >= 0
    else if cond == 6 then !(-TWO31 <= Signed(a) - Signed(b) < TWO31)
    else if cond == 7 then -TWO31 <= Signed(a) - Signed(b) < TWO31
    else if cond == 8 then Unsigned(a) > Unsigned(b)
    else if cond == 9 then Unsigned(a) <= Unsigned(b)
    else if cond == 10 then Signed(a) >= Signed(b)
    else if cond == 11 then Signed(a) < Signed(b)
    else if cond == 12 then Signed(a) > Signed(b)
    else if cond == 13 then Signed(a) <= Signed(b)
    else true
  }

  lemma CompareFacts(a: Word, b: Word)
    ensures var r := AluValue(Cmp, a, b, false);
            && (IsZero(r) <==> Unsigned(a) == Unsigned(b))
            && (Negative(r) <==> Signed(r) < 0)
            && (Signed(a) == Signed(b) <==> Unsigned(a) == Unsigned(b))
  {
    hide AluValue, Unsigned, Negative, IsZero;
    var r := AluValue(Cmp, a, b, false);
    UnsignedMeaning(Cmp, a, b, false);
    ZeroMeaning(r);
    WordRange(a);
    WordRange(b);
    WordRange(r);
  }

  /** With the manual's flags every condition means what it is named after. */
  lemma ConditionsMeanRelations(cond: bv4, a: Word, b: Word, sc: bool, oldV: bool)
    ensures Passes(ManualFlags(Cmp, a, b, false, sc, oldV), cond) <==> Relation(cond, a, b)
  {
    hide AluValue, Unsigned, Negative, IsZero;
    CompareFacts(a, b);
    SignedMeaning(Cmp, a, b, false);
    WordRange(a);
    WordRange(b);
    WordRange(AluValue(Cmp, a, b, false));
  }

  /** The operands on which a condition tested after the simulator's CMP is right. */
  predicate ConditionRight(cond: bv4, a: Word, b: Word) {
    if cond == 2 || cond == 3 then Unsigned(a) < Unsigned(b)
    else if cond == 8 || cond == 9 then Unsigned(a) <= Unsigned(b)
    else if cond == 6 || cond == 7 || 10 <= cond <= 13 then
      if Negative(a) && Negative(b) then Unsigned(a) == Unsigned(b)
      else -TWO31 <= Signed(a) - Signed(b) < TWO31
    else true
  }

  /** As written, EQ, NE, MI, PL and AL are always right; every other condition is
      right exactly on the operands above. */
  lemma WrittenConditionsExact(cond: bv4, a: Word, b: Word, sc: bool)
    ensures (Passes(WrittenFlags(Cmp, a, b, false, sc), cond) <==> Relation(cond, a, b))
            <==> ConditionRight(cond, a, b)
  {
    hide AluValue, Unsigned, Negative, IsZero;
    CompareFacts(a, b);
    SignedMeaning(Cmp, a, b, false);
    WordRange(a);
    WordRange(b);
    WordRange(AluValue(Cmp, a, b, false));
  }

  /** None of the other ten conditions is always right: the unsigned ones fail after
      CMP 1, 0 and the signed ones after CMP 0x7FFFFFFF, -1. */
  lemma WrittenConditionsFail(cond: bv4, sc: bool)
    ensures cond in {2, 3, 8, 9} ==>
              !(Passes(WrittenFlags(Cmp, 1, 0, false, sc), cond) <==> Relation(cond, 1, 0))
    ensures cond in {6, 7, 10, 11, 12, 13} ==>
              !(Passes(WrittenFlags(Cmp, 0x7FFF_FFFF, 0xFFFF_FFFF, false, sc), cond)
                <==> Relation(cond, 0x7FFF_FFFF, 0xFFFF_FFFF))
  {
    hide Passes, Relation, WrittenFlags;
    WrittenConditionsExact(cond, 1, 0, sc);
    WrittenConditionsExact(cond, 0x7FFF_FFFF, 0xFFFF_FFFF, sc);
  }
}
