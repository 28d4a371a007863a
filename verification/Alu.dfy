/** The sixteen data-processing operations on 32-bit words: their value, the flags the
    simulator computes, and the flags the ARM manual (ARM DDI 0100, section A4.1) asks for. */
module Alu {
  import opened Words

  datatype Opcode =
    | And | Eor | Sub | Rsb | Add | Adc | Sbc | Rsc
    | Tst | Teq | Cmp | Cmn | Orr | Mov | Bic | Mvn

  function OpcodeOf(code: bv4): Opcode {
    if code == 0 then And else if code == 1 then Eor else if code == 2 then Sub
    else if code == 3 then Rsb else if code == 4 then Add else if code == 5 then Adc
    else if code == 6 then Sbc else if code == 7 then Rsc else if code == 8 then Tst
    else if code == 9 then Teq else if code == 10 then Cmp else if code == 11 then Cmn
    else if code == 12 then Orr else if code == 13 then Mov else if code == 14 then Bic
    else Mvn
  }

  /** Operations that only set flags. */
  predicate Compares(op: Opcode) {
    op.Tst? || op.Teq? || op.Cmp? || op.Cmn?
  }

  predicate Adds(op: Opcode) {
    op.Add? || op.Adc? || op.Cmn?
  }

  predicate Subtracts(op: Opcode) {
    op.Sub? || op.Rsb? || op.Sbc? || op.Rsc? || op.Cmp?
  }

  predicate Arithmetic(op: Opcode) {
    Adds(op) || Subtracts(op)
  }

  function Sum(x: Word, y: Word, ci: bool): Word { if ci then x + y + 1 else x + y }

  /** Here a clear C means that a borrow comes in. */
  function Difference(x: Word, y: Word, ci: bool): Word { if ci then x - y else x - y - 1 }

  function Bitwise(op: Opcode, a: Word, b: Word): Word {
    match op
    case Eor | Teq => BitXor(a, b)
    case Orr => BitOr(a, b)
    case Mov => b
    case Bic => BitAnd(a, BitNot(b))
    case Mvn => BitNot(b)
    case _ => BitAnd(a, b)
  }

  /** The manual's formula for the result, modulo 2^32. */
  function AluValue(op: Opcode, a: Word, b: Word, c: bool): Word {
    match op
    case Sub | Cmp => Difference(a, b, true)
    case Rsb => Difference(b, a, true)
    case Add | Cmn => Sum(a, b, false)
    case Adc => Sum(a, b, c)
    case Sbc => Difference(a, b, c)
    case Rsc => Difference(b, a, c)
    case _ => Bitwise(op, a, b)
  }

  predicate Negative(w: Word) { Bit(w, 31) }

  predicate IsZero(w: Word) { w == 0 }

  /** The flags the simulator computes: arithmetic never sets C, and sets V exactly
      when both operands are negative and the word result is not zero. */
  function WrittenFlags(op: Opcode, a: Word, b: Word, c: bool, shiftCarry: bool): Flags {
    var r := AluValue(op, a, b, c);
    if Arithmetic(op)
    then Flags(Negative(r), IsZero(r), false, Negative(a) && Negative(b) && !IsZero(r))
    else Flags(Negative(r), IsZero(r), shiftCarry, false)
  }

  // ---------------------------------------------------------------------------
  // Words as integers, and the manual's flags
  // ---------------------------------------------------------------------------

  const TWO31: int := 0x8000_0000
  const TWO32: int := 0x1_0000_0000

  function Unsigned(w: Word): int { w as int }

  function Signed(w: Word): int {
    if Negative(w) then Unsigned(w) - TWO32 else Unsigned(w)
  }

  function One(c: bool): int { if c then 1 else 0 }

  /** The true result of an arithmetic operation, on either reading of words. */
  function Exact(op: Opcode, a: int, b: int, c: bool): int {
    match op
    case Add | Cmn => a + b
    case Adc => a + b + One(c)
    case Sub | Cmp => a - b
    case Sbc => a - b - One(!c)
    case Rsb => b - a
    case Rsc => b - a - One(!c)
    case _ => 0
  }

  /** CarryFrom, or NOT BorrowFrom, of the true unsigned result. This and the next
      are the repaired flags; the simulator does not compute them. */
  predicate ManualCarry(op: Opcode, a: Word, b: Word, c: bool) {
    var exact := Exact(op, Unsigned(a), Unsigned(b), c);
    if Adds(op) then exact >= TWO32 else exact >= 0
  }

  /** OverflowFrom: the true signed result has no 32-bit representation. */
  predicate ManualOverflow(op: Opcode, a: Word, b: Word, c: bool) {
    !(-TWO31 <= Exact(op, Signed(a), Signed(b), c) < TWO31)
  }

  function ManualFlags(op: Opcode, a: Word, b: Word, c: bool, shiftCarry: bool, oldV: bool): Flags {
    var r := AluValue(op, a, b, c);
    if Arithmetic(op)
    then Flags(Negative(r), IsZero(r), ManualCarry(op, a, b, c), ManualOverflow(op, a, b, c))
    else Flags(Negative(r), IsZero(r), shiftCarry, oldV)
  }

  // ---------------------------------------------------------------------------
  // The word result against the true result
  // ---------------------------------------------------------------------------

  /** The sum in a carrier wide enough to hold it. */
  function WideSum(x: Word, y: Word, ci: bool): bv34 {
    if ci then (x as bv34) + (y as bv34) + 1 else (x as bv34) + (y as bv34)
  }

  predicate CarryOut(x: Word, y: Word, ci: bool) {
    WideSum(x, y, ci) & 0x1_0000_0000 != 0
  }

  lemma WideSumMeaning(x: Word, y: Word, s: bv34)
    requires s == (x as bv34) + (y as bv34)
    ensures s as int == x as int + y as int
  {
  }

  lemma WideSuccMeaning(x: Word, y: Word, s: bv34)
    requires s == (x as bv34) + (y as bv34) + 1
    ensures s as int == x as int + y as int + 1
  {
  }

  lemma SplitWide(s: bv34, low: Word)
    requires s < 0x2_0000_0000
    requires low as bv34 == s & 0xFFFF_FFFF
    ensures s as int == low as int + (if s & 0x1_0000_0000 != 0 then TWO32 else 0)
  {
  }

  lemma LowOfWide(x: Word, y: Word)
    ensures (x as bv34) + (y as bv34) + 1 < 0x2_0000_0000
    ensures (x as bv34) + (y as bv34) < 0x2_0000_0000
    ensures (x + y) as bv34 == ((x as bv34) + (y as bv34)) & 0xFFFF_FFFF
    ensures (x + y + 1) as bv34 == ((x as bv34) + (y as bv34) + 1) & 0xFFFF_FFFF
  {
  }

  /** The low word and bit 32 of the widened sum represent the true sum. */
  lemma SumMeaning(x: Word, y: Word, ci: bool)
    ensures Unsigned(Sum(x, y, ci)) == Unsigned(x) + Unsigned(y) + One(ci)
                                       - (if CarryOut(x, y, ci) then TWO32 else 0)
  {
    LowOfWide(x, y);
    if ci {
      WideSuccMeaning(x, y, (x as bv34) + (y as bv34) + 1);
      SplitWide((x as bv34) + (y as bv34) + 1, x + y + 1);
    } else {
      WideSumMeaning(x, y, (x as bv34) + (y as bv34));
      SplitWide((x as bv34) + (y as bv34), x + y);
    }
  }

  lemma WordRange(w: Word)
    ensures 0 <= Unsigned(w) < TWO32
    ensures Negative(w) <==> Unsigned(w) >= TWO31
  {
  }

  lemma AddBackSet(x: Word, y: Word, d: Word)
    requires d == x - y
    ensures Sum(d, y, false) == x
  {
  }

  lemma AddBackClear(x: Word, y: Word, d: Word)
    requires d == x - y - 1
    ensures Sum(d, y, true) == x
  {
  }

  /** A difference is what added to the subtrahend and the borrow gives the minuend. */
  lemma AddBack(x: Word, y: Word, ci: bool)
    ensures Sum(Difference(x, y, ci), y, !ci) == x
  {
    hide Sum;
    if ci {
      AddBackSet(x, y, Difference(x, y, true));
    } else {
      AddBackClear(x, y, Difference(x, y, false));
    }
  }

  lemma DifferenceMeaning(x: Word, y: Word, ci: bool)
    ensures var d := Unsigned(x) - Unsigned(y) - One(!ci);
            Unsigned(Difference(x, y, ci)) == if d < 0 then d + TWO32 else d
  {
    hide Sum, Difference, Unsigned, CarryOut, Negative;
    var r := Difference(x, y, ci);
    AddBack(x, y, ci);
    SumMeaning(r, y, !ci);
    WordRange(r);
    WordRange(x);
    WordRange(y);
  }

  /** The word result is the true result modulo 2^32. */
  lemma UnsignedMeaning(op: Opcode, a: Word, b: Word, c: bool)
    requires Arithmetic(op)
    ensures var exact := Exact(op, Unsigned(a), Unsigned(b), c);
            Unsigned(AluValue(op, a, b, c)) ==
            exact + (if exact < 0 then TWO32 else if exact >= TWO32 then -TWO32 else 0)
    ensures Adds(op) ==>
              (ManualCarry(op, a, b, c) <==> CarryOut(a, b, op.Adc? && c))
  {
    hide Sum, Difference, Unsigned, CarryOut, Negative, Bitwise;
    if Adds(op) {
      SumMeaning(a, b, op.Adc? && c);
    } else {
      var ci := !(op.Sbc? || op.Rsc?) || c;
      DifferenceMeaning(a, b, ci);
      DifferenceMeaning(b, a, ci);
    }
    WordRange(a);
    WordRange(b);
    WordRange(AluValue(op, a, b, c));
  }
}
