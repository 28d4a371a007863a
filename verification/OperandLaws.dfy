/** The shifter operand and its carry, read off the bits of the instruction. */
module OperandLaws {
  import opened Words
  import opened Machine
  import opened Shifter
  import opened Instructions

  // Shifts by 1 to 31 positions, and the last bit shifted out.
  function LeftBy(m: Word, n: bv8): Shifted
    requires 0 < n < 32
  {
    Shifted(m << n, (m >> (32 - n)) & 1 == 1)
  }

  function RightBy(m: Word, n: bv8): Shifted
    requires 0 < n < 32
  {
    Shifted(m >> n, (m >> (n - 1)) & 1 == 1)
  }

  function SignedRightBy(m: Word, n: bv8): Shifted
    requires 0 < n < 32
  {
    Shifted(WithSign(m, n), RightBy(m, n).carry)
  }

  function WithSign(m: Word, n: bv8): Word
    requires 0 < n < 32
  {
    if m & 0x8000_0000 != 0 then (m >> n) | (0xFFFF_FFFF << (32 - n)) else m >> n
  }

  function RotatedBy(m: Word, n: bv8): Shifted
    requires 0 < n < 32
  {
    Shifted((m >> n) | (m << (32 - n)), (m >> (n - 1)) & 1 == 1)
  }

  /** Shifts of a word by 0 to 255 positions as section A5.1 of the manual tabulates them:
      `kind` is bits 6 and 5 of the encoding, `c` the C flag. */
  function Barrel(kind: Word, m: Word, n: bv8, c: bool): Shifted {
    var negative := m & 0x8000_0000 != 0;
    if n == 0 then Shifted(m, c)
    else if kind == 0 then
      if n < 32 then LeftBy(m, n) else Shifted(0, n == 32 && m & 1 == 1)
    else if kind == 1 then
      if n < 32 then RightBy(m, n) else Shifted(0, n == 32 && negative)
    else if kind == 2 then
      if n < 32 then SignedRightBy(m, n) else Shifted(if negative then 0xFFFF_FFFF else 0, negative)
    else
      if n & 31 == 0 then Shifted(m, negative) else RotatedBy(m, n & 31)
  }

  function KindCode(k: Kind): Word {
    match k
    case LSL => 0
    case LSR => 1
    case ASR => 2
    case ROR => 3
  }

  lemma TopBit(m: Word)
    ensures Bit(m, 31) <==> m & 0x8000_0000 != 0
  {
  }

  lemma LowBit(m: Word)
    ensures Bit(m, 0) <==> m & 1 == 1
  {
  }

  lemma LeftParts(m: Word, n: bv8)
    requires 0 < n < 32
    ensures LeftBy(m, n) == ShiftBy(LSL, m, n) && RightBy(m, n) == ShiftBy(LSR, m, n)
  {
  }

  lemma NegativeParts(m: Word, n: bv8)
    requires 0 < n < 32 && Bit(m, 31) && m & 0x8000_0000 != 0
    ensures Asr(m, n) == WithSign(m, n)
  {
    hide Bit;
  }

  lemma PositiveParts(m: Word, n: bv8)
    requires 0 < n < 32 && !Bit(m, 31) && m & 0x8000_0000 == 0
    ensures Asr(m, n) == WithSign(m, n)
  {
    hide Bit;
  }

  lemma SignedRightParts(m: Word, n: bv8)
    requires 0 < n < 32
    ensures SignedRightBy(m, n) == ShiftBy(ASR, m, n)
  {
    hide Bit, Asr, Shr, WithSign, RightBy;
    TopBit(m);
    LeftParts(m, n);
    if Bit(m, 31) { NegativeParts(m, n); } else { PositiveParts(m, n); }
  }

  lemma RotatedParts(m: Word, n: bv8)
    requires 0 < n < 32
    ensures RotatedBy(m, n) == ShiftBy(ROR, m, n)
  {
  }

  lemma BarrelBelow(k: Kind, m: Word, n: bv8, c: bool)
    requires 0 < n < 32 && k != ROR
    ensures Barrel(KindCode(k), m, n, c) == ShiftBy(k, m, n)
  {
    hide ShiftBy, LeftBy, RightBy, SignedRightBy, RotatedBy;
    LeftParts(m, n);
    SignedRightParts(m, n);
  }

  lemma BarrelBeyond(k: Kind, m: Word, n: bv8, c: bool)
    requires n >= 32 && k != ROR
    ensures Barrel(KindCode(k), m, n, c) ==
            if k == LSL then Shifted(0, n == 32 && Bit(m, 0))
            else if k == LSR then Shifted(0, n == 32 && Bit(m, 31))
            else Shifted(SignWord(m), Bit(m, 31))
  {
    TopBit(m);
    LowBit(m);
  }

  lemma BelowThirtyTwo(n: bv8)
    ensures n & 31 < 32
  {
  }

  lemma BarrelRotates(m: Word, n: bv8, c: bool)
    requires n > 0
    ensures n & 31 < 32
    ensures Barrel(3, m, n, c) == if n & 31 == 0 then Shifted(m, Bit(m, 31)) else ShiftBy(ROR, m, n & 31)
  {
    hide ShiftBy, RotatedBy, Bit;
    BelowThirtyTwo(n);
    TopBit(m);
    if n & 31 != 0 { RotatedParts(m, n & 31); }
  }

  lemma NoTurn(k: Kind, m: Word, c: bool)
    ensures Iterate(k, 0, Shifted(m, c)) == Barrel(KindCode(k), m, 0, c)
  {
  }

  /** Repeating the one-bit step gives the table. */
  lemma IterateIsBarrel(k: Kind, n: bv8, m: Word, c: bool)
    ensures Iterate(k, n, Shifted(m, c)) == Barrel(KindCode(k), m, n, c)
  {
    hide Iterate, Barrel, ShiftBy, SignWord, Bit;
    var start := Shifted(m, c);
    if n == 0 {
      NoTurn(k, m, c);
    } else if k == ROR {
      BarrelRotates(m, n, c);
      RorModulo(n, start);
    } else if n < 32 {
      BarrelBelow(k, m, n, c);
      ByIsIterated(k, n, start);
    } else {
      BarrelBeyond(k, m, n, c);
      match k
      case LSL => LslBeyond(n, start);
      case LSR => LsrBeyond(n, start);
      case _ => AsrBeyond(n, start);
    }
  }

  // ---------------------------------------------------------------------------
  // The fields of an encoding
  // ---------------------------------------------------------------------------

  lemma CarryBit(s: State)
    ensures CarryIn(s) <==> s.tab[16] & 0x2000_0000 != 0
  {
  }

  lemma KindBits(field: Word)
    ensures KindCode(KindOf(field)) == (field >> 5) & 3
  {
  }

  lemma OperandBits(field: Word)
    ensures Bit(field, 4) <==> field & 0x10 != 0
    ensures Bit(field, 7) <==> field & 0x80 != 0
    ensures field & 0x90 == 0x90 <==> field & 0x10 != 0 && field & 0x80 != 0
  {
  }

  lemma RegisterFields(w: Word)
    ensures RegAt(w, 0) == ((w & 15) as bv4) as nat
    ensures RegAt(w, 8) == (((w >> 8) & 15) as bv4) as nat
    ensures RegAt(w, 12) == (((w >> 12) & 15) as bv4) as nat
    ensures RegAt(w, 16) == (((w >> 16) & 15) as bv4) as nat
  {
  }

  lemma RotationRange(q: bv8)
    requires q < 16
    ensures 2 * q <= 30 && (q != 0 ==> 2 * q != 0) && (2 * q) & 31 == 2 * q && (q == 0 ==> 2 * q == 0)
  {
  }

  lemma RotationField(field: Word)
    ensures ((field >> 8) & 15) as bv8 < 16
    ensures ImmediateRotation(field) == 2 * (((field >> 8) & 15) as bv8)
  {
  }

  lemma RotatedCarry(m: Word, n: bv8)
    requires 0 < n < 32
    ensures RotatedBy(m, n).carry <==> RotatedBy(m, n).operand & 0x8000_0000 != 0
  {
  }

  lemma TurnedTwice(b: Word, q: bv8, n: bv8, c: bool)
    requires q < 16 && n == 2 * q
    ensures Barrel(3, b, n, c) == if q == 0 then Shifted(b, c) else RotatedBy(b, n)
  {
    hide RotatedBy;
    RotationRange(q);
  }

  /** The 8-bit immediate, rotated right by twice the four bits above it; the carry is the
      top bit of the result unless nothing was rotated. */
  lemma ImmediateExact(s: State, field: Word)
    ensures ((field >> 8) & 15) as bv8 < 16
    ensures var q, b, o := ((field >> 8) & 15) as bv8, field & 0xFF, RotatedImmediate(s, field);
            if q == 0 then o == Shifted(b, s.tab[16] & 0x2000_0000 != 0)
            else o == RotatedBy(b, 2 * q) && (o.carry <==> o.operand & 0x8000_0000 != 0)
  {
    hide Iterate, ImmediateRotation, CarryIn, RotatedBy, Barrel;
    var q, b := ((field >> 8) & 15) as bv8, field & 0xFF;
    RotationField(field);
    RotationRange(q);
    CarryBit(s);
    IterateIsBarrel(ROR, 2 * q, b, CarryIn(s));
    TurnedTwice(b, q, 2 * q, CarryIn(s));
    if q != 0 { RotatedCarry(b, 2 * q); }
  }

  /** A register operand: the shift named by bits 6 and 5, by the five bits above them, where
      zero stands for 32 unless the shift is to the left, or by the low byte of a register. */
  lemma ShiftedExact(s: State, field: Word, stray: bool)
    ensures var kind, n := (field >> 5) & 3, ((field >> 7) & 31) as bv8;
            var rm := ReadReg(s, ((field & 15) as bv4) as nat);
            var rs := ReadReg(s, (((field >> 8) & 15) as bv4) as nat);
            var c := s.tab[16] & 0x2000_0000 != 0;
            ShiftedOperand(s, field, stray) ==
            if field & 0x90 == 0x90 then Shifted(field, stray)
            else if field & 0x10 != 0 then Barrel(kind, rm, (rs & 0xFF) as bv8, c)
            else if n != 0 then Barrel(kind, rm, n, c)
            else if kind == 0 then Shifted(rm, c)
            else if kind == 1 then Shifted(0, rm & 0x8000_0000 != 0)
            else if kind == 2 then
              Shifted(if rm & 0x8000_0000 != 0 then 0xFFFF_FFFF else 0, rm & 0x8000_0000 != 0)
            else Shifted(field, stray)
  {
    hide Iterate, CarryIn, LeftBy, RightBy, SignedRightBy, RotatedBy, Bit, KindOf, ReadReg, RegAt;
    CarryBit(s);
    KindBits(field);
    OperandBits(field);
    RegisterFields(field);
    var k, c := KindOf(field), CarryIn(s);
    var rm, rs := ReadReg(s, RegAt(field, 0)), ReadReg(s, RegAt(field, 8));
    IterateIsBarrel(k, LowByte(rs), rm, c);
    IterateIsBarrel(k, ImmediateAmount(k, ShiftImm(field)), rm, c);
  }
}
