/** The barrel shifter as a machine that moves one bit at a time (section A5.1 of
    ARM DDI 0100), and the closed forms the simulator computes instead. */
module Shifter {
  import opened Words

  datatype Kind = LSL | LSR | ASR | ROR

  /** A shifter operand with its carry out. */
  datatype Shifted = Shifted(operand: Word, carry: bool)

  // One bit position.
  function Lsl1(v: Word): Word { v << 1 }
  function Lsr1(v: Word): Word { v >> 1 }
  function Asr1(v: Word): Word { (v >> 1) | (v & 0x8000_0000) }
  function Ror1(v: Word): Word { (v >> 1) | (v << 31) }

  /** The bit that falls off becomes the carry. */
  function ShiftOne(k: Kind, v: Word): Shifted {
    match k
    case LSL => Shifted(Lsl1(v), Bit(v, 31))
    case LSR => Shifted(Lsr1(v), Bit(v, 0))
    case ASR => Shifted(Asr1(v), Bit(v, 0))
    case ROR => Shifted(Ror1(v), Bit(v, 0))
  }

  /** `n` bit positions, starting from a word and the current C flag. */
  function Iterate(k: Kind, n: bv8, s: Shifted): Shifted
    decreases n
  {
    if n == 0 then s else ShiftOne(k, Iterate(k, n - 1, s).operand)
  }

  // ---------------------------------------------------------------------------
  // Amounts 1 to 31
  // ---------------------------------------------------------------------------

  function ShiftBy(k: Kind, v: Word, n: bv8): Shifted
    requires 0 < n < 32
  {
    match k
    case LSL => Shifted(Shl(v, n), Bit(v, 32 - n))
    case LSR => Shifted(Shr(v, n), Bit(v, n - 1))
    case ASR => Shifted(Asr(v, n), Bit(v, n - 1))
    case ROR => Shifted(Ror(v, n), Bit(v, n - 1))
  }

  // The word laws behind each step.

  lemma ShlStep(v: Word, n: bv8)
    requires 0 < n < 32
    ensures Shl(v, n) == Lsl1(Shl(v, n - 1))
  {
  }

  lemma ShrStep(v: Word, n: bv8)
    requires 0 < n < 32
    ensures Shr(v, n) == Lsr1(Shr(v, n - 1))
  {
  }

  lemma ShlCarry(v: Word, n: bv8)
    requires 0 < n < 32
    ensures Bit(Shl(v, n - 1), 31) == Bit(v, 32 - n)
  {
  }

  lemma ShrCarry(v: Word, n: bv8)
    requires 0 < n < 32
    ensures Bit(Shr(v, n - 1), 0) == Bit(v, n - 1)
  {
  }

  lemma ShrTop(v: Word, n: bv8)
    requires 0 < n < 32
    ensures !Bit(Shr(v, n), 31)
  {
  }

  /** The sign bits an arithmetic shift by `n` brings in. */
  function Fill(n: bv8): Word
    requires 0 < n < 32
  {
    Shl(0xFFFF_FFFF, 32 - n)
  }

  lemma FillStep(n: bv8)
    requires 1 < n < 32
    ensures Fill(n) == Asr1(Fill(n - 1))
    ensures Bit(Fill(n - 1), 31)
  {
  }

  lemma AsrGlue(x: Word, h: Word)
    requires !Bit(x, 31) && Bit(h, 31)
    ensures Asr1(BitOr(x, h)) == BitOr(Lsr1(x), Asr1(h))
  {
  }

  lemma AsrGlueZero(x: Word)
    requires !Bit(x, 31)
    ensures Asr1(x) == Lsr1(x)
  {
  }

  lemma AsrUnfolds(v: Word, n: bv8)
    requires 0 < n < 32
    ensures Asr(v, n) == if Bit(v, 31) then BitOr(Shr(v, n), Fill(n)) else Shr(v, n)
  {
  }

  lemma AsrStep(v: Word, n: bv8)
    requires 1 < n < 32
    ensures Asr1(Asr(v, n - 1)) == Asr(v, n)
  {
    hide *;
    AsrUnfolds(v, n);
    AsrUnfolds(v, n - 1);
    ShrStep(v, n);
    ShrTop(v, n - 1);
    FillStep(n);
    if Bit(v, 31) {
      AsrGlue(Shr(v, n - 1), Fill(n - 1));
    } else {
      AsrGlueZero(Shr(v, n - 1));
    }
  }

  /** What a rotation by `n` brings in at the top. */
  function Wrapped(v: Word, n: bv8): Word
    requires 0 < n < 32
  {
    Shl(v, 32 - n)
  }

  lemma WrappedStep(v: Word, n: bv8)
    requires 1 < n < 32
    ensures Wrapped(v, n - 1) == Lsl1(Wrapped(v, n))
  {
  }

  lemma WrapAround(v: Word, n: bv8)
    requires 1 < n < 32
    ensures Bit(Wrapped(v, n), 31) == Bit(Shr(v, n - 1), 0)
  {
  }

  lemma RorGlue(x: Word, z: Word)
    requires Bit(x, 0) == Bit(z, 31)
    ensures Ror1(BitOr(x, Lsl1(z))) == BitOr(Lsr1(x), z)
  {
  }

  lemma RorUnfolds(v: Word, n: bv8)
    requires 0 < n < 32
    ensures Ror(v, n) == BitOr(Shr(v, n), Wrapped(v, n))
  {
  }

  lemma RorStep(v: Word, n: bv8)
    requires 1 < n < 32
    ensures Ror1(Ror(v, n - 1)) == Ror(v, n)
  {
    hide *;
    RorUnfolds(v, n);
    RorUnfolds(v, n - 1);
    ShrStep(v, n);
    WrappedStep(v, n);
    WrapAround(v, n);
    RorGlue(Shr(v, n - 1), Wrapped(v, n));
  }

  lemma AsrCarry(v: Word, n: bv8)
    requires 1 < n < 32
    ensures Bit(Asr(v, n - 1), 0) == Bit(v, n - 1)
  {
  }

  lemma RorCarry(v: Word, n: bv8)
    requires 1 < n < 32
    ensures Bit(Ror(v, n - 1), 0) == Bit(v, n - 1)
  {
  }

  /** One more bit position turns the form for `n - 1` into the form for `n`. */
  lemma ByStep(k: Kind, v: Word, n: bv8)
    requires 1 < n < 32
    ensures ShiftOne(k, ShiftBy(k, v, n - 1).operand) == ShiftBy(k, v, n)
  {
    hide Bit, Shl, Shr, Asr, Ror, Lsl1, Lsr1, Asr1, Ror1;
    match k
    case LSL =>
      ShlStep(v, n);
      ShlCarry(v, n);
    case LSR =>
      ShrStep(v, n);
      ShrCarry(v, n);
    case ASR =>
      AsrStep(v, n);
      AsrCarry(v, n);
    case ROR =>
      RorStep(v, n);
      RorCarry(v, n);
  }

  lemma ByOne(k: Kind, v: Word)
    ensures ShiftOne(k, v) == ShiftBy(k, v, 1)
  {
    hide Bit, Shl, Shr, Asr, Ror, Lsl1, Lsr1, Asr1, Ror1;
    FirstShifts(v);
    FirstAsr(v);
    FirstRor(v);
  }

  lemma FirstShifts(v: Word)
    ensures Lsl1(v) == Shl(v, 1) && Lsr1(v) == Shr(v, 1)
  {
  }

  lemma FirstAsrNegative(v: Word)
    requires Bit(v, 31)
    ensures Asr1(v) == BitOr(Shr(v, 1), Fill(1))
  {
  }

  lemma FirstAsrPositive(v: Word)
    requires !Bit(v, 31)
    ensures Asr1(v) == Shr(v, 1)
  {
  }

  lemma FirstAsr(v: Word)
    ensures Asr1(v) == Asr(v, 1)
  {
    hide *;
    AsrUnfolds(v, 1);
    if Bit(v, 31) { FirstAsrNegative(v); } else { FirstAsrPositive(v); }
  }

  lemma FirstRorWrapped(v: Word)
    ensures Ror1(v) == BitOr(Shr(v, 1), Wrapped(v, 1))
  {
  }

  lemma FirstRor(v: Word)
    ensures Ror1(v) == Ror(v, 1)
  {
    hide *;
    FirstRorWrapped(v);
    RorUnfolds(v, 1);
  }

  /** The closed form for 1 to 31 positions is what the one-bit machine reaches. */
  lemma {:induction false} ByIsIterated(k: Kind, n: bv8, s: Shifted)
    requires 0 < n < 32
    ensures Iterate(k, n, s) == ShiftBy(k, s.operand, n)
    decreases n
  {
    hide ShiftOne, ShiftBy;
    if n == 1 {
      ByOne(k, s.operand);
      assert Iterate(k, 0, s) == s;
    } else {
      ByIsIterated(k, n - 1, s);
      ByStep(k, s.operand, n);
    }
  }

  // ---------------------------------------------------------------------------
  // Amounts of 32 and more
  // ---------------------------------------------------------------------------

  lemma LastBits(v: Word)
    ensures Lsl1(Shl(v, 31)) == 0 && Bit(Shl(v, 31), 31) == Bit(v, 0)
    ensures Lsr1(Shr(v, 31)) == 0 && Bit(Shr(v, 31), 0) == Bit(v, 31)
    ensures Lsl1(0) == 0 && Lsr1(0) == 0 && !Bit(0, 31) && !Bit(0, 0)
  {
  }

  lemma {:induction false} LslBeyond(n: bv8, s: Shifted)
    requires n >= 32
    ensures Iterate(LSL, n, s) == Shifted(0, n == 32 && Bit(s.operand, 0))
    decreases n
  {
    hide Bit, Shl, Shr, Lsl1, Lsr1, Asr1, Ror1, Asr, Ror;
    LastBits(s.operand);
    if n == 32 { ByIsIterated(LSL, 31, s); } else { LslBeyond(n - 1, s); }
  }

  lemma {:induction false} LsrBeyond(n: bv8, s: Shifted)
    requires n >= 32
    ensures Iterate(LSR, n, s) == Shifted(0, n == 32 && Bit(s.operand, 31))
    decreases n
  {
    hide Bit, Shl, Shr, Lsl1, Lsr1, Asr1, Ror1, Asr, Ror;
    LastBits(s.operand);
    if n == 32 { ByIsIterated(LSR, 31, s); } else { LsrBeyond(n - 1, s); }
  }

  /** A word holding 32 copies of the sign of `v`. */
  function SignWord(v: Word): Word {
    if Bit(v, 31) then 0xFFFF_FFFF else 0
  }

  lemma AsrLast(v: Word)
    ensures Asr1(Asr(v, 31)) == SignWord(v)
    ensures Bit(Asr(v, 31), 0) == Bit(v, 31)
  {
  }

  lemma AsrSettled(v: Word)
    ensures Asr1(SignWord(v)) == SignWord(v)
    ensures Bit(SignWord(v), 0) == Bit(v, 31)
  {
  }

  lemma {:induction false} AsrBeyond(n: bv8, s: Shifted)
    requires n >= 32
    ensures Iterate(ASR, n, s) == Shifted(SignWord(s.operand), Bit(s.operand, 31))
    decreases n
  {
    hide Bit, Shl, Shr, Lsl1, Lsr1, Asr1, Ror1, Asr, Ror, SignWord;
    if n == 32 {
      AsrLast(s.operand);
      ByIsIterated(ASR, 31, s);
    } else {
      AsrSettled(s.operand);
      AsrBeyond(n - 1, s);
    }
  }

  lemma RorFull(v: Word)
    ensures Ror1(Ror(v, 31)) == v
    ensures Bit(Ror(v, 31), 0) == Bit(v, 31)
  {
  }

  /** A full turn changes nothing but the carry. */
  lemma {:induction false} RorPeriod(n: bv8, s: Shifted)
    requires n >= 32
    ensures n == 32 ==> Iterate(ROR, n, s) == Shifted(s.operand, Bit(s.operand, 31))
    ensures n > 32 ==> Iterate(ROR, n, s) == Iterate(ROR, n - 32, s)
    decreases n
  {
    hide Bit, Shl, Shr, Lsl1, Lsr1, Asr1, Ror1, Asr, Ror;
    if n == 32 {
      RorFull(s.operand);
      ByIsIterated(ROR, 31, s);
    } else {
      RorPeriod(n - 1, s);
    }
  }

  lemma LowFive(n: bv8)
    ensures n & 31 < 32
    ensures n < 32 ==> n & 31 == n
    ensures n >= 32 ==> (n - 32) & 31 == n & 31
    ensures n == 32 ==> n & 31 == 0
    ensures n & 31 == 0 && n != 0 ==> n >= 32
  {
  }

  /** A rotation depends on the low five bits of the amount alone, except that no
      rotation at all keeps the old carry. */
  lemma {:induction false} RorModulo(n: bv8, s: Shifted)
    requires n > 0
    ensures n & 31 < 32
    ensures Iterate(ROR, n, s) ==
            if n & 31 == 0 then Shifted(s.operand, Bit(s.operand, 31))
            else ShiftBy(ROR, s.operand, n & 31)
    decreases n
  {
    hide Bit, ShiftOne, ShiftBy, Iterate;
    LowFive(n);
    if n < 32 {
      ByIsIterated(ROR, n, s);
    } else {
      RorPeriod(n, s);
      if n > 32 { RorModulo(n - 32, s); }
    }
  }

  // ---------------------------------------------------------------------------
  // The operand formats of section A5.1
  // ---------------------------------------------------------------------------

  /** Bits 6 and 5 of an instruction name the shift. */
  function KindOf(ins: Word): Kind {
    if !Bit(ins, 6) then (if !Bit(ins, 5) then LSL else LSR)
    else (if !Bit(ins, 5) then ASR else ROR)
  }

  /** The 5-bit amount of an immediate shift. */
  function ShiftImm(ins: Word): bv8 { ((ins >> 7) & 31) as bv8 }

  lemma ShiftImmRange(ins: Word)
    ensures ShiftImm(ins) < 32
  {
  }

  /** How many positions an immediate shift moves: zero means 32 for the right shifts. */
  function ImmediateAmount(k: Kind, imm: bv8): bv8 {
    if imm == 0 && (k == LSR || k == ASR) then 32 else imm
  }

  function LowFiveBits(w: Word): (n: bv8)
    ensures n < 32
  {
    (w & 31) as bv8
  }

  lemma LowFiveOfByte(w: Word)
    ensures LowFiveBits(w) == LowByte(w) & 31
  {
  }

  lemma RorTop(v: Word, n: bv8)
    requires 0 < n < 32
    ensures Bit(Ror(v, n), 31) == Bit(v, n - 1)
  {
  }

  lemma ImmediateRotationRange(ins: Word)
    ensures ImmediateRotation(ins) < 32
  {
  }

  function LowByte(w: Word): bv8 { (w & 0xFF) as bv8 }

  /** The rotation of an 8-bit immediate: twice bits 11 to 8. */
  function ImmediateRotation(ins: Word): bv8 { (((ins >> 8) & 0xF) as bv8) * 2 }
}
