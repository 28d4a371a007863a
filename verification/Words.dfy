/** 32-bit words, their bits, and the condition codes: the vocabulary of
    `util.h`, `util.c` and `arm_constants.h`. */
module Words {

  type Word = bv32

  predicate Bit(x: Word, i: bv8)
    requires i < 32
  {
    (x >> i) & 1 == 1
  }

  function SetBit(x: Word, i: bv8): Word
    requires i < 32
  {
    x | (1 << i)
  }

  function ClrBit(x: Word, i: bv8): Word
    requires i < 32
  {
    x & !(1 << i)
  }

  /** The 4-bit field of an instruction whose lowest bit is `lo`. */
  function Field4(ins: Word, lo: bv8): bv4
    requires lo <= 28
  {
    ((ins >> lo) & 0xF) as bv4
  }

  // Operations kept under names of their own so that proofs can use their laws without
  // their bit-level meaning.
  function Shl(x: Word, n: bv8): Word
    requires n < 32
  {
    x << n
  }

  function Shr(x: Word, n: bv8): Word
    requires n < 32
  {
    x >> n
  }

  function BitAnd(x: Word, y: Word): Word { x & y }
  function BitOr(x: Word, y: Word): Word { x | y }
  function BitXor(x: Word, y: Word): Word { x ^ y }
  function BitNot(x: Word): Word { !x }

  /** A rotation by zero is `(x >> 0) | (x << 32)` in the source. */
  function Ror(x: Word, n: bv8): Word
    requires n < 32
  {
    if n == 0 then x else BitOr(Shr(x, n), Shl(x, 32 - n))
  }

  function Asr(x: Word, n: bv8): Word
    requires 0 < n < 32
  {
    if Bit(x, 31) then BitOr(Shr(x, n), Shl(0xFFFF_FFFF, 32 - n)) else Shr(x, n)
  }

  /** The four condition flags as a value: bits 31 to 28 of a status register. */
  datatype Flags = Flags(n: bool, z: bool, c: bool, v: bool)

  function FlagsOf(psr: Word): Flags {
    Flags(Bit(psr, 31), Bit(psr, 30), Bit(psr, 29), Bit(psr, 28))
  }

  function SetIf(x: Word, b: bool, i: bv8): Word
    requires i < 32
  {
    if b then SetBit(x, i) else x
  }

  /** Bits 27 down to 0 of a status register: everything but the flags. */
  function Control(psr: Word): Word {
    psr & 0x0FFF_FFFF
  }

  /** `psr` with its four flags cleared and set again from `f`. */
  function WithFlags(psr: Word, f: Flags): Word {
    SetIf(SetIf(SetIf(SetIf(Control(psr), f.z, 30), f.n, 31), f.c, 29), f.v, 28)
  }

  lemma SetZ(x: Word)
    ensures FlagsOf(SetBit(x, 30)) == FlagsOf(x).(z := true)
    ensures Control(SetBit(x, 30)) == Control(x)
  {
  }

  lemma SetN(x: Word)
    ensures FlagsOf(SetBit(x, 31)) == FlagsOf(x).(n := true)
    ensures Control(SetBit(x, 31)) == Control(x)
  {
  }

  lemma SetC(x: Word)
    ensures FlagsOf(SetBit(x, 29)) == FlagsOf(x).(c := true)
    ensures Control(SetBit(x, 29)) == Control(x)
  {
  }

  lemma SetV(x: Word)
    ensures FlagsOf(SetBit(x, 28)) == FlagsOf(x).(v := true)
    ensures Control(SetBit(x, 28)) == Control(x)
  {
  }

  lemma ControlCleared(psr: Word)
    ensures FlagsOf(Control(psr)) == Flags(false, false, false, false)
    ensures Control(Control(psr)) == Control(psr)
  {
  }

  /** Writing flags sets exactly those flags and nothing else. */
  lemma WithFlagsExact(psr: Word, f: Flags)
    ensures FlagsOf(WithFlags(psr, f)) == f
    ensures Control(WithFlags(psr, f)) == Control(psr)
  {
    hide FlagsOf, Control, SetBit;
    var x0 := Control(psr);
    var x1 := SetIf(x0, f.z, 30);
    var x2 := SetIf(x1, f.n, 31);
    var x3 := SetIf(x2, f.c, 29);
    ControlCleared(psr);
    SetZ(x0);
    SetN(x1);
    SetC(x2);
    SetV(x3);
  }

  // The mode field and the T, F and I bits of a status register.
  function ModeBits(psr: Word): Word { psr & 31 }
  predicate Thumb(psr: Word) { Bit(psr, 5) }
  predicate FiqMasked(psr: Word) { Bit(psr, 6) }
  predicate IrqMasked(psr: Word) { Bit(psr, 7) }

  /** Equal control parts agree on the mode and on the T, F and I bits. */
  lemma ControlDetermines(a: Word, b: Word)
    requires Control(a) == Control(b)
    ensures ModeBits(a) == ModeBits(b)
    ensures Thumb(a) == Thumb(b) && FiqMasked(a) == FiqMasked(b) && IrqMasked(a) == IrqMasked(b)
  {
  }

  /** Whether a condition code holds of the flags; code 15 always holds. */
  predicate Passes(f: Flags, cond: bv4) {
    if cond == 0 then f.z
    else if cond == 1 then !f.z
    else if cond == 2 then f.c
    else if cond == 3 then !f.c
    else if cond == 4 then f.n
    else if cond == 5 then !f.n
    else if cond == 6 then f.v
    else if cond == 7 then !f.v
    else if cond == 8 then f.c && !f.z
    else if cond == 9 then !f.c || f.z
    else if cond == 10 then f.n == f.v
    else if cond == 11 then f.n != f.v
    else if cond == 12 then !f.z && f.n == f.v
    else if cond == 13 then f.z || f.n != f.v
    else true
  }
}
