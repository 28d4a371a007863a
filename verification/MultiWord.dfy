/** Multi-word addition and subtraction: one flag-setting instruction per limb, least
    significant first, the carry travelling in the C flag. */
module MultiWord {
  import opened Words
  import opened Alu

  /** Whose C flag links the limbs. */
  datatype Carrier = Manual | Written

  predicate CarryFlag(k: Carrier, op: Opcode, a: Word, b: Word, c: bool) {
    match k
    case Manual => ManualFlags(op, a, b, c, false, false).c
    case Written => WrittenFlags(op, a, b, c, false).c
  }

  datatype Outcome = Outcome(limbs: seq<Word>, carry: bool)

  /** Executes `op` on the lowest limbs and `next` on each further pair. */
  function Chain(k: Carrier, op: Opcode, next: Opcode, a: seq<Word>, b: seq<Word>, c: bool): (o: Outcome)
    requires |a| == |b|
    ensures |o.limbs| == |a|
    decreases a
  {
    if a == [] then Outcome([], c)
    else
      var rest := Chain(k, next, next, a[1..], b[1..], CarryFlag(k, op, a[0], b[0], c));
      Outcome([AluValue(op, a[0], b[0], c)] + rest.limbs, rest.carry)
  }

  /** ADDS then ADCS; the incoming C is whatever earlier code left. */
  function AddChain(k: Carrier, a: seq<Word>, b: seq<Word>, c: bool): Outcome
    requires |a| == |b|
  {
    Chain(k, Add, Adc, a, b, c)
  }

  /** SUBS then SBCS. */
  function SubChain(k: Carrier, a: seq<Word>, b: seq<Word>, c: bool): Outcome
    requires |a| == |b|
  {
    Chain(k, Sub, Sbc, a, b, c)
  }

  /** The number a list of limbs stands for. */
  function Value(limbs: seq<Word>): int {
    if limbs == [] then 0 else Unsigned(limbs[0]) + 0x1_0000_0000 * Value(limbs[1..])
  }

  /** 2^32 raised to the number of limbs. */
  function Base(limbs: nat): int {
    if limbs == 0 then 1 else 0x1_0000_0000 * Base(limbs - 1)
  }

  // ---------------------------------------------------------------------------
  // With the manual's carry
  // ---------------------------------------------------------------------------

  lemma {:induction false} AdcChainValue(a: seq<Word>, b: seq<Word>, c: bool)
    requires |a| == |b|
    ensures var o := Chain(Manual, Adc, Adc, a, b, c);
            Value(o.limbs) + (if o.carry then Base(|a|) else 0) == Value(a) + Value(b) + One(c)
    decreases a
  {
    hide AluValue, Unsigned, Negative, IsZero;
    if a != [] {
      var c1 := CarryFlag(Manual, Adc, a[0], b[0], c);
      var rest := Chain(Manual, Adc, Adc, a[1..], b[1..], c1);
      AdcLimb(a[0], b[0], c);
      AdcChainValue(a[1..], b[1..], c1);
      ValueCons(AluValue(Adc, a[0], b[0], c), rest.limbs);
    }
  }

  lemma {:induction false} SbcChainValue(a: seq<Word>, b: seq<Word>, c: bool)
    requires |a| == |b|
    ensures var o := Chain(Manual, Sbc, Sbc, a, b, c);
            Value(o.limbs) - (if o.carry then 0 else Base(|a|)) == Value(a) - Value(b) - One(!c)
    decreases a
  {
    hide AluValue, Unsigned, Negative, IsZero;
    if a != [] {
      var c1 := CarryFlag(Manual, Sbc, a[0], b[0], c);
      var rest := Chain(Manual, Sbc, Sbc, a[1..], b[1..], c1);
      SbcLimb(a[0], b[0], c);
      SbcChainValue(a[1..], b[1..], c1);
      ValueCons(AluValue(Sbc, a[0], b[0], c), rest.limbs);
    }
  }

  lemma AdcLimb(a: Word, b: Word, c: bool)
    ensures Unsigned(AluValue(Adc, a, b, c)) + 0x1_0000_0000 * One(CarryFlag(Manual, Adc, a, b, c))
            == Unsigned(a) + Unsigned(b) + One(c)
  {
    hide AluValue, Unsigned, Negative, IsZero;
    UnsignedMeaning(Adc, a, b, c);
    WordRange(a);
    WordRange(b);
  }

  lemma SbcLimb(a: Word, b: Word, c: bool)
    ensures Unsigned(AluValue(Sbc, a, b, c)) - 0x1_0000_0000 * One(!CarryFlag(Manual, Sbc, a, b, c))
            == Unsigned(a) - Unsigned(b) - One(!c)
  {
    hide AluValue, Unsigned, Negative, IsZero;
    UnsignedMeaning(Sbc, a, b, c);
    WordRange(a);
    WordRange(b);
  }

  lemma ValueCons(limb: Word, rest: seq<Word>)
    ensures Value([limb] + rest) == Unsigned(limb) + 0x1_0000_0000 * Value(rest)
  {
  }

  lemma FirstOperation(k: Carrier, a: Word, b: Word, c: bool)
    ensures AluValue(Add, a, b, c) == AluValue(Adc, a, b, false)
    ensures AluValue(Sub, a, b, c) == AluValue(Sbc, a, b, true)
    ensures CarryFlag(k, Add, a, b, c) == CarryFlag(k, Adc, a, b, false)
    ensures CarryFlag(k, Sub, a, b, c) == CarryFlag(k, Sbc, a, b, true)
  {
    hide Sum, Difference, Negative, Unsigned, Signed, IsZero;
  }

  /** The incoming C does not matter: ADDS is ADCS with C clear, SUBS is SBCS with C set. */
  lemma FirstLimb(k: Carrier, a: seq<Word>, b: seq<Word>, c: bool)
    requires |a| == |b| > 0
    ensures AddChain(k, a, b, c) == Chain(k, Adc, Adc, a, b, false)
    ensures SubChain(k, a, b, c) == Chain(k, Sbc, Sbc, a, b, true)
  {
    hide AluValue, CarryFlag;
    FirstOperation(k, a[0], b[0], c);
  }

  /** The chain is exact: the limbs and the final C are the true multi-word sum. */
  lemma AddChainExact(a: seq<Word>, b: seq<Word>, c: bool)
    requires |a| == |b| > 0
    ensures var o := AddChain(Manual, a, b, c);
            Value(o.limbs) + (if o.carry then Base(|a|) else 0) == Value(a) + Value(b)
  {
    FirstLimb(Manual, a, b, c);
    AdcChainValue(a, b, false);
  }

  /** The limbs and the final C, read as not-borrow, are the true difference. */
  lemma SubChainExact(a: seq<Word>, b: seq<Word>, c: bool)
    requires |a| == |b| > 0
    ensures var o := SubChain(Manual, a, b, c);
            Value(o.limbs) - (if o.carry then 0 else Base(|a|)) == Value(a) - Value(b)
  {
    FirstLimb(Manual, a, b, c);
    SbcChainValue(a, b, true);
  }

  // ---------------------------------------------------------------------------
  // As written: the carry never reaches the next limb
  // ---------------------------------------------------------------------------

  /** None of the limbs before `n` carries. */
  predicate NoCarry(a: seq<Word>, b: seq<Word>, n: int)
    requires n <= |a| == |b|
  {
    forall i | 0 <= i < n :: Unsigned(a[i]) + Unsigned(b[i]) < TWO32
  }

  /** Every limb before `n` borrows, `c` being the C flag the lowest one starts from. */
  predicate AllBorrow(a: seq<Word>, b: seq<Word>, c: bool, n: int)
    requires n <= |a| == |b|
  {
    forall i | 0 <= i < n ::
      if i == 0 && c then Unsigned(a[i]) < Unsigned(b[i]) else Unsigned(a[i]) <= Unsigned(b[i])
  }

  lemma CarryInMatters(a: Word, b: Word)
    ensures AluValue(Adc, a, b, true) != AluValue(Adc, a, b, false)
    ensures AluValue(Sbc, a, b, true) != AluValue(Sbc, a, b, false)
  {
  }

  lemma ChainTail(k: Carrier, op: Opcode, a: seq<Word>, b: seq<Word>, c: bool)
    requires |a| == |b| > 0
    ensures var o := Chain(k, op, op, a, b, c);
            var rest := Chain(k, op, op, a[1..], b[1..], CarryFlag(k, op, a[0], b[0], c));
            && o.limbs[0] == AluValue(op, a[0], b[0], c) && o.limbs[1..] == rest.limbs
            && o.carry == rest.carry
            && o.limbs == [o.limbs[0]] + rest.limbs
  {
    hide AluValue, CarryFlag;
  }

  lemma ShiftNoCarry(a: seq<Word>, b: seq<Word>, n: int)
    requires 0 < n <= |a| == |b|
    ensures NoCarry(a, b, n) <==>
            Unsigned(a[0]) + Unsigned(b[0]) < TWO32 && NoCarry(a[1..], b[1..], n - 1)
  {
  }

  lemma ShiftAllBorrow(a: seq<Word>, b: seq<Word>, c: bool, n: int)
    requires 0 < n <= |a| == |b|
    ensures AllBorrow(a, b, c, n) <==>
            !CarryFlag(Manual, Sbc, a[0], b[0], c) && AllBorrow(a[1..], b[1..], false, n - 1)
  {
    hide Unsigned, Negative, AluValue;
    if AllBorrow(a[1..], b[1..], false, n - 1) {
      forall i | 0 < i < n ensures Unsigned(a[i]) <= Unsigned(b[i]) {
        assert a[i] == a[1..][i - 1] && b[i] == b[1..][i - 1];
      }
    }
  }

  lemma {:induction false} WrittenAdcChain(a: seq<Word>, b: seq<Word>)
    requires |a| == |b|
    ensures Chain(Written, Adc, Adc, a, b, false).limbs == Chain(Manual, Adc, Adc, a, b, false).limbs
            <==> NoCarry(a, b, |a| - 1)
    ensures Chain(Written, Adc, Adc, a, b, false) == Chain(Manual, Adc, Adc, a, b, false)
            <==> NoCarry(a, b, |a|)
    decreases a
  {
    hide AluValue, Unsigned, Negative, IsZero;
    if a != [] {
      ChainTail(Written, Adc, a, b, false);
      ChainTail(Manual, Adc, a, b, false);
      ShiftNoCarry(a, b, |a|);
      if |a| > 1 {
        ShiftNoCarry(a, b, |a| - 1);
        WrittenAdcChain(a[1..], b[1..]);
        CarryInMatters(a[1], b[1]);
        ChainTail(Written, Adc, a[1..], b[1..], false);
        ChainTail(Manual, Adc, a[1..], b[1..], CarryFlag(Manual, Adc, a[0], b[0], false));
      }
    }
  }

  lemma {:induction false} WrittenSbcChain(a: seq<Word>, b: seq<Word>, c: bool)
    requires |a| == |b| > 0
    ensures Chain(Written, Sbc, Sbc, a, b, c).limbs == Chain(Manual, Sbc, Sbc, a, b, c).limbs
            <==> AllBorrow(a, b, c, |a| - 1)
    ensures Chain(Written, Sbc, Sbc, a, b, c) == Chain(Manual, Sbc, Sbc, a, b, c)
            <==> AllBorrow(a, b, c, |a|)
    decreases a
  {
    hide AluValue, Unsigned, Negative, IsZero;
    ChainTail(Written, Sbc, a, b, c);
    ChainTail(Manual, Sbc, a, b, c);
    ShiftAllBorrow(a, b, c, |a|);
    if |a| > 1 {
      ShiftAllBorrow(a, b, c, |a| - 1);
      WrittenSbcChain(a[1..], b[1..], false);
      CarryInMatters(a[1], b[1]);
      ChainTail(Written, Sbc, a[1..], b[1..], false);
      ChainTail(Manual, Sbc, a[1..], b[1..], CarryFlag(Manual, Sbc, a[0], b[0], c));
    }
  }

  /** As written, the limbs of a multi-word addition are right exactly when no limb but
      the last carries, and the final C too exactly when none carries at all. */
  lemma WrittenAddChainExact(a: seq<Word>, b: seq<Word>, c: bool)
    requires |a| == |b| > 0
    ensures AddChain(Written, a, b, c).limbs == AddChain(Manual, a, b, c).limbs
            <==> NoCarry(a, b, |a| - 1)
    ensures AddChain(Written, a, b, c) == AddChain(Manual, a, b, c) <==> NoCarry(a, b, |a|)
  {
    FirstLimb(Written, a, b, c);
    FirstLimb(Manual, a, b, c);
    WrittenAdcChain(a, b);
  }

  /** As written, a multi-word subtraction is right exactly when every limb but the
      last borrows, and its final C exactly when the last one borrows as well. */
  lemma WrittenSubChainExact(a: seq<Word>, b: seq<Word>, c: bool)
    requires |a| == |b| > 0
    ensures SubChain(Written, a, b, c).limbs == SubChain(Manual, a, b, c).limbs
            <==> AllBorrow(a, b, true, |a| - 1)
    ensures SubChain(Written, a, b, c) == SubChain(Manual, a, b, c) <==> AllBorrow(a, b, true, |a|)
  {
    FirstLimb(Written, a, b, c);
    FirstLimb(Manual, a, b, c);
    WrittenSbcChain(a, b, true);
  }

  /** Two limbs are enough to lose a carry: 0xFFFFFFFF + 1. */
  lemma WrittenAddChainFails()
    ensures var a, b := [0xFFFF_FFFF, 0], [1, 0];
            Value(AddChain(Written, a, b, false).limbs) != Value(a) + Value(b)
  {
    var a: seq<Word>, b: seq<Word> := [0xFFFF_FFFF, 0], [1, 0];
    WrittenAddChainExact(a, b, false);
    AddChainExact(a, b, false);
    assert Unsigned(a[0]) + Unsigned(b[0]) == TWO32;
  }

  /** Two limbs are enough to invent a borrow: 1 - 0. */
  lemma WrittenSubChainFails()
    ensures var a, b := [1, 0], [0, 0];
            Value(SubChain(Written, a, b, false).limbs) != Value(a) - Value(b)
  {
    var a: seq<Word>, b: seq<Word> := [1, 0], [0, 0];
    WrittenSubChainExact(a, b, false);
    SubChainExact(a, b, false);
    assert Unsigned(a[0]) - Unsigned(b[0]) == 1;
  }
}
