/** `arm_data_processing.c`: each routine against its instruction-level meaning. */
module DataProcessing {
  import opened Words
  import opened Machine
  import opened Alu
  import opened Shifter
  import opened Instructions
  import opened Core

  // ---------------------------------------------------------------------------
  // The 64-bit carrier of results
  // ---------------------------------------------------------------------------

  predicate Bit64(x: bv64, i: bv8)
    requires i < 64
  {
    (x >> i) & 1 == 1
  }

  predicate IsZero64(x: bv64) { x == 0 }

  function Truncate(x: bv64): Word { (x & 0xFFFF_FFFF) as bv32 }

  function ZeroExtend(w: Word): bv64 { w as bv64 }

  function SignExtend(w: Word): bv64 {
    if Bit(w, 31) then 0xFFFF_FFFF_0000_0000 | (w as bv64) else w as bv64
  }

  /** Operands are read as signed here: non-negative means bit 31 clear. */
  predicate CarryFrom(x: bv64, opr1: Word, opr2: Word) {
    Bit64(x, 32) && !Bit(opr1, 31) && !Bit(opr2, 31)
  }

  predicate BorrowFrom(x: bv64, opr1: Word, opr2: Word) {
    !CarryFrom(x, opr1, opr2)
  }

  predicate OverflowFrom(a: Word, b: Word, r: bv64) {
    || (!Bit(a, 31) && a != 0 && !Bit(b, 31) && b != 0 && Bit64(r, 63))
    || (Bit(a, 31) && Bit(b, 31) && !Bit64(r, 63) && !IsZero64(r))
  }

  /** Which 64-bit value a routine leaves in the carrier: unsigned results are
      zero-extended, the signed operand of MOV and MVN is sign-extended. */
  predicate Carries(op: Opcode, w: Word, rd: bv64) {
    rd == if op.Mov? || op.Mvn? then SignExtend(w) else ZeroExtend(w)
  }

  /** Tests on the carrier are tests on the word; bit 32 and the sign of a zero-extended
      result are never set. */
  lemma CarrierFlags(op: Opcode, w: Word, rd: bv64)
    requires Carries(op, w, rd)
    ensures Truncate(rd) == w
    ensures IsZero64(rd) <==> IsZero(w)
    ensures Bit64(rd, 31) == Negative(w)
    ensures Arithmetic(op) ==> !Bit64(rd, 32) && !Bit64(rd, 63)
  {
  }

  lemma OverflowOnCarrier(a: Word, b: Word, w: Word, rd: bv64)
    requires !Bit64(rd, 63) && (IsZero64(rd) <==> IsZero(w))
    ensures OverflowFrom(a, b, rd) <==> Negative(a) && Negative(b) && !IsZero(w)
  {
  }

  /** The result half of the opcode switch. */
  method Result(op: Opcode, rn: Word, operand: Word, c: bool) returns (rd: bv64, comp: bool)
    ensures Carries(op, AluValue(op, rn, operand, c), rd)
    ensures comp == !Compares(op)
  {
    hide Sum, Difference, BitAnd, BitOr, BitXor, BitNot, ZeroExtend, SignExtend, Bit;
    match op {
      case And => return ZeroExtend(BitAnd(rn, operand)), true;
      case Eor => return ZeroExtend(BitXor(rn, operand)), true;
      case Sub => return ZeroExtend(Difference(rn, operand, true)), true;
      case Rsb => return ZeroExtend(Difference(operand, rn, true)), true;
      case Add => return ZeroExtend(Sum(rn, operand, false)), true;
      case Adc => return ZeroExtend(Sum(rn, operand, c)), true;
      case Sbc => return ZeroExtend(Difference(rn, operand, c)), true;
      case Rsc => return ZeroExtend(Difference(operand, rn, c)), true;
      case Orr => return ZeroExtend(BitOr(rn, operand)), true;
      case Mov => return SignExtend(operand), true;
      case Bic => return ZeroExtend(BitAnd(rn, BitNot(operand))), true;
      case Mvn => return SignExtend(BitNot(operand)), true;
      case Tst => return ZeroExtend(BitAnd(rn, operand)), false;
      case Teq => return ZeroExtend(BitXor(rn, operand)), false;
      case Cmp => return ZeroExtend(Difference(rn, operand, true)), false;
      case Cmn => return ZeroExtend(Sum(rn, operand, false)), false;
    }
  }

  /** The flag half, computed on the carrier `rd`. */
  method CarrierToFlags(op: Opcode, rn: Word, operand: Word, c: bool, shiftCarry: bool, rd: bv64)
    returns (f: Flags)
    requires Carries(op, AluValue(op, rn, operand, c), rd)
    ensures f == WrittenFlags(op, rn, operand, c, shiftCarry)
  {
    hide AluValue, Carries, Bit, Bit64, IsZero, IsZero64, Truncate, OverflowFrom;
    ghost var w := AluValue(op, rn, operand, c);
    CarrierFlags(op, w, rd);
    if Arithmetic(op) { OverflowOnCarrier(rn, operand, w, rd); }
    var cf, vf;
    match op {
      case Sub | Rsb | Sbc | Rsc =>
        cf := !BorrowFrom(rd, operand, Truncate(rd));
        vf := OverflowFrom(rn, operand, rd);
      case Cmp =>
        cf := !BorrowFrom(rd, operand, rn);
        vf := OverflowFrom(rn, operand, rd);
      case Add | Adc | Cmn =>
        cf := CarryFrom(rd, operand, rn);
        vf := OverflowFrom(rn, operand, rd);
      case _ =>
        cf, vf := shiftCarry, false;
    }
    f := Flags(Bit64(rd, 31), IsZero64(rd), cf, vf);
  }

  // ---------------------------------------------------------------------------
  // Committing the result
  // ---------------------------------------------------------------------------

  /** In a mode that is neither architected with an SPSR nor known to have none, reading
      the SPSR is undefined in the source, so an exception return must not run there. */
  predicate SpsrDefined(mode: Word) { HasSpsr(mode) ==> Banked(mode) }

  predicate SpsrDefinedFor(s: State, ins: Word) {
    Executes(s, ins) && Returns(ins) ==> SpsrDefined(Mode(s))
  }

  method UpdateFlags(p: ArmCore, f: Flags)
    requires p.Valid()
    modifies p.tab
    ensures p.View() == WriteFlags(old(p.View()), f)
  {
    hide SetBit, Control;
    var cpsr := p.ReadCpsr();
    cpsr := Control(cpsr);
    if f.z { cpsr := SetBit(cpsr, 30); }
    if f.n { cpsr := SetBit(cpsr, 31); }
    if f.c { cpsr := SetBit(cpsr, 29); }
    if f.v { cpsr := SetBit(cpsr, 28); }
    p.WriteCpsr(cpsr);
  }

  /** `processing`. */
  method Processing(p: ArmCore, ins: Word, operand: Word, shiftCarry: bool)
    requires p.Valid()
    requires SpsrDefinedFor(p.View(), ins)
    modifies p.tab
    ensures p.View() == Process(old(p.View()), ins, Shifted(operand, shiftCarry))
  {
    hide RegAt, Field4, Bit, ReadReg, AluValue, WrittenFlags, Truncate, Passes, FlagsOf, Carries,
      WriteReg, WithPsr, WithFlags, Psr, Mode, Spsr;
    var rn := p.ReadRegister(RegAt(ins, 16));
    var rd := RegAt(ins, 12);
    var cpsr := p.ReadCpsr();
    var opr := OpcodeOf(Field4(ins, 21));
    var rdValue, comp := Result(opr, rn, operand, Bit(cpsr, 29));
    var flags := CarrierToFlags(opr, rn, operand, Bit(cpsr, 29), shiftCarry, rdValue);
    CarrierFlags(opr, AluValue(opr, rn, operand, Bit(cpsr, 29)), rdValue);
    if Passes(FlagsOf(cpsr), CondOf(ins)) {
      if comp {
        WriteRegKeeps(p.View(), rd, Truncate(rdValue));
        p.WriteRegister(rd, Truncate(rdValue));
        if SetsFlags(ins) && rd == 15 {
          var hasSpsr := p.CurrentModeHasSpsr();
          if hasSpsr {
            var spsr := p.ReadSpsr();
            p.WriteCpsr(spsr);
          }
        } else if SetsFlags(ins) {
          UpdateFlags(p, flags);
        }
      } else {
        UpdateFlags(p, flags);
      }
    }
  }

  // ---------------------------------------------------------------------------
  // Shifter operands: `field` is the low 12 bits of the instruction
  // ---------------------------------------------------------------------------

  method ReadCarry(p: ArmCore) returns (c: bool)
    requires p.Valid()
    ensures c == CarryIn(p.View())
  {
    hide Bit;
    var cpsr := p.ReadCpsr();
    c := Bit(cpsr, 29);
  }

  method Immediate(p: ArmCore, field: Word) returns (operand: Word, carry: bool)
    requires p.Valid()
    ensures Shifted(operand, carry) == RotatedImmediate(p.View(), field)
  {
    hide Bit, Ror, Iterate, ImmediateRotation;
    var rotation := ImmediateRotation(field);
    var immed8 := field & 0xFF;
    ghost var start := Shifted(immed8, CarryIn(p.View()));
    ImmediateRotationRange(field);
    operand := Ror(immed8, rotation);
    if rotation == 0 {
      carry := ReadCarry(p);
      NoShift(ROR, start);
      RorNone(immed8);
    } else {
      carry := Bit(operand, 31);
      ByIsIterated(ROR, rotation, start);
      RorTop(immed8, rotation);
    }
  }

  lemma NoShift(k: Kind, s: Shifted)
    ensures Iterate(k, 0, s) == s
  {
  }

  lemma RorNone(v: Word)
    ensures Ror(v, 0) == v
  {
  }

  /** <Rm> */
  method Rm(p: ArmCore, field: Word) returns (operand: Word, carry: bool)
    requires p.Valid()
    ensures Shifted(operand, carry) == Shifted(ReadReg(p.View(), RegAt(field, 0)), CarryIn(p.View()))
  {
    operand := p.ReadRegister(RegAt(field, 0));
    carry := ReadCarry(p);
  }

  /** <Rm>, LSL #<shift_imm> */
  method RmLslShiftImm(p: ArmCore, field: Word) returns (operand: Word, carry: bool)
    requires p.Valid()
    ensures Shifted(operand, carry) == ShiftedByImmediate(p.View(), LSL, field)
  {
    hide Bit, Shl, Shr, Asr, Iterate, RegAt, ShiftImm;
    var shiftImm := ShiftImm(field);
    var rm := p.ReadRegister(RegAt(field, 0));
    ghost var start := Shifted(rm, CarryIn(p.View()));
    ShiftImmRange(field);
    if shiftImm == 0 {
      operand := rm;
      carry := ReadCarry(p);
      NoShift(LSL, start);
    } else {
      operand := Shl(rm, shiftImm);
      carry := Bit(rm, 32 - shiftImm);
      ByIsIterated(LSL, shiftImm, start);
    }
  }

  /** <Rm>, LSL <Rs> */
  method RmLslRs(p: ArmCore, field: Word) returns (operand: Word, carry: bool)
    requires p.Valid()
    ensures Shifted(operand, carry) == ShiftedByRegister(p.View(), LSL, field)
  {
    hide Bit, Shl, Shr, Asr, Iterate, LowByte, RegAt;
    var rs := p.ReadRegister(RegAt(field, 8));
    var rm := p.ReadRegister(RegAt(field, 0));
    var firstByte := LowByte(rs);
    ghost var start := Shifted(rm, CarryIn(p.View()));
    if firstByte == 0 {
      operand := rm;
      carry := ReadCarry(p);
      NoShift(LSL, start);
    } else if firstByte < 32 {
      operand := Shl(rm, firstByte);
      carry := Bit(rm, 32 - firstByte);
      ByIsIterated(LSL, firstByte, start);
    } else if firstByte == 32 {
      operand := 0;
      carry := Bit(rm, 0);
      LslBeyond(firstByte, start);
    } else {
      operand := 0;
      carry := false;
      LslBeyond(firstByte, start);
    }
  }

  /** <Rm>, LSR #<shift_imm> */
  method RmLsrShiftImm(p: ArmCore, field: Word) returns (operand: Word, carry: bool)
    requires p.Valid()
    ensures Shifted(operand, carry) == ShiftedByImmediate(p.View(), LSR, field)
  {
    hide Bit, Shl, Shr, Asr, Iterate, RegAt, ShiftImm;
    var shiftImm := ShiftImm(field);
    var rm := p.ReadRegister(RegAt(field, 0));
    ghost var start := Shifted(rm, CarryIn(p.View()));
    ShiftImmRange(field);
    if shiftImm == 0 {
      operand := 0;
      carry := Bit(rm, 31);
      LsrBeyond(32, start);
    } else {
      operand := Shr(rm, shiftImm);
      carry := Bit(rm, shiftImm - 1);
      ByIsIterated(LSR, shiftImm, start);
    }
  }

  /** <Rm>, LSR <Rs> */
  method RmLsrRs(p: ArmCore, field: Word) returns (operand: Word, carry: bool)
    requires p.Valid()
    ensures Shifted(operand, carry) == ShiftedByRegister(p.View(), LSR, field)
  {
    hide Bit, Shl, Shr, Asr, Iterate, LowByte, RegAt;
    var rs := p.ReadRegister(RegAt(field, 8));
    var rm := p.ReadRegister(RegAt(field, 0));
    var firstByte := LowByte(rs);
    ghost var start := Shifted(rm, CarryIn(p.View()));
    if firstByte == 0 {
      operand := rm;
      carry := ReadCarry(p);
      NoShift(LSR, start);
    } else if firstByte < 32 {
      operand := Shr(rm, firstByte);
      carry := Bit(rm, firstByte - 1);
      ByIsIterated(LSR, firstByte, start);
    } else if firstByte == 32 {
      operand := 0;
      carry := Bit(rm, 31);
      LsrBeyond(firstByte, start);
    } else {
      operand := 0;
      carry := false;
      LsrBeyond(firstByte, start);
    }
  }

  /** <Rm>, ASR #<shift_imm> */
  method RmAsrShiftImm(p: ArmCore, field: Word) returns (operand: Word, carry: bool)
    requires p.Valid()
    ensures Shifted(operand, carry) == ShiftedByImmediate(p.View(), ASR, field)
  {
    hide Bit, Shl, Shr, Asr, Iterate, RegAt, ShiftImm;
    var shiftImm := ShiftImm(field);
    var rm := p.ReadRegister(RegAt(field, 0));
    ghost var start := Shifted(rm, CarryIn(p.View()));
    ShiftImmRange(field);
    if shiftImm == 0 {
      var msb := Bit(rm, 31);
      operand := if msb then 0xFFFF_FFFF else 0;
      carry := msb;
      AsrBeyond(32, start);
    } else {
      operand := Asr(rm, shiftImm);
      carry := Bit(rm, shiftImm - 1);
      ByIsIterated(ASR, shiftImm, start);
    }
  }

  /** <Rm>, ASR <Rs> */
  method RmAsrRs(p: ArmCore, field: Word) returns (operand: Word, carry: bool)
    requires p.Valid()
    ensures Shifted(operand, carry) == ShiftedByRegister(p.View(), ASR, field)
  {
    hide Bit, Shl, Shr, Asr, Iterate, LowByte, RegAt;
    var rs := p.ReadRegister(RegAt(field, 8));
    var rm := p.ReadRegister(RegAt(field, 0));
    var firstByte := LowByte(rs);
    ghost var start := Shifted(rm, CarryIn(p.View()));
    if firstByte == 0 {
      operand := rm;
      carry := ReadCarry(p);
      NoShift(ASR, start);
    } else if firstByte < 32 {
      operand := Asr(rm, firstByte);
      carry := Bit(rm, firstByte - 1);
      ByIsIterated(ASR, firstByte, start);
    } else {
      var msb := Bit(rm, 31);
      operand := if msb then 0xFFFF_FFFF else 0;
      carry := msb;
      AsrBeyond(firstByte, start);
    }
  }

  /** <Rm>, ROR #<shift_imm>: the zero amount, which encodes RRX, assigns nothing. */
  method RmRorShiftImm(p: ArmCore, field: Word, stray: bool) returns (operand: Word, carry: bool)
    requires p.Valid()
    ensures Shifted(operand, carry) ==
            if ShiftImm(field) == 0 then Shifted(field, stray)
            else ShiftedByImmediate(p.View(), ROR, field)
  {
    hide Bit, Ror, Iterate, RegAt, ShiftImm;
    operand, carry := field, stray;
    var shiftImm := ShiftImm(field);
    var rm := p.ReadRegister(RegAt(field, 0));
    ShiftImmRange(field);
    if shiftImm != 0 {
      operand := Ror(rm, shiftImm);
      carry := Bit(rm, shiftImm - 1);
      ByIsIterated(ROR, shiftImm, Shifted(rm, CarryIn(p.View())));
    }
  }

  /** <Rm>, ROR <Rs> */
  method RmRorRs(p: ArmCore, field: Word) returns (operand: Word, carry: bool)
    requires p.Valid()
    ensures Shifted(operand, carry) == ShiftedByRegister(p.View(), ROR, field)
  {
    hide Bit, Ror, Iterate, LowByte, LowFiveBits, RegAt;
    var rs := p.ReadRegister(RegAt(field, 8));
    var rm := p.ReadRegister(RegAt(field, 0));
    var firstByte := LowByte(rs);
    ghost var start := Shifted(rm, CarryIn(p.View()));
    LowFiveOfByte(rs);
    if firstByte == 0 {
      operand := rm;
      carry := ReadCarry(p);
      NoShift(ROR, start);
    } else if LowFiveBits(rs) == 0 {
      operand := rm;
      carry := Bit(rm, 31);
      RorModulo(firstByte, start);
    } else {
      operand := Ror(rm, LowFiveBits(rs));
      carry := Bit(rm, LowFiveBits(rs) - 1);
      RorModulo(firstByte, start);
    }
  }

  /** `arm_data_processing_shift`. */
  method ArmDataProcessingShift(p: ArmCore, ins: Word, stray: bool)
    requires p.Valid()
    requires SpsrDefinedFor(p.View(), ins)
    modifies p.tab
    ensures p.View() == Process(old(p.View()), ins, ShiftedOperand(old(p.View()), OperandField(ins), stray))
  {
    hide *;
    var field := OperandField(ins);
    var operand, carry := field, stray;
    DecodeShift(ins);
    UnfoldOperand(p.View(), field, stray);
    if !Bit(ins, 7) && Bit(ins, 4) {
      if Field4(field, 4) == 1 { operand, carry := RmLslRs(p, field); }
      else if Field4(field, 4) == 3 { operand, carry := RmLsrRs(p, field); }
      else if Field4(field, 4) == 5 { operand, carry := RmAsrRs(p, field); }
      else if Field4(field, 4) == 7 { operand, carry := RmRorRs(p, field); }
    } else if !Bit(ins, 4) {
      if Shr(field, 4) == 0 {
        operand, carry := Rm(p, field);
        NoShift(LSL, Shifted(operand, carry));
      }
      else if Bits3(field) == 0 { operand, carry := RmLslShiftImm(p, field); }
      else if Bits3(field) == 2 { operand, carry := RmLsrShiftImm(p, field); }
      else if Bits3(field) == 4 { operand, carry := RmAsrShiftImm(p, field); }
      else if Bits3(field) == 6 { operand, carry := RmRorShiftImm(p, field, stray); }
    }
    Processing(p, ins, operand, carry);
  }

  /** Bits 6 to 4. */
  function Bits3(field: Word): bv3 { ((field >> 4) & 7) as bv3 }

  /** The chain of tests covers every encoding whose bits 7 and 4 are not both set, and
      each test names the shift of bits 6 and 5. */
  lemma DecodeShift(ins: Word)
    ensures var f := OperandField(ins);
            && Bit(f, 4) == Bit(ins, 4) && Bit(f, 7) == Bit(ins, 7)
            && (!Bit(ins, 7) && Bit(ins, 4) ==>
                  && (Field4(f, 4) == 1 <==> KindOf(f) == LSL)
                  && (Field4(f, 4) == 3 <==> KindOf(f) == LSR)
                  && (Field4(f, 4) == 5 <==> KindOf(f) == ASR)
                  && (Field4(f, 4) == 7 <==> KindOf(f) == ROR))
            && (!Bit(ins, 4) ==>
                  && (Shr(f, 4) == 0 ==> KindOf(f) == LSL && ShiftImm(f) == 0)
                  && (Bits3(f) == 0 <==> KindOf(f) == LSL)
                  && (Bits3(f) == 2 <==> KindOf(f) == LSR)
                  && (Bits3(f) == 4 <==> KindOf(f) == ASR)
                  && (Bits3(f) == 6 <==> KindOf(f) == ROR))
  {
  }

  lemma UnfoldOperand(s: State, f: Word, stray: bool)
    ensures ShiftedOperand(s, f, stray) ==
            if Bit(f, 4) then
              if Bit(f, 7) then Shifted(f, stray) else ShiftedByRegister(s, KindOf(f), f)
            else if KindOf(f) == ROR && ShiftImm(f) == 0 then Shifted(f, stray)
            else ShiftedByImmediate(s, KindOf(f), f)
    ensures ShiftImm(f) == 0 ==>
              ShiftedByImmediate(s, LSL, f) ==
              Iterate(LSL, 0, Shifted(ReadReg(s, RegAt(f, 0)), CarryIn(s)))
  {
  }

  // ---------------------------------------------------------------------------
  // MSR
  // ---------------------------------------------------------------------------

  method FieldBytes(fields: bv4) returns (byteMask: Word)
    ensures byteMask == ByteMask(fields)
  {
    var a := if fields & 1 != 0 then 0x0000_00FF else 0;
    var b := if fields & 2 != 0 then 0x0000_FF00 else 0;
    var c := if fields & 4 != 0 then 0x00FF_0000 else 0;
    var d := if fields & 8 != 0 then 0xFF00_0000 else 0;
    byteMask := a | b | c | d;
  }

  /** `arm_data_processing_immediate_msr`, with its register form. */
  method ArmDataProcessingImmediateMsr(p: ArmCore, ins: Word)
    requires p.Valid()
    requires Executes(p.View(), ins) && Bit(ins, 22) ==> SpsrDefined(Mode(p.View()))
    modifies p.tab
    ensures p.View() == Msr(old(p.View()), ins)
  {
    hide Bit, RegAt, Field4, ReadReg, Ror, ImmediateRotation, Passes, FlagsOf, Merge, WithPsr,
      Mode, Psr, Spsr, Touches, ByteMask, BitAnd, BitOr;
    var fields := Field4(ins, 16);
    var rm := p.ReadRegister(RegAt(ins, 0));
    var cpsr := p.ReadCpsr();
    if Passes(FlagsOf(cpsr), CondOf(ins)) {
      var operand;
      if Bit(ins, 25) {
        ImmediateRotationRange(ins);
        operand := Ror(ins & 0xFF, ImmediateRotation(ins));
      } else {
        operand := rm;
      }
      if Touches(operand, UNALLOC_MASK) { return; }
      var byteMask := FieldBytes(fields);
      var mask: Word;
      if !Bit(ins, 22) {
        var privileged := p.InAPrivilegedMode();
        if privileged {
          if Touches(operand, STATE_MASK) { return; }
          mask := BitAnd(byteMask, BitOr(USER_MASK, PRIV_MASK));
        } else {
          mask := BitAnd(byteMask, USER_MASK);
        }
        cpsr := Merge(cpsr, operand, mask);
        p.WriteCpsr(cpsr);
      } else {
        var hasSpsr := p.CurrentModeHasSpsr();
        if !hasSpsr { return; }
        var spsr := p.ReadSpsr();
        mask := BitAnd(byteMask, BitOr(BitOr(USER_MASK, PRIV_MASK), STATE_MASK));
        spsr := Merge(spsr, operand, mask);
        p.WriteSpsr(spsr);
      }
    }
  }
}
