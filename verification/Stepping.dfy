/** Fetch, dispatch and execution of one instruction (`arm_core.c`, `arm_instruction.c`,
    `arm_branch_other.c`). */
module Stepping {
  import opened Words
  import opened Machine
  import opened Alu
  import opened Shifter
  import opened Instructions
  import opened ExceptionEntry
  import opened Core
  import opened DataProcessing
  import opened Exceptions

  /** What the dispatcher does with a word. `Silent` words change nothing but the program
      counter; `Elsewhere` words are loads and stores, which are not modelled; `Halt` is the
      SWI that ends the simulation. */
  datatype Class =
    | ShiftClass | ImmediateClass | MsrClass | BranchClass | SwiClass | Silent | Halt | Elsewhere

  predicate Matches(w: Word, mask: Word, value: Word) { w & mask == value }

  /** The tests of the dispatcher, in its order, as masks on the instruction word. */
  function ClassOf(w: Word): Class {
    if Matches(w, 0x0F90_0010, 0x0100_0000) then Silent
    else if Matches(w, 0x0E00_0010, 0x0000_0000) then ShiftClass
    else if Matches(w, 0x0E00_0090, 0x0000_0010) then ShiftClass
    else if Matches(w, 0x0F90_0090, 0x0100_0010) then Silent
    else if Matches(w, 0x0E00_0090, 0x0000_0090) then Elsewhere
    else if Matches(w, 0x0FB0_0000, 0x0300_0000) then Silent
    else if Matches(w, 0x0FB0_0000, 0x0320_0000) then MsrClass
    else if Matches(w, 0x0E00_0000, 0x0200_0000) then ImmediateClass
    else if Matches(w, 0x0E00_0000, 0x0400_0000) then Elsewhere
    else if Matches(w, 0x0E00_0010, 0x0600_0000) then Elsewhere
    else if Matches(w, 0x0E00_0010, 0x0600_0010) then Silent
    else if Matches(w, 0x0E00_0000, 0x0800_0000) then Elsewhere
    else if Matches(w, 0x0E00_0000, 0x0A00_0000) then BranchClass
    else if Matches(w, 0x0E00_0000, 0x0C00_0000) then Silent
    else if Matches(w, 0x0F00_0000, 0x0E00_0000) then Silent
    else if Matches(w, 0x00FF_FFFF, 0x0012_3456) then Halt
    else SwiClass
  }

  predicate Modelled(w: Word) { ClassOf(w) != Elsewhere && ClassOf(w) != Halt }

  function FetchAddress(s: State): Word { Back4(ReadReg(s, 15)) }

  /** The stored program counter moves on before the instruction executes. */
  function Fetched(s: State): State { WithSlot(s, PC, Forward4(FetchAddress(s))) }

  /** The effect of a word on the state the fetch left. */
  function Execute(s: State, w: Word, stray: bool): State {
    match ClassOf(w)
    case ShiftClass => Process(s, w, ShiftedOperand(s, OperandField(w), stray))
    case ImmediateClass => Process(s, w, RotatedImmediate(s, OperandField(w)))
    case MsrClass => Msr(s, w)
    case BranchClass => Branch(s, w)
    case SwiClass => Enter(s, SoftwareInterrupt)
    case _ => s
  }

  /** One step on the word `w`, whether or not memory holds it. */
  function StepOn(s: State, w: Word, stray: bool): State {
    Execute(Fetched(s), w, stray)
  }

  function Step(s: State, stray: bool): State {
    StepOn(s, s.mem(FetchAddress(s)), stray)
  }

  /** The operand a data-processing word is executed with. */
  function OperandOf(f: State, w: Word, stray: bool): Shifted {
    if ClassOf(w) == ShiftClass then ShiftedOperand(f, OperandField(w), stray)
    else RotatedImmediate(f, OperandField(w))
  }

  lemma UnfoldStep(s: State, w: Word, stray: bool)
    requires ClassOf(w) == ShiftClass || ClassOf(w) == ImmediateClass
    ensures StepOn(s, w, stray) == Process(Fetched(s), w, OperandOf(Fetched(s), w, stray))
  {
  }

  /** Where the source is defined: it never reads an SPSR in a mode unknown to it. */
  predicate Defined(s: State, w: Word) {
    && ((ClassOf(w) == ShiftClass || ClassOf(w) == ImmediateClass) ==> SpsrDefinedFor(s, w))
    && (ClassOf(w) == MsrClass && Executes(s, w) && Bit(w, 22) ==> SpsrDefined(Mode(s)))
  }

  // ---------------------------------------------------------------------------
  // The routines
  // ---------------------------------------------------------------------------

  /** `arm_fetch`. */
  method ArmFetch(p: ArmCore) returns (w: Word)
    requires p.Valid()
    modifies p.tab
    ensures w == old(p.View()).mem(FetchAddress(old(p.View())))
    ensures p.View() == Fetched(old(p.View()))
  {
    hide Back4, Forward4, ReadReg;
    var pc := p.ReadRegister(15);
    var address := Back4(pc);
    w := p.ReadWord(address);
    p.WriteRegister(15, Forward4(address));
  }

  method ReadOffset(ins: Word) returns (signedImmed24: Word)
    ensures signedImmed24 == BranchOffset(ins)
  {
    hide Bit, BitAnd, BitOr, Times4;
    signedImmed24 := BitAnd(ins, 0x00FF_FFFF);
    if Bit(ins, 23) { signedImmed24 := BitOr(0xFFFF_FFC0, signedImmed24); }
    signedImmed24 := Times4(signedImmed24);
  }

  /** `arm_branch`. */
  method ArmBranch(p: ArmCore, ins: Word)
    requires p.Valid()
    modifies p.tab
    ensures p.View() == Branch(old(p.View()), ins)
  {
    hide Bit, Field4, Passes, FlagsOf, ReadReg, WriteReg, Back4, Sum, Psr, BranchOffset;
    var cpsr := p.ReadCpsr();
    if Passes(FlagsOf(cpsr), CondOf(ins)) {
      if Bit(ins, 24) {
        var link := p.ReadRegister(15);
        p.WriteRegister(14, Back4(link));
      }
      var offset := ReadOffset(ins);
      var pc := p.ReadRegister(15);
      p.WriteRegister(15, Sum(pc, offset, false));
    }
  }

  /** `arm_execute_instruction`; the exception it reports is SWI or none. `exited` stands for
      the call that ends the simulation. */
  method ArmExecuteInstruction(p: ArmCore, stray: bool) returns (result: bv8, exited: bool)
    requires p.Valid()
    requires var s := p.View();
             var w := s.mem(FetchAddress(s));
             ClassOf(w) != Elsewhere && Defined(Fetched(s), w)
    modifies p.tab
    ensures var s := old(p.View());
            var w := s.mem(FetchAddress(s));
            && (exited <==> ClassOf(w) == Halt)
            && if ClassOf(w) == SwiClass then result == 3 && p.View() == Fetched(s)
               else result == 0 && p.View() == StepOn(s, w, stray)
  {
    hide Matches, Process, ShiftedOperand, RotatedImmediate, Msr, Branch, OperandField, Enter, Fetched,
      FetchAddress, SpsrDefinedFor, Executes;
    var ins := ArmFetch(p);
    result, exited := 0, false;
    if Matches(ins, 0x0F90_0010, 0x0100_0000) {
    } else if Matches(ins, 0x0E00_0010, 0x0000_0000) {
      ArmDataProcessingShift(p, ins, stray);
    } else if Matches(ins, 0x0E00_0090, 0x0000_0010) {
      ArmDataProcessingShift(p, ins, stray);
    } else if Matches(ins, 0x0F90_0090, 0x0100_0010) {
    } else if Matches(ins, 0x0FB0_0000, 0x0300_0000) {
    } else if Matches(ins, 0x0FB0_0000, 0x0320_0000) {
      ArmDataProcessingImmediateMsr(p, ins);
    } else if Matches(ins, 0x0E00_0000, 0x0200_0000) {
      var operand, carry := Immediate(p, OperandField(ins));
      Processing(p, ins, operand, carry);
    } else if Matches(ins, 0x0E00_0010, 0x0600_0010) {
    } else if Matches(ins, 0x0E00_0000, 0x0A00_0000) {
      ArmBranch(p, ins);
    } else if Matches(ins, 0x0E00_0000, 0x0C00_0000) {
    } else if Matches(ins, 0x0F00_0000, 0x0E00_0000) {
    } else if Matches(ins, 0x00FF_FFFF, 0x0012_3456) {
      exited := true;
    } else {
      result := 3;
    }
  }

  /** `arm_step`. */
  method ArmStep(p: ArmCore, stray: bool) returns (result: bv8, exited: bool)
    requires p.Valid()
    requires var s := p.View();
             var w := s.mem(FetchAddress(s));
             ClassOf(w) != Elsewhere && Defined(Fetched(s), w)
    modifies p.tab
    ensures p.View() == Step(old(p.View()), stray)
    ensures var s := old(p.View());
            exited <==> ClassOf(s.mem(FetchAddress(s))) == Halt
  {
    hide ClassOf, FetchAddress, Fetched, Enter, Defined, Process, ShiftedOperand, RotatedImmediate, Msr, Branch;
    result, exited := ArmExecuteInstruction(p, stray);
    if result != 0 {
      ArmException(p, result);
    }
  }
}
