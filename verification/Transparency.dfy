/** User mode: what a program in it can observe and what it can reach. */
module Transparency {
  import opened Words
  import opened Machine
  import opened Alu
  import opened Shifter
  import opened Instructions
  import opened ExceptionEntry
  import opened Stepping
  import opened Frames
  import opened Unwinding

  // ---------------------------------------------------------------------------
  // User mode is closed, and sees only itself
  // ---------------------------------------------------------------------------

  /** Words that neither raise an exception nor belong to the classes left out. */
  predicate UserWord(w: Word) {
    Modelled(w) && ClassOf(w) != SwiClass
  }

  /** The program reads none of the registers in `hidden`, which handlers may overwrite. */
  predicate Ignores(w: Word, hidden: set<Reg>) {
    match ClassOf(w)
    case ShiftClass => IgnoresRn(w, hidden) && IgnoresOperand(OperandField(w), hidden)
    case ImmediateClass => IgnoresRn(w, hidden)
    case MsrClass => Bit(w, 25) || RegAt(w, 0) !in hidden
    case _ => true
  }

  /** MOV and MVN make no use of Rn. */
  predicate IgnoresRn(w: Word, hidden: set<Reg>) {
    OpOf(w).Mov? || OpOf(w).Mvn? || RegAt(w, 16) !in hidden
  }

  predicate IgnoresOperand(field: Word, hidden: set<Reg>) {
    RegAt(field, 0) !in hidden && (Bit(field, 4) ==> RegAt(field, 8) !in hidden)
  }

  /** The user-mode registers outside `hidden`, the program counter and the status register. */
  ghost predicate SameUser(a: State, b: State, hidden: set<Reg>) {
    && a.mem == b.mem && Psr(a) == Psr(b) && a.tab[PC] == b.tab[PC]
    && forall n: Reg | n < PC && n !in hidden :: a.tab[n] == b.tab[n]
  }

  /** What a user program can observe: as above, but the program counter only as it is seen. */
  ghost predicate SameView(a: State, b: State, hidden: set<Reg>) {
    && a.mem == b.mem && Psr(a) == Psr(b) && SeenPc(a.tab[PC]) == SeenPc(b.tab[PC])
    && forall n: Reg | n < PC && n !in hidden :: a.tab[n] == b.tab[n]
  }

  lemma UserReads(a: State, b: State, r: Reg, hidden: set<Reg>)
    requires SameUser(a, b, hidden) && Mode(a) == USR && (r == PC || r !in hidden)
    ensures ReadReg(a, r) == ReadReg(b, r)
  {
  }

  lemma UserWrites(a: State, b: State, r: Reg, v: Word, hidden: set<Reg>)
    requires SameUser(a, b, hidden) && Mode(a) == USR
    ensures SameUser(WriteReg(a, r, v), WriteReg(b, r, v), hidden)
    ensures Mode(WriteReg(a, r, v)) == USR
  {
  }

  lemma UserPsrWrites(a: State, b: State, v: Word, hidden: set<Reg>)
    requires SameUser(a, b, hidden)
    ensures SameUser(WithPsr(a, v), WithPsr(b, v), hidden)
  {
  }

  lemma UserOperand(a: State, b: State, field: Word, stray: bool, hidden: set<Reg>)
    requires SameUser(a, b, hidden) && Mode(a) == USR
    ensures IgnoresOperand(field, hidden) ==> ShiftedOperand(a, field, stray) == ShiftedOperand(b, field, stray)
    ensures RotatedImmediate(a, field) == RotatedImmediate(b, field)
  {
    hide RegAt, ReadReg, Bit, Iterate, KindOf, ShiftImm, ImmediateRotation, LowByte, SameUser, ModeBits;
    UserPsr(a, b, hidden);
    if IgnoresOperand(field, hidden) {
      UserReads(a, b, RegAt(field, 0), hidden);
      if Bit(field, 4) { UserReads(a, b, RegAt(field, 8), hidden); }
    }
  }

  lemma RnUnused(op: Opcode, x: Word, y: Word, operand: Word, c: bool, sc: bool)
    requires op.Mov? || op.Mvn?
    ensures AluValue(op, x, operand, c) == AluValue(op, y, operand, c)
    ensures WrittenFlags(op, x, operand, c, sc) == WrittenFlags(op, y, operand, c, sc)
  {
  }

  lemma UserCommit(a: State, b: State, op: Opcode, setFlags: bool, rd: Reg, v: Word, f: Flags, hidden: set<Reg>)
    requires SameUser(a, b, hidden) && Mode(a) == USR
    ensures SameUser(Commit(a, op, setFlags, rd, v, f), Commit(b, op, setFlags, rd, v, f), hidden)
  {
    hide WriteReg, WithPsr, WithFlags, ModeBits, SameUser, Psr;
    UserPsr(a, b, hidden);
    UserWrites(a, b, rd, v, hidden);
    UserPsrWrites(a, b, WithFlags(Psr(a), f), hidden);
    UserPsr(WriteReg(a, rd, v), WriteReg(b, rd, v), hidden);
    UserPsrWrites(WriteReg(a, rd, v), WriteReg(b, rd, v), WithFlags(Psr(WriteReg(a, rd, v)), f), hidden);
  }

  lemma UserProcess(a: State, b: State, w: Word, sh: Shifted, hidden: set<Reg>)
    requires SameUser(a, b, hidden) && Mode(a) == USR && IgnoresRn(w, hidden)
    ensures SameUser(Process(a, w, sh), Process(b, w, sh), hidden)
  {
    hide Bit, RegAt, ReadReg, Commit, FlagsOf, Passes, AluValue, WrittenFlags, OpOf, SetsFlags, ModeBits, SameUser, Psr;
    UserPsr(a, b, hidden);
    var op, c := OpOf(w), CarryIn(a);
    var x, y := ReadReg(a, RegAt(w, 16)), ReadReg(b, RegAt(w, 16));
    if op.Mov? || op.Mvn? {
      RnUnused(op, x, y, sh.operand, c, sh.carry);
    } else {
      UserReads(a, b, RegAt(w, 16), hidden);
    }
    UserCommit(a, b, op, SetsFlags(w), RegAt(w, 12), AluValue(op, x, sh.operand, c),
               WrittenFlags(op, x, sh.operand, c, sh.carry), hidden);
  }

  lemma UserPsr(a: State, b: State, hidden: set<Reg>)
    requires SameUser(a, b, hidden)
    ensures Psr(a) == Psr(b)
  {
  }

  lemma UserMsr(a: State, b: State, w: Word, hidden: set<Reg>)
    requires SameUser(a, b, hidden) && Mode(a) == USR && (Bit(w, 25) || RegAt(w, 0) !in hidden)
    ensures SameUser(Msr(a, w), Msr(b, w), hidden)
  {
    hide Bit, Field4, RegAt, ReadReg, WithPsr, FlagsOf, Passes, Merge, CpsrMask, Touches, ModeBits, SameUser,
      Ror, ImmediateRotation, Psr, Spsr;
    UserPsr(a, b, hidden);
    if !Bit(w, 25) { UserReads(a, b, RegAt(w, 0), hidden); }
    UserPsrWrites(a, b, Merge(Psr(a), MsrOperand(a, w), CpsrMask(false, Field4(w, 16))), hidden);
  }

  lemma UserBranch(a: State, b: State, w: Word, hidden: set<Reg>)
    requires SameUser(a, b, hidden) && Mode(a) == USR
    ensures SameUser(Branch(a, w), Branch(b, w), hidden)
  {
    hide Links, ReadReg, WriteReg, Back4, Sum, BranchOffset, SameUser, ModeBits, Psr, FlagsOf, Passes, CondOf;
    UserPsr(a, b, hidden);
    UserReads(a, b, 15, hidden);
    UserWrites(a, b, 14, Back4(ReadReg(a, 15)), hidden);
    var la := if Links(w) then WriteReg(a, 14, Back4(ReadReg(a, 15))) else a;
    var lb := if Links(w) then WriteReg(b, 14, Back4(ReadReg(b, 15))) else b;
    UserReads(la, lb, 15, hidden);
    UserWrites(la, lb, 15, Sum(ReadReg(la, 15), BranchOffset(w), false), hidden);
  }

  lemma UserFetch(a: State, b: State, hidden: set<Reg>)
    requires SameView(a, b, hidden)
    ensures SameUser(Fetched(a), Fetched(b), hidden) && Psr(Fetched(a)) == Psr(a)
    ensures a.mem(FetchAddress(a)) == b.mem(FetchAddress(b))
  {
  }

  /** Two states a user program cannot tell apart stay so under any word. */
  lemma UserStep(a: State, b: State, w: Word, stray: bool, hidden: set<Reg>)
    requires SameView(a, b, hidden) && Mode(a) == USR && UserWord(w) && Ignores(w, hidden)
    ensures SameUser(StepOn(a, w, stray), StepOn(b, w, stray), hidden)
  {
    hide ClassOf, Process, Msr, Branch, ShiftedOperand, RotatedImmediate, Fetched, FetchAddress, SameUser, SameView,
      ModeBits, Psr, IgnoresRn, IgnoresOperand, Bit, RegAt;
    UserFetch(a, b, hidden);
    var fa, fb := Fetched(a), Fetched(b);
    UserOperand(fa, fb, OperandField(w), stray, hidden);
    match ClassOf(w) {
      case ShiftClass => UserProcess(fa, fb, w, ShiftedOperand(fa, OperandField(w), stray), hidden);
      case ImmediateClass => UserProcess(fa, fb, w, RotatedImmediate(fa, OperandField(w)), hidden);
      case MsrClass => UserMsr(fa, fb, w, hidden);
      case BranchClass => UserBranch(fa, fb, w, hidden);
      case _ =>
    }
  }

  lemma UserIsView(a: State, b: State, hidden: set<Reg>)
    requires SameUser(a, b, hidden)
    ensures SameView(a, b, hidden)
  {
  }

  /** Memory, the mode and mask bits, and every banked or saved register are as before. */
  ghost predicate Confined(s: State, r: State) {
    && r.mem == s.mem
    && Control(Psr(r)) == Control(Psr(s))
    && forall n | CPSR < n < NBREG :: r.tab[n] == s.tab[n]
  }

  lemma TouchesConfined(s: State, r: State, dest: nat)
    requires OnlyTouches(s, r, dest) && dest <= PC
    ensures Confined(s, r)
  {
  }

  lemma UserSlots(r: Reg)
    ensures Slot(USR, r) == r
    ensures !HasSpsr(USR) && !Privileged(USR)
  {
  }

  lemma SameConfined(s: State)
    ensures Confined(s, s)
  {
  }

  lemma UserProcessConfined(s: State, w: Word, sh: Shifted)
    requires Mode(s) == USR
    ensures Confined(s, Process(s, w, sh))
  {
    hide Compares, OpOf, RegAt, Slot, Control, ModeBits, Returns, Executes, Process, Spsr, HasSpsr;
    UserSlots(RegAt(w, 12));
    if !Returns(w) {
      ProcessFrame(s, w, sh);
      TouchesConfined(s, Process(s, w, sh), Destination(s, w));
    } else if Executes(s, w) {
      ReturnFrame(s, w, sh);
    } else {
      Skipped(s, w, sh);
      SameConfined(s);
    }
  }

  lemma UserMsrConfined(s: State, w: Word)
    requires Mode(s) == USR
    ensures Confined(s, Msr(s, w))
  {
  }

  lemma ConfinedChain(s: State, f: State, r: State)
    requires Confined(s, f) && Confined(f, r)
    ensures Confined(s, r) && Mode(r) == Mode(s)
  {
    hide Control, ModeBits;
    ControlDetermines(Psr(s), Psr(r));
  }

  lemma UserBranchConfined(s: State, w: Word)
    requires Mode(s) == USR
    ensures Confined(s, Branch(s, w))
  {
    hide Branch, Links, Slot, OnlyTouches, Confined, ModeBits;
    UserSlots(14);
    BranchFrame(s, w);
    TouchesConfined(s, Branch(s, w), if Links(w) then Slot(Mode(s), LR) else PC);
  }

  lemma UserStepConfined(s: State, w: Word, stray: bool)
    requires Mode(s) == USR && UserWord(w)
    ensures Confined(s, StepOn(s, w, stray)) && Mode(StepOn(s, w, stray)) == USR
  {
    hide ClassOf, Process, Msr, Branch, ShiftedOperand, RotatedImmediate, Fetched, ModeBits, Confined, OnlyTouches,
      Psr;
    FetchFrame(s);
    var f, r := Fetched(s), StepOn(s, w, stray);
    TouchesConfined(s, f, PC);
    match ClassOf(w) {
      case ShiftClass => UserProcessConfined(f, w, ShiftedOperand(f, OperandField(w), stray));
      case ImmediateClass => UserProcessConfined(f, w, RotatedImmediate(f, OperandField(w)));
      case MsrClass => UserMsrConfined(f, w);
      case BranchClass => UserBranchConfined(f, w);
      case _ => SameConfined(f);
    }
    ConfinedChain(s, f, r);
  }

  /** Code without exceptions. */
  predicate UserCode(t: Trace) {
    t.Done? || (t.Exec? && UserWord(t.w) && UserCode(t.next))
  }

  /** No run of user code changes the mode, an interrupt mask, or any register of another
      mode, saved status registers included. */
  lemma {:induction false} UserModeClosed(s: State, t: Trace)
    requires Mode(s) == USR && UserCode(t)
    ensures Confined(s, Run(s, t)) && Mode(Run(s, t)) == USR
    decreases t
  {
    hide StepOn, UserWord, Control, ModeBits;
    match t
    case Done =>
    case Exec(w, stray, next) =>
      UserStepConfined(s, w, stray);
      UserModeClosed(StepOn(s, w, stray), next);
  }

  /** One step leaves user mode exactly when it is a software interrupt. */
  lemma OnlySwiLeavesUserMode(s: State, w: Word, stray: bool)
    requires Mode(s) == USR && Modelled(w)
    ensures Mode(StepOn(s, w, stray)) == USR <==> ClassOf(w) != SwiClass
  {
    hide ClassOf, Fetched, Enter, ModeBits;
    if ClassOf(w) == SwiClass {
      EnterExact(Fetched(s), SoftwareInterrupt);
      assert ModeOf(SoftwareInterrupt) != USR;
    } else {
      UserStepConfined(s, w, stray);
    }
  }
}
