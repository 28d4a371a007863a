/** The processor state of `registers.c` and `arm_core.c` as a value: the 37
    physical registers and the word memory. */
module Machine {
  import opened Words

  // Processor modes.
  const USR: Word := 0x10
  const FIQ: Word := 0x11
  const IRQ: Word := 0x12
  const SVC: Word := 0x13
  const ABT: Word := 0x17
  const UND: Word := 0x1b
  const SYS: Word := 0x1f

  // Layout of the register table.
  const NBREG: nat := 37
  const LR: nat := 14
  const PC: nat := 15
  const CPSR: nat := 16

  /** Reading the word memory at an address; no modelled operation writes it. */
  type Memory = Word -> Word

  datatype Store = Store(tab: seq<Word>, mem: Memory)
  type State = s: Store | |s.tab| == NBREG witness Store(seq(37, _ => 0), _ => 0)

  /** A register number as it appears in an instruction. */
  type Reg = r: nat | r < 16

  /** The modes with a bank of their own, hence with an SPSR. */
  predicate Banked(mode: Word) {
    mode == FIQ || mode == IRQ || mode == SVC || mode == ABT || mode == UND
  }

  /** The physical register behind register `r` in `mode` (section A2.3 of ARM DDI 0100). */
  function Slot(mode: Word, r: Reg): (n: nat)
    ensures n < NBREG
    ensures r == 15 ==> n == 15
    ensures n != CPSR
    ensures r < 8 ==> n == r
  {
    if mode == FIQ && 8 <= r <= 14 then 21 + r
    else if mode == IRQ && 13 <= r <= 14 then 13 + r
    else if mode == UND && 13 <= r <= 14 then 10 + r
    else if mode == ABT && 13 <= r <= 14 then 7 + r
    else if mode == SVC && 13 <= r <= 14 then 4 + r
    else r
  }

  /** The physical saved status register of a mode. In a mode that has none the
      source uses an uninitialised variable; no operation below is called there. */
  function SpsrSlot(mode: Word): (n: nat)
    ensures 19 <= n < NBREG
  {
    if mode == SVC then 19 else if mode == ABT then 22 else if mode == UND then 25
    else if mode == IRQ then 28 else 36
  }

  function Psr(s: State): Word { s.tab[CPSR] }

  function Mode(s: State): Word { ModeBits(Psr(s)) }

  function Spsr(s: State, mode: Word): Word { s.tab[SpsrSlot(mode)] }

  function Link(s: State, mode: Word): Word { s.tab[Slot(mode, LR)] }

  /** Bit 1 of the program counter is never seen. */
  function Align(pc: Word): Word { pc & 0xFFFF_FFFD }

  /** What an instruction sees of the stored program counter `pc`. */
  function SeenPc(pc: Word): Word { Align(Forward4(pc)) }

  function Back4(address: Word): Word { address - 4 }

  function Forward4(address: Word): Word { address + 4 }

  function ReadReg(s: State, r: Reg): Word {
    if r == 15 then SeenPc(s.tab[PC]) else s.tab[Slot(Mode(s), r)]
  }

  function WithSlot(s: State, n: nat, v: Word): State
    requires n < NBREG
  {
    s.(tab := s.tab[n := v])
  }

  function WriteReg(s: State, r: Reg, v: Word): State {
    WithSlot(s, Slot(Mode(s), r), v)
  }

  function WithPsr(s: State, v: Word): State {
    WithSlot(s, CPSR, v)
  }

  /** No register write reaches the status registers. */
  lemma WriteRegKeeps(s: State, r: Reg, v: Word)
    ensures Psr(WriteReg(s, r, v)) == Psr(s)
    ensures Mode(WriteReg(s, r, v)) == Mode(s)
  {
  }

  predicate HasSpsr(mode: Word) { mode != USR && mode != SYS }

  predicate Privileged(mode: Word) { mode != USR }

  /** Whether a mode keeps its own copy of a register. */
  predicate Private(mode: Word, r: Reg) {
    (mode == FIQ && 8 <= r <= 14) || (Banked(mode) && 13 <= r <= 14)
  }

  /** Banking is exact: two (mode, register) pairs share storage precisely when
      they name the same register and are the same bank or both unbanked. */
  lemma SlotExact(m1: Word, r1: Reg, m2: Word, r2: Reg)
    ensures Slot(m1, r1) == Slot(m2, r2) <==>
            r1 == r2 && (m1 == m2 || (!Private(m1, r1) && !Private(m2, r2)))
    ensures Banked(m2) ==> Slot(m1, r1) != SpsrSlot(m2)
  {
  }

  /** Each mode with an SPSR has its own. */
  lemma SpsrSlotExact(m1: Word, m2: Word)
    requires Banked(m1) && Banked(m2)
    ensures SpsrSlot(m1) == SpsrSlot(m2) <==> m1 == m2
  {
  }
}
