/** The mutable processor of `registers.c` and `arm_core.c`. */
module Core {
  import opened Words
  import opened Machine

  /** `(read_cpsr(r) >> 5) << 5 | mode`. */
  function WithMode(psr: Word, mode: Word): Word {
    ((psr >> 5) << 5) | mode
  }

  class ArmCore {
    const tab: array<Word>
    var mem: Memory

    ghost predicate Valid() {
      tab.Length == NBREG
    }

    ghost function View(): State
      requires Valid()
      reads this, tab
    {
      Store(tab[..], mem)
    }

    /** `garbage` is what the freshly allocated register table happens to hold. */
    constructor (garbage: seq<Word>, mem: Memory)
      requires |garbage| == NBREG
      ensures Valid() && fresh(tab)
      ensures View() == WithPsr(Store(garbage, mem), USR)
    {
      this.mem := mem;
      tab := new Word[NBREG](i requires 0 <= i < NBREG => garbage[i]);
      new;
      assert tab[..] == garbage;
      tab[CPSR] := USR;
    }

    /** The register selection shared by read_register and write_register; in abort
        mode the second switch runs on the register the first one chose. */
    static method SelectSlot(mode: Word, reg: Reg) returns (n: nat)
      ensures n == Slot(mode, reg)
    {
      n := reg;
      if mode == IRQ {
        if n == 13 { n := 26; } else if n == 14 { n := 27; }
      } else if mode == ABT || mode == UND {
        if mode == ABT {
          if n == 13 { n := 20; } else if n == 14 { n := 21; }
        }
        if n == 13 { n := 23; } else if n == 14 { n := 24; }
      } else if mode == SVC {
        if n == 13 { n := 17; } else if n == 14 { n := 18; }
      } else if mode == FIQ {
        if n == 8 { n := 29; } else if n == 9 { n := 30; } else if n == 10 { n := 31; }
        else if n == 11 { n := 32; } else if n == 12 { n := 33; } else if n == 13 { n := 34; }
        else if n == 14 { n := 35; }
      }
    }

    /** The saved status register of the current mode. */
    static method SelectSpsr(mode: Word) returns (n: nat)
      requires Banked(mode)
      ensures n == SpsrSlot(mode)
    {
      if mode == IRQ { n := 28; } else if mode == FIQ { n := 36; } else if mode == SVC { n := 19; }
      else if mode == ABT { n := 22; } else { n := 25; }
    }

    method GetMode() returns (mode: Word)
      requires Valid()
      ensures mode == Mode(View())
    {
      mode := tab[CPSR] & 31;
    }

    method ReadRegister(reg: Reg) returns (value: Word)
      requires Valid()
      ensures value == ReadReg(View(), reg)
    {
      var mode := GetMode();
      var n := SelectSlot(mode, reg);
      value := tab[n];
      if reg == 15 {
        value := Forward4(value);
        value := Align(value);
      }
    }

    method WriteRegister(reg: Reg, value: Word)
      requires Valid()
      modifies tab
      ensures View() == WriteReg(old(View()), reg, value)
    {
      var mode := GetMode();
      var n := SelectSlot(mode, reg);
      tab[n] := value;
    }

    method WriteUsrRegister(reg: Reg, value: Word)
      requires Valid()
      modifies tab
      ensures View() == WithSlot(old(View()), reg, value)
    {
      tab[reg] := value;
    }

    method ReadCpsr() returns (value: Word)
      requires Valid()
      ensures value == Psr(View())
    {
      value := tab[CPSR];
    }

    method WriteCpsr(value: Word)
      requires Valid()
      modifies tab
      ensures View() == WithPsr(old(View()), value)
    {
      tab[CPSR] := value;
    }

    method ReadSpsr() returns (value: Word)
      requires Valid() && Banked(Mode(View()))
      ensures value == Spsr(View(), Mode(View()))
    {
      var mode := GetMode();
      var n := SelectSpsr(mode);
      value := tab[n];
    }

    method WriteSpsr(value: Word)
      requires Valid() && Banked(Mode(View()))
      modifies tab
      ensures View() == WithSlot(old(View()), SpsrSlot(Mode(old(View()))), value)
    {
      var mode := GetMode();
      var n := SelectSpsr(mode);
      tab[n] := value;
    }

    method SetMode(mode: Word)
      requires Valid()
      modifies tab
      ensures View() == WithPsr(old(View()), WithMode(Psr(old(View())), mode))
    {
      tab[CPSR] := WithMode(tab[CPSR], mode);
    }

    method CurrentModeHasSpsr() returns (b: bool)
      requires Valid()
      ensures b == HasSpsr(Mode(View()))
    {
      var mode := GetMode();
      b := mode != USR && mode != SYS;
    }

    method InAPrivilegedMode() returns (b: bool)
      requires Valid()
      ensures b == Privileged(Mode(View()))
    {
      var mode := GetMode();
      b := mode != USR;
    }

    method ReadWord(address: Word) returns (value: Word)
      ensures value == mem(address)
    {
      value := mem(address);
    }
  }
}
