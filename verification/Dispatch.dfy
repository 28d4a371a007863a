/** Whether a word executes and which routine it reaches, read off its bits. */
module Dispatch {
  import opened Words
  import opened Machine
  import opened Instructions
  import opened Stepping

  lemma DataGroupTests(w: Word)
    ensures Matches(w, 0x0F90_0010, 0x0100_0000) <==> w & 0x0E00_0000 == 0 && w & 0x0190_0010 == 0x0100_0000
    ensures Matches(w, 0x0E00_0010, 0x0000_0000) <==> w & 0x0E00_0000 == 0 && w & 0x10 == 0
    ensures Matches(w, 0x0E00_0090, 0x0000_0010) <==> w & 0x0E00_0000 == 0 && w & 0x90 == 0x10
    ensures Matches(w, 0x0E00_0090, 0x0000_0090) <==> w & 0x0E00_0000 == 0 && w & 0x90 == 0x90
    ensures Matches(w, 0x0F90_0090, 0x0100_0010) ==> w & 0x0E00_0000 == 0 && w & 0x90 == 0x10
    ensures w & 0x0190_0010 == 0x0100_0000 ==> w & 0x10 == 0
    ensures w & 0x10 == 0 ==> w & 0x90 != 0x90 && w & 0x90 != 0x10
    ensures w & 0x10 != 0 ==> w & 0x90 == 0x90 || w & 0x90 == 0x10
  {
  }

  lemma ImmediateGroupTests(w: Word)
    ensures Matches(w, 0x0FB0_0000, 0x0300_0000) <==> w & 0x0E00_0000 == 0x0200_0000 && w & 0x01B0_0000 == 0x0100_0000
    ensures Matches(w, 0x0FB0_0000, 0x0320_0000) <==> w & 0x0E00_0000 == 0x0200_0000 && w & 0x01B0_0000 == 0x0120_0000
    ensures Matches(w, 0x0E00_0000, 0x0200_0000) <==> w & 0x0E00_0000 == 0x0200_0000
  {
  }

  lemma MemoryGroupTests(w: Word)
    ensures Matches(w, 0x0E00_0000, 0x0400_0000) <==> w & 0x0E00_0000 == 0x0400_0000
    ensures Matches(w, 0x0E00_0010, 0x0600_0000) <==> w & 0x0E00_0000 == 0x0600_0000 && w & 0x10 == 0
    ensures Matches(w, 0x0E00_0010, 0x0600_0010) <==> w & 0x0E00_0000 == 0x0600_0000 && w & 0x10 != 0
    ensures Matches(w, 0x0E00_0000, 0x0800_0000) <==> w & 0x0E00_0000 == 0x0800_0000
  {
  }

  lemma ControlGroupTests(w: Word)
    ensures Matches(w, 0x0E00_0000, 0x0A00_0000) <==> w & 0x0E00_0000 == 0x0A00_0000
    ensures Matches(w, 0x0E00_0000, 0x0C00_0000) <==> w & 0x0E00_0000 == 0x0C00_0000
  {
  }

  lemma LastGroupTest(w: Word)
    ensures Matches(w, 0x0F00_0000, 0x0E00_0000) <==> w & 0x0E00_0000 == 0x0E00_0000 && w & 0x0100_0000 == 0
  {
  }

  lemma HaltTest(w: Word)
    ensures Matches(w, 0x00FF_FFFF, 0x0012_3456) <==> w & 0x00FF_FFFF == 0x0012_3456
  {
  }

  lemma EightGroups(w: Word)
    ensures w & 0x0E00_0000 in {0, 0x0200_0000, 0x0400_0000, 0x0600_0000,
                                0x0800_0000, 0x0A00_0000, 0x0C00_0000, 0x0E00_0000}
  {
  }

  /** The class of every word, by bits 27 to 25 and then the bits that tell words of a group
      apart; the order of the dispatcher's tests is not needed to read it. */
  lemma ClassExact(w: Word)
    ensures var group := w & 0x0E00_0000;
            ClassOf(w) ==
            if group == 0 then
              if w & 0x90 == 0x90 then Elsewhere
              else if w & 0x0190_0010 == 0x0100_0000 then Silent
              else ShiftClass
            else if group == 0x0200_0000 then
              if w & 0x01B0_0000 == 0x0100_0000 then Silent
              else if w & 0x01B0_0000 == 0x0120_0000 then MsrClass
              else ImmediateClass
            else if group == 0x0600_0000 then
              if w & 0x10 == 0 then Elsewhere else Silent
            else if group == 0x0A00_0000 then BranchClass
            else if group == 0x0C00_0000 then Silent
            else if group == 0x0E00_0000 then
              if w & 0x0100_0000 == 0 then Silent
              else if w & 0x00FF_FFFF == 0x0012_3456 then Halt
              else SwiClass
            else Elsewhere
  {
    hide Matches;
    DataGroupTests(w);
    ImmediateGroupTests(w);
    MemoryGroupTests(w);
    ControlGroupTests(w);
    LastGroupTest(w);
    HaltTest(w);
    EightGroups(w);
  }

  lemma FlagBits(psr: Word)
    ensures FlagsOf(psr) == Flags(psr & 0x8000_0000 != 0, psr & 0x4000_0000 != 0,
                                  psr & 0x2000_0000 != 0, psr & 0x1000_0000 != 0)
  {
  }

  lemma CondBits(w: Word)
    ensures CondOf(w) == ((w >> 28) & 15) as bv4
  {
  }

  /** Whether a word executes: its top four bits against the top four of the CPSR. */
  lemma ConditionExact(s: State, w: Word)
    ensures var cond, psr := ((w >> 28) & 15) as bv4, s.tab[16];
            var n, z := psr & 0x8000_0000 != 0, psr & 0x4000_0000 != 0;
            var c, v := psr & 0x2000_0000 != 0, psr & 0x1000_0000 != 0;
            Executes(s, w) <==>
            match cond
            case 0 => z
            case 1 => !z
            case 2 => c
            case 3 => !c
            case 4 => n
            case 5 => !n
            case 6 => v
            case 7 => !v
            case 8 => c && !z
            case 9 => !(c && !z)
            case 10 => n == v
            case 11 => n != v
            case 12 => !z && n == v
            case 13 => z || n != v
            case _ => true
  {
    hide CondOf, FlagsOf;
    CondBits(w);
    FlagBits(s.tab[16]);
  }
}
