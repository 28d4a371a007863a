# A verified model of the ARMv5 simulator's instruction and exception core

The simulator executes ARMv5 programs on a register table with banked registers, one saved
status register per exception mode, and a word memory. This project models its
data-processing instructions, MSR, branches, dispatch, exception entry and exception return,
and proves what they guarantee over single steps and over whole runs. To check
everything, run `dafny verify dfyconfig.toml` in this directory.

## How the project is organised

Each C routine is a method on the mutable processor `Core.ArmCore` (an array of 37 registers
and a memory), proved against a function on the value `Machine.State`; the properties are
lemmas about those functions.

- `Words`, `Machine`: 32-bit words, flags and conditions; the register table, banking, the
  program counter as instructions see it.
- `Alu`, `FlagMeaning`, `MultiWord`: the sixteen operations; the flags the simulator computes,
  the flags the ARM Architecture Reference Manual (ARM DDI 0100) asks for, and exactly when
  they agree.
- `Shifter`: the barrel shifter as a machine that moves one bit at a time, and the closed forms
  used in its place.
- `Instructions`, `Stepping`, `ExceptionEntry`: what instructions, dispatch and exceptions do to
  a state.
- `Core`, `DataProcessing`, `Exceptions`: the routines themselves, with `Stepping` for fetch,
  branch and dispatch.
- `Dispatch`, `OperandLaws`, `DataLaws`, `MsrWords`, `FlowLaws`, `EntryLaws`: what each operation
  means, stated on instruction bits, register contents and addresses, independently of the
  functions the routines are proved against.
- `Frames`, `StraightLine`: what one instruction, or a straight run of them, can reach.
- `LimbPrograms`: multi-word addition and subtraction as runs of instructions.
- `Unwinding`, `Reentry`: nested exceptions return to where they were taken exactly when no two
  open frames share a mode.
- `Transparency`, `Interruption`: user mode is closed, and a user program ends in the same
  observable state with and without the exceptions that interrupt it.
- `Masking`: interrupt handlers are never re-entered, over arbitrary runs.
- `MsrLaws`, `Determinacy`, `Departures`: algebra of MSR, dependence on unassigned variables,
  and consequences of the places where the code departs from the architecture.

In long proofs `hide` keeps definitions out of a proof that only needs lemmas about them.

Registers and banking follow registers.c and arm_core.c, bit helpers and conditions util.c,
mode numbers and MSR masks arm_constants.h, dispatch arm_instruction.c, and branches and SWI
arm_branch_other.c, all under arm_simulator-1.4. Those files are not UTF-8 text, and the rows
below about them name their lines in the last column and cite, in the second, the lines of
another file that describe or use the same behaviour.

## Where the code departs from the architecture

The model follows the code. In each case below the exact condition under which the code still
meets the architecture, or the exact consequence, is a lemma.

- Arithmetic never sets C, and sets V exactly when both operands are negative and the result is
  not zero; bitwise operations clear V (`WrittenFlagsExact`, `WrittenConditionsExact`,
  `WrittenAddChainExact`, `WrittenSubChainExact`, `AddProgramExact`,
  `SubProgramExact`, `CarryIsLost`). `ManualFlags`, `ManualCarry` and
  `ManualOverflow` are the repaired versions and are used for nothing else.
- ROR #0 (RRX) assigns neither operand nor carry: the operand is the encoding's own low twelve
  bits and the carry is whatever the variable held (`RrxOperandExact`, `DeterminateExactly`).
- Backward branches fill the sign in from bit 6 instead of bit 24 (`BranchOffsetExact`).
- The register-shift test precedes the test for miscellaneous instructions, so BX, BLX, CLZ, BKPT
  and the rest of that group run as comparisons (`MiscellaneousCompares`).
- Abort entry changes the mode only: T and I are computed and dropped (`EntryPsrExact`).
- The masks of MSR leave I and F out of reach (`MsrNeverMasks`).
- The program counter loses bit 1 when an exception is taken, which no instruction can observe
  (`Unwinds`, `ResumeInvisible`).
- Nothing gates interrupts: the socket listener raises whatever byte it reads
  (arm_simulator-1.4/arm_simulator.c:99-101). Masking is therefore proved for runs in which
  interrupts are raised only when unmasked, and `UnwindsExactly` says what is lost otherwise.
- SWI ignores its condition field; dispatch ignores the decoders' return values.

## Model

| member | source | states |
|---|---|---|
| Reentry.UnwindsExactly | arm_simulator-1.4/arm_exception.c:71-132 | From user or system mode, any nested run of exceptions, handlers and returns ends with the control bits it started with if and only if no frame is opened in the mode of a frame still open; when nothing else runs at the outermost level, the same holds of the whole CPSR and the program counter as seen |
| Unwinding.Unwinds | arm_simulator-1.4/arm_exception.c:78-132 | From any mode, a well-nested run of frames restores the CPSR bit for bit and the program counter up to bit 1 |
| Unwinding.RunKeepsOpen | arm_simulator-1.4/arm_data_processing.c:279-307 | Handler bodies of conditional data processing, flag-only MSR and branches, with frames nested in them, change no control bit and no open frame's r14 or SPSR |
| DataLaws.HandlerWordsExact | arm_simulator-1.4/arm_data_processing.c:279-286 | Exactly which words a handler body may use in the nesting theorems, and which are returns, bit by bit |
| Unwinding.CallUnwinds | arm_simulator-1.4/Examples/test_interruption.s:4-30 | A handler that kept its own r14 and SPSR returns, by MOVS PC, LR or SUBS PC, LR, #4, to the interrupted CPSR and address |
| Unwinding.EnterExact | arm_simulator-1.4/arm_exception.c:78-132 | Entry yields the target mode, the old CPSR in its SPSR, the return address in its r14, the vector's word in r15, and every other register as before |
| Unwinding.ReturnExact | arm_simulator-1.4/arm_data_processing.c:279-286 | A return sequence installs the SPSR of the mode it runs in, resumes at that mode's r14 (less 4 after an abort), and writes nothing else |
| Unwinding.ResumeIsAlign | arm_simulator-1.4/arm_exception.c:80-86 | The resumed address is the interrupted one with bit 1 cleared |
| Unwinding.ResumeInvisible | arm_simulator-1.4/arm_exception.c:80-86 | Losing bit 1 of the program counter happens once and cannot be seen by an instruction |
| Reentry.ReentryNeverReturns | arm_simulator-1.4/arm_exception.c:84-87 | Opening a frame in the mode of an open one traps the machine in a loop of saved modes that no further entry, return or handler code leaves |
| Reentry.TrappedRun | arm_simulator-1.4/arm_exception.c:71-132 | Being trapped in a loop of modes survives every run |
| Masking.InterruptsNeverNest | arm_simulator-1.4/arm_exception.c:89-102 | From any state, over any run of instructions and exceptions with returns anywhere, gated only by I and F: no IRQ under an open IRQ or FIQ handler, no FIQ under an FIQ handler, and the open handler's interrupt stays masked |
| Masking.InterruptsAreSeparated | arm_simulator-1.4/arm_exception.c:80-102 | The same without bookkeeping: between two IRQs of a run, and between an FIQ and a later IRQ or FIQ, lies a return executed in the mode of the first, or a reset |
| Masking.TakesReturnExact | arm_simulator-1.4/arm_data_processing.c:279-286 | Such a return is an executed data-processing word that is no comparison, with S set and Rd 15 |
| Masking.MaskingHolds | arm_simulator-1.4/arm_exception.c:89-132 | The invariant behind it: the current and every saved status register in use since a handler started masks its interrupt and stays within the modes entered since, nested aborts included |
| Masking.InvTick | arm_simulator-1.4/arm_data_processing.c:279-307 | Every instruction, returns included, keeps that invariant |
| Masking.InvSignal | arm_simulator-1.4/arm_exception.c:30-69 | Every allowed exception keeps that invariant |
| Masking.MsrSameGuards | arm_simulator-1.4/arm_data_processing.c:95-123 | An MSR without the control field, or one whose operand has the mode bits the destination has already, moves no mode and no mask, in the CPSR or an SPSR |
| Departures.ControlFieldEscapes | arm_simulator-1.4/arm_data_processing.c:103-113 | Why MSR must not change the mode: an IRQ handler that switches to supervisor mode and returns installs the stale supervisor SPSR |
| Departures.ControlFieldNests | arm_simulator-1.4/arm_data_processing.c:103-113 | If that SPSR enables IRQs, the next IRQ is taken inside the handler still open, and the mode change is the only event the masking theorem does not allow |
| Interruption.InterruptionsInvisible | arm_simulator-1.4/arm_exception.c:71-132 | A user program interrupted by handlers that write only registers private to their modes and registers the program never reads ends in the same observable state as the program run alone; and the words it executes are those memory holds at the fetch addresses if and only if they are so when it runs alone |
| Interruption.CallInvisible | arm_simulator-1.4/arm_exception.c:78-132 | One such interruption changes no user register outside the hidden ones, no CPSR bit, no memory word and not the visible program counter |
| Interruption.PrivateRun | arm_simulator-1.4/arm_data_processing.c:279-281 | Such handler code and whatever nests in it leave every user register outside the hidden ones alone |
| Interruption.ExampleHandlerPrivate | arm_simulator-1.4/Examples/test_interruption.s:4-30 | The body of each handler of the example, a MOV of a constant to r1, is such code once r1 is hidden |
| Transparency.UserStep | arm_simulator-1.4/arm_data_processing.c:129-293 | States that differ only in registers a user program does not read stay so under every modelled word |
| Transparency.UserModeClosed | arm_simulator-1.4/arm_data_processing.c:89-122 | No run of user code changes the mode, T, F, I, memory, an SPSR or another mode's register |
| Transparency.OnlySwiLeavesUserMode | arm_simulator-1.4/arm_exception.c:44-47 | A step leaves user mode if and only if it is a software interrupt |
| Shifter.ByIsIterated | arm_simulator-1.4/arm_data_processing.c:346-523 | For 1 to 31 positions the closed value and carry of each shift equal that many one-bit steps |
| Shifter.LslBeyond | arm_simulator-1.4/arm_data_processing.c:379-387 | LSL by 32 or more, value and carry, against the one-bit machine |
| Shifter.LsrBeyond | arm_simulator-1.4/arm_data_processing.c:423-430 | LSR by 32 or more |
| Shifter.AsrBeyond | arm_simulator-1.4/arm_data_processing.c:476-486 | ASR by 32 or more fills value and carry with the sign |
| Shifter.RorModulo | arm_simulator-1.4/arm_data_processing.c:511-522 | ROR by any positive amount depends on its low five bits, multiples of 32 included |
| OperandLaws.IterateIsBarrel | arm_simulator-1.4/arm_data_processing.c:346-523 | For every amount 0 to 255 the one-bit machine gives the table of section A5.1, value and carry |
| OperandLaws.ImmediateExact | arm_simulator-1.4/arm_data_processing.c:324-335 | The rotated immediate from its own bits: the byte rotated right by twice bits 11 to 8, carry the top bit unless not rotated |
| OperandLaws.ShiftedExact | arm_simulator-1.4/arm_data_processing.c:32-64 | Every register operand from its own bits: kind, amount, zero amounts included, the low byte of Rs, and the encodings that assign nothing |
| DataProcessing.RmLslRs | arm_simulator-1.4/arm_data_processing.c:363-388 | For every Rm, C and amount 0 to 255 the operand and carry equal that many one-bit left shifts |
| DataProcessing.RmLsrRs | arm_simulator-1.4/arm_data_processing.c:407-431 | The same for LSR |
| DataProcessing.RmAsrRs | arm_simulator-1.4/arm_data_processing.c:459-487 | The same for ASR |
| DataProcessing.RmRorRs | arm_simulator-1.4/arm_data_processing.c:503-523 | The same for ROR |
| DataProcessing.RmLslShiftImm | arm_simulator-1.4/arm_data_processing.c:346-361 | The immediate form equals its amount of one-bit shifts |
| DataProcessing.RmLsrShiftImm | arm_simulator-1.4/arm_data_processing.c:390-404 | The same, zero meaning 32 |
| DataProcessing.RmAsrShiftImm | arm_simulator-1.4/arm_data_processing.c:434-456 | The same, zero meaning 32 |
| DataProcessing.RmRorShiftImm | arm_simulator-1.4/arm_data_processing.c:489-501 | The same for non-zero amounts; zero leaves operand and carry unassigned |
| DataProcessing.Rm | arm_simulator-1.4/arm_data_processing.c:337-343 | The plain register operand with the C flag |
| DataProcessing.Immediate | arm_simulator-1.4/arm_data_processing.c:324-335 | The rotated immediate equals rotating the byte one bit at a time by twice the field |
| DataProcessing.DecodeShift | arm_simulator-1.4/arm_data_processing.c:32-64 | The two chains of tests are total and each test selects exactly the shift named by bits 6 and 5 |
| DataProcessing.ArmDataProcessingShift | arm_simulator-1.4/arm_data_processing.c:32-68 | The whole routine: decode, shift, process |
| Determinacy.ImmediateAgreesWithRegister | arm_simulator-1.4/arm_data_processing.c:346-523 | An immediate shift and a register shift by the amount it stands for give the same operand and carry |
| Determinacy.DeterminateExactly | arm_simulator-1.4/arm_data_processing.c:35-66 | The next state is independent of the unassigned carry variable if and only if the word is not an executed RRX whose carry reaches the flags |
| Determinacy.RrxOperandExact | arm_simulator-1.4/arm_data_processing.c:494-496 | When the operand used for RRX is the architectural one: C clear and half of Rm equal to the encoding |
| Determinacy.RrxFails | arm_simulator-1.4/arm_data_processing.c:494-496 | MOVS r0, r0, RRX uses 0x60 as its operand, which is wrong in every state with C set, and its C depends on the unassigned variable in every state |
| DataProcessing.Result | arm_simulator-1.4/arm_data_processing.c:140-277 | The 64-bit carrier of all sixteen opcodes holds the zero- or sign-extended 32-bit result |
| DataProcessing.CarrierToFlags | arm_simulator-1.4/arm_data_processing.c:148-277 | Z and N of the carrier are those of the word; the carry and overflow tests on it yield the written C and V |
| DataLaws.ResultExact | arm_simulator-1.4/arm_data_processing.c:140-277 | For each of the sixteen codes the result is the manual's: a number modulo 2^32, or a Boolean function of the operand bits |
| DataLaws.FlagsExact | arm_simulator-1.4/arm_data_processing.c:148-277 | Every code and operand, flag by flag: Z if and only if the result is zero, N its bit 31, C the shifter carry of a bitwise code and otherwise clear, V set if and only if the code is arithmetic, both operands are negative and the result is not zero |
| DataLaws.DataWordExact | arm_simulator-1.4/arm_data_processing.c:129-293 | The whole effect of an executed word, from its bits: which value of Rn and operand, which result, where it goes, which flags, when the saved status register returns, and that nothing else changes |
| DataLaws.OperandExact | arm_simulator-1.4/arm_data_processing.c:32-68 | Bit 25 chooses between the immediate and the register operand in the low twelve bits |
| DataProcessing.CarrierFlags | arm_simulator-1.4/arm_data_processing.c:309-319 | Zero, bit 31, bit 32 and sign of the carrier in terms of the 32-bit result |
| DataProcessing.OverflowOnCarrier | arm_simulator-1.4/arm_data_processing.c:317-319 | On a zero-extended result the overflow test is: both operands negative and result not zero |
| DataProcessing.UpdateFlags | arm_simulator-1.4/arm_data_processing.c:295-307 | The four flag bits replaced, the rest kept |
| Words.WithFlagsExact | arm_simulator-1.4/arm_data_processing.c:295-307 | Writing flags sets exactly those flags and keeps bits 27 to 0 |
| DataProcessing.Processing | arm_simulator-1.4/arm_data_processing.c:129-293 | The whole routine, condition, result, flags and return path |
| StraightLine.ProcessExact | arm_simulator-1.4/arm_data_processing.c:279-292 | A passed condition delivers the result to Rd unless comparing, and the flags if comparing or S is set; a failed one is a no-op |
| StraightLine.BitwiseMeaning | arm_simulator-1.4/arm_data_processing.c:149-260 | Each bit of a bitwise result is the opcode's Boolean function of the same operand bits |
| Alu.UnsignedMeaning | arm_simulator-1.4/arm_data_processing.c:165-276 | Every arithmetic result is the true unsigned result modulo 2^32, and bit 32 of the widened sum is its carry |
| FlagMeaning.SignedMeaning | arm_simulator-1.4/arm_data_processing.c:165-276 | Every arithmetic result, read as signed, is the true signed result modulo 2^32 |
| FlagMeaning.OverflowBySigns | arm_simulator-1.4/arm_data_processing.c:317-319 | True signed overflow in terms of three signs, for additions and for subtractions |
| FlagMeaning.WrittenFlagsExact | arm_simulator-1.4/arm_data_processing.c:148-276 | The exact operands on which the simulator's flags are the manual's |
| FlagMeaning.WrittenOverflowExact | arm_simulator-1.4/arm_data_processing.c:317-319 | The exact operands on which V is right |
| FlagMeaning.ConditionsMeanRelations | arm_simulator-1.4/arm_data_processing.c:261-279 | With the manual's flags every condition after CMP is the relation it is named after |
| FlagMeaning.WrittenConditionsExact | arm_simulator-1.4/arm_data_processing.c:261-268 | The exact operands on which each condition after the simulator's CMP is right |
| FlagMeaning.WrittenConditionsFail | arm_simulator-1.4/arm_data_processing.c:261-268 | Each of the ten conditions that use C or V gives the wrong answer after a concrete CMP |
| MultiWord.AddChainExact | arm_simulator-1.4/arm_data_processing.c:181-196 | With the manual's carry, ADDS and ADCS over limb lists of any length give the exact sum and carry out |
| MultiWord.SubChainExact | arm_simulator-1.4/arm_data_processing.c:165-204 | SUBS and SBCS give the exact difference and not-borrow |
| MultiWord.WrittenAddChainExact | arm_simulator-1.4/arm_data_processing.c:309-311 | As written the sum is right if and only if no limb but the last carries, and its final C if and only if none does |
| MultiWord.WrittenSubChainExact | arm_simulator-1.4/arm_data_processing.c:309-315 | As written the difference is right if and only if every limb but the last borrows |
| MultiWord.WrittenAddChainFails | arm_simulator-1.4/arm_data_processing.c:181-196 | A two-limb sum the simulator gets wrong |
| MultiWord.WrittenSubChainFails | arm_simulator-1.4/arm_data_processing.c:181-204 | A two-limb difference the simulator gets wrong |
| LimbPrograms.ProgramIsChain | arm_simulator-1.4/arm_data_processing.c:129-293 | A program of flag-setting arithmetic instructions, no result overwriting a later operand, leaves the limbs of the carry chain in its destination registers and the carry in C |
| LimbPrograms.AddProgramExact | arm_simulator-1.4/arm_data_processing.c:181-196 | Run on the simulator, ADDS followed by ADCS leaves the true sum if and only if no limb but the last carries |
| LimbPrograms.SubProgramExact | arm_simulator-1.4/arm_data_processing.c:165-204 | Run on the simulator, SUBS followed by SBCS leaves the true difference if and only if every limb but the last borrows |
| LimbPrograms.TwoLimbProgramFails | arm_simulator-1.4/arm_data_processing.c:181-196 | ADDS r4, r0, r2 and ADCS r5, r1, r3 add 0xFFFFFFFF and 1 to 0 |
| StraightLine.StraightFrame | arm_simulator-1.4/arm_data_processing.c:279-307 | A straight run changes only the registers it names, the program counter and the flags |
| StraightLine.LastSetterWins | arm_simulator-1.4/arm_data_processing.c:279-307 | The final flags of a straight run are those of the last executed flag-setting instruction |
| StraightLine.NoSetterKeeps | arm_simulator-1.4/arm_data_processing.c:279-292 | Without one the flags are the initial ones |
| StraightLine.CarryIsLost | arm_simulator-1.4/arm_data_processing.c:165-212 | Whenever an arithmetic instruction was the last to set the flags, a following ADC leaves the same state as ADD, and SBC computes the result of SUB less one |
| Frames.ProcessFrame | arm_simulator-1.4/arm_data_processing.c:279-293 | A data-processing word that is not a return reaches its destination, r15 and the flags only |
| Frames.ReturnFrame | arm_simulator-1.4/arm_data_processing.c:281-286 | A return writes r15 and, in a mode with an SPSR, the whole CPSR |
| Frames.MsrFrame | arm_simulator-1.4/arm_data_processing.c:103-113 | A flag-only MSR reaches the flags only |
| Frames.BranchFrame | arm_simulator-1.4/README:50-52 | A branch (arm_branch_other.c:31-46) reaches r15, and r14 of the current mode if it links |
| DataProcessing.ArmDataProcessingImmediateMsr | arm_simulator-1.4/arm_data_processing.c:72-125 | The whole MSR routine, refusals included |
| MsrWords.MsrExact | arm_simulator-1.4/arm_data_processing.c:72-125 | The whole effect of an MSR, from its bits: which value, which status register, exactly which of its bits, when it is refused, and that nothing else changes |
| MsrWords.ValueExact | arm_simulator-1.4/arm_data_processing.c:82-91 | The value is the rotated immediate or the register |
| MsrWords.ReachExact | arm_simulator-1.4/arm_data_processing.c:95-117 | The reachable bits: flags, low mode bits outside user mode, and the state bit of an SPSR |
| MsrWords.RefusalExact | arm_simulator-1.4/arm_data_processing.c:93-120 | Exactly which writes are refused |
| MsrWords.FlagsImmediate | arm_simulator-1.4/arm_data_processing.c:90-113 | MSR CPSR_f with an immediate rotated by 4 sets the four flags to its four bits in every mode and keeps everything else |
| MsrLaws.CpsrWriteExact | arm_simulator-1.4/arm_data_processing.c:93-113 | Inside the mask the CPSR takes the operand's bits, outside it keeps its own; a refused write keeps all of it |
| MsrLaws.WritesMerge | arm_simulator-1.4/arm_data_processing.c:95-119 | Two field masks in turn equal their union, in every mode and for both destinations, also when the first write drops privilege |
| MsrLaws.WritesCommute | arm_simulator-1.4/arm_data_processing.c:95-119 | The order of fields does not matter and repetition adds nothing |
| MsrLaws.UserMsrSplits | arm_simulator-1.4/arm_data_processing.c:89-113 | In user mode the law holds of instructions under every condition, though the first may change the flags the second tests |
| MsrLaws.UnconditionalMsrSplits | arm_simulator-1.4/arm_data_processing.c:89-119 | In every mode the law holds of unconditional immediate MSRs |
| MsrLaws.MsrNeverMasks | arm_simulator-1.4/arm_data_processing.c:103-119 | No MSR changes the I or F bit of the CPSR |
| ExceptionEntry.EntryPsrExact | arm_simulator-1.4/arm_exception.c:89-102 | Mode, T, F, I and A on entry, bit by bit; aborts change the mode only; no other bit moves |
| EntryLaws.RaiseExact | arm_simulator-1.4/arm_exception.c:30-132 | What each of the 256 request bytes does: handler address from 4, 8, 12, 16, 24 or 28, mode 0x1B, 0x13, 0x17, 0x17, 0x12 or 0x11, masks, r14, SPSR, and nothing else; reset; and no effect for any other byte |
| Exceptions.ArmException | arm_simulator-1.4/arm_exception.c:30-69 | The whole routine for every request byte |
| Exceptions.SaveStateAndChangeMode | arm_simulator-1.4/arm_exception.c:78-116 | State saved, masks set, vector in r15 |
| Exceptions.GestAbort | arm_simulator-1.4/arm_exception.c:118-132 | The same for aborts, with the computed T and I dropped |
| Exceptions.BranchHandler | arm_simulator-1.4/arm_exception.c:71-75 | r15 becomes the word at the vector it held |
| Exceptions.SavedThenBranched | arm_simulator-1.4/arm_exception.c:71-116 | Saving and then branching is entering; the vector survives being read back through r15 |
| Exceptions.ArmCreate | arm_simulator-1.4/arm_exception.c:31-37 | A fresh processor (arm_core.c:38-49) is a reset one whatever its registers held |
| Departures.AbortResumesBelow | arm_simulator-1.4/Examples/test_interruption.s:8-18 | Subtracting k from r14 in an abort handler resumes k below the interrupted address plus 4, so 4 continues and 8 re-executes |
| Core.ArmCore.SelectSlot | arm_simulator-1.4/README:37-38 | The nested switches, with the missing break after abort mode, select the banked register of the current mode (registers.c:59-105) |
| Machine.SlotExact | arm_simulator-1.4/README:37-38 | Two mode and register pairs share storage if and only if they name the same register and neither mode keeps its own, or they are the same mode |
| EntryLaws.BanksExact | arm_simulator-1.4/arm_exception.c:83-87 | Which mode and register pairs share storage, by mode number: FIQ has its own r8 to r14, four other modes their own r13 and r14 |
| Machine.SpsrSlotExact | arm_simulator-1.4/arm_exception.c:84-87 | Each banked mode has its own SPSR |
| Core.ArmCore.SelectSpsr | arm_simulator-1.4/arm_data_processing.c:115-119 | The SPSR of the current mode (registers.c:116-128) |
| Core.ArmCore.ReadRegister | arm_simulator-1.4/arm_exception.c:71-73 | Banked read; r15 reads 4 ahead with bit 1 clear (arm_core.c:77-85) |
| Core.ArmCore.WriteRegister | arm_simulator-1.4/arm_exception.c:84-86 | A write goes to the register banked in the current mode (arm_core.c:109-112) |
| Core.ArmCore.SetMode | arm_simulator-1.4/arm_exception.c:83-84 | The CPSR with its mode field replaced (registers.c:45-47) |
| Core.ArmCore.ReadSpsr | arm_simulator-1.4/arm_data_processing.c:283-284 | Reads the SPSR of a mode that has one |
| Core.ArmCore.WriteSpsr | arm_simulator-1.4/arm_exception.c:87 | Writes the SPSR of a mode that has one |
| Stepping.ArmFetch | arm_simulator-1.4/README:37-38 | Fetch (arm_core.c:133-144): the word at the address seen in r15 less 4, and r15 moved past it |
| FlowLaws.FetchExact | arm_simulator-1.4/README:37-38 | A step fetches at r15 without its bit 1 and leaves r15 four past that (arm_core.c:133-144) |
| FlowLaws.StepFetches | arm_simulator-1.4/README:53-57 | The word executed is the one memory holds there (arm_core.c:138-141) |
| FlowLaws.ReadsEightAhead | arm_simulator-1.4/README:37-38 | An instruction reads r15 as eight past its own address (arm_core.c:77-85) |
| FlowLaws.LineExact | arm_simulator-1.4/arm_data_processing.c:279-293 | A run of n words that do not write r15 moves it by 4n modulo 2^32 |
| FlowLaws.FailedMovesOn | arm_simulator-1.4/arm_data_processing.c:279 | A failed condition leaves r15 four on and everything else as it was |
| FlowLaws.OtherWords | arm_simulator-1.4/README:53-57 | Ignored words (arm_instruction.c:52-53, 77-79, 105-112, 125-138) change r15 only, and MSR acts after the fetch |
| FlowLaws.SwiRaises | arm_simulator-1.4/arm_exception.c:44-47 | A software interrupt is request byte 3 raised after the fetch |
| Stepping.ArmBranch | arm_simulator-1.4/README:50-52 | B and BL (arm_branch_other.c:31-46) |
| FlowLaws.BranchExact | arm_simulator-1.4/README:50-52 | A taken branch at A (arm_branch_other.c:31-46): forward to A + 8 + 4 * imm24, backward to A + 8 - 256 + 4 * (imm24 mod 64), BL leaves A + 4 in r14, and nothing else changes |
| FlowLaws.ManualOffsetExact | arm_simulator-1.4/README:50-52 | The offset the architecture asks for (arm_branch_other.c:40-42): imm24 with sign, times 4 |
| Instructions.BranchOffsetExact | arm_simulator-1.4/README:50-52 | Forward branch offsets (arm_branch_other.c:40-43) are right; a backward one if and only if it reaches at most 64 words |
| Instructions.BranchOffsetFails | arm_simulator-1.4/README:50-52 | A branch 65 words back (arm_branch_other.c:40-43) gets the wrong offset |
| Stepping.ArmExecuteInstruction | arm_simulator-1.4/README:53-57 | Fetch and dispatch of every word but loads and stores (arm_instruction.c:46-149): the state left, the exception reported, and when the simulation exits (arm_branch_other.c:48-53) |
| Stepping.ArmStep | arm_simulator-1.4/README:53-57 | One simulator step (arm_instruction.c:151-157), raising the exception the instruction reports |
| Dispatch.ClassExact | arm_simulator-1.4/README:53-57 | The class of every word from its bits, without the order of the dispatcher's tests (arm_instruction.c:46-149) |
| Dispatch.ConditionExact | arm_simulator-1.4/arm_data_processing.c:279 | Whether a word executes, for each condition code, from the four flag bits (util.c) |
| Departures.MiscellaneousCompares | arm_simulator-1.4/arm_data_processing.c:38-47 | Every register-form miscellaneous word (arm_instruction.c:60-73), under every condition, reaches the register-shift decoder and changes nothing but flags: no branch is taken and no register written, and a failed condition changes nothing at all |
| Departures.MiscellaneousDecodes | arm_simulator-1.4/arm_data_processing.c:135-143 | All those words carry a comparison opcode with S clear, though S clear does not keep a comparison from setting flags |

## Left out

- Loads and stores (arm_load_store.c): words of these classes are outside `Modelled`; memory is read by fetch and vectors only and no modelled word writes it.
- Memory layout (memory.c): memory is a function from addresses to words; endianness, unaligned access and addresses beyond the buffer are not part of this model.
- Trace, cycle counter, gdb protocol, scanner, sockets, threads and `send_irq`: input and output around the core.
- Stepping.ArmExecuteInstruction: requires a word that is not a load or store, as those routines are not modelled.
- Stepping.ArmStep: the same.
- The SWI that ends the simulation (0x123456): reported by the stepping routines and outside `Modelled` in the theorems about runs, as nothing follows it.
- Dispatch patterns: the pattern strings of `is` (arm_instruction.c:32-43) are written as mask and value pairs; its loop over characters is not modelled.
- Rotation by zero and modes unknown to the register module: the C expressions are undefined there. `Ror` by zero is the identity, which is what either common result of a shift by 32 gives; the methods that read or write an SPSR require a mode that has one, and instruction runs carry the same requirement as `Defined`.
- Core.ArmCore.constructor: takes the content of the freshly allocated table as a parameter, since the source leaves it uninitialised.
- Reset inside a nested run: a reset opens no frame, so the nesting theorems exclude it; the masking theorem allows it.
- Handlers that save registers to memory and restore them: transparency is proved for handlers that write only registers private to their mode or unread by the program, as no load or store is modelled.
- BL, SWI words and MSR to the control field or an SPSR inside handler bodies of the nesting theorems: SWI is a frame of its own there, and BL overwrites the r14 the return needs.
