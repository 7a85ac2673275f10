# A verified model of the RISC-V simulator

The repository is a RISC-V simulator in C++: a five-stage pipeline over a three-level cache
hierarchy over paged memory, fed by an ELF reader that comes with an ELF writer. This project
models its three algorithmic cores in Dafny and proves what they are for.

* **The pipeline** (`simulation.cpp`, the pipeline registers in `Simulation.h`). `Simulator.SIM` is the
  class with its `cur`/`upd` register pairs, flags and counters; every stage is a method proved against
  a function of `Pipeline`, and a whole cycle against `Pipeline.Cycle`. `Sequential` is a machine that
  performs one instruction at a time over a flat memory, with the same decode and execute functions
  (`Isa`). `Refinement`, `Execution`, `LostJumps`, `Independence`, `Speculation` and `Accounting` relate the two over
  whole runs; `WrongPaths`, `Stops` and `Survival` say exactly which runs do not stop, `Schedule` in which cycle each
  step executes and what has been counted by then; `Programs` has three small programs, loaded and set up as `main`
  does it, that show where the code departs.
* **The memory system** (`cache.cpp`, `cache.h`, `Memory` in `Simulation.h`, `Read_Elf.cpp`). `CacheObject.Cache`
  ages, fills, dirties and writes back blocks in place and calls the level below, which is again a cache
  or the two-level page table of `PagedMemory.Memory`; both are proved against `Hierarchy.Request`.
  `Transparency` and `Runs` show that the whole chain, of any length, geometry and policy mix, is a flat
  byte memory; `Recency`, `ReuseDistance` and `Filling` say what LRU keeps, `DirtyBits` what is written back; `Timing`,
  `Traffic`, `Policies`, `Clocks` and `Configuration` what it costs. `Startup` puts it all together: load, allocate the stack, set up the caches, run.
* **The ELF layout pass** (`elfio/elfio.hpp`). `SegmentOrder` has the worklist sort, `ElfLayout` the placing of
  sections as functions with their soundness, `ElfSizes` the ranges that segments get in the file and in memory,
  `ElfWriter.Elfio` the pass in place on its tables.

The two machines of the refinement share the decode and execute functions. What these compute is said apart from them:
`Encoding` by an assembler, `Arithmetic`, `WordShifts` and `Comparisons` bit by bit or by the laws that determine an
operation, and `Instructions` by what each assembled instruction, and the usual pairs of them, do to the reference.

Reading order: `Bits`, `Address`, `Hierarchy`, `Coherence`, `Transparency`, `Runs`, then `Isa`, `Pipeline`, `Sequential`,
`Refinement`, `Execution`, `WrongPaths`, `Stops`, `Survival`. `dafny verify dfyconfig.toml` checks everything.

## Where the code departs from what one would expect

These are properties of the code as it is.

* A JALR that reads the destination of the load just before it is lost: the jump empties D, the load-use
  rule stalls it, and the bubble wins (simulation.cpp:250-253, 278-284, Simulation.h:293-301). The refinement
  is therefore against a reference that skips such a word, without any hypothesis on it, and
  `LostJumps.LossyIsPlainIff` and `LostJumps.RetiresPlainPrefixIff` say exactly when that reference is the
  plain machine. `Programs.RunLosesJump` is an endless run of a three-word program whose retirements are no longer
  the plain machine's from the tenth cycle on.
* A word that is fetched for nothing can end the process in ID or IF, so the prediction strategy can decide whether a
  program survives (`Programs.StrategiesDisagree`), and so can the end of the code: the word behind an exit call or a
  jump is fetched before either is executed. `Survival.RunsForeverIff`, `Survival.ExecutesIff` and `Survival.ExitsIff`
  give the exact condition on the program. For a step of the reference, the *guess* is the address the strategy
  predicts behind it. The step is good if the reference takes it without failing, its access stays in its
  block, its guess is an allocated aligned address (`GuessLands`), and, if it is a mispredicted branch, the word at the
  guess, in memory as before the step just before it, is zero or decodes, and the guess made from that word is allocated too
  (`Recovers`). All of this is seen on the reference's path; no state of the pipeline enters.
* LB, LH and LW zero-extend (`Arithmetic.LoadsZeroExtend`); SLLW is executed as SRLW (`Encoding.SllwBecomesSrlw`);
  LWU ends the process (`Encoding.LwuIsRefused`); SRAIW always shifts by 32 or more, which C++ leaves undefined
  (`Encoding.SraiwIsNeverDefined`); MULH and REM write nothing.
* `validate` skips every section whose type has bit 3 set, not only SHT_NOBITS: it misses two overlapping SHT_REL
  sections (`ElfLayout.OverlapGoesUnnoticed`).
* A segment's file size leaves out the padding put before a section without file bytes, so data placed after it can
  lie behind the announced end (`ElfLayout.FileSizeCanFallShort`). `ElfLayout.DataCoveredIff` and
  `ElfLayout.DataCoveredIffUnpadded` give the exact condition, `ElfLayout.DataCoveredWhenSnug` a check before the layout.
* A segment's memory size adds up the sections that are marked SHF_ALLOC, with the padding before them, and nothing else,
  and sections without file bytes do not move the addresses of those behind them. A section not marked SHF_ALLOC in front
  leaves the memory too short (`ElfSizes.MemorySizeCanFallShort`); `ElfSizes.AllocatedCoveredIff` gives the exact
  condition, `ElfSizes.AllocatedCovered` a check before the layout, and `ElfSizes.MemoryIsTightIff` says when there is
  none to spare.
* `loader` steps through pages from the segment's first byte, so it misses the last page exactly when
  start mod 4096 plus (size - 1) mod 4096 reaches 4096 and that page was not there before (`Loader.SegmentPaged`);
  `Loader.StraddlingSegmentFails` is a two-byte segment that cannot be loaded.

## Hypotheses of the main theorems

* `Transparency.Sound`: block sizes do not shrink going down and fit in a page, the memory is made of whole pages,
  and every line is clean or dirty as it should be. `Runs.ColdIsSound` derives it for a cold hierarchy and
  `Configuration.ConfiguredIsSound` for the one `main` sets up.
* `Transparency.Fits`: an access stays in one block of the top level. In the pipeline this is no hypothesis:
  an access that leaves its block stops the model's machine (`LeavesBlock` in `StopInMemRefines`, `InBlock` in
  `Survival`), and so does a fetch if blocks are narrower than a word (`Stops.WideBlocks`).
* `Execution.CodeStable` for n cycles: among the first n steps, up to the one that fails, no store changes the words of
  the two fetches that follow it, the window in which the pipeline has already fetched them. Stores to code further
  away, and anything after the program's end, are unrestricted.
* The word 0 is the bubble encoding. The reference skips it as the pipeline does, so no hypothesis is needed,
  except in the cycle count (`Accounting.NoZeroFetched`, which `Survival.NoZeroOnPath` derives from the program).
* That a run has not stopped is derived from the program by `Survival.Survives`.

`Programs.RunsExist` gives, for every prediction strategy, a loaded program on the configured hierarchy that meets the
hypotheses of the run theorems together for any number of cycles, and `Startup.Simulation` discharges all but code
stability for the simulator as `main` builds it.

## Model

| member | source | states |
|---|---|---|
| Execution.PipelineRefines | simulation.cpp:236-318 | After any number n of cycles that do not stop the process, the registers are the sequential machine's after some step w, memory and retirement log its after step m, output its after step e, with w <= m <= w+1 and m <= e <= m+1, e <= n, no step up to m having failed; once the instruction in W is written back the registers are those after step m. Code need be stable only for the n steps, and not past a failing one. |
| Execution.RunRefines | simulation.cpp:240-301 | Every reachable state has all five latches holding steps of one run of the reference, in order, or bubbles that stand for skipped words, or a wrong path that a pending redirect will discard. |
| Refinement.CycleRefines | simulation.cpp:242-301 | One cycle from a state satisfying the invariant, hazard rules and clock edge included, re-establishes it with each stage's reference state moved on by at most one step or held. |
| Refinement.MemRefines | simulation.cpp:1209-1326 | MEM leaves the reference's memory, log entry and value, through any sound hierarchy, and offers ID exactly the value the older instruction writes. |
| Refinement.SyscallRefines | simulation.cpp:1347-1378 | System calls in EX see the reference's memory, including the string that is read through the cache, and append the reference's output. |
| Refinement.IdRefines | simulation.cpp:430-905 | When an instruction advances from ID, its operands are the source registers' values after all older instructions, whatever of them is still in EX, MEM or WB. |
| Refinement.ForwardingIsFresh | simulation.cpp:850-903 | EX forwarding over MEM forwarding over the same cycle's WB gives the register file as of the older instructions, unless the register is the destination of a load in EX. |
| Refinement.FetchGoesRight | simulation.cpp:328-345 | Without a misprediction in EX the fetch address is the reference's next program counter: predicted, redirected by the jump in EX or by the branch in MEM. |
| Refinement.HazardOnJump | simulation.cpp:249-291 | The word in ID is a jump that the load-use rule holds back if and only if it is the JALR that the reference calls lost. |
| Refinement.StoreBytesAgree | simulation.cpp:1209-1249 | The bytes a store hands to the cache are the low bytes of its operand, although EX has narrowed the value before. |
| Execution.StopInExRefines | simulation.cpp:1347-1421 | A stop in EX is the reference's own next step failing, with everything older complete and nothing younger visible. |
| Execution.StopInMemRefines | simulation.cpp:1241-1269 | A stop in MEM comes with everything older complete, and is that instruction's access leaving its block or the reference's own step failing; never an eviction or refill. |
| WrongPaths.RunTracks | simulation.cpp:249-274 | In every reachable state with a mispredicted branch in EX, D holds the word at the guess behind that branch, from memory as it was before the step just before the branch, and F the guess made from that word; stages that hold bubbles stand behind steps that store nothing. |
| Stops.StopInIdIff | simulation.cpp:430-850 | When MEM and EX do not stop, ID stops the process if and only if the word it holds is not zero and does not decode: the word at the guess behind step e if EX holds step e as a mispredicted branch, else the reference's own word at the step D stands for. |
| Stops.StopInIfIff | simulation.cpp:333-371 | When ID does not stop either, IF stops the process if and only if blocks are narrower than a word or the fetch address is not an allocated multiple of four; the address is the guess made from the wrong word, the guess behind the step in D (pc + 4 for a jump), or the reference's next pc. |
| Stops.StopInFrontRefines | simulation.cpp:240-247 | A stop in ID or IF leaves registers, memory, retirements and output of three nearby reference steps, none up to the second having failed. |
| Survival.RunsForeverIff | simulation.cpp:236-301 | The process never stops if and only if a word fits in a block and every step of the reference is good: it does not fail, its access stays in its block, its guess can be fetched, and if it is a mispredicted branch, the word at the guess is zero or decodes and the guess made from it can be fetched. |
| Survival.Survives | simulation.cpp:236-301 | If the first n steps are good, n cycles are survived. |
| Survival.SurvivedSteps | simulation.cpp:236-301 | If 3n + 3 cycles are survived, the first n steps are good; whatever the program, MEM takes a step at least every third cycle, zero words included. |
| Survival.ExecutesIff | simulation.cpp:240-291 | EX gets to step j if and only if the reference performs that step, all steps before are good, and the word at the guess behind it can be fetched. |
| Survival.ExitsIff | simulation.cpp:1347-1421 | A program whose step j is an exit (exit or unknown call, bad string, undefined operation) comes to it, under a strategy and a hierarchy, if and only if the steps before are good and the guess behind the exit can be fetched. |
| Survival.ReachesExit | simulation.cpp:1379-1421 | It then does so within 3j + 6 cycles. |
| Survival.MispredictionStopsIff | simulation.cpp:263-274 | In the cycle that finds step j to be a mispredicted branch the process stops in ID if and only if the word at the guess is neither zero nor decodes, in IF if and only if it does but the guess made from it cannot be fetched, and goes on otherwise. |
| Survival.NoZeroOnPath | Simulation.h:293-301 | If no step among the first n skips a word and no mispredicted branch among them has a zero word at its guess, no zero word is latched in n cycles. |
| Programs.StrategiesDisagree | simulation.cpp:383-413 | A three-word program, loaded by `loader` and run on the hierarchy `main` configures: with branches predicted taken it runs forever, with either other strategy it ends within six cycles, in ID, on a word that is jumped over. |
| LostJumps.LossyIsPlainIff | simulation.cpp:249-291 | The pipeline's reference and the plain sequential machine agree at every step up to n if and only if none of the first n words is a JALR through the register loaded just before. |
| LostJumps.PipelineRefinesPlain | simulation.cpp:236-318 | As long as the first n steps hold no such pair, n cycles refine the plain machine that loses nothing. |
| LostJumps.RetiresPlainPrefixIff | simulation.cpp:276-291 | What a surviving run has retired is a prefix of the plain machine's retirements if and only if nothing has been retired past the first such pair. |
| LostJumps.LostForGood | simulation.cpp:276-291 | Past its first lost jump the log either stays what it was before the jump, or holds something else in the jump's place: the jump is never made up for. |
| LostJumps.LostJumpExample | Simulation.h:293-301 | The two words LD x1,0(x0) and JALR x0,0(x1) at address 0 are such a pair and make the two references differ. |
| Programs.RunLosesJump | simulation.cpp:249-291 | A program with those two words and a loop behind them, loaded and set up as `main` does it, runs forever under any strategy, and from the tenth cycle on its retirements are no prefix of the plain machine's. |
| Programs.RunsExist | simulation.cpp:151-233 | For every strategy there is a program, loaded and set up as `main` does it, that runs forever with stable code and no zero word fetched: the hypotheses of the run theorems hold together. |
| Speculation.ExecutesOnPath | simulation.cpp:263-291 | In every reachable state an instruction in EX is the one the reference performs next, with its register values as operands; the output so far is the reference's. A wrong-path instruction never gets there. |
| Speculation.RedirectsExclude | simulation.cpp:333-345 | In every state of any surviving run, whatever the code and the caches, a jump in EX and a mispredicted branch in MEM, or mispredicted branches in both, never occur together. |
| Speculation.RedirectIsClean | simulation.cpp:333-345 | In every reachable state a redirect fetches what the reference comes to right after the jump or branch that redirects, in a cycle in which no rule stalls or empties F or D. |
| Independence.RunsAgree | simulation.cpp:383-413 | Two surviving runs of one program under any two prediction strategies and any two sound hierarchies have retired and printed one a prefix of the other; with equally many retired the retirements, the memory and the registers, once W is written back, are equal. |
| Independence.GoodRunsAgree | simulation.cpp:383-413 | The same with nothing assumed of the second run: it survives n' cycles and agrees if the program's first n' steps are good for its strategy and its caches. |
| Independence.RunForeverTogether | simulation.cpp:383-413 | If a program runs forever under one strategy and hierarchy, it does under another if and only if there accesses stay in their blocks, guesses can be fetched and mispredicted branches recover. |
| Independence.StopsAgree | simulation.cpp:1379-1421 | Two such runs that stop in EX (exit call, unknown call, bad string, undefined operation) stop with the same retirements, output and memory, and the same registers once the last retired instruction is written back. |
| Independence.ExitsTogether | simulation.cpp:1379-1421 | If one run stops in EX, at step j, no other run of the program survives 3j + 6 cycles; another one stops in EX too if and only if the steps up to j are good for its strategy and its caches, and then with the same retirements, output, memory and registers. |
| Schedule.ExecutesOnTime | simulation.cpp:242-301 | If EX gets to step j at all, it does so exactly 2 + j cycles after the start plus the penalties of the steps before: two for a mispredicted branch, one for a jump, one for a load that the next step reads, zero words included. |
| Schedule.RunOnTime | simulation.cpp:242-301 | In every reachable state that schedule is kept, and the counters of cycles, mispredictions, right predictions, load-use stalls, jumps and control hazards are functions of the program's path up to the steps in EX and ID. |
| Schedule.ExitCounts | simulation.cpp:1379-1395 | What the simulator prints when a program exits at step j, by the program alone: j + 3 + penalties pipeline cycles, its mispredictions, right predictions and load-use hazards, its jumps and those fetched in the place of a mispredicted branch, and control hazards as the sum of jumps and mispredictions. |
| Schedule.PenaltiesAreHazards | simulation.cpp:249-291 | The penalties are two for each misprediction, one for each jump, one for each load-use hazard that is not a lost jump. |
| Accounting.CyclesAccountedFor | simulation.cpp:242-291 | After every cycle of a run that has fetched no zero word: cycles + bubbles in D, E, M + cycles with a jump in ID and a misprediction in EX = retired + 3 + jumps + 2 * mispredictions + load-use stalls. |
| Accounting.RetiresWithinThree | simulation.cpp:1214-1225 | After the first cycle such a run retires at least one instruction in any three cycles: MEM never sees three bubbles in a row. |
| Accounting.AlwaysRetiring | simulation.cpp:249-297 | Hence at least k instructions in any 3k cycles of a surviving run. |
| Accounting.InstructionsAreLogged | simulation.cpp:1214-1225 | In every surviving run the instruction counter has grown by exactly the length of the retirement log. |
| Simulator.SIM.Cycle | simulation.cpp:240-301 | The method that runs WB, MEM, EX, ID, IF, the hazard rules and the ticks in place takes the machine's state to `Pipeline.Cycle` of it; on a stop, status, registers, output and retirements, and when EX stops other than on a bad string, caches and counters too: what the exit call prints. |
| Simulator.SIM.Simulate | simulation.cpp:236-318 | n turns of the loop take the state to `Pipeline.Run` of it, or, if the process stops, status, registers, output and retirements, and at an exit caches and counters, so the theorems above are about this class. |
| Simulator.SIM.WB | simulation.cpp:1328-1346 | Writes back exactly a non-bubble register-writing instruction's value, never into x0. |
| Simulator.SIM.MEM | simulation.cpp:1209-1326 | Leaves W's update, the forwarded value, the cache, the counters and the log that `MemStage` gives, or stops when it does. |
| Simulator.SIM.EX | simulation.cpp:908-1207 | Leaves M's update, the forwarded value, the jump and misprediction flags, the output and the counters that `ExStage` and `Syscall` give, or stops when they do. |
| Simulator.SIM.ID | simulation.cpp:430-905 | Leaves E's update and the two hazard registers that `IdStage` gives, or stops on an unknown encoding. |
| Simulator.SIM.IF | simulation.cpp:328-428 | Leaves F's and D's update that `IfStage` gives for the redirected address, or stops. |
| Simulator.SIM.Hazards | simulation.cpp:249-291 | Raises exactly the stall and bubble flags, and counts exactly the events, of the three rules. |
| Simulator.DReg.Tick | Simulation.h:293-301 | A bubble empties the register's word and wins over a stall, which keeps it; otherwise the update is latched; the flags and the update are cleared. |
| Encoding.DecodeAssembled | simulation.cpp:430-850 | Every kind of instruction that ID knows, in all ten assembly forms of the model with any registers and any immediate of its width, decodes to that kind with those operands; SLLW and LWU are not among the forms, and SRAIW's amount comes with its marker bit (see the rows below). |
| Encoding.EncodeBRoundTrip | simulation.cpp:453-453 | A branch offset scattered over the word is read back by the shifts and masks, for every even 13-bit offset. |
| Encoding.EncodeJRoundTrip | simulation.cpp:455-455 | The same for the jump offset and every even 21-bit value. |
| Encoding.SllwBecomesSrlw | simulation.cpp:827-835 | The encoding of SLLW decodes to what SRLW decodes to. |
| Encoding.LwuIsRefused | simulation.cpp:699-703 | The encoding of LWU ends the process. |
| Encoding.SraiwIsNeverDefined | simulation.cpp:1158-1162 | Every SRAIW decodes to a shift of 32 or more, for which EX has no defined result. |
| Arithmetic.LoadsZeroExtend | simulation.cpp:1271-1309 | Every load's value lies between 0 and 2^(8n), n being the bytes it moves; LB is LBU and LH is LHU. |
| Instructions.LoadStep | simulation.cpp:1012-1057 | An assembled load puts into its register the number, below 2^(8n), that the n bytes at base plus offset spell lowest first, with n two to the power of the low bits of funct3; LB, LH and LW do not extend the sign. Nothing else changes. |
| Instructions.StoreStep | simulation.cpp:1058-1080 | An assembled store leaves its register's low bytes, lowest first, at base plus offset, and every other byte and all registers as they were. |
| Instructions.StoredIsLoaded | simulation.cpp:1012-1080 | A store and behind it a load of the same width through the same base and offset give back the register modulo 2^(8n). |
| Instructions.WidthIsMemLen | simulation.cpp:1012-1080 | The number of bytes EX hands to MEM is two to the power of funct3 modulo 4 of the encoding, for every load and store. |
| Instructions.RegisterStep | simulation.cpp:1081-1162 | An assembled register instruction puts what EX makes of its first and second operand, in that order, into its destination, goes on to the next word and changes nothing else; it fails exactly where EX has no result; MULH and REM write nothing. |
| Instructions.DestinationWritten | simulation.cpp:1191-1204 | Every step with a destination other than x0 writes it, but for MULH and REM, and no step changes another register. |
| Instructions.ConstantBuilt | simulation.cpp:952-955 | LUI and ADDIW put any signed 32-bit constant into a register, LUI and ADDI any up to 0x7FFFF7FF. |
| Instructions.AddressBuilt | simulation.cpp:956-959 | AUIPC and ADDI put the address at any 32-bit distance (up to 0x7FFFF7FF) from the first of them into a register. |
| Instructions.FarJump | simulation.cpp:956-969 | AUIPC and JALR go to any even distance of that range and link the word behind them. |
| Instructions.JumpStep | simulation.cpp:960-964 | JAL by d goes to pc + d and links pc + 4. |
| Instructions.JumpRegStep | simulation.cpp:965-969 | JALR goes to base plus immediate with the lowest bit cleared and links pc + 4. |
| Instructions.CallReturns | simulation.cpp:960-969 | A JAL or JALR call and a JALR through its link register come back to the word behind the call. |
| Instructions.BranchStep | simulation.cpp:970-1011 | An assembled branch goes by its offset if its operands compare, bit by bit, as its name says, and to the next word otherwise; nothing else changes. |
| Comparisons.BranchesCompare | simulation.cpp:970-1011 | BLTU is decided by the highest bit in which the operands differ, BLT by the sign bits if these differ and as BLTU otherwise, BEQ by all bits being equal; BGEU, BGE and BNE are the opposites. |
| Comparisons.EqualMeansNoDifference | simulation.cpp:970-976 | BEQ is taken exactly when SUB gives 0. |
| Comparisons.SetsCompare | simulation.cpp:1107-1116 | SLTU and SLTIU, SLT and SLTI give 1 exactly where BLTU and BLT are taken, said bit by bit. |
| Instructions.CallStep | simulation.cpp:1347-1421 | A system call appends the zero-terminated string at a0, the low byte of a0 or the signed low word of a0, as a7 says, and ends the process exactly if there is nothing of these to print. |
| Instructions.PredictionOf | simulation.cpp:383-413 | The fetch behind an assembled branch goes where it leads if the strategy guesses it taken (always, never, or when it leads backwards), and behind anything else to the next word; the other address is the one not guessed. |
| Arithmetic.AddIsBitwise | simulation.cpp:1081-1085 | ADD and ADDI add bit by bit with a carry that is the majority of the bits before, dropped out of bit 63. |
| Arithmetic.MultiplyAddsUp | simulation.cpp:1099-1102 | MUL of a by 0 is 0, and MUL of a by b + 1 is ADD of MUL of a by b and a. |
| Arithmetic.LogicIsBitwise | simulation.cpp:1117-1131 | The results of AND, OR and XOR and of their immediate forms have the and, or and exclusive or of the operands' bits. |
| Arithmetic.ShiftsMoveBits | simulation.cpp:1132-1147 | Left and logical right shifts move every bit by the amount and fill with zeros; they are undefined exactly from 64 on. |
| Arithmetic.ArithmeticShiftFloors | simulation.cpp:1153-1157 | An arithmetic right shift is the floor of the signed quotient by the power of two. |
| WordShifts.WordLeftShift | simulation.cpp:1137-1141 | SLLIW moves every bit by the amount and repeats bit 31; it is undefined exactly from 64 on. |
| WordShifts.WordRightShifts | simulation.cpp:1148-1162 | SRLW and SRLIW move the low 32 bits down by the low 32 bits of the amount, filling with zeros up to bit 63; SRAW and SRAIW fill with bit 31; all are undefined exactly from 32 on. |
| Arithmetic.DivisionTruncates | simulation.cpp:1103-1106 | DIV leaves a remainder smaller than the divisor and with the dividend's sign; it is undefined exactly for a zero divisor and for -2^63 / -1. |
| Arithmetic.SubtractUndoesAdd | simulation.cpp:1081-1098 | SUB of ADD gives back the first operand modulo 2^64, and SUBW its signed low word. |
| Arithmetic.WordsAreSigned | simulation.cpp:1086-1098 | ADDW, ADDIW and SUBW give the signed 32-bit number congruent to the exact sum or difference. |
| Transparency.RequestServes | cache.cpp:7-164 | On any sound chain, a request inside one block faults exactly when it touches an unallocated address; otherwise a read returns the view's bytes, a write changes its own bytes of the view and no others, and the chain stays sound. |
| Transparency.RefillServes | cache.cpp:83-157 | Fetching the block, writing back the dirty victim through levels that may miss, and installing the block leaves the view as it was and the chain sound. |
| Transparency.WriteBackServes | cache.cpp:95-101 | Writing back a dirty victim never faults: its block lies in allocated pages. |
| Transparency.ResidentIsAllocated | cache.cpp:17-17 | The whole block of a resident line is allocated. |
| Coherence.InstallKeepsView | cache.cpp:104-110 | Replacing a clean or written-back line by the level below's bytes changes no byte of the view. |
| Coherence.WriteResident | cache.cpp:54-68 | Writing into a resident line changes exactly the request's bytes of the view and keeps one line per tag and the clean/dirty invariant. |
| Coherence.AgesAreInvisible | cache.cpp:20-30 | Ageing all lines changes neither the view nor coherence. |
| Runs.RunIsFlat | cache.cpp:7-164 | Any sequence of requests, reads and writes mixed, gets from a sound chain the answers of a flat byte memory, up to the same first fault, and leaves the same view. |
| Runs.HierarchiesAgree | cache.cpp:7-164 | Two sound chains over the same memory, of any lengths, geometries and policies, give the same answers and views. |
| Runs.ColdIsSound | cache.cpp:221-236 | A chain that has just been configured over whole pages is sound and shows the memory itself. |
| Configuration.ConfiguredIsSound | simulation.cpp:151-217 | The hierarchy `main` sets up is sound, shows the loaded memory, and every aligned access of 1, 2, 4 or 8 bytes stays in its block. |
| Address.KickInvertsSplit | cache.cpp:95-98 | The address of a write-back, rebuilt from tag and set, is the block the line was filled from. |
| Address.SplitInvertsKick | cache.cpp:14-17 | And that address splits into the same tag and set, with offset 0. |
| Address.SplitIsDivision | cache.cpp:14-17 | The shifts and masks compute quotients and remainders by block size and set count. |
| CacheObject.Cache.HandleRequest | cache.cpp:7-164 | The method that ages, looks up, fills, dirties and writes back in place, calling the level below, takes the chain's state to `Hierarchy.Request` of it, with the same bytes, hit flag and time. |
| CacheObject.Cache.Find | cache.cpp:175-188 | Finds the first valid way with the tag, or reports that there is none. |
| CacheObject.Cache.Choose | cache.cpp:190-210 | Finds the first invalid way, else the first of the longest unused ones. |
| CacheObject.Cache.Arrive | cache.cpp:13-30 | Ages every valid line of every set by one and counts the access and its latency. |
| CacheObject.Cache.ServeRefill | cache.cpp:87-110 | Fetch, then write back, then overwrite the victim, in that order, gives `Hierarchy.Refill`. |
| Recency.MissTracks | cache.cpp:190-210 | Filling the LRU victim keeps the set equal to the front of the recency list, with ages equal to the requests since the last touch. |
| ReuseDistance.ResidentIffRecentlyUsed | cache.cpp:20-52 | After any fault-free run of a cold write-allocate cache, a block is resident if and only if fewer than `associativity` distinct blocks of its set were touched since its last use; its age is the number of requests since then. |
| ReuseDistance.RecentMeaning | cache.cpp:20-30 | The recency list has one entry for each block of the set used so far, aged by the requests since its last use, in order of last use. |
| ReuseDistance.StackInclusion | cache.cpp:190-210 | After any common run of two cold caches that differ in associativity only, the larger one holds every block the smaller one holds. |
| ReuseDistance.MoreWaysMissLess | cache.cpp:32-36 | Hence over any common run from a common past (a cold start in particular) the larger one's miss counter never grows by more. |
| Filling.RunKeepsFilled | cache.cpp:190-210 | From a cold start, in every set of every level, under every policy, the valid ways come first. |
| Timing.TimeConserved | cache.cpp:32-146 | The time a request returns is what it adds to the `access_time` of all levels and the memory together. |
| Timing.RunTimeConserved | cache.cpp:32-146 | Over a sequence of requests the sum of the returned times is the sum of what all levels have added; each cache's `access_time` is its accesses times its latency. |
| Clocks.CacheCountersAgree | simulation.cpp:354-361 | After any number of cycles, stopped or not, `cache_cycle_cnt` has grown by exactly what the `access_time` of all levels and the memory have grown together, `cache_cnt` by the accesses to the top level, and `cache_cnt - cachehit_cnt` by its misses. |
| DirtyBits.DirtyIffWritten | cache.cpp:54-68 | After any run from a cold start, under any policies, a resident block of a write-back level is dirty if and only if some request has written it and it has stayed since, that is, since it was last fetched; a write-through level holds nothing dirty. |
| DirtyBits.StepDirty | cache.cpp:46-75 | One request leaves its own block dirty if it was a write to a write-back level or a read of a dirty block, and every other block as it was or gone. |
| DirtyBits.ReadsNeverWriteBack | cache.cpp:131-157 | A run of reads on a level with nothing dirty writes nothing back: the level below gets reads only, one for each miss. |
| Policies.BelowRunsAsked | cache.cpp:54-157 | Over any run and under every combination of write-through, write-back, allocation and no allocation, the level below goes through exactly the fetches, write-backs and passed-on writes asked of it, and counts each. |
| Policies.WriteMissBringsNothing | cache.cpp:124-129 | A write that misses where misses are not allocated is passed on as it is, and the level's lines are as before but for their ages. |
| Timing.TrafficFollowsMisses | cache.cpp:83-145 | One request to a write-back, write-allocate level adds its misses plus its dirty evictions to the accesses below. |
| Traffic.BelowRuns | cache.cpp:83-145 | Over any run of such a level, the level below goes through exactly the run of the fetches and write-backs sent to it. |
| Traffic.TrafficAtEveryLevel | cache.cpp:83-145 | In a write-back, write-allocate chain, over any run and at every depth, a level's access counter grows by the miss counter of the level above plus the dirty lines it displaces: between its misses and twice those. |
| Timing.LatencyBound | cache.cpp:32-146 | A hit costs the top level's latency, any request at most the lookup plus twice the worst case below, for chains of any length. |
| Configuration.ConfiguredBound | simulation.cpp:151-207 | In the configured hierarchy a hit costs 1 and any other request at most 897. |
| PagedMemory.IndicesIdentify | Simulation.h:129-131 | Two 32-bit addresses with the same directory index, table index and offset are equal: the split is a bijection. |
| PagedMemory.Memory.Alloc | Simulation.h:200-220 | Adds exactly one page of zero bytes, or nothing when the page exists, and changes no other byte. |
| PagedMemory.Memory.StoreByte | Simulation.h:159-170 | Succeeds exactly on an allocated address and then changes that byte of the byte map and no other: pages never alias. |
| PagedMemory.Memory.LoadByte | Simulation.h:178-190 | Succeeds exactly on an allocated address and returns the byte map's value. |
| PagedMemory.Memory.Store | Simulation.h:171-176 | Stores the value's low bytes, least significant first, or fails exactly when one of them is not allocated. |
| PagedMemory.Memory.Load | Simulation.h:192-198 | Returns the little-endian value of the bytes, or fails exactly when one of them is not allocated. |
| PagedMemory.Memory.HandleRequest | Simulation.h:140-157 | Serves a block request as `Hierarchy.MemoryRequest` does. |
| PagedMemory.LoadAfterStore | Simulation.h:171-198 | Loading n bytes after storing a value there gives the value modulo 256^n. |
| Loader.Load | Read_Elf.cpp:52-67 | The nested loops over segments, pages and bytes leave what `LoadSegments` gives, or fail when it does. |
| Loader.SegmentPaged | Read_Elf.cpp:59-63 | Every byte of the memory image gets a page if and only if the page loop reaches the last one, that is, start mod 4096 + (size - 1) mod 4096 < 4096, or that page was there already. |
| Loader.SegmentImage | Read_Elf.cpp:52-67 | A segment over blank bytes, whoever else has bytes on its pages, whose last page the loop reaches or finds there, reads back as its file bytes followed by zeros; every other byte is unchanged, or zero where a page is new. |
| Loader.ProgramImage | Read_Elf.cpp:52-67 | Loading any list of segments with disjoint images into an empty memory, the page of each segment's last byte gone over by its own loop or an earlier one, succeeds and leaves every segment's file bytes followed by zeros, and zeros around them, also where segments share a page. |
| Loader.StraddlingSegmentFails | Read_Elf.cpp:59-65 | A segment of two bytes from 0xFFF: only the first page is allocated and the copy ends the process. |
| Startup.AllocStack | simulation.cpp:211-217 | The stack loop adds 1024 zero pages down from the stack start, leaving pages that are there alone. |
| Startup.BuildCaches | simulation.cpp:151-207 | The three cache objects stand for the configured chain, cold, over the memory's bytes, which are whole pages. |
| Startup.Simulation | simulation.cpp:151-233 | Load, stack, caches and n turns of the loop on the in-place objects: registers, memory, retirements and output are those of the sequential machine on the loaded image, as long as the code is stable and the process has not stopped, which it has not if the first n steps are good; it fails exactly when loading does. |
| SegmentOrder.OrderedSegments | elfio/elfio.hpp:552-592 | The sort terminates although it re-queues, returns every segment once, and never places a segment before one whose section list strictly includes its own. |
| SegmentOrder.RotationProgress | elfio/elfio.hpp:574-589 | Re-queueing a segment moves the first largest segment forward: the termination measure. |
| SegmentOrder.IncludesIsInclusion | elfio/elfio.hpp:536-549 | On sorted lists the inclusion test is multiset inclusion. |
| ElfLayout.LayoutIsDisjoint | elfio/elfio.hpp:596-771 | When both passes succeed and NULL sections are empty, no file byte belongs to two non-NOBITS sections, and none of their bytes lies in the header, in the segment table or past the file position. |
| ElfLayout.LayoutIsCongruent | elfio/elfio.hpp:637-771 | Every listed section is placed in the first segment of the order that lists it, keeps an address it brought, and its offset minus the segment's is its address minus the segment's (modulo 2^64); a segment that placed its own first section has an offset congruent to its address modulo its alignment. |
| ElfLayout.LayoutEstablishes | elfio/elfio.hpp:596-771 | The full invariant behind both, alignment of sections without an address and of those outside all segments included; and the pass never fails when no section has bytes at a fixed address. |
| ElfLayout.NextCongruentIsCongruent | elfio/elfio.hpp:672-679 | The wrapping sum gives the next position congruent to the address, less than one alignment on, for every alignment up to 2^63. |
| ElfLayout.PutIsDisjoint | elfio/elfio.hpp:742-755 | Placing a section at or after the file position overlaps no section placed before. |
| ElfLayout.StartIsBehind | elfio/elfio.hpp:652-705 | Where a section remains to be placed, the segment's start is not past the file position, so the source's unsigned difference is the exact one. |
| ElfLayout.DataCoveredIff | elfio/elfio.hpp:734-767 | The file range of a laid-out segment of new sections covers all its data if and only if the padding before sections without file bytes, in front of the last data, is made up for by padding of empty sections behind it. |
| ElfLayout.DataCoveredIffUnpadded | elfio/elfio.hpp:734-767 | When no empty section behind the data is padded: if and only if no data comes after a section without file bytes that was padded. |
| ElfLayout.DataCoveredWhenSnug | elfio/elfio.hpp:713-757 | All data is covered if every section without file bytes that comes before some data has an address or needs no alignment. |
| ElfLayout.FileSizeCanFallShort | elfio/elfio.hpp:734-757 | A segment of three sections whose last byte of data lies at offset 128 while its range ends at 122. |
| ElfSizes.MemorySizeIs | elfio/elfio.hpp:727-761 | A laid-out segment of new sections gets, unless it has brought more, the bytes of its sections in memory and the padding before them, on top of what lies before it in a segment that starts with the NULL section. |
| ElfSizes.AllocatedCoveredIff | elfio/elfio.hpp:727-761 | A section that is in memory ends within the segment's memory if and only if what earlier sections take up in the file alone is made up for by what earlier ones take up in memory alone and by all that comes later. |
| ElfSizes.AllocatedCovered | elfio/elfio.hpp:727-761 | If the segment lists only sections that are in memory, every one, zero-filled ones included, ends within its memory, by its offset and by its address. |
| ElfSizes.MemoryIsTightIff | elfio/elfio.hpp:727-761 | The memory of such a segment is the furthest that any of its sections reaches if and only if some section has no zero-filled bytes before it and neither bytes nor padding behind it. |
| ElfSizes.MemorySizeCanFallShort | elfio/elfio.hpp:727-733 | One byte not marked SHF_ALLOC and one that is: the second ends at distance 2 where the memory has one byte. |
| ElfSizes.NestedSegment | elfio/elfio.hpp:681-741 | A segment of sections that are placed already moves nothing: it starts where its first section does, its file range ends where its last section with file bytes does, and its memory where its last one does if only that may lack file bytes. |
| ElfSizes.NestedCovers | elfio/elfio.hpp:681-741 | If it lists its sections in the order of their places, all of their bytes lie in its file range. |
| ElfSizes.EmptySegment | elfio/elfio.hpp:652-658 | A PT_PHDR segment without sections has exactly the segment table as its range; any other segment without sections an empty one at the file position. |
| ElfSizes.RoundsUpToNext | elfio/elfio.hpp:602-606 | A section outside all segments goes to the next multiple of its alignment, never a later one. |
| ElfLayout.RaisedAlignIsMaximum | elfio/elfio.hpp:623-634 | The raised alignment is the least that covers the segment's own and all its sections'. |
| ElfLayout.EndpointsDecideOverlap | elfio/elfio.hpp:274-277 | For two non-empty ranges the four end-point tests succeed if and only if the ranges share a byte. |
| ElfLayout.Validate | elfio/elfio.hpp:260-286 | Reports a problem if and only if two compared sections share a byte. |
| ElfLayout.OverlapGoesUnnoticed | elfio/elfio.hpp:269-270 | Two SHT_REL sections over the same bytes are not compared. |
| ElfLayout.LayoutValidates | elfio/elfio.hpp:260-286 | A file that the layout pass produced is reported free of overlaps. |
| ElfWriter.Elfio.LayoutSegmentsAndTheirSections | elfio/elfio.hpp:637-771 | The loop in place leaves the tables that `ElfLayout.PlaceSegments` gives for the order it chose, and fails exactly when it does. |
| ElfWriter.Elfio.LayoutSection | elfio/elfio.hpp:685-755 | One section's turn: padding, sizes, address, offset and file position. |
| ElfWriter.Elfio.LayoutSectionsWithoutSegments | elfio/elfio.hpp:596-619 | The second pass in place is `ElfLayout.PlaceRest`. |
| ElfWriter.Elfio.IsSectionWithoutSegment | elfio/elfio.hpp:520-533 | True if and only if no segment lists the section. |
| ElfWriter.Elfio.LayoutSectionTable | elfio/elfio.hpp:774-781 | The section table goes to the next multiple of four. |
| ElfWriter.Elfio.LayoutFile | elfio/elfio.hpp:168-176 | The layout part of saving is both passes after the header and segment table with raised alignments, so the lemmas above apply to the tables it leaves. |

## Left out

- Simulator.SIM.Cycle: does not state what an access that fails (in MEM, IF or in a string) leaves in the caches and their counters; the process ends there without printing them.
- Simulator.SIM.Simulate: does not model the endless loop, but any number n of its turns; a process exit is a status that all later turns keep, with what `SIM.Cycle` says of it.
- Execution.PipelineRefines: does not cover stores that change one of the next two fetched words, because the code has already fetched them (whether it has depends on the stalls and bubbles of that moment, so the condition is sufficient only).
- Pipeline.PrintText: does not print the characters that come before an unallocated byte of a string, which the source has printed when the process stops there.
- Loader.Load: does not model segments at the very end of the 32-bit space, where the source's loop counters wrap.
- Hierarchy.Request: does not model an access that leaves its block, which runs off the block's buffer in the source; the model faults there.
- ElfLayout.LayoutEstablishes: does not model wrapping file positions or more than 65535 segments; section 0 is taken to be a NULL section and segment alignments to be at most 2^63.
- Isa.Compute: gives no result where C++ leaves it undefined (division by zero or overflow, shifts of at least the width); signed overflow in sums and products is taken to wrap.
- Isa.Decode: takes the UNKNOWN kinds of OP_IMM32 and OP_32, which index a name table with -1, as the exit on an unknown encoding.
- CacheObject.Cache.HandleRequest: passes content as a sequence instead of a `char*` buffer, and makes a write-through write miss copy the bytes before the lower write instead of after it; a failing lower write stops the process in either order.
- PagedMemory.Memory.Alloc: does not print the message for a page that exists.
- Prefetching, bypassing and partitioning: constant or empty functions in the source.
- The floating-point `log2` of `SetConfig`: geometries carry exact base-2 logarithms.
- Counters, ages and times are mathematical integers.
- Printing, verbose and single-step modes, argument parsing, the text of the statistics printed at exit (the counters themselves are modelled), the stack overflow message, `print_regs_info` and `dump_memory`, which reads the memory below unflushed caches.
- The check of the address in MEM before a load (simulation.cpp:1253-1257) and in IF: the access that follows faults on the same addresses.
- `F_REG.cur.inst` and `W_REG.cur.valE`: never read.
- Startup.Simulation: builds the caches after the program is loaded, where `main` builds them before; cold caches hold nothing either way.
- ELF stream input and output, headers, string tables, symbols, relocations, notes and dumps: plumbing that would add only easy members.
- ElfSizes.NestedSegment: gives no formula for a segment that lists both new and already placed sections, or zero-filled sections between others of a nested one.
