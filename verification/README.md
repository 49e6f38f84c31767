# Verification of the RV32E processor, its golden model and the cache simulator

The repository holds a multi-cycle RV32E processor in SystemVerilog, a golden model in C++ that
executes one whole instruction per call, a random test bench that compares the two, and a
trace-driven cache simulator. This project models them in Dafny and proves what the test bench can
only sample.

**The processor refines the golden model, for every latency.** One clock cycle is one step: every
register is updated at once from the wires of that cycle (`Cpu`, with one module and one class per
hardware unit). The processor is connected to one memory slave per bus port (`Soc`). A slave latches
a request only when it is ready, answers exactly once at least one cycle later, ignores requests in
the cycle of its answer, and is ready again in the next one. When it answers, and what the read bus
carries in between, is an arbitrary choice made anew in each cycle. The main theorem is
`Simulation.RunSimulates`, and `Simulation.ArchitecturalState` says in terms of the processor's own
registers what it means: in every run the pc, the register file and memory are those of the golden
model after as many instructions as the processor has retired. It rests on

- a one-token invariant of all state machines together (`Token`), for every instruction word,
- byte-lane arithmetic: the one or two masked, rotated beats of an access are one unaligned access (`Lsu`),
- the agreement of the two decoders and datapaths, with the exact set of words on which they agree (`Datapath`),
- coherence of the instruction cache (`Icache`, `Refinement`).

For arbitrary programs, including self-modifying ones, `CacheAgreement` and `RegionEnd` say exactly what
a fetch delivers. Two things can go wrong. A hit delivers the word as of the last fill of its line, which
is stale if a store has changed it since. And neither side rounds a jump target down, while the test bench
treats the last three bytes of flash and RAM as unmapped, so a miss through an unaligned pc in the last
word of a region delivers zero. `FailingFetch` is a program that does the latter and fails the test
bench's comparison.

**What an instruction does.** Agreement of two models says nothing if both are wrong in the same way, so
the meaning is stated a second time without either: `Fields` reads an instruction as numbers cut out
of its bits, `WordArithmetic` ties addition, subtraction and shifts of words to numbers modulo 2^32,
`Isa` says by literal function codes what a calculation yields and when a branch condition holds, and
`MemoryMeaning` says which bytes a load reads and a store changes. `Execution` then describes one step of
the golden model for each opcode, written as a literal, in these terms alone, together with its
error flag over whole runs. With the main theorem this is what the processor does.

`Discipline`, `Progress`, `Counters` and `EventMeaning` prove what the data bus sees, how long an
instruction can take, three conservation laws of the performance counters, what each counter
counts, and when the ebreak flag is set. `Gcpu` and
`Testbench` are the golden model and the test bench memory as they are written, on byte arrays updated
in place.

The refinement covers an instruction (`Refinement.InDomain`) when the pc, and the address of a load
or store, lie in flash or RAM below the last three bytes of the region; when its word is one on
which the two datapaths agree (`Datapath.Supported`, proved exact); and when, for a store into RAM, it
leaves alone every word that has already been fetched. The last condition keeps a stale hit out, because
the cache is never invalidated; it is sufficient, not necessary: a stored word may have left the cache, or
be stored unchanged. A store into flash is covered: neither side changes memory. All this is
asked only of the instructions that have retired; the one in progress may be anything.

**The cache simulator.** `Lru` gives an LRU cache a meaning in terms of its access history alone, by
stack distance, and `Cachesim` proves the simulator's loops against it; `SeenSet` proves the
linear-probing hash table against a mathematical set, for any hash function. The source file is
unfinished. The model repairs the evident slips in `soc/cachesim.cpp` and nothing else: `c` is the
cache passed to `cache_access` and `split_line`, `time` is the loop index, `itrace_len` is set by the
constructor, the hash is one function of the key, and the stray line 101 is dropped. It requires
what the allocations at lines 91 and 95 require, `total_bytes == sets * ways * line_bytes`, and a
trace shorter than 2^32 because `last_used` has 32 bits. The counter names at lines 165-170 are the
reverse of the usual ones: the branch at line 165 counts as a capacity miss what the fully
associative cache of the same size would have hit, which is normally called a conflict miss. The
model keeps the names of the fields and states the counts by branch.

**Encoders and the generator.** `Encoders` proves round trips between the encoders and the decoder,
and says exactly where they fail: `r_type` shifts the function code by 24 instead of 25. `Generator`
proves that the random instruction generator stays inside the words on which both sides agree, and
that the register preamble makes every later access relative to an untouched base register mapped;
`Loading` copies the instruction buffer into flash, and `Preamble` carries the result over to the
processor with the main theorem. `Numbers` ties shifts, comparisons and counting of words to the
integers they stand for.

The reference is the golden model, not the ISA manual. Neither side clears bit 0 of a `jalr` target,
which section 2.5 of the RISC-V Unprivileged ISA (20191213) asks for, and the model does not either.

## Model

| member | source | states |
|---|---|---|
| Simulation.RunSimulates | soc/cpu.sv:77-204 | for every run from reset and every choice of bus latencies, the processor simulates the golden model advanced by the number of retired instructions, provided that these are covered and that the next pc is in flash or RAM |
| Simulation.ArchitecturalState | soc/soc_main.cpp:835-878 | what the test bench compares, for every run whose retired instructions are covered, whatever follows them: pc and registers are the golden model's; so is memory, except that a split store waiting for its second part has done exactly its first beat; the ebreak event after a retirement tells whether the golden model stopped; and if the next pc is in flash or RAM, the instruction being executed is the golden one |
| Simulation.SimulationStep | soc/cpu.sv:159-204 | in one cycle the golden model takes a step exactly when the processor retires, and otherwise stands still |
| Simulation.TracksStep | soc/cpu.sv:159-204 | whatever the instruction in progress is, covered or not, it changes nothing before it retires but the first part of a split access |
| Simulation.TracksIsVisible | soc/cpu.sv:57-75 | the relation read off the processor's registers |
| Simulation.FetchStep | soc/ifu.sv:64-111 | a fetch answered by the cache or by the bus delivers the golden model's instruction, for every pc in flash or RAM at any alignment |
| Simulation.AccessStep | soc/lsu.sv:155-206 | a data access that goes on leaves the golden model where it is; after the first beat of a split access memory is one beat ahead and the first word is held |
| Simulation.LoadedAgrees | soc/lsu.sv:108-129 | the load data written back when a load retires is the golden model's extended read |
| Simulation.MemoryAgrees | soc/lsu.sv:40-96 | memory after the retiring cycle is the golden model's and the instruction cache is still coherent with it |
| Simulation.RetireStep | soc/exu.sv:54-103 | a retiring cycle is one step of the golden model |
| Token.TokenStep | soc/exu.sv:68-103 | for every instruction word and latency, the state machines of fetch, decode, execute and load/store pass on one token, and the instruction retires exactly where the token says |
| Token.TokenRun | soc/cpu.sv:195-204 | the token invariant in every run |
| Token.ExactlyOneToken | soc/exu.sv:54-103 | after the first cycle exactly one of the fetch, the decoder's pulse and the data access is active |
| Token.FetchStatesReached | soc/ifu.sv:35-53 | IFU_WAIT_ICACHE and IFU_WRITE_ICACHE are unreachable |
| Token.TransactionIsStable | soc/cpu.sv:159-193 | pc and registers change only at a retirement; while an instruction waits, its word and its memory address, data, size and direction stand still |
| Datapath.SupportedAgrees | soc/exu.sv:57-159 | on every supported word, for all operands, both datapaths give the same register write, next pc, halt flag, and memory access |
| Datapath.SupportedIsExact | soc/idu.sv:78-132 | the supported words are exactly those on which the two datapaths agree for all operands |
| Datapath.LoadAgrees | soc/gcpu.cpp:442-456 | loads: same address, width and sign or zero extension on both sides |
| Datapath.LuiAgrees | soc/idu.sv:100-104 | `lui` through the ALU's pass-through code writes what the golden model writes directly |
| Datapath.BranchAgrees | soc/gcpu.cpp:396-400 | branches: same condition and target on both sides |
| Alu.AlusAgree | soc/alu.sv:12-32 | the hardware ALU and `alu_eval` agree on every code but the three only the hardware has |
| Alu.ShiftsAgree | soc/riscv.cpp:60-70 | the hardware's arithmetic right shift is `sra32` |
| Numbers.SraIsFloorDivision | soc/riscv.cpp:60-70 | `sra32` is division of the signed number by 2^shamt, rounding towards minus infinity |
| Numbers.SignedOrder | soc/gcpu.cpp:233-242 | `slt` is the order of the signed numbers |
| Numbers.UnsignedOrder | soc/com.sv:18-19 | unsigned comparison is the order of the unsigned numbers |
| WordArithmetic.SumValue | soc/alu.sv:17 | addition of words is addition of their numbers modulo 2^32 |
| WordArithmetic.DifferenceValue | soc/alu.sv:18 | subtraction likewise |
| WordArithmetic.ShiftedLeftValue | soc/alu.sv:23 | a left shift is multiplication by a power of two modulo 2^32 |
| WordArithmetic.ShiftedRightValue | soc/alu.sv:24 | a logical right shift is division by a power of two |
| Isa.AluYields | soc/gcpu.cpp:244-260 | every calculation by its literal code, on both units: sums, differences and shifts as numbers with the shift amount modulo 32, the comparisons as 1 or 0 by the order of the signed or unsigned numbers, and `xor`, `or` and `and` bit by bit |
| Isa.OwnCodes | soc/alu.sv:21-29 | the three codes only the hardware has: 10 and 11 pass an operand, 15 is the first operand without the bits of the second |
| Isa.CompareHolds | soc/gcpu.cpp:262-273 | every branch code by its literal: 0 and 1 are equality and inequality, 4 and 5 the signed order, 6 and 7 the unsigned one; the hardware has code 2 besides, which always holds |
| Fields.ImmediateI | soc/gcpu.cpp:328-330 | the I-type immediate as the signed number in the instruction's bits |
| Fields.ImmediateU | soc/gcpu.cpp:332 | the U-type immediate |
| Fields.ImmediateS | soc/gcpu.cpp:334-338 | the S-type immediate, from its two parts |
| Fields.ImmediateB | soc/idu.sv:76 | the B-type immediate, from its four parts |
| Fields.ImmediateJ | soc/idu.sv:75 | the J-type immediate, from its four parts |
| Execution.FieldNumbers | soc/idu.sv:66-71 | opcode, registers and function code are the numbers in the bits they occupy |
| Execution.RegisterOperation | soc/gcpu.cpp:414-471 | a word with opcode 0x33 writes to register rd, and to no other, what its function code yields of the two source registers; bit 30 selects the alternative of codes 0 and 5; x0 and registers past x15 are dropped; the pc advances by four |
| Execution.ImmediateOperation | soc/gcpu.cpp:414-471 | opcode 0x13: the same with the immediate as second operand; bit 30 matters for code 5 only |
| Execution.LoadUpperImmediate | soc/gcpu.cpp:380-383 | opcode 0x37 writes the upper twenty bits of the word as a number times 4096 |
| Execution.AddUpperImmediate | soc/gcpu.cpp:384-387 | opcode 0x17 writes the pc plus that number |
| Execution.JumpAndLink | soc/gcpu.cpp:392-395 | opcode 0x6F writes the pc plus four and moves by the offset |
| Execution.JumpRegisterAndLink | soc/gcpu.cpp:388-391 | opcode 0x67 writes the pc plus four and goes to the source register plus the offset |
| Execution.BranchOperation | soc/gcpu.cpp:396-400 | opcode 0x63 moves by the offset if the condition of its code holds of the two source registers, else by four, and changes nothing else |
| Execution.LoadOperation | soc/gcpu.cpp:440-454 | opcode 0x03, codes 0, 1, 2, 4 and 5: the register becomes the byte, half word or word at source plus offset, with the sign the code asks for |
| Execution.StoreOperation | soc/gcpu.cpp:143-172 | opcode 0x23: one, two or four bytes of the second source go to source plus offset if that lies in RAM, and no other byte changes; elsewhere memory stays |
| Execution.SystemOperation | soc/gcpu.cpp:401-404 | opcode 0x73 does nothing but stop the model, exactly if bit 20 is set |
| Execution.UnknownOperation | soc/gcpu.cpp:405-407 | every instruction that is not implemented leaves registers and memory alone and advances the pc by four |
| Execution.KindNumbers | soc/gcpu.cpp:349-408 | an instruction is undefined to the golden model exactly by these opcodes and codes |
| Execution.FlagStep | soc/gcpu.cpp:414-471 | one step sets `is_not_mapped` exactly if the instruction is not implemented, is fetched or reads where nothing is, or stores outside RAM; nothing clears it |
| Execution.FlagOfRun | soc/soc_main.cpp:1037-1039 | after k instructions the flag is set exactly if one of them was such an instruction |
| Execution.StoreRecord | soc/gcpu.cpp:143-146 | `is_mem_write` after a step says whether the instruction was a store, and `written_address` is the address of the last one |
| MemoryMeaning.Regions | soc/mem_map.h:1-11 | the bounds of flash, RAM and UART as numbers, without the last three bytes of flash and RAM |
| MemoryMeaning.ReadMeans | soc/gcpu.cpp:174-231 | a read joins the four bytes from its address on, least significant first |
| MemoryMeaning.WriteMeans | soc/gcpu.cpp:143-172 | a store of so many bytes changes the bytes from its address on, in RAM and nowhere else |
| Decode.ImmediatesAgree | soc/idu.sv:72-76 | the five immediates are the same in both decoders |
| Lsu.StoreRefines | soc/lsu.sv:40-96 | the one or two masked, rotated word beats of a store leave memory exactly as the golden unaligned masked write does, for every address, size and data |
| Lsu.LoadRefines | soc/lsu.sv:98-129 | a load assembled from one word, or from two through the held part of the first, is the golden unaligned read with its extension |
| Lsu.SecondBeatMapped | soc/lsu.sv:43 | the second beat of a mapped split access is in the same region |
| Lsu.BeatsStore | soc/lsu.sv:48-96 | lanes and masks: the beats of a store are an unaligned masked put of its bytes |
| Lsu.BeatsLoad | soc/lsu.sv:108-129 | lanes and alignment: the bytes of a load are those at its unaligned address |
| Lsu.StoreToFlashIgnored | soc/soc_main.cpp:544-549 | neither beat of a store into flash changes memory |
| Memory.PutMaskedByte | soc/gcpu.cpp:155-161 | a masked store changes the bytes whose mask bit is set to the bytes of the data, and no other byte |
| Memory.StoredWordReadBack | soc/gcpu.cpp:143-231 | a word stored at any RAM address is read back |
| Icache.HitReadsMemory | soc/icache.sv:40-42 | a hit in a coherent cache returns the memory word of the address |
| Icache.FillKeepsCoherent | soc/icache.sv:46-57 | a refill keeps every line coherent, whichever line it replaces |
| Icache.FilledHits | soc/icache.sv:46-57 | an address hits right after its line was filled, with the data of the fill |
| Icache.SameWord | soc/icache.sv:40 | two addresses share index and tag exactly if they lie in the same word |
| Icache.Placement | soc/icache.sv:40 | an address is looked up in the line that its bits 2 to 9 name, and the bits above are the tag |
| Refinement.StoreKeepsCoherent | soc/icache.sv:44-57 | a store that leaves the fetched words alone keeps the cache coherent |
| Refinement.BeatElsewhere | soc/soc_main.cpp:567-573 | a beat leaves every word but its own alone |
| Refinement.FetchReads | soc/gcpu.cpp:415 | the bus and the golden model read the same instruction word for every mapped pc |
| Refinement.RetireControl | soc/cpu.sv:159-164 | the next pc and the halt flag of a retiring instruction are the golden model's |
| Refinement.RetireRegs | soc/rf.sv:20-33 | the register file after a retiring instruction is the golden model's, and x0 stays zero |
| CacheAgreement.LineHoldsFilledWord | soc/icache.sv:40-57 | for every program, a valid line was filled, has the address of the word of the pc at its last fill, and holds what the bus read there at that time |
| CacheAgreement.ValidIffFilled | soc/icache.sv:46-57 | for every program, a line is valid exactly if it has been filled since reset |
| CacheAgreement.HitIffLastFilled | soc/icache.sv:68-76 | a fetch hits exactly if its line has been filled and the last fill was at the same word |
| CacheAgreement.BusReadExact | soc/soc_main.cpp:508-538 | the bus reads the word around an address if and only if the address is aligned or that word is not the last of flash or RAM; otherwise it reads zero |
| RegionEnd.FetchDelivers | soc/ifu.sv:64-105 | for every program, a hit delivers the word at pc & ~3 as of the last fill, without exception, so the current word if and only if memory holds there what it held then; a miss delivers the current word if and only if the pc is aligned, or the word is not the last of a region, or it is zero anyway |
| RegionEnd.HitLineIsWhole | soc/icache.sv:69-76 | a hit never meets a line that an unaligned fetch at the end of a region has filled with zero |
| RegionEnd.RunPasses | soc/ifu.sv:95-104 | because while the cache holds such a line the processor executes zeros past the end of the region, until the line is filled again |
| FailingFetch.FetchGoesWrong | soc/soc_main.cpp:508-538 | the failing fetch: a two-instruction program jumps to an unaligned pc in the last word of RAM; there, whatever that word is, the processor executes zero and the golden model the word |
| FailingFetch.ComparedAfterwards | soc/soc_main.cpp:835-878 | after the same three instructions the processor has changed nothing but the pc, so the comparison succeeds if and only if the last word does nothing else on the golden model |
| FailingFetch.ComparisonFails | soc/soc_main.cpp:835-878 | for instance, an `addi` of anything but zero to x1 in the last word makes it fail |
| Discipline.BusDiscipline | soc/lsu.sv:135-206 | in every run the accepted beats are the beats of the requested accesses, one if aligned and two if misaligned, in order and never duplicated, short of the second one of the access in flight; each finished access has had exactly one response |
| Discipline.BusCycle | soc/lsu.sv:149-206 | the same for one cycle, despite the request being held for two cycles |
| Discipline.ResponseWithLastReply | soc/lsu.sv:171-190 | the response pulse comes exactly in the cycle in which the last beat is answered |
| Progress.NextRetirementIsNear | soc/cpu.sv:195-204 | in every run in which fetches are answered within f cycles and beats within l, every retirement is followed by the next one at most f + 2 l + 3 cycles later |
| Progress.ManyRetire | soc/cpu.sv:195-204 | from reset, n instructions retire within n (f + 2 l + 3) + 1 cycles |
| Progress.RankDecreases | soc/exu.sv:54-103 | the ranking function behind both |
| Progress.HitRetiresInTwo | soc/ifu.sv:65-74 | the second cycle of a fetch retires if and only if the instruction is cached and is no memory access |
| Progress.ExactDuration | soc/cpu.sv:195-204 | the exact time of an instruction for every choice of latencies: two cycles, the fetch latency on a miss, and the latencies of its beats, with one cycle between the beats of a split access |
| Counters.CycleConservation | soc/exu.sv:174-177 | past the first cycle, `mcycle` is instret + ifu_wait + lsu_wait + 1, modulo 2^64 |
| Counters.RetirementConservation | soc/exu.sv:178-184 | over every run and every word, instret is the sum of the six instruction classes, and branches taken are at most branches seen |
| Counters.FetchConservation | soc/ifu.sv:65-80 | fetch requests are cache hits plus bus fetches |
| Counters.OneClass | soc/exu.sv:178-183 | every instruction word, defined or not, falls into exactly one class |
| Counters.EbreakFlag | soc/exu.sv:174 | in every covered run the sticky ebreak flag is set exactly if the golden model stopped at one of the retired instructions |
| EventMeaning.RtlClass | soc/exu.sv:178-183 | the class of a word by its literal opcode |
| EventMeaning.ClassCount | soc/exu.sv:178-183 | in every run and for every program, the load, store, system, jump, branch and calculation counters are each the number of retired instructions of that class, and instret is the number of retired instructions |
| EventMeaning.GoldenClassCounts | soc/exu.sv:178-183 | in a covered run these are the numbers of instructions of that class among those the golden model has executed |
| EventMeaning.TakenCount | soc/exu.sv:184 | in a covered run the taken branches are the golden model's branches whose condition holds; code 2, which only the hardware has, counts as taken |
| EventMeaning.CycleCounts | soc/exu.sv:176-177 | in every run and for every program, the wait counters count the cycles that end in a fetch and in a data access, the cache counter those with a fetch pulse whose line hits, and the bus counter the accepted fetches |
| Counters.PerfCounters.Reset | soc/soc_main.cpp:394-435 | the counters and the ebreak flag are cleared |
| Counters.PerfCounters.Observe | soc/soc_main.cpp:409-439 | each counter goes up by one exactly when its event is signalled, and the ebreak flag sticks |
| Cpu.CpuUnit.Clock | soc/cpu.sv:77-204 | the wired units, each clocked on its own registers, make one step of the specification |
| Cpu.CpuUnit.constructor | soc/cpu.sv:195-199 | the reset state; the instruction register is left arbitrary |
| Lsu.LsuUnit.Combine | soc/lsu.sv:150-206 | the controller's outputs and next state, case by case |
| Lsu.LsuUnit.Clock | soc/lsu.sv:98-147 | the registers after the clock edge; only reads load the held part |
| Ifu.IfuUnit.Combine | soc/ifu.sv:55-112 | the fetch controller together with the cache's handshake wires |
| Ifu.IfuUnit.Clock | soc/ifu.sv:42-53 | the state register loads on a request or on either response |
| Icache.IcacheUnit.Clock | soc/icache.sv:46-66 | one edge writes the addressed line and no other |
| Icache.IcacheUnit.Reset | soc/icache.sv:49-51 | reset clears the valid bits and keeps tags and data |
| Exu.ExuUnit.Combine | soc/exu.sv:68-103 | the next execution state |
| Idu.IduUnit.Clock | soc/idu.sv:28-39 | the instruction register and the response pulse |
| Rf.RegisterFile.Clock | soc/rf.sv:20-28 | one edge writes the named register, unless it is x0 or out of range |
| Rf.RegisterFile.Reset | soc/rf.sv:21-24 | all sixteen registers become zero |
| Pc.ProgramCounter.Clock | soc/pc.sv:11-14 | the pc loads exactly when enabled |
| Csr.CsrUnit.Clock | soc/csr.sv:21-28 | `mcycle` counts modulo 2^64 |
| Gcpu.Gcpu.Eval | soc/gcpu.cpp:414-471 | `cpu_eval` on arrays is the specified step on values, and returns the halt flag |
| Gcpu.Gcpu.MemRead | soc/gcpu.cpp:174-231 | an unaligned read, flagging unmapped addresses |
| Gcpu.Gcpu.MemWrite | soc/gcpu.cpp:143-172 | an unaligned masked write to RAM and nowhere else, flagging flash and unmapped addresses |
| Gcpu.Gcpu.RfRead | soc/gcpu.cpp:289-294 | registers out of range read as zero |
| Gcpu.Gcpu.RfWrite | soc/gcpu.cpp:296-300 | writes to x0 or out of range are dropped |
| Gcpu.Gcpu.PcWrite | soc/gcpu.cpp:275-282 | jump or advance by four |
| Gcpu.Gcpu.Reset | soc/gcpu.cpp:118-132 | everything but memory is reset |
| Testbench.BusMemory.Read | soc/soc_main.cpp:508-538 | the aligned word around the address |
| Testbench.BusMemory.Write | soc/soc_main.cpp:540-580 | the masked bytes of the aligned word around a RAM address, and nothing else |
| ByteArrays.HoldsUpdate | soc/gcpu.cpp:155-161 | updating one array cell is updating one byte of the contents |
| Lru.PresentIsResident | soc/cachesim.cpp:113-149 | each set holds exactly its lines of stack distance below the number of ways: the most recently used ones |
| Lru.HitKeeps | soc/cachesim.cpp:115-121 | a hit keeps the invariant of the set |
| Lru.MissKeeps | soc/cachesim.cpp:123-149 | filling an unused way or replacing the least recently used one keeps it, without duplicates |
| Lru.OtherSetKeeps | soc/cachesim.cpp:113 | an access to one set keeps the invariant of the others |
| Lru.MoreWaysHoldMore | soc/cachesim.cpp:123-149 | inclusion: after the same accesses, the contents of a set with fewer ways are contained in those of one with more |
| Cachesim.MoreWaysIncludeFewer | soc/cachesim.cpp:108-150 | the same for two caches with equal sets and equal history, set by set |
| Lru.HitsGrowWithWays | soc/cachesim.cpp:115-121 | the number of hits over any trace never drops when ways are added |
| Lru.RealHitIsFullHit | soc/cachesim.cpp:157-161 | a hit in the set-associative cache is always a hit in the fully associative one of the same capacity if and only if there is one set, for any bound on the line numbers from twice the capacity on, and without a bound |
| Lru.DetourEvictsFromFull | soc/cachesim.cpp:157-161 | for every larger number of sets and every number of ways, a trace on which it is not, with no line beyond twice the capacity |
| Cachesim.Cache.Access | soc/cachesim.cpp:108-150 | `cache_access` hits exactly when the line was accessed before and fewer than `ways` distinct other lines of its set were accessed since |
| Cachesim.Cache.Find | soc/cachesim.cpp:115-121 | the scan finds the tag if a valid way holds it |
| Cachesim.Cache.ChooseVictim | soc/cachesim.cpp:123-144 | an unused way if there is one, else one with the least `last_used` |
| Cachesim.Cache.SplitLine | soc/cachesim.cpp:103-106 | set and tag determine the line |
| Cachesim.FoundIsResident | soc/cachesim.cpp:115-121 | finding the tag is a hit by the history |
| Cachesim.AccessKeepsSets | soc/cachesim.cpp:113 | an access that keeps the invariant of its own set keeps that of every set of the cache |
| Cachesim.LinesAreBlocks | soc/cachesim.cpp:155 | the line of an access is the one aligned block of `line_bytes` bytes that holds its address, and two accesses are to the same line exactly if they lie in the same block |
| Cachesim.Cachesim.Eval | soc/cachesim.cpp:152-172 | the lines are the aligned blocks of `line_bytes` bytes; the four counters are the numbers of accesses of each branch, decided by stack distance alone; they sum to the trace length; compulsory misses are the distinct lines; the seen set is the set of lines accessed |
| Cachesim.Cachesim.Simulate | soc/cachesim.cpp:154-170 | one iteration; the branch at line 165 fires exactly for a real miss on a seen line of stack distance below `full.ways` |
| Cachesim.Cachesim.constructor | soc/cachesim.cpp:84-99 | empty caches, an empty seen set, counters at zero |
| Cachesim.CountersSumToLength | soc/cachesim.cpp:159-170 | every access takes exactly one of the four branches |
| Cachesim.CompulsoryIsDistinct | soc/cachesim.cpp:162-164 | one compulsory miss for each distinct line of the trace |
| Cachesim.BranchByAnswers | soc/cachesim.cpp:157-170 | the branch in terms of the answers of the two caches and the table; a line in the real cache was always seen |
| Cachesim.RealHitsAreHits | soc/cachesim.cpp:159-161 | the hit counter is the number of hits of the LRU meaning |
| Cachesim.OneSetNeverOnlyFullHit | soc/cachesim.cpp:165-167 | with one set the branch at line 165 never fires |
| SeenSet.Table.InsertIfNew | soc/cachesim.cpp:71-82 | true exactly if the key was absent; the key set grows by the key; the search ends as long as a slot is free; for any hash function |
| SeenSet.Table.constructor | soc/cachesim.cpp:56-63 | an empty table with at least 2 n + 16 slots, a power of two |
| SeenSet.FreeSlotMeansAbsent | soc/cachesim.cpp:74-77 | a search that reaches a free slot has shown that the key is absent |
| SeenSet.InsertKeeps | soc/cachesim.cpp:78-80 | filling that slot keeps the cyclic no-gap invariant and adds exactly the key |
| SeenSet.ProbeNext | soc/cachesim.cpp:76 | the masked increment stays on the probe path and comes closer to any free slot |
| SeenSet.MaskIsRemainder | soc/cachesim.cpp:72-73 | masking with the capacity less one is the remainder, because the capacity is a power of two |
| SeenSet.NextPow2 | soc/cachesim.cpp:35-39 | the least power of two that is large enough, without overflow up to 2^63 |
| Encoders.DecodeImmediate | soc/riscv.cpp:203-245 | immediate operations: registers, operation and signed immediate come back from the decoder |
| Encoders.DecodeRegister | soc/riscv.cpp:92-95 | register operations with function code 0 or 64: registers and operation come back |
| Encoders.DecodeLoad | soc/riscv.cpp:166-189 | loads: width, signedness, registers and offset come back; the three other codes are undefined |
| Encoders.DecodeStore | soc/riscv.cpp:191-201 | stores: mask, registers and offset come back |
| Encoders.DecodeUpper | soc/riscv.cpp:116-124 | `lui` and `auipc`: register and shifted immediate come back |
| Encoders.DecodeJumpReg | soc/riscv.cpp:131-133 | `jalr`: registers and offset come back |
| Encoders.RTypeRecovered | soc/riscv.cpp:92-95 | the second source of the R-type encoder comes back if and only if the function code is even or the source is above 15, and the function code if and only if it is zero |
| Encoders.UpperFieldsOfR | soc/riscv.cpp:92-95 | the code's lowest bit lands on the second source, and the decoder sees the code halved |
| Encoders.ITypeRoundTrip | soc/riscv.cpp:97-100 | re-encoding the decoded fields of any word with the I-type encoder gives the word back |
| Encoders.STypeRoundTrip | soc/riscv.cpp:102-107 | the same for the S-type encoder |
| Encoders.UTypeRoundTrip | soc/riscv.cpp:116-129 | the same for the raw twenty-bit field |
| Encoders.RTypeRoundTrip | soc/riscv.cpp:92-95 | the R-type encoder gives the word back if and only if the function code is zero |
| Encoders.BranchOffsetOfField | soc/riscv.cpp:109-114 | every raw field of `b_type` stands for an even branch offset, which determines it |
| Encoders.BranchFieldOfOffset | soc/riscv.cpp:109-114 | every even branch offset is reached by a raw field |
| Encoders.JumpOffsetOfField | soc/riscv.cpp:126-129 | every raw field of `jal` stands for an even jump offset, which determines it |
| Encoders.JumpFieldOfOffset | soc/riscv.cpp:126-129 | every even jump offset is reached by a raw field |
| Generator.GeneratedIsSupported | soc/riscv.cpp:456-552 | every instruction the generator can produce is one on which both sides agree |
| Generator.DrawDecodes | soc/riscv.cpp:456-552 | every draw comes back from the decoder: the literal opcode and function code meant, the registers in their places, the immediate, and the alternative bit; loads and stores never have x0 as base |
| Generator.MiddleNumbers | soc/soc_main.cpp:1161-1172 | the middles of flash and RAM as numbers |
| Generator.PreambleReachesMemory | soc/soc_main.cpp:1161-1172 | for all draws, the thirty preamble instructions leave each of x1 to x15 at the middle of flash or RAM plus a signed twelve-bit offset, memory unchanged, and any further twelve-bit offset mapped |
| Generator.PreambleRuns | soc/soc_main.cpp:1161-1172 | after 2 k instructions the first k registers are loaded |
| Preamble.PreambleCovered | soc/soc_main.cpp:1161-1172 | each of the thirty preamble instructions is covered by the refinement, for all draws |
| Preamble.PreambleOnProcessor | soc/soc_main.cpp:1161-1172 | for all draws and all latencies, the processor that has retired the preamble holds the drawn base in each of x1 to x15, has left memory alone and stands at the next instruction, whatever that is |
| Generator.WritePreamble | soc/soc_main.cpp:1161-1172 | the loop that writes the preamble into the instruction buffer and nothing else |
| Loading.LoadTest | soc/soc_main.cpp:956-968 | writing the preamble and copying the buffer into flash gives a memory that the preamble theorems apply to |
| Loading.ProgramLoaded | soc/gcpu.cpp:134-141 | every word of a buffer copied into flash byte by byte is fetched at its address |
| Gcpu.Gcpu.FlashInit | soc/gcpu.cpp:134-141 | the first bytes of flash become the program, and nothing else changes |
| Testbench.BusMemory.FlashInit | soc/soc_main.cpp:582-589 | the same for the test bench's flash |

## Left out

- UART, SDRAM and the rest of the SoC: the hardware is not shown, and the golden model implements the UART in part. A device address reads as zero here, and only flash and RAM are in the refinement's domain.
- Half-cycle timing of the test bench (`vcpu_subtick`): it samples held requests again and carries a note that the order matters. The abstract slave stands for the bus; a reply in the same cycle as the request is outside its contract because the fetch unit ignores it.
- CSR reads: the golden model has none. The hardware's value enters the datapath theorems as an arbitrary word, and an instruction that would write it to a register is outside `Datapath.Supported`.
- Programs that store into a word already fetched: the cache is never invalidated, and there is no FENCE.I (chapter 3 of the RISC-V Unprivileged ISA). `RegionEnd.FetchDelivers` says what such a fetch delivers; the refinement does not cover what follows.
- Accesses outside flash and RAM: the golden model flags them and the hardware does not. The flag is stated for the golden model alone.
- Execution.FlagStep: a UART address is never flagged, as in `Gcpu.Gcpu.MemRead`.
- Execution.FlagOfRun: likewise.
- Gcpu.Gcpu.MemRead: a UART address reads as zero and is never flagged, while the golden model reads a device register and flags the ones it lacks.
- Testbench.BusMemory.Read: a UART address reads as zero, while the test bench reads its copy of the device register.
- Testbench.BusMemory.Write: a write to a UART address changes nothing here, while the test bench stores or prints the byte.
- Counters.PerfCounters.Reset: `mcycle`, which the same call clears, is the hardware's own register and is modelled in `Csr`.
- Gcpu.Gcpu.Eval: an access to a UART address reads as zero and is never flagged, as in `Gcpu.Gcpu.MemRead`.
- Word widths in the cache simulator: line addresses, tags and keys are unbounded numbers; `last_used` is cut to 32 bits as in the source, and the doubling in `next_pow2` is shown not to overflow 64 bits.
- `sra32` with a shift of zero: its negation overflows a signed integer for 0x80000000; the model takes the same 32-bit pattern as the result.
- Event counters other than `mcycle` are unbounded numbers; the test bench keeps them in 64 bits.
- Weights, distributions and seeds of the random generator: every draw in range is possible, and how often an opcode is listed changes only its probability.
- `hash32`: the hash function is a parameter, so nothing depends on it.
- Allocation, tracing, printing, file and argument handling, and the superseded test bench `soc/cpu_main.cpp`.
