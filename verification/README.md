# A verified model of the RISC-V core, its simulator and its bus plumbing

The repository holds an RV32IM core in Verilog, a C++ instruction-set simulator that is its
reference, and AXI modules around the core. This project models the parts with the most state and
proves what they are for, over every run. A clocked module is a record of registers, a function
`Next` from the registers and this clock's inputs to the next registers, and a class whose `Step`
updates the registers in place and is proved to compute `Next`. Main results are about `After`, the
state and history after any sequence of inputs that the surroundings may produce (`Legal`).

| files | what they model |
|---|---|
| `pipe_*` | issue, scoreboard, forwarding, stall, squash and commit; CSR results; the load/store unit's control; the same with memory behind it |
| `core_*` | fetch and pipeline wired together, executing the program in instruction memory; what an orphaned access does to them |
| `mmu_*` | Sv32 walker, both TLB registers, permission checks, request mux; the simulator's walk; fetch in front of the MMU |
| `fetch` | program counter, buffered branch, response drop, output buffer |
| `byte_memory`, `lsu_*`, `ram` | lane steering, request FIFO, load extraction, strobed RAM; the simulator's memory; the unit and its part in the pipeline model are one machine |
| `traps_*`, `pending` | trap entry and return in the CSR file and in the simulator; buffered pending interrupts |
| `tcm_*`, `fifo` | AXI bursts into the tightly coupled memory, sharing its port with the CPU |
| `bridge*`, `data_port` | the AXI master of the data port and the mux in front of it |
| `skid`, `adapter_*`, `merge_*` | the read width adapter towards an equal or wider bus, and towards a narrower one |
| `arbiter` | fixed-priority and round-robin arbiter with its priority encoder tree |
| `axi_memory*` | the test bench's AXI memory |
| `divider`, `multiplier`, `alu`, `words` | arithmetic units against the mathematical operations |

## What the surroundings must guarantee

- Pipeline: no interrupt (`div_opcode_valid_o` is not masked by it, core/riscv/riscv_issue.v:415, so
  a divide issued in an interrupt cycle would run untracked); memory answers only accepted requests.
  Instructions are abstract: class, registers, and functions for the units; loads take oracle words.
- Pipeline, one premise is about the core itself. A taken branch to a misaligned address traps in E2;
  when the next instruction, then in E1, is an aligned load or store, the pipeline squashes it, but
  the load/store unit has already latched its request (`Leaks`), presents it until memory accepts, and
  the trap handler's first load takes that access's response. `OrphanAccepted` says that memory accepted
  at such a clock or later. `RefinesIffNoOrphanAccepted` shows this condition exact for the memory accesses,
  `LeakBreaksRefinement` is a program on which the wired core's register file goes wrong, `OrphanCanHang`
  one on which it never issues again, `AccessOutlivesTrapIffLeak` says when the request stays behind, and
  `AlignedTargetsNeverLeak` shows that aligned targets suffice. A misaligned access squashed there does
  no harm. Order, squashing and the captured results need no such premise.
- Pipeline with memory: memory performs each request when it accepts it, unless it will fail it, and
  answers the open one with the word read then; addresses, alignment and extraction are the load/store
  unit's (`FormatsAreSound`).
- Core: the cache answers each read with what instruction memory holds at that address for that
  privilege, which stays the same during the run; the CSR unit's redirect targets are inputs.
- MMU: the second level of the walk ignores a bus error (core/riscv/riscv_mmu.v:263), so claims are
  about addresses whose second-level read succeeds, and `SecondLevelErrorTakenIff` says what happens
  otherwise; memory answers the walker with the word it holds at that clock; the page of the requester is
  stable during a walk, which fetch ensures by itself (`FetchKeepsItsPage`), so that only the load/store
  unit has to. Satp and page tables may change in any clock: the claims are for an address whose own
  table words, and satp, are as they were since a clock that `Forgets` its page: the first, a flush, or one
  with no entry and no walk for it. A flush does not stop a walk under way (`FlushDoesNotStopAWalk`), so
  it counts only if there is none for that page or the read is where the tables still lead. In the core
  a write of satp raises the flush from its E1 clock (core/riscv/riscv_csr.v:293-299), before satp changes
  at write-back: what a walk in between finds for a page is in force until the next flush.
- TCM slave: offers stay until taken, write strobes are not all clear, and a data beat taken together
  with its address is marked last exactly when the burst has one beat.
- Width adapter: the wide beats fill the address space evenly; towards a narrower bus, beat sizes divide
  the buses as AXI has them. Powers of two are not needed beyond that.
- Data port: each side answers its open accesses once and in order; cache control goes to the TCM only.

Where the code and its own expectations differ, the model follows the code: the simulator's fetch
faults pages that are writable, executable and unreadable while the hardware runs them
(`FetchPermissionsAgreeIff`); an instruction miss needs two walks because validity is judged against
the previous tag (`FetchMissNeedsTwoWalks`); the cause of an interrupt can differ from the simulator's
(`InterruptCauseAgreesIff`); an event buffered by a read of the pending register that no write follows
comes back later (`ReadOnlyLeavesStaleEvents`, `StaleIff`). Every CSR instruction that does not trap writes
back, even with x0 as its source (core/riscv/riscv_csr.v:229), so such reads come from other instructions:
the read enable is up for any that issues (core/riscv/riscv_issue.v:525), so one whose top twelve bits
are 0x344 or 0x144, such as an ADDI with that immediate, starts the buffering and ends in no write.

## Model

| member | source | states |
|---|---|---|
| CoreTheorems.ExecutesTheProgram | core/riscv/riscv_core.v:258-640 | fetch, branches, forwarding, squashing and traps together: each instruction that commits or traps is the one memory holds where one-at-a-time execution of the outcomes before it stands, at pc + 4, the taken target or the trap's vector; so is the one in WB, under the pc its trap reports; the register file is that execution's |
| CoreTheorems.EveryRunGoesOn | core/riscv/riscv_core.v:258-640 | the wiring restricts nothing: any next behaviour of memory, cache and divider continues a run |
| CoreTheorems.ShownIsFetched | core/riscv/riscv_fetch.v:186-266 | what fetch shows is the content of instruction memory at the position its stream has reached |
| CoreTheorems.ProgramStep | core/riscv/riscv_issue.v:176-178 | the chain from the last outcome through WB, E2 and E1 to fetch's next pc is kept by every clock, also across stalls, jumps, traps and redirects |
| PipeTheorems.RefinesSequentialExecution | core/riscv/riscv_pipe_ctrl.v:244-446 | for all four bypass settings, after any run in which memory accepts no orphan, the register file and the memory accesses are those of executing the committed instructions one at a time |
| PipeTheorems.RefinesIffNoOrphanAccepted | core/riscv/riscv_lsu.v:278-329 | for every run: the accesses are those of sequential execution throughout exactly if memory accepts nothing at a leaking clock or after it |
| PipeTheorems.AcceptingClock | core/riscv/riscv_lsu.v:278-329 | otherwise the clock that accepts the orphan is the first one whose accesses are wrong |
| PipeTheorems.EachInstructionOnceInOrder | core/riscv/riscv_pipe_ctrl.v:178-446 | in every run each issued instruction commits, traps or is squashed once, in order, or is still in WB, E2 or E1; only the instruction right behind a trap is squashed |
| PipeTheorems.IssueReadsArchitecturalRegisters | core/riscv/riscv_issue.v:340-493 | each operand captured at issue equals the register file after the older instructions in WB, E2 and E1 retire, whatever a load in E1 brings |
| PipeTheorems.TrapsArePrecise | core/riscv/riscv_pipe_ctrl.v:334-439 | at a trap the older instruction commits; until the redirect nothing issues, writes a register or presents a memory request |
| PipeTheorems.AccessOutlivesTrapIffLeak | core/riscv/riscv_lsu.v:278-329 | a request is still held after a trap exactly if the trap is not a memory fault and an aligned load or store was in E1; a misaligned one ends inside the unit a clock later, with nothing issued |
| PipeTheorems.AlignedTargetsNeverLeak | core/riscv/riscv_pipe_ctrl.v:195-202 | with aligned branch targets no run has such a cycle, so none accepts an orphan |
| PipeTheorems.UnheldResultsAreCaptured | core/riscv/riscv_csr.v:219-275 | in every run, with a CSR access or divide in E1 there is no load or store in E2, so the one-clock CSR registers and divide pulse are always taken by E2 |
| CoreLeak.LeakBreaksRefinement | core/riscv/riscv_lsu.v:121-134 | a program on which the wired core, with a slow memory, accepts an orphan and ends with a register file that differs from sequential execution |
| CoreLeak.OrphanCanHang | core/riscv/riscv_lsu.v:278-329 | the same program, with the orphan's access failing: from then on, whatever the surroundings do, no instruction issues |
| CoreLeak.HangIsOrphan | core/riscv/riscv_lsu.v:278-329 | only an orphan brings that about: otherwise every load or store in E2 has its request or its response |
| PipeProgress.OfferedInstructionIssues | core/riscv/riscv_issue.v:335-410 | no deadlock: after any run, among clocks of any kind, eight in which memory and divider act and an instruction is offered make one issue, as long as no orphan is accepted |
| PipeMemory.LoadsReturnStoredBytes | core/riscv/riscv_lsu.v:278-415 | with any memory timing and failures, each committed load returns the bytes the committed stores before it left, aligned and extended as it asks; when nothing is open memory holds what they all left |
| PipeMemory.FormatsAreSound | core/riscv/riscv_lsu.v:125-270 | the correspondence this asks for holds for every choice of widths, signs and immediates |
| PipeProofs.ControlStep | core/riscv/riscv_issue.v:335-362 | which stages, pending flags and blocking operations can coexist, kept by every clock |
| PipeProofs.InvStep | core/riscv/riscv_pipe_ctrl.v:178-353 | where the access of each load or store in E1 or E2 is, and that no other is held, kept by every clock that does not leak |
| PipeProofs.LoadTakesItsOwnWord | core/riscv/riscv_lsu.v:345-415 | the response a load takes in E2 is the one to its own access |
| PipeProofs.E1ForwardsOnlyAlu | core/riscv/riscv_issue.v:340-360 | an instruction that reads E1's destination issues only behind an ALU operation or branch |
| PipeProofs.OperandIsArchitectural | core/riscv/riscv_issue.v:464-493 | a forwarded operand is right, as the invariant carried into E1 needs it |
| PipeProofs.HistStep | core/riscv/riscv_pipe_ctrl.v:402-446 | every clock that does not leak keeps registers and accesses in step with the committed instructions |
| PipeCore.BackEnd.Step | core/riscv/riscv_pipe_ctrl.v:178-446 | the registers after a clock are the specified next state, and the invariants are kept |
| MmuTheorems.TlbIsSound | core/riscv/riscv_mmu.v:220-386 | in every run, tables and satp changing at will: a valid I or D TLB entry for an address whose satp and table words are unchanged since reset, since a flush with no read for its page under way that the tables no longer lead to, or since a clock with no entry and no walk for it, is what the simulator's walk computes, superpages included |
| MmuProofs.FlushDoesNotStopAWalk | core/riscv/riscv_mmu.v:220-314 | why the walk matters: a flush in the clocks of a second-level read is survived by that read, whose word, old or not, becomes a valid entry, on the data side always and on the instruction side if the tag of an earlier walk matches |
| MmuFetch.FetchKeepsItsPage | core/riscv/riscv_mmu.v:353-353 | in every run of fetch and MMU together, fetch is not accepted and stays on its page while a walk for it is under way |
| MmuFetch.TlbIsSoundWithFetch | core/riscv/riscv_fetch.v:176-230 | so the TLBs are sound there with only the load/store unit's page assumed stable |
| MmuTheorems.TableWalkIsSimWalk | isa_sim/riscv.cpp:364-461 | the hardware's two-level walk and the simulator's loop find the same entry wherever the loop ends in one |
| MmuTheorems.MmuWalk | isa_sim/riscv.cpp:364-461 | the loop over levels returns what the recursive walk specifies |
| MmuTheorems.SecondLevelErrorTakenIff | core/riscv/riscv_mmu.v:262-277 | a failed second-level read becomes a non-zero entry exactly if its data has the present bit |
| MmuTheorems.DataPermissionsAgree | core/riscv/riscv_mmu.v:389-436 | load and store permission checks agree with the simulator for every entry, MXR off |
| MmuTheorems.FetchPermissionsAgreeIff | core/riscv/riscv_mmu.v:317-340 | fetch permission checks agree exactly off the pages that are writable, executable and unreadable and whose user bit fits the privilege |
| MmuTheorems.DataHitTranslatesLikeSimulator | isa_sim/riscv.cpp:528-585 | under the same premise a data access that hits faults exactly if the simulator faults, and otherwise goes to the same physical address |
| MmuTheorems.FetchHitTranslatesLikeSimulator | core/riscv/riscv_mmu.v:314-348 | likewise a fetch that hits goes to the simulator's physical address, and faults where it faults exactly off those pages |
| MmuProgress.WalkReturnsToIdle | core/riscv/riscv_mmu.v:220-311 | a walk is over after at most seven acts of memory, whatever else the port does |
| MmuProgress.OneOrTwoReads | core/riscv/riscv_mmu.v:488-518 | a walk that ends has read one or two entries |
| MmuProgress.WalkerNeverWrites | core/riscv/riscv_mmu.v:519-531 | while the walker has the port it reads the entry's address and writes nothing |
| MmuProgress.DataMissNeedsOneWalk | core/riscv/riscv_mmu.v:365-386 | at a stable page a data miss hits after one data walk, and no further one starts |
| MmuProgress.FetchMissNeedsTwoWalks | core/riscv/riscv_mmu.v:291-314 | at a stable pc an instruction miss hits after at most two instruction walks |
| MmuUnit.Mmu.Step | core/riscv/riscv_mmu.v:158-531 | the registers after a clock are the specified next state |
| Fetch.StreamFollowsRedirect | core/riscv/riscv_fetch.v:104-266 | output j after a redirect to T has pc aligned(T) + 4 j and the cache's answer to the read made there, with the redirect's privilege, after the redirect |
| Fetch.NothingFetchedIsLost | core/riscv/riscv_fetch.v:155-258 | every read since the redirect took effect was delivered, except the one in flight or buffered |
| Fetch.FetchUnit.Step | core/riscv/riscv_fetch.v:104-258 | the registers after a clock are the specified next state |
| LsuProofs.MatchesByteMemory | core/riscv/riscv_lsu.v:180-415 | for any delays, faults and misaligned addresses the results are those of the operations run in order on a little-endian byte memory, which the RAM rows hold |
| LsuProofs.HeadDescribesTheAccess | core/riscv/riscv_lsu.v:345-363 | at a response the FIFO holds exactly the entry of the operation it answers |
| LsuProofs.FaultSquashesTheNext | core/riscv/riscv_lsu.v:278-294 | a failed or misaligned access removes the next operation before it reaches memory |
| LsuProofs.AccessIsExec | top_tcm_wrapper/tcm_mem_ram.v:97-109 | a store's lanes and strobes written to the RAM row are the byte store |
| LsuLink.SameMachine | core/riscv/riscv_lsu.v:121-363 | over any run the load/store registers of the pipeline model are those of the unit given the same operations and handshakes |
| LsuUnit.LoadStoreUnit.Step | core/riscv/riscv_lsu.v:125-334 | the registers and FIFO after a clock are the specified next state |
| LsuUnit.LoadResult | core/riscv/riscv_lsu.v:374-415 | the result bus carries the extraction that ExtractIsLoad equates with a byte load |
| LsuProofs.ExtractIsLoad | core/riscv/riscv_lsu.v:374-415 | the lanes picked and extended are the reference load's value |
| ByteMemory.WordLoadIsByteLoad | isa_sim/memory.h:79-125 | the simulator's masked and shifted load is the little-endian byte load |
| ByteMemory.WordStoreIsByteStore | isa_sim/memory.h:127-160 | the simulator's masked and shifted store is the little-endian byte store |
| ByteMemory.LoadAfterStore | isa_sim/memory.h:79-160 | a load gives back what a store of that width put there |
| ByteMemory.SimpleMemory.Load | isa_sim/memory.h:79-125 | returns the byte memory's value |
| ByteMemory.SimpleMemory.Store | isa_sim/memory.h:127-160 | changes the byte memory as the reference store does |
| Ram.SyncRam.Clock | top_tcm_wrapper/tcm_mem_ram.v:97-109 | one row merges the strobed lanes and the output takes the row as it was |
| TrapsTheorems.ExceptionsAgree | core/riscv/riscv_csr_regfile.v:364-431 | for every synchronous exception CSR file and simulator agree on privilege, status, epc, cause and target |
| TrapsTheorems.SuperTrapValueAgreesIff | core/riscv/riscv_csr_regfile.v:380-393 | the supervisor trap value agrees with the simulator's exactly unless an illegal instruction has a non-zero opcode |
| TrapsSim.Simulator.Exception | isa_sim/riscv.cpp:803-870 | the method's statements give the state ExceptionsAgree compares |
| TrapsSim.Simulator.Mret | isa_sim/riscv.cpp:1401-1426 | so do those of mret, for ReturnsAgree |
| TrapsSim.Simulator.Sret | isa_sim/riscv.cpp:1427-1451 | so do those of sret |
| TrapsTheorems.ReturnsAgree | isa_sim/riscv.cpp:1401-1451 | mret and sret agree on privilege, status and target |
| TrapsTheorems.InterruptCauseAgreesIff | isa_sim/riscv.cpp:1520-1546 | interrupts agree on mode, status, epc and target, and on the cause exactly under the stated condition on the lowest enabled one |
| TrapsTheorems.MachineTrapUnwinds | core/riscv/riscv_csr_regfile.v:335-349 | trap to machine mode, handler, mret: privilege, interrupt enable and pc are restored |
| TrapsTheorems.SuperTrapUnwinds | core/riscv/riscv_csr_regfile.v:351-397 | trap to supervisor mode, handler with any number of machine traps inside, sret: interrupt enable and pc are restored, and privilege exactly if the trap came from user or supervisor mode |
| TrapsTheorems.VisitsKeepSuper | core/riscv/riscv_csr_regfile.v:399-431 | machine traps and returns inside a supervisor handler leave its saved state alone |
| TrapsTheorems.CsrFile.Step | core/riscv/riscv_csr_regfile.v:253-465 | the trap registers after a clock are the specified next state |
| Pending.WriteKeepsEvents | core/riscv/riscv_csr_regfile.v:162-172 | after a read-modify-write the register holds the written value and exactly the events since the read, with what the buffer still held |
| Pending.StaleIff | core/riscv/riscv_csr_regfile.v:467-484 | in a stretch opened by a read with nothing buffered, a bit the write at its end clears, quiet in its later part, is set again exactly if it arrived in its earlier part |
| Pending.ReadOnlyLeavesStaleEvents | core/riscv/riscv_csr_regfile.v:162-172 | a concrete run in which it does |
| TcmTheorems.NeverReadAndWrite | top_tcm_wrapper/tcm_mem_pmem.v:313-337 | reads and writes are never presented together |
| TcmTheorems.ResponsesNeverOverflow | top_tcm_wrapper/tcm_mem_pmem.v:240-307 | requests outnumber buffered responses by the access in the RAM, so the response FIFO always has room |
| TcmTheorems.BurstsAreServedInOrder | top_tcm_wrapper/tcm_mem_pmem.v:151-235 | the RAM accesses made are the unrolled beats of the accepted bursts in order, each write carrying its data beat |
| TcmTheorems.UnrollAt | top_tcm_wrapper/tcm_mem_pmem.v:95-130 | beat k of a burst is at the start address plus 4 k and only the last is marked |
| TcmTheorems.RepliesAreOwed | top_tcm_wrapper/tcm_mem_pmem.v:341-352 | each read gives ARLEN + 1 beats with its ID and RLAST on the last only, each write one response, in order |
| TcmTheorems.RepliesCarryTheirWord | top_tcm_wrapper/tcm_mem_pmem.v:281-307 | each read beat carries the word the RAM held at its access |
| TcmTheorems.OneMemoryForBoth | top_tcm_wrapper/tcm_mem.v:163-259 | CPU and master accesses are sequential on one memory; the CPU's are its accepted requests in order, each answered one clock later under its tag |
| TcmTheorems.ZeroStrobeIsNotCounted | top_tcm_wrapper/tcm_mem_pmem.v:320-335 | a data beat is taken without a RAM request exactly if its strobes are all clear |
| TcmFairness.OvertakenAtMostTwice | top_tcm_wrapper/tcm_mem_pmem.v:218-235 | after any run, a waiting read is overtaken by at most two write bursts and a waiting write by at most two read bursts |
| TcmProgress.AcceptedBurstsFinish | top_tcm_wrapper/tcm_mem_pmem.v:151-352 | with responses taken and write data offered, every burst accepted so far is answered in full within four clocks for each beat not yet answered and two more, whatever the CPU and later bursts do |
| TcmUnit.TcmMem.Step | top_tcm_wrapper/tcm_mem.v:105-259 | registers, FIFO rings and RAM array after a clock are the specified next state |
| Fifo.RingFifo.Step | top_tcm_wrapper/tcm_mem_pmem.v:394-438 | the ring of registers, pointers and count is the queue, pushed and popped on the same old count |
| Fifo.FifoConserves | core/riscv/riscv_lsu.v:438-510 | what was pushed is what was popped followed by the queue |
| DataPort.RepliesInCallOrder | top_tcm_wrapper/dport_mux.v:139-170 | replies come in call order, under the call's tag, from the port its address selects |
| DataPort.OpenCallsShareOnePort | top_tcm_wrapper/dport_mux.v:116-170 | all open calls are on the port last selected, the five-bit count is their number, and no answer of the other port is missed |
| DataPort.EachCallHandshakesOnce | top_tcm_wrapper/dport_axi.v:119-247 | each write makes one address and one data handshake with its own request, each read one; tags outnumber requests by the open transaction |
| DataPort.CountedButNotOwed | top_tcm_wrapper/dport_mux.v:145-156 | an external call the mux counts is owed a response exactly if it reads or writes |
| DataPort.Port.Step | top_tcm_wrapper/dport_mux.v:110-170 | the mux and bridge registers after a clock are the specified next state |
| BridgeProgress.OpenCallsAreAnswered | top_tcm_wrapper/dport_axi.v:119-247 | after any run, every call open on the bus side is answered once the bus has acted twice for each |
| Bridge.AxiBridge.Step | top_tcm_wrapper/dport_axi.v:126-247 | queues and flags after a clock are the specified next state |
| Skid.NothingLost | ip/axi/axi_adapter_rd.v:618-682 | over any run the beats offered are those delivered, then the output register, then the spare one |
| Skid.SkidBuffer.Step | ip/axi/axi_adapter_rd.v:621-682 | the registers after a clock are the specified next state |
| AdapterTheorems.FinishedBurstsAreExact | ip/axi/axi_adapter_rd.v:310-441 | a burst gives exactly ARLEN + 1 narrow beats, beat k the slice at araddr + k * size, RLAST on the last only, and takes exactly the wide beats its master address asks for |
| AdapterTheorems.DeliversTheBursts | ip/axi/axi_adapter_rd.v:591-682 | the receiver gets the beats of the bursts in order, all of them once the output is empty |
| AdapterTheorems.ReadyMeansRoom | ip/axi/axi_adapter_rd.v:618-647 | ready to the master implies room inside, which implies an empty spare slot |
| AdapterTheorems.EachAddressIsSentOnce | ip/axi/axi_adapter_rd.v:251-362 | each accepted address is sent on once, in order |
| AdapterProofs.ConvertedLenCounts | ip/axi/axi_adapter_rd.v:335-340 | the eight-bit master length is exactly the number of wide beats the burst's bytes lie in, less one |
| AdapterProofs.CrossesIsNextWide | ip/axi/axi_adapter_rd.v:405-434 | the compared address bit changes exactly when the next narrow beat lies in the next wide beat, across the address wrap too |
| AdapterProgress.BurstsFinish | ip/axi/axi_adapter_rd.v:310-441 | with wide beats offered and narrow ones taken, a burst with k beats given is finished and delivered 2 (ARLEN + 1 - k) + 3 clocks later |
| AdapterUnit.ReadAdapter.Step | ip/axi/axi_adapter_rd.v:223-589 | state machine and output stage after a clock are the specified next state |
| MergeTheorems.MasterBurstsTile | ip/axi/axi_adapter_rd.v:451-541 | towards a narrower bus, a finished burst has ARLEN + 1 wide beats, has taken exactly the narrow beats of its address range, and its master bursts, each of at most 256 beats, start where the ones before end and together ask for exactly those beats |
| MergeTheorems.WideBeatsAreMerged | ip/axi/axi_adapter_rd.v:501-519 | wide beat k holds in each segment the narrow beat read at that address, carries the last error so far, and is marked last exactly at the end |
| MergeTheorems.UntouchedSegment | ip/axi/axi_adapter_rd.v:515-519 | a segment no narrow beat of the wide beat lies in is zero |
| MergeTheorems.DeliversTheBursts | ip/axi/axi_adapter_rd.v:591-682 | the wide beats reach the receiver in order without loss, and each master address is sent once, in order |
| MergeProgress.BurstsFinish | ip/axi/axi_adapter_rd.v:442-541 | with addresses and wide beats taken and narrow beats offered, a burst that needs n more narrow beats is finished and delivered 3 n + 5 clocks later |
| MergeProofs.CrossesIff | ip/axi/axi_adapter_rd.v:513-519 | the compared address bit changes exactly when the wide beat is full, for unaligned starts and across the address wrap too |
| MergeProofs.LimitedFits | ip/axi/axi_adapter_rd.v:466-473 | the first master length stays within the burst and ends with a wide beat |
| MergeProofs.NextLenFits | ip/axi/axi_adapter_rd.v:520-527 | so does each further one |
| MergeUnit.MergeAdapter.Step | ip/axi/axi_adapter_rd.v:442-589 | state machine and output stage after a clock are the specified next state |
| Arbiter.RoundRobinIsFair | ip/axi/arbiter.v:98-155 | for any number of ports and either direction, a port that keeps requesting is passed over in at most ports - 1 decisions, after any run |
| Arbiter.GrantIsOneHot | ip/axi/arbiter.v:98-155 | a valid grant is one-hot and is the encoded port |
| Arbiter.HeldUntilReleased | ip/axi/arbiter.v:104-114 | a blocking arbiter holds a grant until acknowledged or dropped, and otherwise grants a requester if there is one |
| Arbiter.EncodeFinds | ip/axi/priority_encoder.v:45-85 | the encoder tree finds the lowest or highest input of its block |
| Arbiter.FirstIs | ip/axi/arbiter.v:70-96 | the encoder's contract: a requester first in priority order, if any |
| Arbiter.ArbiterUnit.Step | ip/axi/arbiter.v:98-155 | the registers after a clock are the specified next state |
| AxiMemoryProofs.ReadBeatsAreTheBursts | top_cache_axi/tb/tb_axi4_mem.cpp:19-92 | for every choice of delays, delivered read beats, the output register and the queue are the unrolled accepted bursts, and each beat's data is the word that the writes served before it left |
| AxiMemoryProofs.UnrollAt | top_cache_axi/tb/tb_axi4_mem.cpp:22-38 | beat j of an unrolled burst has the burst's j-th address and ID, and only the last is marked |
| AxiMemoryProofs.ReadAfterWrite | top_cache_axi/tb/tb_axi4_mem.cpp:169-184 | a fully strobed word reads back as written, also where its bytes wrap round the address space |
| AxiMemoryProofs.WrittenByte | top_cache_axi/tb/tb_axi4_mem.cpp:169-174 | a strobed write changes exactly the bytes whose strobes are set |
| AxiMemoryProofs.WrapVisitsOnce | top_cache_axi/tb/tb_axi4_mem.cpp:127-165 | a wrapping burst of 1, 2, 4, 8 or 16 beats, from any address, visits each word of its aligned block exactly once, at the beat counted round the block |
| AxiMemoryProofs.WritesAndResponses | top_cache_axi/tb/tb_axi4_mem.cpp:41-111 | memory holds the served writes; served and queued writes are the data beats at their burst addresses; one response per last beat, in order |
| AxiMemoryProofs.AssertionHolds | top_cache_axi/tb/tb_axi4_mem.cpp:48-51 | the assertion on AWVALID never fails for masters that offer data only with or after the address |
| AxiMemoryProofs.AssertionFailsIff | top_cache_axi/tb/tb_axi4_mem.cpp:48-51 | the first data handshake that fails it is the one that breaks that rule |
| AxiMemoryUnit.BenchMemory.Process | top_cache_axi/tb/tb_axi4_mem.cpp:14-122 | one pass of the loop, with its queues and unrolling loop, is the specified next state |
| AxiMemoryUnit.UnrollBurst | top_cache_axi/tb/tb_axi4_mem.cpp:25-38 | the loop pushes the recursive unrolling of the burst |
| Divider.DividesIn34Cycles | core/riscv/riscv_divider.v:99-175 | from idle, a start with no further start gives DIV, DIVU, REM or REMU for all operands, with the one valid pulse 34 clocks later |
| Divider.LoopStep | core/riscv/riscv_divider.v:131-150 | the restoring step keeps dividend = quotient * divisor + remainder |
| Divider.DividerUnit.Step | core/riscv/riscv_divider.v:99-175 | the registers after a clock are the specified next state |
| Multiplier.ProductMeans | core/riscv/riscv_multiplier.v:95-145 | the selected half of the 65-bit product is the exact MUL, MULH, MULHSU or MULHU word |
| Multiplier.StagesFollowHold | core/riscv/riscv_multiplier.v:117-158 | under any hold pattern the output is the word of the operation the right number of unheld clocks ago |
| Multiplier.MultiplierUnit.Step | core/riscv/riscv_multiplier.v:117-158 | the registers after a clock are the specified next state |
| Alu.ShifterShifts | core/riscv/riscv_alu.v:95-157 | the five conditional stages are one shift by b mod 32, logical or arithmetic |
| Alu.ComparesSigned | core/riscv/riscv_alu.v:187-197 | the signed comparison from the subtraction is the comparison of the signed values |

## Left out

- Interrupts inside the pipeline model, and the clock in which one is taken: the pipeline's claims do not hold there.
- Cache-control instructions in the load/store unit and cache-control requests to the external side of the data port, which never answers them.
- WRAP and FIXED bursts in the TCM slave (compiled out) and in the width adapter, and CONVERT_NARROW_BURST.
- TCM write beats with all strobes clear: `ZeroStrobeIsNotCounted` says what happens to them.
- MXR, reserved page encodings on loads and stores beyond the permission checks, and paths where the simulator ends the program; the level-0 pointer case in which its loop does not stop.
- The machine trap value in the comparison with the simulator, which has none; CSR writes by instructions in the comparison, where the simulator overwrites SSTATUS, SIE and SIP.
- The bitwise AND, OR and XOR of the ALU, and the decoder's opcode tables.
- Physical bits above the modelled ones, AXI sideband signals, reset during operation, clock gating and all timing.
- Simulator shifts by 32 or more and its other instructions; the ALU is compared with the mathematical shift.
- Fetch invalidate and the cache itself, which appears as something that answers each accepted read once.
- Progress of fetch, which offers what `OfferedInstructionIssues` waits for, and of the arbiter's clients beyond the bound on waiting.
- Programs that change their own instructions: instruction memory is fixed in the core's claim. The extra decode stage, off by default.
- ELF loading, main programs, console and VPI code, SystemC wrappers, generators, top-level wiring, test benches in SystemVerilog.
