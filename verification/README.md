# Five-stage pipeline and cache simulator, in Dafny

This project models the core of a teaching simulator for a small load/store machine. It covers two parts.

**The memory system** (`cache-simulator.mjs`):
- a direct-mapped cache of sixteen lines of sixteen words;
- a 32768-word main memory with a four-cycle delay and one operation in flight at a time;
- the `MemorySystem` that fronts both.

Pipeline stages use the memory system by *polling*: a stage calls `read` or `write` every cycle until the call reports `done`. A read hit takes two polls. A read miss takes six. A write is write-through with no write-allocate and takes six polls.

**The processor** (`editedPipeline.mjs`):
- 32 general registers;
- the program counter and the instruction register;
- the queue of instruction words;
- five stage registers;
- three performance counters.

It is stepped by `doOneCycle`. With the pipeline on, this advances every stage by one clock cycle, in the order writeback, memory, execute, decode, fetch. With the pipeline off, it runs one instruction from start to finish (`runOneInstructionToCompletion`).

Everything is a pure function over immutable datatypes:
- A thrown exception becomes a `Fault`.
  - Inside the memory system, the state the code leaves behind before throwing is kept. The pipelined STR path catches the throw and goes on with that state.
  - An exception that escapes a whole step makes the step return `Err`.
- JavaScript's truncating `%` on negative addresses is modelled exactly (`Caches.IndexOf`, `Caches.OffsetOf`). A negative address can name cache index -1…-16, and the resulting `undefined` line access is the `NoCacheLine` fault.

Files:

| file | models |
|---|---|
| `common.dfy` | `Option`, `Result`, the faults, stage names |
| `config.dfy` | the configuration constants |
| `caches.dfy` | `CacheLine`, `Cache` |
| `main_memory.dfy` | `Memory` |
| `hierarchy.dfy` | `MemorySystem` |
| `hierarchy_polls.dfy` | poll sequences: how many polls each kind of access takes, and what it leaves behind |
| `registers.dfy` | `GeneralRegisters` |
| `isa.dfy` | the word layout, decode, execute |
| `pipeline.dfy` | the pipelined `doOneCycle`, `getPerformanceStats`, the two resets |
| `pipeline_facts.dfy` | properties of the pipelined cycle |
| `timeout.dfy` | the memory stage's five-stall forced completion and its after-effects |
| `serial.dfy` | `runOneInstructionToCompletion` |
| `serial_facts.dfy` | cache coherence and store/load on the serial path |
| `simulator.dfy` | `doOneCycle`'s dispatch; the instructions-per-cycle bound |
| `scenarios.dfy` | two three-instruction programs run to completion |

### Two consequences of the cycle's ordering

- **Decode sees the same cycle's writeback.** In the code (`editedPipeline.mjs:131-148` before `233-273`), writeback writes the register file first, and decode then reads the new value. See `PipelineFacts.SameCycleWritebackVisible`.
- **The hazard program gives R3 = 5.** `[MOVI R1,#5] [MOVI R2,#3] [ADD R3,R1,R2]`, run pipelined, leaves R3 = 5. The code has no forwarding and no interlock, and fetch takes a word only every other cycle. As a result:
  - the ADD decodes in cycle 6;
  - R1 was written back in cycle 5, so the ADD sees 5;
  - R2 is only written back in cycle 7, so the ADD sees 0.

  R3 ends as 5, after nine cycles with three instructions retired. See `Scenarios.PipelinedHazard`.

## Model

| member | source | states |
|---|---|---|
| Caches.RefillHitsExactlyItsTag | cache-simulator.mjs:16-24 | after a refill, the line hits for exactly the tag it was refilled with and for no other |
| Caches.InvalidLineNeverHits | cache-simulator.mjs:22-24 | a line whose valid bit is clear never hits, whatever the tag |
| Caches.IndexOf | cache-simulator.mjs:34-36 | the index lies in -16..15, and is never negative for a non-negative address |
| Caches.OffsetInRange | cache-simulator.mjs:42-45 | whenever the index names a real line, the offset names a real word; a negative address reaches line 0 only as a multiple of 256 |
| Caches.AddressSplit | cache-simulator.mjs:34-45 | tag, index and offset of a non-negative address are in range, and tag*256 + index*16 + offset gives back the address |
| Caches.AddressCompose | cache-simulator.mjs:34-45 | an address assembled from a tag, an in-range index and an in-range offset splits back into exactly those three |
| Caches.Read | cache-simulator.mjs:42-54 | a probe hits exactly when the indexed line is valid with the address's tag: it then counts a hit and returns the word at the offset; otherwise it counts a miss and reports index, tag and offset; an index outside the cache throws and changes nothing; lines never change |
| Caches.RefillThenHit | cache-simulator.mjs:16-54 | after line IndexOf(a) is refilled for a's tag, a probe of a hits and returns the word at a's offset in the new data |
| Caches.ViewLine | cache-simulator.mjs:56-65 | a view exists exactly for indices 0..15; it shows the valid bit and the words, and the tag only when the line is valid; ViewPredictsProbe and ViewAfterRefill relate it to probes and refills |
| Caches.ViewPredictsProbe | cache-simulator.mjs:42-65 | for an address whose index names a line, a probe hits exactly when that line's view shows the address's tag, and a hit returns the word the view shows at the address's offset |
| Caches.ViewAfterRefill | cache-simulator.mjs:16-65 | after line IndexOf(a) is refilled for a's tag, its view shows that tag, the valid bit and the new words |
| MainMemory.LineAndOffset | cache-simulator.mjs:78-86 | succeeds exactly for addresses 0..32767, giving a line in 0..2047 and an offset in 0..15 with line*16 + offset equal to the address; otherwise it is the out-of-bounds error |
| MainMemory.LocationsDistinct | cache-simulator.mjs:78-86 | distinct in-range addresses have distinct (line, offset) locations |
| MainMemory.Store | cache-simulator.mjs:128-134 | the stored address holds the new word; every other address keeps its word |
| MainMemory.Read | cache-simulator.mjs:102-126 | a bad address throws before any change; contents never change; idle memory is armed for the caller with the full delay; a poll by another stage changes nothing; the owner's poll counts down and completes exactly on the poll that reaches 0, returning the word and its line and freeing the memory |
| MainMemory.Write | cache-simulator.mjs:128-149 | like Read, except that the word lands only on the completing poll and nothing else in memory changes |
| MainMemory.OwnerReadCountdown | cache-simulator.mjs:102-120 | the owner of a read with k cycles left sees wait(k-1) … wait(1) and then done with the word, after which memory is idle |
| MainMemory.ReadTakesDelayPlusOnePolls | cache-simulator.mjs:102-126 | a read on idle memory answers wait(4), wait(3), wait(2), wait(1), then done: five polls |
| MainMemory.OwnerWriteCountdown | cache-simulator.mjs:128-146 | the owner of a write with k cycles left completes it on its k-th poll, and the word lands only then |
| MainMemory.WriteTakesDelayPlusOnePolls | cache-simulator.mjs:128-149 | a write on idle memory takes five polls; afterwards the addressed word holds the value and no other word has changed |
| MainMemory.ViewLine | cache-simulator.mjs:151-156 | a view exists exactly for lines 0..2047 and is that line's words; ViewShowsWord and ViewAfterWrite relate it to reads and writes |
| MainMemory.ViewShowsWord | cache-simulator.mjs:151-156 | the view of the line holding an in-range address shows, at the address's offset, the word stored there |
| MainMemory.ViewAfterWrite | cache-simulator.mjs:128-156 | after a completed write of v at a, the view of a's line shows v at a's offset and the line's other words unchanged |
| Hierarchy.ResetStats | cache-simulator.mjs:175-180 | the four counters are zero and lines, memory, requests and cache service state are untouched |
| Hierarchy.Reset | cache-simulator.mjs:182-199 | every cache line is cleared, every memory word is 0 and no request or cache service remains; counters, the cache switch, and main memory's owner and countdown survive |
| Hierarchy.ProcessRequest | cache-simulator.mjs:216-223 | continuing a stage's request never changes the request map or the read and write counters |
| Hierarchy.Read | cache-simulator.mjs:225-285 | with the cache off the call is main memory's own, with no counter moved; with it on every call counts a read; a stage the cache is not serving waits with nothing else changed; other stages' entries never change; the caller's entry disappears exactly when the call completes |
| Hierarchy.Resume | cache-simulator.mjs:236-244 | a call from a stage with a pending request completes exactly when continuing the request does, and deletes the entry exactly then |
| Hierarchy.HitPoll | cache-simulator.mjs:249-277 | the first poll of a hit arms the one-cycle cache service for the stage and records a pending hit; a completing poll clears the entry and the service; lines and memory are untouched |
| Hierarchy.ProcessRead | cache-simulator.mjs:287-324 | a pending miss is driven through main memory: it completes exactly when memory does, returning the memory word and refilling the address's line; until then the cache is untouched; a pending hit never touches main memory |
| Hierarchy.RefillFor | cache-simulator.mjs:305-312 | after a refill, line IndexOf(a) hits for a's tag with the given words, other lines and the counters unchanged |
| Hierarchy.Write | cache-simulator.mjs:326-357 | every call counts a write; a busy cache makes the caller wait with nothing else changed; a first call does the cache side at once and queues the memory write without touching memory; the entry goes exactly on completion |
| Hierarchy.WriteProbe | cache-simulator.mjs:344-355 | on a hit, the resident word is updated in place, its neighbours and all other lines are kept, and a hit is counted; on a miss, only the miss count changes (no write-allocate) |
| Hierarchy.ProcessWrite | cache-simulator.mjs:359-370 | completes exactly when main memory's write does, after which the word is in memory; throws exactly for an out-of-range address |
| Hierarchy.GetStats | cache-simulator.mjs:380-389 | reports the four counters; the hit rate is in [0,1], is 0 with no accesses, and otherwise times the access count equals the hits |
| HierarchyPolls.ReadHitTwoPolls | cache-simulator.mjs:225-300 | a read hit on a quiet system takes two polls: wait, then the cached word from "cache"; the cache is probed twice, so two hits are counted |
| HierarchyPolls.MissFirstTwoPolls | cache-simulator.mjs:225-321 | the first poll of a miss counts the miss and records the entry; the second arms main memory for the stage |
| HierarchyPolls.MissWaits | cache-simulator.mjs:287-321 | while the countdown has more than n cycles left, n polls all wait, whatever address they name, and move only readCount and the countdown |
| HierarchyPolls.MissCountdown | cache-simulator.mjs:287-321 | the poll that ends the countdown returns the word of the pending address, not of the polled one; it refills that line and deletes the entry |
| HierarchyPolls.ReadMissSixPolls | cache-simulator.mjs:225-321 | a read miss takes six polls: five waits, then the memory word from "memory"; afterwards a probe of the address hits with the same word |
| HierarchyPolls.ReadMissFivePollsWait | cache-simulator.mjs:225-321 | after five polls of a miss, the request is still pending and memory is one cycle from completing it |
| HierarchyPolls.WriteFirstTwoPolls | cache-simulator.mjs:326-370 | the first poll of a write does the cache side and queues the request; the second arms main memory |
| HierarchyPolls.WriteWaits | cache-simulator.mjs:326-370 | while the write's countdown has more than n cycles left, n polls all wait and move only writeCount and the countdown |
| HierarchyPolls.WriteCountdown | cache-simulator.mjs:326-370 | the poll that ends the countdown lands the pending write's value at the pending address, whatever the poll names, and deletes the entry |
| HierarchyPolls.WriteThroughSixPolls | cache-simulator.mjs:326-370 | a write takes six polls; afterwards memory holds the value and nothing else changed there; a resident line holds it too; a non-resident line stays non-resident |
| HierarchyPolls.WriteFivePollsWait | cache-simulator.mjs:326-370 | after five polls of a write, the request is still pending, memory contents are unchanged, and memory is one cycle from landing the word |
| Registers.ZeroRegisters | editedPipeline.mjs:64 | the constructed register file is all zero |
| Registers.Read | editedPipeline.mjs:65 | a read succeeds exactly for indices 0..31 and returns that register; any other index throws "invalid register" |
| Registers.Write | editedPipeline.mjs:66 | a write succeeds exactly for indices 0..31, sets that register and leaves the other 31; any other index throws |
| Registers.ReadAfterWrite | editedPipeline.mjs:65-66 | after a write, a read of the same register gives the written value, and any other register reads as before |
| Isa.OpcodeOf | editedPipeline.mjs:242-268 | every real instruction kind has an opcode byte that the decoder maps back to that kind |
| Isa.OpcodeOfKindOf | editedPipeline.mjs:242-268 | every byte the decoder recognises is the opcode of the kind it decodes to |
| Isa.FieldsOfEncode | editedPipeline.mjs:237-240 | extracting the four byte fields of an encoded word gives back the four bytes |
| Isa.EncodeOfFields | editedPipeline.mjs:237-240 | every 32-bit word is the encoding of its four fields, each of them a byte |
| Isa.Decode | editedPipeline.mjs:233-273 | decode fails exactly when a register it must read is out of range (rn first, then rm); otherwise it gives the kind and fields of the word, with rn and rm values read from the register file at that moment |
| Isa.Execute | editedPipeline.mjs:214-231 | execute changes only the result of an arithmetic kind or the address of a LOAD/STR; that address minus the offset is the base register's value; the operators themselves are stated from the encoded word by the three DecodeExecute lemmas below |
| Isa.DecodeExecuteRegisterOps | editedPipeline.mjs:218-224 | for any destination byte and valid registers n and m, decoding and executing the encoded ADD, SUB or MUL word gives that kind and destination and the result R[n]+R[m], R[n]−R[m] or R[n]·R[m] |
| Isa.DecodeExecuteImmediateOps | editedPipeline.mjs:218-224 | for any immediate byte k, the encoded ADDI, SUBI and MOV words with a valid rn give R[n]+k, R[n]−k and R[n], and the MOVI word gives k whatever its rn byte |
| Isa.DecodeExecuteAddress | editedPipeline.mjs:225-227 | the encoded LOAD and STR words with a valid base register rn and offset byte k address R[n]+k |
| Pipeline.Writeback | editedPipeline.mjs:131-148 | fails exactly when a committing instruction names a bad register; otherwise it writes the arithmetic result (or a LOAD's word, if it has one) into rd and keeps every other register; LOAD without data, STR and NOP change nothing |
| Pipeline.MemoryStage | editedPipeline.mjs:150-212 | empty slot: nothing happens; non-memory instruction: passed on unchanged; an instruction held back must be a LOAD or STR, still under the stall limit, with one more stall counted; an instruction is either held or passed, never both |
| Pipeline.LoadStage | editedPipeline.mjs:157-180 | a throw from the memory system escapes; done passes the LOAD on with the returned data; otherwise a stall is counted, and at the fifth stall the LOAD is forced on with the word read straight from memory |
| Pipeline.DirectLoad | editedPipeline.mjs:167-175 | the forced read gives the memory word for an in-range address and the default 0 otherwise |
| Pipeline.StoreStage | editedPipeline.mjs:181-207 | a bad value register throws; a done or throwing write passes the STR on; otherwise a stall is counted, and the fifth stall forces the store straight into memory |
| Pipeline.DirectStore | editedPipeline.mjs:192-198 | the forced store writes the word for an in-range address and changes nothing otherwise; memory's owner and countdown are untouched |
| Pipeline.DecodeStage | editedPipeline.mjs:233-273 | an empty decode slot gives an empty execute slot; otherwise decode's result or its fault |
| Pipeline.Fetch | editedPipeline.mjs:275-288 | the fetch slot shows the queue head; the head is taken (PC+1, IR := word, passed to decode) exactly when the queue is non-empty and decode was free, and otherwise queue, PC and IR stay |
| Pipeline.Cycle | editedPipeline.mjs:110-297 | a pipelined cycle adds one to the clock, counts a stall when any request is pending, and retires the writeback instruction; decode reads the registers as writeback left them; the memory stage's output fills writeback and memory; fetch as above; it fails exactly on a throw from writeback, the memory stage or decode |
| Pipeline.GetPerformanceStats | editedPipeline.mjs:48-57 | reports the counters and the memory system's hit rate; ipc is 0 at cycle 0, otherwise ipc * cycles == instructions; it is non-negative, and at most 1 while instructions ≤ cycles |
| Pipeline.ResetPerformanceCounters | editedPipeline.mjs:438-445 | the three pipeline counters and the four memory-system counters are zero; registers, queue, stages, cache lines, memory and requests are untouched |
| Pipeline.ResetSimulation | editedPipeline.mjs:473-484 | the machine is complete (empty queue, empty stages, no requests), registers and the pipeline's counters are zero, PC is -1, IR is 0, and both switches keep their settings; the memory system's reset zeroes memory, clears every cache line and leaves the cache idle, while its four counters and main memory's owner and countdown survive |
| PipelineFacts.SameCycleWritebackVisible | editedPipeline.mjs:131-273 | a register committed at writeback and read by the word in decode in the same cycle is captured with its new value |
| PipelineFacts.ExecutedInstructionDropped | editedPipeline.mjs:150-231 | when the memory stage holds back, the memory slot keeps the held LOAD/STR with one more stall and writeback is empty, so the instruction leaving execute is lost |
| PipelineFacts.NextMemoryKeepsOne | editedPipeline.mjs:230 | `nextMem \|\| i` keeps the held instruction when there is one and otherwise takes the executed one; when both exist exactly one of the two is lost |
| PipelineFacts.InFlightConservation | editedPipeline.mjs:110-297 | one cycle reduces the count of instructions in flight by the one it retires plus the one it drops behind a held-back memory stage, and by nothing else |
| PipelineFacts.RetiredNeverExceedsGiven | editedPipeline.mjs:110-297 | over any pipelined run, retired plus in-flight instructions never grow |
| PipelineFacts.FetchStep | editedPipeline.mjs:275-288 | a cycle takes a word exactly when it leaves the decode slot full, and only if it found that slot empty |
| PipelineFacts.FetchAtMostEveryOtherCycle | editedPipeline.mjs:275-288 | over n cycles, the queue never grows and at most about n/2 words are taken |
| PipelineFacts.IdleCycleOnlyTicks | editedPipeline.mjs:110-297 | a cycle on a finished machine only advances the clock |
| Timeout.HeldPolls | editedPipeline.mjs:150-212 | repeated memory-stage cycles on one instruction hold it or pass it on, never both |
| Timeout.HeldLoadWaits | editedPipeline.mjs:157-180 | while a miss counts down, each cycle of the LOAD is a stall, and the stall that reaches five forces it on with the memory word |
| Timeout.LoadMissAlwaysForced | editedPipeline.mjs:157-180 | a LOAD miss never completes through the memory system: its fifth cycle forces it on with the memory word and leaves the read request pending and memory one cycle from done |
| Timeout.StaleLoadCompletion | editedPipeline.mjs:157-162 | after a forced LOAD, the next LOAD in the memory stage completes at once with the earlier LOAD's word, whatever its own address |
| Timeout.HeldStoreWaits | editedPipeline.mjs:181-207 | while a write counts down, each cycle of the STR is a stall, and the stall that reaches five stores the value register, as read on that cycle, straight into memory |
| Timeout.StoreAlwaysForced | editedPipeline.mjs:181-207 | every STR, hit or miss, is forced on its fifth cycle; the write queued on its first cycle stays pending with memory one cycle from landing it |
| Timeout.LoadAfterForcedStoreGetsNoData | editedPipeline.mjs:139-162 | after a forced STR, the next LOAD completes at once with no data; its writeback changes no register; the stale write lands then |
| Serial.SerialExecute | editedPipeline.mjs:337-370 | a LOAD/STR's address minus the offset is the base register's value; failures are only "invalid register" |
| Serial.SerialExecuteAgrees | editedPipeline.mjs:337-370 | the serial execute and the pipelined decode-then-execute fail together with the same fault, and otherwise agree on the result and the address |
| Serial.SerialLoad | editedPipeline.mjs:374-400 | cache off: 3 extra cycles and the memory word (0 when out of range); hit: no extra cycles, one more hit, the cached word; miss: 3 extra cycles, one more miss, the memory word, and the line refilled so a later probe hits; memory and requests untouched |
| Serial.SerialStore | editedPipeline.mjs:401-428 | bad value register: nothing happens; in range: memory gets the value and no other word changes; cache on: the cache side is the write probe, with no extra cycles on a hit and 3 on a miss; cache off: 3 extra cycles; cache on and out of range: nothing happens |
| Serial.MemoryPhase | editedPipeline.mjs:372-428 | only a LOAD into a bad register fails; a LOAD writes its loaded word into rd; a STR is the serial store; other kinds do nothing |
| Serial.Retire | editedPipeline.mjs:372-436 | after execute, the step retires one instruction, takes one word, adds one to the PC and 5..8 to the clock (exactly 5 for non-memory kinds), and leaves IR, stages and requests alone |
| Serial.RunOneInstruction | editedPipeline.mjs:318-436 | a finished machine is left unchanged; otherwise one instruction retires, the PC rises by one, the queue loses its head, the clock rises by 5 (non-memory) or 5..8 (LOAD/STR); IR, stages and requests are untouched; only "invalid register" escapes |
| SerialFacts.ResetIsCoherent | cache-simulator.mjs:182-199 | after a reset every cache line agrees with memory, because none is valid |
| SerialFacts.LineNumberSplit | cache-simulator.mjs:34-45 | for an in-range address, tag*16 + index is its memory line number and its offset is the offset in that line |
| SerialFacts.CoherentHit | cache-simulator.mjs:42-54 | while the cache agrees with memory, a hit is always for an in-range address and returns the memory word |
| SerialFacts.RefillKeepsCoherence | editedPipeline.mjs:386-395 | refilling a line from memory keeps the cache in agreement with memory |
| SerialFacts.SerialLoadReadsMemory | editedPipeline.mjs:374-400 | while the cache agrees with memory, a serial LOAD returns exactly the memory word (0 out of range), hit or miss, and keeps the agreement |
| SerialFacts.SerialStoreKeepsCoherence | editedPipeline.mjs:401-428 | with the cache on, a serial STR keeps the cache in agreement with memory |
| SerialFacts.SerialStoreThenLoad | editedPipeline.mjs:374-428 | with the cache on and agreeing with memory, a serial LOAD right after a serial STR to the same in-range address returns the stored value |
| SerialFacts.SerialLoadFetchesLine | editedPipeline.mjs:381-397 | a serial LOAD with the cache on returns the memory word, costs no extra cycles on a hit and 3 on a miss, keeps the agreement, and leaves the line resident |
| SerialFacts.SerialStoreWritesThrough | editedPipeline.mjs:410-425 | a serial STR with the cache on puts the value in memory, and in the resident line on a hit; on a miss no line changes; the agreement is kept |
| SerialFacts.SerialArithmeticStep | editedPipeline.mjs:318-436 | a serial arithmetic instruction costs five cycles, writes into rd what the pipelined execute would compute, changes no other register and leaves the memory system alone |
| SerialFacts.SerialExecuteAddress | editedPipeline.mjs:362-367 | a LOAD/STR with a good base register computes only its address: base value plus offset |
| SerialFacts.SerialMemoryExecutes | editedPipeline.mjs:318-370 | a serial LOAD/STR with a good base register goes to its memory phase with that address |
| SerialFacts.RetireLoad | editedPipeline.mjs:372-400 | the rest of a serial LOAD writes the loaded word into rd, charges the access's extra cycles and applies the access to the memory system |
| SerialFacts.RetireStore | editedPipeline.mjs:401-436 | the rest of a serial STR changes no register, charges the access's extra cycles and applies the access to the memory system |
| SerialFacts.SerialStoreStep | editedPipeline.mjs:318-436 | a whole serial STR with the cache on: registers unchanged, the value in memory, five cycles on a hit and eight on a miss, agreement kept |
| Simulator.DoOneCycle | editedPipeline.mjs:110-117 | the pipeline switch never changes; a pipelined step costs exactly one cycle and retires at most one instruction; a serial step on a finished machine does nothing, and otherwise retires one instruction in 5..8 cycles; a serial step can only fail with "invalid register" |
| Simulator.StepKeepsIpcBounded | editedPipeline.mjs:110-117 | no step lets retired instructions overtake cycles |
| Simulator.ResetsAreIpcBounded | editedPipeline.mjs:438-484 | both resets start from counters within the bound |
| Simulator.IpcNeverExceedsOne | editedPipeline.mjs:48-57 | after any run of steps from a state within the bound, with the pipeline on or off, the reported ipc is at most 1 |
| Scenarios.InitialIsCoherent | cache-simulator.mjs:159-173 | the freshly constructed memory system agrees with memory, because no line is valid |
| Scenarios.PipelinedHazard | editedPipeline.mjs:110-297 | [MOVI R1,#5] [MOVI R2,#3] [ADD R3,R1,R2], pipelined, completes in nine cycles with three instructions retired and R1=5, R2=3, R3=5 |
| Scenarios.SerialStoreLoad | editedPipeline.mjs:318-436 | [MOVI R1,#100] [STR R1,[R1,#0]] [LOAD R2,[R1,#0]], serial, completes at cycle 21 (5 + 8 + 8) with memory[100] = 100 and R2 = 100 |

## Left out

- Opcode values: the real byte values come from the assembler's opcode table, which is not part of this model. `Isa` uses the stand-ins MOVI=1, MOV=2, ADD=3, SUB=4, ADDI=5, SUBI=6, MUL=7, LOAD=8, STR=9. Every property is stated in terms of `KindOf`, so none depends on these values.
- Numbers: registers and memory words are unbounded integers, not JavaScript doubles. Precision loss of very large products is not modelled. The hit rate and ipc are exact rationals rather than floating point.
- Instruction words are limited to 32-bit values (`Isa.Word`), as the binary program file supplies them.
- State after an uncaught throw: when an exception escapes `doOneCycle` or `runOneInstructionToCompletion`, the step returns `Err(fault)`. The half-updated machine the code leaves behind is not modelled, for example a clock already advanced or a word already taken from the queue.
- The Electron window, IPC handlers, GUI formatting (`formatInstructionForGUI`, `updateGUI`), console messages, the program-file loader and the run-to-completion loop are left out. They are I/O and drive the modelled step.
- `MemorySystem.processCycle`, `getPendingRequests` (except as the size of the request map), `getMemorySnapshot`, `viewCache` and `viewMemory` are left out. Nothing in the core calls them, and the last two only forward to the modelled `viewLine`s.
- `Memory.ensureMemoryLocation`'s lazy line creation and second bounds check cannot change anything once the address is in range; it is modelled as `LineAndOffset`.
- `Memory.pendingOperation` and `cachePendingOperation.type/address/hit` are written but never read, and are left out. Only the cached word is kept, as `cachePendingData`.
- A request's `stage` field always equals its key in the request map, so it is not stored twice.
- The `cacheDelay === 0` branch of `MemorySystem.read` is dead with the cache delay fixed at 1.
- `Register` (PC and IR) is modelled as two integer fields of the machine.
- Instruction fields the code leaves `undefined` until set (result, address, register values of kinds that do not read them) are 0 in the model. None of them is read before it is set.
- Serial.SerialLoad: for an address outside main memory that still hits a line with a matching tag, the contract says only that the word is 0 or the cached word; it does not say which.
- Serial store with the cache off: it writes memory and not the cache, so a resident line can go stale. Coherence is therefore proved only with the cache on (`SerialFacts.SerialStoreKeepsCoherence`).
- A whole serial LOAD at machine level is stated in two parts, `SerialFacts.RetireLoad` and `SerialFacts.SerialLoadFetchesLine`, rather than as one lemma. The concrete run in `Scenarios.SerialStoreLoad` puts them together.
