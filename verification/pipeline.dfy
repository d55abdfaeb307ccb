/** The pipelined machine: five stage registers that advance together once per
    clock. Every stage of a cycle works from the stage registers as they were
    at the start of the cycle, in the order writeback, memory, execute,
    decode, fetch, and the new stage registers are committed at the end. */
module Pipeline {
  import opened Common
  import opened Config
  import opened Registers
  import opened Isa
  import Hierarchy
  import MainMemory

  /** The requester name under which the memory stage polls the memory system. */
  const MemoryStageName: Stage := "memory"

  /** Unsuccessful memory-stage polls after which a LOAD or STR is forced through. */
  const StallTimeout: nat := 5

  /** The fetch and decode slots hold raw words; the later slots hold decoded
      instructions. The fetch slot only displays the queue head. */
  datatype Stages = Stages(
    fetch: Option<Word>,
    decode: Option<Word>,
    execute: Option<Instr>,
    memory: Option<Instr>,
    writeBack: Option<Instr>)

  const EmptyStages: Stages := Stages(None, None, None, None, None)

  /** The whole simulator: register file, program counter, instruction
      register, the queue of words still to fetch, the stage registers, the
      three performance counters, the pipeline switch and the memory system. */
  datatype Machine = Machine(
    regs: RegFile,
    pc: int,
    ir: int,
    queue: seq<Word>,
    stages: Stages,
    clock: nat,
    instructions: nat,
    stalls: nat,
    pipelined: bool,
    sys: Hierarchy.MemorySystem)

  /** The end-of-run test: nothing left to fetch, every stage register empty
      and no request pending in the memory system. */
  predicate IsComplete(m: Machine) {
    |m.queue| == 0 && m.stages == EmptyStages && |m.sys.pending| == 0
  }

  /* ---------------------------------------------------------------------------
     Writeback
     --------------------------------------------------------------------------- */

  /** The instruction writes its destination register at writeback: every
      arithmetic kind, and a LOAD that has a loaded word. */
  predicate Commits(i: Instr) {
    WritesResult(i.kind) || (i.kind == LOAD && i.memoryResult.Some?)
  }

  /** The value a committing instruction writes. */
  function CommittedValue(i: Instr): int
    requires Commits(i)
  {
    if i.kind == LOAD then i.memoryResult.value else i.result
  }

  /** The writeback stage's effect on the register file. */
  function Writeback(rf: RegFile, slot: Option<Instr>): (r: Result<RegFile>)
    ensures r.Err? <==> slot.Some? && Commits(slot.value) && !ValidIndex(slot.value.rd)
    ensures r.Err? ==> r.fault == InvalidRegister(slot.value.rd)
    ensures r.Ok? && slot.Some? && Commits(slot.value) ==>
              && r.value[slot.value.rd] == CommittedValue(slot.value)
              && AgreeExcept(r.value, rf, slot.value.rd)
    ensures r.Ok? && (slot.None? || !Commits(slot.value)) ==> r.value == rf
  {
    match slot
    case None => Ok(rf)
    case Some(i) =>
      if WritesResult(i.kind) then Registers.Write(rf, i.rd, i.result)
      else if i.kind == LOAD && i.memoryResult.Some? then Registers.Write(rf, i.rd, i.memoryResult.value)
      else Ok(rf)
  }

  /* ---------------------------------------------------------------------------
     Memory stage
     --------------------------------------------------------------------------- */

  /** What the memory stage hands on: the instruction it keeps (held back), or
      the one it passes to writeback, and the memory system afterwards. */
  datatype MemOut = MemOut(nextMem: Option<Instr>, nextWB: Option<Instr>, sys: Hierarchy.MemorySystem)

  /** The word a forced LOAD reads straight out of main memory; an address out
      of bounds leaves the default 0. */
  function DirectLoad(mem: MainMemory.Memory, a: int): (v: int)
    ensures 0 <= a < MemorySize ==> v == MainMemory.WordAt(mem.data, a)
    ensures !(0 <= a < MemorySize) ==> v == 0
  {
    match MainMemory.LineAndOffset(a)
    case Ok(loc) => mem.data[loc.line][loc.offset]
    case Err(_) => 0
  }

  /** A forced STR's store straight into main memory; an address out of
      bounds stores nothing. The owner and countdown are not touched. */
  function DirectStore(mem: MainMemory.Memory, a: int, v: int): (r: MainMemory.Memory)
    ensures r.count == mem.count && r.serving == mem.serving
    ensures 0 <= a < MemorySize ==> r.data == MainMemory.Store(mem.data, a, v)
    ensures !(0 <= a < MemorySize) ==> r == mem
  {
    if 0 <= a < MemorySize then mem.(data := MainMemory.Store(mem.data, a, v)) else mem
  }

  /** The memory stage on a LOAD. A throw from the memory system is not
      caught. A poll that is not `Done` counts a stall; the fifth such poll
      forces the LOAD on to writeback with the word read directly. */
  function LoadStage(i: Instr, h: Hierarchy.MemorySystem): (r: Result<MemOut>)
    requires i.kind == LOAD
    ensures var st := Hierarchy.Read(h, i.address, MemoryStageName);
            && (r.Err? <==> st.status.Threw?)
            && (r.Err? ==> r.fault == st.status.fault)
            && (r.Ok? ==> r.value.sys == st.sys && (r.value.nextMem.Some? <==> r.value.nextWB.None?))
            && (st.status.Done? ==> r.value.nextWB == Some(i.(memoryResult := st.status.data)))
            && (r.Ok? && !st.status.Done? ==>
                  (r.value.nextMem.Some? <==> i.stallCycles + 1 < StallTimeout))
            && (r.Ok? && r.value.nextMem.Some? ==> r.value.nextMem == Some(i.(stallCycles := i.stallCycles + 1)))
            && (r.Ok? && !st.status.Done? && r.value.nextWB.Some? ==>
                  r.value.nextWB == Some(i.(stallCycles := i.stallCycles + 1,
                                            memoryResult := Some(DirectLoad(st.sys.memory, i.address)))))
  {
    var st := Hierarchy.Read(h, i.address, MemoryStageName);
    match st.status
    case Threw(f) => Err(f)
    case Done(d, _) => Ok(MemOut(None, Some(i.(memoryResult := d)), st.sys))
    case _ =>
      var stalls := i.stallCycles + 1;
      if stalls >= StallTimeout then
        Ok(MemOut(None, Some(i.(stallCycles := stalls, memoryResult := Some(DirectLoad(st.sys.memory, i.address)))),
                  st.sys))
      else
        Ok(MemOut(Some(i.(stallCycles := stalls)), None, st.sys))
  }

  /** The memory stage on a STR. The value register is read here, uncaught;
      a throw from the memory system is caught and the STR moves on. A poll
      that is not `Done` counts a stall; the fifth forces the store directly. */
  function StoreStage(i: Instr, rf: RegFile, h: Hierarchy.MemorySystem): (r: Result<MemOut>)
    requires i.kind == STR
    ensures r.Err? <==> !ValidIndex(i.rd)
    ensures r.Err? ==> r.fault == InvalidRegister(i.rd)
    ensures r.Ok? ==>
              var st := Hierarchy.Write(h, i.address, rf[i.rd], MemoryStageName);
              && (r.value.nextMem.Some? <==> r.value.nextWB.None?)
              && ((st.status.Done? || st.status.Threw?) ==> r.value == MemOut(None, Some(i), st.sys))
              && (!(st.status.Done? || st.status.Threw?) ==>
                    && (r.value.nextMem.Some? <==> i.stallCycles + 1 < StallTimeout)
                    && (r.value.nextMem.Some? ==>
                          r.value == MemOut(Some(i.(stallCycles := i.stallCycles + 1)), None, st.sys))
                    && (r.value.nextWB.Some? ==>
                          && r.value.nextWB == Some(i.(stallCycles := i.stallCycles + 1))
                          && r.value.sys == st.sys.(memory := DirectStore(st.sys.memory, i.address, rf[i.rd]))))
  {
    var v :- Registers.Read(rf, i.rd);
    var st := Hierarchy.Write(h, i.address, v, MemoryStageName);
    if st.status.Threw? || st.status.Done? then Ok(MemOut(None, Some(i), st.sys))
    else
      var stalls := i.stallCycles + 1;
      if stalls >= StallTimeout then
        Ok(MemOut(None, Some(i.(stallCycles := stalls)), st.sys.(memory := DirectStore(st.sys.memory, i.address, v))))
      else
        Ok(MemOut(Some(i.(stallCycles := stalls)), None, st.sys))
  }

  /** The memory stage: LOAD and STR go to the memory system, every other
      instruction passes straight to writeback, an empty slot does nothing. */
  function MemoryStage(slot: Option<Instr>, rf: RegFile, h: Hierarchy.MemorySystem): (r: Result<MemOut>)
    ensures slot.None? ==> r == Ok(MemOut(None, None, h))
    ensures slot.Some? && !IsMemoryKind(slot.value.kind) ==> r == Ok(MemOut(None, slot, h))
    ensures slot.Some? && r.Ok? ==> (r.value.nextMem.Some? <==> r.value.nextWB.None?)
    // an instruction held back keeps everything but its stall count
    ensures slot.Some? && r.Ok? && r.value.nextMem.Some? ==>
              && IsMemoryKind(slot.value.kind)
              && r.value.nextMem == Some(slot.value.(stallCycles := slot.value.stallCycles + 1))
              && slot.value.stallCycles + 1 < StallTimeout
  {
    match slot
    case None => Ok(MemOut(None, None, h))
    case Some(i) =>
      if i.kind == LOAD then LoadStage(i, h)
      else if i.kind == STR then StoreStage(i, rf, h)
      else Ok(MemOut(None, Some(i), h))
  }

  /* ---------------------------------------------------------------------------
     Decode and fetch
     --------------------------------------------------------------------------- */

  /** The decode stage on its slot. */
  function DecodeStage(slot: Option<Word>, rf: RegFile): (r: Result<Option<Instr>>)
    ensures slot.None? ==> r == Ok(None)
    ensures slot.Some? ==> (r.Ok? <==> Decode(slot.value, rf).Ok?)
    ensures slot.Some? && r.Ok? ==> r.value == Some(Decode(slot.value, rf).value)
    ensures slot.Some? && r.Err? ==> r.fault == Decode(slot.value, rf).fault
  {
    match slot
    case None => Ok(None)
    case Some(w) =>
      var i :- Decode(w, rf);
      Ok(Some(i))
  }

  datatype FetchOut = FetchOut(queue: seq<Word>, pc: int, ir: int, fetch: Option<Word>, decode: Option<Word>)

  /** The fetch stage. The queue head is shown in the fetch slot; it is
      taken, counted in the program counter, latched in the instruction
      register and passed to decode only when the decode slot was empty. */
  function Fetch(queue: seq<Word>, pc: int, ir: int, decodeBusy: bool): (f: FetchOut)
    ensures f.fetch == if |queue| > 0 then Some(queue[0]) else None
    ensures f.decode.Some? <==> |queue| > 0 && !decodeBusy
    ensures f.decode.Some? ==>
              && queue == [f.decode.value] + f.queue
              && f.pc == pc + 1 && f.ir == f.decode.value
    ensures f.decode.None? ==> f.queue == queue && f.pc == pc && f.ir == ir
  {
    if |queue| > 0 then
      if !decodeBusy then FetchOut(queue[1..], pc + 1, queue[0], Some(queue[0]), Some(queue[0]))
      else FetchOut(queue, pc, ir, Some(queue[0]), None)
    else FetchOut(queue, pc, ir, None, None)
  }

  /* ---------------------------------------------------------------------------
     One pipelined cycle
     --------------------------------------------------------------------------- */

  /** The next memory slot: the instruction the memory stage held back if
      there is one, otherwise the instruction leaving execute. */
  function NextMemory(held: Option<Instr>, executing: Option<Instr>): Option<Instr> {
    if held.Some? then held
    else if executing.Some? then Some(Execute(executing.value))
    else None
  }

  /** doOneCycle with the pipeline enabled. A throw out of writeback, the
      LOAD path or decode ends the cycle with that fault. */
  function Cycle(m: Machine): (r: Result<Machine>)
    // counters
    ensures r.Ok? ==> r.value.clock == m.clock + 1
    ensures r.Ok? ==> r.value.stalls == m.stalls + (if |m.sys.pending| > 0 then 1 else 0)
    ensures r.Ok? ==> r.value.instructions == m.instructions + (if m.stages.writeBack.Some? then 1 else 0)
    ensures r.Ok? ==> r.value.pipelined == m.pipelined
    // writeback happens first, and decode reads the registers it left
    ensures r.Ok? ==> Writeback(m.regs, m.stages.writeBack) == Ok(r.value.regs)
    ensures r.Ok? ==> (r.value.stages.execute.Some? <==> m.stages.decode.Some?)
    ensures r.Ok? && m.stages.decode.Some? ==>
              Decode(m.stages.decode.value, r.value.regs) == Ok(r.value.stages.execute.value)
    // the memory stage's output fills the writeback slot
    ensures r.Ok? ==> MemoryStage(m.stages.memory, r.value.regs, m.sys).Ok?
    ensures r.Ok? ==>
              var mo := MemoryStage(m.stages.memory, r.value.regs, m.sys).value;
              && r.value.stages.writeBack == mo.nextWB
              && r.value.stages.memory == NextMemory(mo.nextMem, m.stages.execute)
              && r.value.sys == mo.sys
    // fetch
    ensures r.Ok? ==> r.value.stages.fetch == if |m.queue| > 0 then Some(m.queue[0]) else None
    ensures r.Ok? ==> (r.value.stages.decode.Some? <==> |m.queue| > 0 && m.stages.decode.None?)
    ensures r.Ok? && r.value.stages.decode.Some? ==>
              && m.queue == [r.value.stages.decode.value] + r.value.queue
              && r.value.pc == m.pc + 1 && r.value.ir == r.value.stages.decode.value
    ensures r.Ok? && r.value.stages.decode.None? ==>
              r.value.queue == m.queue && r.value.pc == m.pc && r.value.ir == m.ir
    // the cycle fails exactly when one of the three uncaught throws happens
    ensures r.Err? <==>
              || Writeback(m.regs, m.stages.writeBack).Err?
              || MemoryStage(m.stages.memory, Writeback(m.regs, m.stages.writeBack).value, m.sys).Err?
              || DecodeStage(m.stages.decode, Writeback(m.regs, m.stages.writeBack).value).Err?
  {
    var prev := m.stages;
    var stalls := if |m.sys.pending| > 0 then m.stalls + 1 else m.stalls;
    var regs :- Writeback(m.regs, prev.writeBack);
    var retired := if prev.writeBack.Some? then m.instructions + 1 else m.instructions;
    var mo :- MemoryStage(prev.memory, regs, m.sys);
    var nextMem := NextMemory(mo.nextMem, prev.execute);
    var nextExec :- DecodeStage(prev.decode, regs);
    var f := Fetch(m.queue, m.pc, m.ir, prev.decode.Some?);
    Ok(Machine(regs, f.pc, f.ir, f.queue, Stages(f.fetch, f.decode, nextExec, nextMem, mo.nextWB),
               m.clock + 1, retired, stalls, m.pipelined, mo.sys))
  }

  /* ---------------------------------------------------------------------------
     Statistics and resets
     --------------------------------------------------------------------------- */

  datatype PerformanceStats = PerformanceStats(cycles: nat, instructions: nat, stalls: nat, ipc: real, hitRate: real)

  /** Pipeline.getPerformanceStats; ipc and the hit rate are exact rationals here. */
  function GetPerformanceStats(m: Machine): (p: PerformanceStats)
    ensures p.cycles == m.clock && p.instructions == m.instructions && p.stalls == m.stalls
    ensures p.cycles == 0 ==> p.ipc == 0.0
    ensures p.cycles > 0 ==> p.ipc * p.cycles as real == p.instructions as real
    ensures p.ipc >= 0.0
    ensures m.instructions <= m.clock ==> p.ipc <= 1.0
    ensures p.hitRate == Hierarchy.GetStats(m.sys).hitRate
  {
    var ipc := if m.clock > 0 then m.instructions as real / m.clock as real else 0.0;
    PerformanceStats(m.clock, m.instructions, m.stalls, ipc, Hierarchy.GetStats(m.sys).hitRate)
  }

  /** resetPerformanceCounters: the three pipeline counters and the memory
      system's four counters are zeroed; nothing else changes. */
  function ResetPerformanceCounters(m: Machine): (r: Machine)
    ensures r.clock == 0 && r.instructions == 0 && r.stalls == 0
    ensures var st := Hierarchy.GetStats(r.sys);
            st.readRequests == 0 && st.writeRequests == 0 && st.cacheHits == 0 && st.cacheMisses == 0
    ensures r.regs == m.regs && r.pc == m.pc && r.ir == m.ir && r.queue == m.queue
    ensures r.stages == m.stages && r.pipelined == m.pipelined
    ensures r.sys.cache.lines == m.sys.cache.lines && r.sys.memory == m.sys.memory
    ensures r.sys.pending == m.sys.pending
  {
    m.(clock := 0, instructions := 0, stalls := 0, sys := Hierarchy.ResetStats(m.sys))
  }

  /** resetSimulationState, without the message to the window: empties the
      queue and the stages, zeroes registers and counters, sets the program
      counter to -1 and resets the memory system. The pipeline and cache
      switches keep their settings. */
  function ResetSimulation(m: Machine): (r: Machine)
    ensures IsComplete(r)
    ensures r.pc == -1 && r.ir == 0
    ensures AllZero(r.regs)
    ensures r.clock == 0 && r.instructions == 0 && r.stalls == 0
    ensures r.pipelined == m.pipelined && r.sys.cacheEnabled == m.sys.cacheEnabled
    ensures MainMemory.IsZeroed(r.sys.memory.data)
    // the memory system's reset: the cache is emptied and idle, while its
    // four counters and main memory's own owner and countdown survive
    ensures forall i :: 0 <= i < CacheSize ==> Hierarchy.IsCleared(r.sys.cache.lines[i])
    ensures r.sys.cacheCount == 0 && r.sys.cacheServing == None && r.sys.cachePendingData == None
    ensures r.sys.readCount == m.sys.readCount && r.sys.writeCount == m.sys.writeCount
    ensures r.sys.cache.totalHits == m.sys.cache.totalHits && r.sys.cache.totalMisses == m.sys.cache.totalMisses
    ensures r.sys.memory.count == m.sys.memory.count && r.sys.memory.serving == m.sys.memory.serving
  {
    Machine(ZeroRegisters(), -1, 0, [], EmptyStages, 0, 0, 0, m.pipelined, Hierarchy.Reset(m.sys))
  }
}
