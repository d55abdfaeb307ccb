/** The serial path: one instruction taken from the queue and carried through
    fetch, decode, execute, memory and writeback in a single step, with its
    cycles counted in bulk. The memory stage here bypasses the memory
    system's polling protocol and works on the cache and main memory directly. */
module Serial {
  import opened Common
  import opened Config
  import opened Registers
  import opened Isa
  import opened Pipeline
  import Caches
  import Hierarchy
  import MainMemory

  /** Base cycles of one serial instruction: one per stage. */
  const BaseCycles: nat := 5

  /** What the serial execute computes: the result of an arithmetic
      instruction or the address of a LOAD or STR (0 where not set). */
  datatype Executed = Executed(result: int, address: int)

  /** The serial execute, reading registers directly (rn before rm); a bad
      register number throws. This is separate code from the pipelined
      decode and execute, and SerialExecuteAgrees relates the two. */
  function SerialExecute(op: int, rn: int, imm: int, rf: RegFile): (r: Result<Executed>)
    ensures r.Ok? && IsMemoryKind(KindOf(op)) ==> ValidIndex(rn) && r.value.address - imm == rf[rn]
    ensures r.Err? ==> r.fault.InvalidRegister?
  {
    match KindOf(op)
    case MOVI => Ok(Executed(imm, 0))
    case MOV =>
      var x :- Registers.Read(rf, rn);
      Ok(Executed(x, 0))
    case ADD =>
      var x :- Registers.Read(rf, rn);
      var y :- Registers.Read(rf, imm);
      Ok(Executed(x + y, 0))
    case SUB =>
      var x :- Registers.Read(rf, rn);
      var y :- Registers.Read(rf, imm);
      Ok(Executed(x - y, 0))
    case ADDI =>
      var x :- Registers.Read(rf, rn);
      Ok(Executed(x + imm, 0))
    case SUBI =>
      var x :- Registers.Read(rf, rn);
      Ok(Executed(x - imm, 0))
    case MUL =>
      var x :- Registers.Read(rf, rn);
      var y :- Registers.Read(rf, imm);
      Ok(Executed(x * y, 0))
    case LOAD =>
      var x :- Registers.Read(rf, rn);
      Ok(Executed(0, x + imm))
    case STR =>
      var x :- Registers.Read(rf, rn);
      Ok(Executed(0, x + imm))
    case NOP => Ok(Executed(0, 0))
  }

  /** The serial execute and the pipelined decode-then-execute agree on every
      word and register file: both fail together with the same fault, and
      otherwise compute the same result and the same address. */
  lemma SerialExecuteAgrees(w: Word, rf: RegFile)
    ensures var s := SerialExecute(OpField(w), RnField(w), ImmField(w), rf);
            var d := Decode(w, rf);
            && (s.Ok? <==> d.Ok?)
            && (s.Err? ==> s.fault == d.fault)
            && (s.Ok? && WritesResult(d.value.kind) ==> s.value.result == Execute(d.value).result)
            && (s.Ok? && IsMemoryKind(d.value.kind) ==> s.value.address == Execute(d.value).address)
  {
  }

  /* ---------------------------------------------------------------------------
     Serial memory access
     --------------------------------------------------------------------------- */

  /** The memory system after the access, the word loaded (0 when the access
      threw) and the cycles charged beyond the base five. */
  datatype LoadOutcome = LoadOutcome(sys: Hierarchy.MemorySystem, data: int, extra: nat)

  /** The serial LOAD's memory access. With the cache off, or on a miss, it
      costs the memory delay less one; on a hit, the cache delay less one;
      a miss refills the line. A throw (a bad address) leaves data 0. */
  function SerialLoad(h: Hierarchy.MemorySystem, a: int): (o: LoadOutcome)
    ensures o.sys.memory == h.memory && o.sys.pending == h.pending
    ensures o.sys.readCount == h.readCount && o.sys.writeCount == h.writeCount
    ensures o.sys.cacheEnabled == h.cacheEnabled
    ensures !h.cacheEnabled ==> o.sys == h && o.extra == MemoryDelay - 1 && o.data == DirectLoad(h.memory, a)
    ensures h.cacheEnabled && 0 <= a < MemorySize && Caches.IsHit(h.cache.lines[Caches.IndexOf(a)], Caches.TagOf(a)) ==>
              && o.extra == CacheDelay - 1
              && o.sys.cache == h.cache.(totalHits := h.cache.totalHits + 1)
              && Caches.Read(h.cache, a).result == Caches.Hit(o.data)
    ensures h.cacheEnabled && 0 <= a < MemorySize && !Caches.IsHit(h.cache.lines[Caches.IndexOf(a)], Caches.TagOf(a)) ==>
              && o.extra == MemoryDelay - 1
              && o.data == MainMemory.WordAt(h.memory.data, a)
              && o.sys.cache.totalMisses == h.cache.totalMisses + 1
              && o.sys.cache.totalHits == h.cache.totalHits
              && Caches.Read(o.sys.cache, a).result == Caches.Hit(o.data)
    // out of bounds the word is 0, unless the cache happens to hold a line under that tag
    ensures !(0 <= a < MemorySize) ==>
              o.data == 0 || (h.cacheEnabled && Caches.Read(h.cache, a).result == Caches.Hit(o.data))
  {
    if !h.cacheEnabled then LoadOutcome(h, DirectLoad(h.memory, a), MemoryDelay - 1)
    else
      var p := Caches.Read(h.cache, a);
      match p.result
      case ProbeFault(_) => LoadOutcome(h, 0, 0)
      case Hit(d) => LoadOutcome(h.(cache := p.cache), d, CacheDelay - 1)
      case Miss(_, _, _) =>
        if 0 <= a < MemorySize then
          Caches.RefillThenHit(p.cache, a, MainMemory.LineOf(h.memory.data, a));
          LoadOutcome(h.(cache := Hierarchy.RefillFor(p.cache, a, MainMemory.LineOf(h.memory.data, a))),
                      MainMemory.WordAt(h.memory.data, a), MemoryDelay - 1)
        else
          LoadOutcome(h.(cache := p.cache), 0, MemoryDelay - 1)
  }

  datatype StoreOutcome = StoreOutcome(sys: Hierarchy.MemorySystem, extra: nat)

  /** The serial STR's memory access, all of it inside a catch: the value
      register is read first; with the cache off the memory delay is charged
      before the bounds check; with the cache on a bad address stops it before
      anything is counted; otherwise the word is written through, and into
      the cache line only when resident. */
  function SerialStore(h: Hierarchy.MemorySystem, a: int, rd: int, rf: RegFile): (o: StoreOutcome)
    ensures o.sys.pending == h.pending && o.sys.readCount == h.readCount && o.sys.writeCount == h.writeCount
    ensures o.sys.cacheEnabled == h.cacheEnabled
    ensures o.sys.memory.count == h.memory.count && o.sys.memory.serving == h.memory.serving
    ensures !ValidIndex(rd) ==> o == StoreOutcome(h, 0)
    ensures ValidIndex(rd) && 0 <= a < MemorySize ==>
              && MainMemory.WordAt(o.sys.memory.data, a) == rf[rd]
              && (forall b :: 0 <= b < MemorySize && b != a ==>
                    MainMemory.WordAt(o.sys.memory.data, b) == MainMemory.WordAt(h.memory.data, b))
    ensures ValidIndex(rd) && !h.cacheEnabled ==> o.extra == MemoryDelay - 1 && o.sys.cache == h.cache
    ensures ValidIndex(rd) && h.cacheEnabled && 0 <= a < MemorySize ==>
              && o.sys.cache == Hierarchy.WriteProbe(h.cache, a, rf[rd])
              && o.extra == if Caches.IsHit(h.cache.lines[Caches.IndexOf(a)], Caches.TagOf(a))
                            then CacheDelay - 1 else MemoryDelay - 1
    ensures !(0 <= a < MemorySize) ==> o.sys.memory == h.memory
    ensures h.cacheEnabled && !(0 <= a < MemorySize) ==> o == StoreOutcome(h, 0)
  {
    match Registers.Read(rf, rd)
    case Err(_) => StoreOutcome(h, 0)
    case Ok(v) =>
      if !h.cacheEnabled then
        StoreOutcome(h.(memory := DirectStore(h.memory, a, v)), MemoryDelay - 1)
      else if !(0 <= a < MemorySize) then StoreOutcome(h, 0)
      else
        Caches.AddressSplit(a);
        var hit := Caches.IsHit(h.cache.lines[Caches.IndexOf(a)], Caches.TagOf(a));
        StoreOutcome(h.(cache := Hierarchy.WriteProbe(h.cache, a, v), memory := DirectStore(h.memory, a, v)),
                     if hit then CacheDelay - 1 else MemoryDelay - 1)
  }

  /** The state the memory phase leaves: registers (a LOAD writes rd
      there), memory system and extra cycles. */
  datatype Phase = Phase(regs: RegFile, sys: Hierarchy.MemorySystem, extra: nat)

  /** The memory phase of a serial instruction of kind `k`. Only a LOAD's
      register write can throw out of it: the fallback write of 0 to the
      same bad register throws again. */
  function MemoryPhase(k: Kind, rd: int, a: int, rf: RegFile, h: Hierarchy.MemorySystem): (r: Result<Phase>)
    ensures r.Err? <==> k == LOAD && !ValidIndex(rd)
    ensures r.Ok? && k == LOAD ==>
              var o := SerialLoad(h, a);
              && r.value.sys == o.sys && r.value.extra == o.extra
              && r.value.regs[rd] == o.data && AgreeExcept(r.value.regs, rf, rd)
    ensures k == STR ==> r == Ok(Phase(rf, SerialStore(h, a, rd, rf).sys, SerialStore(h, a, rd, rf).extra))
    ensures !IsMemoryKind(k) ==> r == Ok(Phase(rf, h, 0))
  {
    if k == LOAD then
      var o := SerialLoad(h, a);
      var regs :- Registers.Write(rf, rd, o.data);
      Ok(Phase(regs, o.sys, o.extra))
    else if k == STR then
      var o := SerialStore(h, a, rd, rf);
      Ok(Phase(rf, o.sys, o.extra))
    else Ok(Phase(rf, h, 0))
  }

  /* ---------------------------------------------------------------------------
     runOneInstructionToCompletion
     --------------------------------------------------------------------------- */

  /** The word the serial path takes: the queue head, or 0 when the queue is
      empty (an absent word's fields all read as 0). */
  function NextWord(q: seq<Word>): Word {
    if |q| > 0 then q[0] else 0
  }

  /** runOneInstructionToCompletion. A finished machine is left alone;
      otherwise one word is taken and executed, the program counter and the
      instruction count rise by one and the clock by five plus the memory
      access's extra cycles. The instruction register and the stage
      registers are not touched. A bad register number outside the caught
      memory accesses ends the step with that fault. */
  function RunOneInstruction(m: Machine): (r: Result<Machine>)
    ensures IsComplete(m) ==> r == Ok(m)
    ensures !IsComplete(m) && r.Ok? ==>
              && r.value.instructions == m.instructions + 1
              && r.value.pc == m.pc + 1
              && r.value.queue == (if |m.queue| > 0 then m.queue[1..] else [])
              && m.clock + BaseCycles <= r.value.clock <= m.clock + BaseCycles + MemoryDelay - 1
              && (!IsMemoryKind(KindOf(OpField(NextWord(m.queue)))) ==> r.value.clock == m.clock + BaseCycles)
              && r.value.ir == m.ir && r.value.stages == m.stages && r.value.pipelined == m.pipelined
              && r.value.sys.pending == m.sys.pending
    ensures r.Err? ==> r.fault.InvalidRegister?
  {
    if IsComplete(m) then Ok(m)
    else
      var w := NextWord(m.queue);
      var ex :- SerialExecute(OpField(w), RnField(w), ImmField(w), m.regs);
      Retire(m, w, ex)
  }

  /** Everything after the serial execute: the memory phase, the register
      write of an arithmetic result, and the bookkeeping. */
  function Retire(m: Machine, w: Word, ex: Executed): (r: Result<Machine>)
    ensures r.Ok? ==>
              && r.value.instructions == m.instructions + 1
              && r.value.pc == m.pc + 1
              && r.value.queue == (if |m.queue| > 0 then m.queue[1..] else [])
              && m.clock + BaseCycles <= r.value.clock <= m.clock + BaseCycles + MemoryDelay - 1
              && (!IsMemoryKind(KindOf(OpField(w))) ==> r.value.clock == m.clock + BaseCycles)
              && r.value.ir == m.ir && r.value.stages == m.stages && r.value.pipelined == m.pipelined
              && r.value.sys.pending == m.sys.pending
    ensures r.Err? ==> r.fault.InvalidRegister?
  {
    var queue := if |m.queue| > 0 then m.queue[1..] else [];
    var k := KindOf(OpField(w));
    var mp :- MemoryPhase(k, RdField(w), ex.address, m.regs, m.sys);
    var regs :- if WritesResult(k) then Registers.Write(mp.regs, RdField(w), ex.result) else Ok(mp.regs);
    Ok(m.(regs := regs, pc := m.pc + 1, queue := queue, clock := m.clock + BaseCycles + mp.extra,
          instructions := m.instructions + 1, sys := mp.sys))
  }
}
