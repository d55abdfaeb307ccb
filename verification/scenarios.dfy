/** Two short programs run to the end, one pipelined and one serial. */
module Scenarios {
  import opened Common
  import opened Registers
  import opened Isa
  import opened Pipeline
  import opened Serial
  import opened Simulator
  import Config
  import Caches
  import Hierarchy
  import MainMemory
  import SerialFacts

  /** A freshly loaded program: registers zero, program counter -1, empty
      stages, counters zero, a fresh memory system with the cache on. */
  function Start(program: seq<Word>, pipelined: bool): Machine {
    Machine(ZeroRegisters(), -1, 0, program, EmptyStages, 0, 0, 0, pipelined, Hierarchy.Initial())
  }

  /** n steps of the simulator, stopping at the first uncaught throw. */
  function Steps(m: Machine, n: nat): Result<Machine>
    decreases n
  {
    if n == 0 then Ok(m)
    else
      var next :- DoOneCycle(m);
      Steps(next, n - 1)
  }

  /** The three words of the hazard program. */
  function HazardProgram(): seq<Word> {
    [Encode(OpMovi, 1, 0, 5), Encode(OpMovi, 2, 0, 3), Encode(OpAdd, 3, 1, 2)]
  }

  /** The hazard program's machine after five cycles: the first MOVI has
      retired, the second has just entered the memory stage, and the ADD has
      just been fetched into decode. */
  function HazardAtFive(): Machine {
    var p := HazardProgram();
    Machine(ZeroRegisters()[1 := 5], 2, p[2], [],
            Stages(Some(p[2]), Some(p[2]), None, Some(Instr(MOVI, 2, 0, 3, 0, 0, 3, 0, None, 0)), None),
            5, 1, 0, true, Hierarchy.Initial())
  }

  lemma HazardFirstFive()
    ensures Steps(Start(HazardProgram(), true), 9) == Steps(HazardAtFive(), 4)
  {
    var p := HazardProgram();
    FieldsOfEncode(OpMovi, 1, 0, 5);
    FieldsOfEncode(OpMovi, 2, 0, 3);
    var m0 := Start(p, true);
    var m1 := Cycle(m0).value;
    assert m1.stages.decode == Some(p[0]) && m1.queue == p[1..];
    var m2 := Cycle(m1).value;
    assert m2.stages.decode.None? && m2.stages.execute.Some? && m2.stages.execute.value.kind == MOVI;
    var m3 := Cycle(m2).value;
    assert m3.stages.decode == Some(p[1]) && m3.stages.execute.None? && m3.stages.memory.Some? && m3.queue == p[2..];
    var m4 := Cycle(m3).value;
    assert m4.stages.decode.None? && m4.stages.execute.Some? && m4.stages.memory.None? && m4.stages.writeBack.Some?;
    var m5 := Cycle(m4).value;
    assert m5.regs == ZeroRegisters()[1 := 5];
    assert m5 == HazardAtFive();
    assert Steps(m0, 9) == Steps(m1, 8) == Steps(m2, 7) == Steps(m3, 6) == Steps(m4, 5) == Steps(m5, 4);
  }

  lemma HazardLastFour()
    ensures var r := Steps(HazardAtFive(), 4);
            && r.Ok? && IsComplete(r.value)
            && r.value.regs[1] == 5 && r.value.regs[2] == 3 && r.value.regs[3] == 5
            && r.value.instructions == 3 && r.value.clock == 9
  {
    FieldsOfEncode(OpAdd, 3, 1, 2);
    var m5 := HazardAtFive();
    var m6 := Cycle(m5).value;
    assert m6.stages.execute.Some? && m6.stages.execute.value.rnValue == 5 && m6.stages.execute.value.rmValue == 0;
    var m7 := Cycle(m6).value;
    assert m7.regs[2] == 3 && m7.stages.memory.Some? && m7.stages.memory.value.result == 5;
    var m8 := Cycle(m7).value;
    assert m8.stages.writeBack.Some? && m8.stages.writeBack.value.result == 5;
    var m9 := Cycle(m8).value;
    assert m9.regs[3] == 5 && IsComplete(m9);
    assert Steps(m5, 4) == Ok(m9);
  }

  /** [MOVI R1, #5] [MOVI R2, #3] [ADD R3, R1, R2], pipelined. There is no
      forwarding and no interlock, and fetch takes a word only every other
      cycle: the ADD decodes in cycle 6, after R1 was written in cycle 5 but
      before R2 is written in cycle 7, so it adds 5 and 0. The run ends after
      nine cycles with three instructions retired. */
  lemma PipelinedHazard()
    ensures var r := Steps(Start(HazardProgram(), true), 9);
            && r.Ok? && IsComplete(r.value)
            && r.value.regs[1] == 5 && r.value.regs[2] == 3 && r.value.regs[3] == 5
            && r.value.instructions == 3 && r.value.clock == 9
  {
    HazardFirstFive();
    HazardLastFour();
  }

  /** A fresh memory system is coherent: no line is valid. */
  lemma InitialIsCoherent()
    ensures SerialFacts.Coherent(Hierarchy.Initial())
  {
    var h := Hierarchy.Initial();
    forall i | 0 <= i < Config.CacheSize
      ensures SerialFacts.LineCoherent(h.cache, h.memory.data, i)
    {
      assert h.cache.lines[i] == Caches.EmptyLine;
    }
  }

  /** [MOVI R1, #100] [STR R1, [R1, #0]] [LOAD R2, [R1, #0]]. */
  function StoreLoadProgram(): seq<Word> {
    [Encode(OpMovi, 1, 0, 100), Encode(OpStr, 1, 1, 0), Encode(OpLoad, 2, 1, 0)]
  }

  /** The serial machine after the MOVI and the STR: only the LOAD is left,
      R1 and the memory word at 100 hold 100, and the line of address 100 is
      still not in the cache. */
  predicate ReadyToLoad(m: Machine) {
    && m.queue == [StoreLoadProgram()[2]] && m.stages == EmptyStages && m.sys.pending == map[]
    && !m.pipelined && m.sys.cacheEnabled && SerialFacts.Coherent(m.sys)
    && m.regs[1] == 100 && MainMemory.WordAt(m.sys.memory.data, 100) == 100
    && !Caches.IsHit(m.sys.cache.lines[Caches.IndexOf(100)], Caches.TagOf(100))
    && m.instructions == 2 && m.clock == 13
  }

  /** The serial machine after the MOVI: R1 holds 100, the STR and the
      LOAD are left, and the memory system is still fresh. */
  predicate ReadyToStore(m: Machine) {
    && m.queue == StoreLoadProgram()[1..] && m.stages == EmptyStages && m.sys == Hierarchy.Initial()
    && !m.pipelined && m.regs[1] == 100 && m.instructions == 1 && m.clock == 5
  }

  lemma StoreLoadFirst()
    ensures var m0 := Start(StoreLoadProgram(), false);
            && Steps(m0, 1).Ok? && ReadyToStore(Steps(m0, 1).value)
            && Steps(m0, 3) == Steps(Steps(m0, 1).value, 2)
  {
    var p := StoreLoadProgram();
    FieldsOfEncode(OpMovi, 1, 0, 100);
    var m0 := Start(p, false);
    SerialFacts.SerialArithmeticStep(m0);
    var m1 := RunOneInstruction(m0).value;
    assert m1.regs[1] == 100 && m1.queue == p[1..] && m1.sys == m0.sys;
    assert Steps(m0, 1) == Ok(m1) && Steps(m0, 3) == Steps(m1, 2);
  }

  lemma StoreWhenReady(m: Machine)
    requires ReadyToStore(m)
    ensures && Steps(m, 1).Ok? && ReadyToLoad(Steps(m, 1).value)
            && Steps(m, 2) == Steps(Steps(m, 1).value, 1)
  {
    var p := StoreLoadProgram();
    FieldsOfEncode(OpStr, 1, 1, 0);
    InitialIsCoherent();
    SerialFacts.SerialMemoryExecutes(m);
    SerialFacts.RetireStore(m, p[1], 100);
    SerialFacts.SerialStoreWritesThrough(m.sys, 100, 1, m.regs);
    var r := RunOneInstruction(m).value;
    assert r.queue == p[2..];
    assert Steps(m, 1) == Ok(r) && Steps(m, 2) == Steps(r, 1);
  }

  lemma LoadWhenReady(m: Machine)
    requires ReadyToLoad(m)
    ensures var r := Steps(m, 1);
            && r.Ok? && IsComplete(r.value)
            && r.value.regs[1] == 100 && r.value.regs[2] == 100
            && MainMemory.WordAt(r.value.sys.memory.data, 100) == 100
            && r.value.instructions == 3 && r.value.clock == 21
  {
    var w := StoreLoadProgram()[2];
    FieldsOfEncode(OpLoad, 2, 1, 0);
    SerialFacts.SerialMemoryExecutes(m);
    SerialFacts.RetireLoad(m, w, 100);
    SerialFacts.SerialLoadFetchesLine(m.sys, 100);
    var r := RunOneInstruction(m).value;
    assert r.queue == [] && r.sys.pending == map[];
    assert Steps(m, 1) == Ok(r);
  }

  /** [MOVI R1, #100] [STR R1, [R1, #0]] [LOAD R2, [R1, #0]], serial: the
      store misses and writes through, the load misses, refills the line and
      returns the stored 100. Five cycles for the MOVI and eight for each
      memory access. */
  lemma SerialStoreLoad()
    ensures var r := Steps(Start(StoreLoadProgram(), false), 3);
            && r.Ok? && IsComplete(r.value)
            && r.value.regs[1] == 100 && r.value.regs[2] == 100
            && MainMemory.WordAt(r.value.sys.memory.data, 100) == 100
            && r.value.instructions == 3 && r.value.clock == 21
  {
    var m0 := Start(StoreLoadProgram(), false);
    StoreLoadFirst();
    var m1 := Steps(m0, 1).value;
    StoreWhenReady(m1);
    LoadWhenReady(Steps(m1, 1).value);
  }
}
