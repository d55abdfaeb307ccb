/** Properties of the pipelined cycle: decode sees the same cycle's
    writeback, an instruction leaving execute is lost when the memory stage
    holds back, no instruction is created or duplicated, fetch takes at most
    every other cycle, and an idle machine only ticks the clock. */
module PipelineFacts {
  import opened Common
  import opened Registers
  import opened Isa
  import opened Pipeline

  /** Decode captures the value that writeback commits in the same cycle: a
      register written at writeback and read as rn (or rm) by the word in
      decode is seen with its new value. */
  lemma SameCycleWritebackVisible(m: Machine)
    requires Cycle(m).Ok?
    requires m.stages.writeBack.Some? && Commits(m.stages.writeBack.value)
    requires m.stages.decode.Some?
    ensures var w := m.stages.decode.value;
            var wb := m.stages.writeBack.value;
            var e := Cycle(m).value.stages.execute.value;
            && (ReadsRn(KindOf(OpField(w))) && RnField(w) == wb.rd ==> e.rnValue == CommittedValue(wb))
            && (ReadsRm(KindOf(OpField(w))) && ImmField(w) == wb.rd ==> e.rmValue == CommittedValue(wb))
  {
  }

  /** The memory stage holds its instruction back this cycle. */
  predicate HoldsBack(m: Machine)
    requires Cycle(m).Ok?
  {
    MemoryStage(m.stages.memory, Cycle(m).value.regs, m.sys).value.nextMem.Some?
  }

  /** When the memory stage holds back, the instruction leaving execute is
      replaced by the held one: the memory slot holds the held LOAD or STR with
      one more stall, and the writeback slot is empty, so the executed
      instruction is in no stage register. */
  lemma ExecutedInstructionDropped(m: Machine)
    requires Cycle(m).Ok? && m.stages.execute.Some? && HoldsBack(m)
    ensures var r := Cycle(m).value;
            && m.stages.memory.Some? && IsMemoryKind(m.stages.memory.value.kind)
            && r.stages.memory == Some(m.stages.memory.value.(stallCycles := m.stages.memory.value.stallCycles + 1))
            && r.stages.writeBack.None?
  {
  }

  function Occupied<T>(o: Option<T>): nat {
    if o.Some? then 1 else 0
  }

  /** The memory slot takes one instruction: a held one wins, the one leaving
      execute fills an empty slot, and when both are present exactly one of
      the two instructions is lost. */
  lemma NextMemoryKeepsOne(held: Option<Instr>, executing: Option<Instr>)
    ensures Occupied(NextMemory(held, executing)) + (if held.Some? && executing.Some? then 1 else 0)
            == Occupied(held) + Occupied(executing)
    ensures held.Some? ==> NextMemory(held, executing) == held
    ensures held.None? && executing.Some? ==>
              && NextMemory(held, executing).Some?
              && NextMemory(held, executing).value.kind == executing.value.kind
              && NextMemory(held, executing).value.rd == executing.value.rd
  {
  }

  /** Instructions not yet retired: the words still queued and the occupied
      decode, execute, memory and writeback slots. The fetch slot only
      mirrors the queue head and does not count. */
  function InFlight(m: Machine): nat {
    |m.queue| + Occupied(m.stages.decode) + Occupied(m.stages.execute)
    + Occupied(m.stages.memory) + Occupied(m.stages.writeBack)
  }

  /** One cycle neither creates nor duplicates an instruction: the number in
      flight falls by one for the retiring instruction and by one for an
      instruction dropped behind a held-back memory stage, and by nothing else. */
  lemma InFlightConservation(m: Machine)
    requires Cycle(m).Ok?
    ensures InFlight(Cycle(m).value) + Occupied(m.stages.writeBack)
            + (if m.stages.execute.Some? && HoldsBack(m) then 1 else 0) == InFlight(m)
  {
    var r := Cycle(m).value;
    var mo := MemoryStage(m.stages.memory, r.regs, m.sys).value;
    assert Occupied(r.stages.memory) + Occupied(r.stages.writeBack)
           + (if m.stages.execute.Some? && HoldsBack(m) then 1 else 0)
           == Occupied(m.stages.memory) + Occupied(m.stages.execute);
    if r.stages.decode.Some? {
      assert |m.queue| == 1 + |r.queue|;
    }
  }

  /** A run: each machine is the successful pipelined cycle of the one before. */
  predicate IsRun(ms: seq<Machine>) {
    forall k :: 0 <= k < |ms| - 1 ==> Cycle(ms[k]) == Ok(ms[k + 1])
  }

  function Last(ms: seq<Machine>): Machine
    requires |ms| > 0
  {
    ms[|ms| - 1]
  }

  /** Retired plus in-flight instructions do not grow from `a` to `b`. */
  predicate Conserving(a: Machine, b: Machine) {
    b.instructions + InFlight(b) <= a.instructions + InFlight(a)
  }

  lemma {:induction false} ConservingTrace(ms: seq<Machine>)
    requires |ms| > 0
    requires forall k :: 0 <= k < |ms| - 1 ==> Conserving(ms[k], ms[k + 1])
    ensures Conserving(ms[0], Last(ms))
    decreases |ms|
  {
    if |ms| > 1 {
      ConservingTrace(ms[1..]);
      assert Last(ms[1..]) == Last(ms);
      assert Conserving(ms[0], ms[1]);
    }
  }

  /** Over any run, retired plus in-flight instructions never grow: the
      pipeline retires no more instructions than it was given. */
  lemma RetiredNeverExceedsGiven(ms: seq<Machine>)
    requires |ms| > 0 && IsRun(ms)
    ensures Last(ms).instructions + InFlight(Last(ms)) <= ms[0].instructions + InFlight(ms[0])
  {
    forall k | 0 <= k < |ms| - 1
      ensures Conserving(ms[k], ms[k + 1])
    {
      assert Cycle(ms[k]) == Ok(ms[k + 1]);
      InFlightConservation(ms[k]);
    }
    ConservingTrace(ms);
  }

  /** One cycle takes a word exactly when it leaves the decode slot full,
      and it can do so only when it found the decode slot empty. */
  lemma FetchStep(m: Machine)
    requires Cycle(m).Ok?
    ensures Paced(m, Cycle(m).value)
  {
  }

  /** A cycle from `a` to `b` takes a word exactly when it leaves the decode
      slot full, and only if it found that slot empty. */
  predicate Paced(a: Machine, b: Machine) {
    && |a.queue| == |b.queue| + Occupied(b.stages.decode)
    && (b.stages.decode.Some? ==> a.stages.decode.None?)
  }

  lemma {:induction false} PacedTrace(ms: seq<Machine>)
    requires |ms| > 0
    requires forall k :: 0 <= k < |ms| - 1 ==> Paced(ms[k], ms[k + 1])
    ensures |Last(ms).queue| <= |ms[0].queue|
    ensures 2 * (|ms[0].queue| - |Last(ms).queue|)
            <= |ms| - 1 - Occupied(ms[0].stages.decode) + Occupied(Last(ms).stages.decode)
    decreases |ms|
  {
    if |ms| > 1 {
      PacedTrace(ms[1..]);
      assert Last(ms[1..]) == Last(ms);
      assert Paced(ms[0], ms[1]);
    }
  }

  /** Fetch takes a word only on a cycle that starts with the decode slot
      empty and leaves it full, so no two consecutive cycles both fetch: over
      a run of n cycles at most about n/2 words are taken, and the queue
      never grows. */
  lemma FetchAtMostEveryOtherCycle(ms: seq<Machine>)
    requires |ms| > 0 && IsRun(ms)
    ensures |Last(ms).queue| <= |ms[0].queue|
    ensures 2 * (|ms[0].queue| - |Last(ms).queue|)
            <= |ms| - 1 - Occupied(ms[0].stages.decode) + Occupied(Last(ms).stages.decode)
  {
    forall k | 0 <= k < |ms| - 1
      ensures Paced(ms[k], ms[k + 1])
    {
      assert Cycle(ms[k]) == Ok(ms[k + 1]);
      FetchStep(ms[k]);
    }
    PacedTrace(ms);
  }

  /** A finished machine stays finished under a cycle; only the clock moves. */
  lemma IdleCycleOnlyTicks(m: Machine)
    requires IsComplete(m)
    ensures Cycle(m) == Ok(m.(clock := m.clock + 1))
  {
  }
}
