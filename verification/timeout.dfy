/** The memory stage's forced completion. With the cache on, a LOAD that
    misses and every STR need six polls of the memory system, but the memory
    stage gives up after five unsuccessful polls and completes the
    instruction itself. The memory system does not know: the stage's pending
    request and main memory's owner stay behind, and the next LOAD or STR in
    the memory stage is answered by that stale operation. */
module Timeout {
  import opened Common
  import opened Config
  import opened Registers
  import opened Isa
  import opened Caches
  import opened Hierarchy
  import opened HierarchyPolls
  import opened Pipeline
  import MainMemory

  /** The memory stage applied to the same instruction for as long as it is
      held back, with the register file `rfs[k]` on the k-th cycle; stops
      when the instruction leaves for writeback or the register files run out. */
  function HeldPolls(i: Instr, rfs: seq<RegFile>, h: MemorySystem): (r: Result<MemOut>)
    requires |rfs| > 0
    ensures r.Ok? ==> (r.value.nextMem.Some? <==> r.value.nextWB.None?)
    decreases |rfs|
  {
    var o :- MemoryStage(Some(i), rfs[0], h);
    if |rfs| == 1 || o.nextMem.None? then Ok(o) else HeldPolls(o.nextMem.value, rfs[1..], o.sys)
  }

  /* ---------------------------------------------------------------------------
     LOAD
     --------------------------------------------------------------------------- */

  /** While the memory stage's miss is counting down, each poll is a stall;
      on the stall that reaches the timeout the LOAD is forced through with
      the word read straight from memory. */
  lemma {:induction false} HeldLoadWaits(i: Instr, rfs: seq<RegFile>, h: MemorySystem)
    requires i.kind == LOAD && MissInFlight(h, MemoryStageName)
    requires 0 < |rfs| < h.memory.count && i.stallCycles + |rfs| <= StallTimeout
    ensures var n := |rfs|;
            var h' := h.(readCount := h.readCount + n, memory := h.memory.(count := h.memory.count - n));
            HeldPolls(i, rfs, h) ==
              Ok(if i.stallCycles + n == StallTimeout
                 then MemOut(None, Some(i.(stallCycles := StallTimeout,
                                           memoryResult := Some(DirectLoad(h.memory, i.address)))), h')
                 else MemOut(Some(i.(stallCycles := i.stallCycles + n)), None, h'))
    decreases |rfs|
  {
    var st := Hierarchy.Read(h, i.address, MemoryStageName);
    var h1 := h.(readCount := h.readCount + 1, memory := h.memory.(count := h.memory.count - 1));
    assert st == SysStep(h1, Wait(None));
    if |rfs| > 1 {
      HeldLoadWaits(i.(stallCycles := i.stallCycles + 1), rfs[1..], h1);
    }
  }

  /** Timeout always fires on a LOAD miss: over five cycles the memory
      system answers `Wait` every time, so the fifth cycle forces the LOAD to
      writeback with the memory word. The pending read request and main
      memory's owner (with one cycle left) are left in place. */
  lemma LoadMissAlwaysForced(i: Instr, rfs: seq<RegFile>, h: MemorySystem)
    requires i.kind == LOAD && i.stallCycles == 0 && |rfs| == StallTimeout
    requires h.cacheEnabled && Quiet(h, MemoryStageName) && 0 <= i.address < MemorySize
    requires !IsHit(h.cache.lines[IndexOf(i.address)], TagOf(i.address))
    ensures var r := HeldPolls(i, rfs, h);
            && r.Ok? && r.value.nextMem.None?
            && r.value.nextWB == Some(i.(stallCycles := StallTimeout,
                                         memoryResult := Some(MainMemory.WordAt(h.memory.data, i.address))))
            && r.value.sys.pending == h.pending[MemoryStageName := ReadRequest(i.address, false)]
            && MissInFlight(r.value.sys, MemoryStageName) && r.value.sys.memory.count == 1
            && r.value.sys.memory.data == h.memory.data
            && r.value.sys.cache.lines == h.cache.lines
  {
    var s := MemoryStageName;
    var a := i.address;
    var r1 := Hierarchy.Read(h, a, s);
    var r2 := Hierarchy.Read(r1.sys, a, s);
    MissFirstTwoPolls(h, a, s);
    assert ReadPolls(r1.sys, a, s, 1) == SysTrace(r2.sys, [r2.status]);
    assert r1.status == Wait(None) && r2.status == Wait(None);
    var i1 := i.(stallCycles := 1);
    var i2 := i.(stallCycles := 2);
    assert LoadStage(i, h) == Ok(MemOut(Some(i1), None, r1.sys));
    assert LoadStage(i1, r1.sys) == Ok(MemOut(Some(i2), None, r2.sys));
    assert HeldPolls(i, rfs, h) == HeldPolls(i1, rfs[1..], r1.sys);
    assert HeldPolls(i1, rfs[1..], r1.sys) == HeldPolls(i2, rfs[2..], r2.sys);
    HeldLoadWaits(i2, rfs[2..], r2.sys);
  }

  /** After a forced LOAD, the next LOAD in the memory stage, whatever its
      address, completes on its first poll with the word of the earlier
      LOAD's address; that address's line is refilled and the stale request
      is removed. */
  lemma StaleLoadCompletion(j: Instr, h: MemorySystem)
    requires j.kind == LOAD && MissInFlight(h, MemoryStageName) && h.memory.count == 1
    ensures var a := h.pending[MemoryStageName].address;
            LoadStage(j, h) ==
              Ok(MemOut(None, Some(j.(memoryResult := Some(MainMemory.WordAt(h.memory.data, a)))),
                        h.(readCount := h.readCount + 1,
                           memory := MainMemory.Memory(h.memory.data, 0, None),
                           cache := RefillFor(h.cache, a, MainMemory.LineOf(h.memory.data, a)),
                           pending := h.pending - {MemoryStageName})))
  {
    MissCountdown(h, j.address, MemoryStageName);
    assert ReadPolls(h, j.address, MemoryStageName, 1).statuses[0] == Hierarchy.Read(h, j.address, MemoryStageName).status;
  }

  /* ---------------------------------------------------------------------------
     STR
     --------------------------------------------------------------------------- */

  /** While the memory stage's write is counting down, each poll is a stall;
      on the stall that reaches the timeout the STR is forced through by
      storing the value register, as read on that cycle, straight into memory. */
  lemma {:induction false} HeldStoreWaits(i: Instr, rfs: seq<RegFile>, h: MemorySystem)
    requires i.kind == STR && ValidIndex(i.rd) && WriteInFlight(h, MemoryStageName)
    requires 0 < |rfs| < h.memory.count && i.stallCycles + |rfs| <= StallTimeout
    ensures var n := |rfs|;
            var h' := h.(writeCount := h.writeCount + n, memory := h.memory.(count := h.memory.count - n));
            HeldPolls(i, rfs, h) ==
              Ok(if i.stallCycles + n == StallTimeout
                 then MemOut(None, Some(i.(stallCycles := StallTimeout)),
                             h'.(memory := DirectStore(h'.memory, i.address, rfs[n - 1][i.rd])))
                 else MemOut(Some(i.(stallCycles := i.stallCycles + n)), None, h'))
    decreases |rfs|
  {
    var st := Hierarchy.Write(h, i.address, rfs[0][i.rd], MemoryStageName);
    var h1 := h.(writeCount := h.writeCount + 1, memory := h.memory.(count := h.memory.count - 1));
    assert st == SysStep(h1, Wait(None));
    if |rfs| > 1 {
      HeldStoreWaits(i.(stallCycles := i.stallCycles + 1), rfs[1..], h1);
      assert rfs[1..][|rfs| - 2] == rfs[|rfs| - 1];
    }
  }

  /** Timeout always fires on a STR, hit or miss: the fifth cycle forces it
      to writeback and stores the value register as read on that cycle. The
      write request queued on the first cycle, with the value read then,
      stays pending with main memory owned and one cycle from landing. */
  lemma StoreAlwaysForced(i: Instr, rfs: seq<RegFile>, h: MemorySystem)
    requires i.kind == STR && i.stallCycles == 0 && ValidIndex(i.rd) && |rfs| == StallTimeout
    requires Quiet(h, MemoryStageName) && 0 <= i.address < MemorySize
    ensures var r := HeldPolls(i, rfs, h);
            && r.Ok? && r.value.nextMem.None?
            && r.value.nextWB == Some(i.(stallCycles := StallTimeout))
            && MainMemory.WordAt(r.value.sys.memory.data, i.address) == rfs[4][i.rd]
            && (forall b :: 0 <= b < MemorySize && b != i.address ==>
                  MainMemory.WordAt(r.value.sys.memory.data, b) == MainMemory.WordAt(h.memory.data, b))
            && r.value.sys.pending == h.pending[MemoryStageName := WriteRequest(i.address, rfs[0][i.rd])]
            && WriteInFlight(r.value.sys, MemoryStageName) && r.value.sys.memory.count == 1
  {
    var s := MemoryStageName;
    var a := i.address;
    var r1 := Hierarchy.Write(h, a, rfs[0][i.rd], s);
    var r2 := Hierarchy.Write(r1.sys, a, rfs[1][i.rd], s);
    assert r1.status == Wait(None);
    assert r1.sys.pending == h.pending[s := WriteRequest(a, rfs[0][i.rd])];
    assert r2 == SysStep(r1.sys.(writeCount := r1.sys.writeCount + 1,
                                 memory := r1.sys.memory.(count := MemoryDelay, serving := Some(s))),
                         Wait(None));
    var i1 := i.(stallCycles := 1);
    var i2 := i.(stallCycles := 2);
    assert StoreStage(i, rfs[0], h) == Ok(MemOut(Some(i1), None, r1.sys));
    assert StoreStage(i1, rfs[1], r1.sys) == Ok(MemOut(Some(i2), None, r2.sys));
    assert HeldPolls(i, rfs, h) == HeldPolls(i1, rfs[1..], r1.sys);
    assert HeldPolls(i1, rfs[1..], r1.sys) == HeldPolls(i2, rfs[2..], r2.sys);
    HeldStoreWaits(i2, rfs[2..], r2.sys);
    assert rfs[2..][2] == rfs[4];
  }

  /** After a forced STR, the next LOAD in the memory stage completes on its
      first poll with no data, because the completion it receives is the
      stale write's; its writeback then leaves every register unchanged. The
      stale write lands at that moment. */
  lemma LoadAfterForcedStoreGetsNoData(j: Instr, h: MemorySystem, rf: RegFile)
    requires j.kind == LOAD && h.cacheEnabled && WriteInFlight(h, MemoryStageName) && h.memory.count == 1
    ensures var req := h.pending[MemoryStageName];
            && LoadStage(j, h) ==
                 Ok(MemOut(None, Some(j.(memoryResult := None)),
                           h.(readCount := h.readCount + 1,
                              memory := MainMemory.Memory(MainMemory.Store(h.memory.data, req.address, req.value), 0, None),
                              pending := h.pending - {MemoryStageName})))
            && Writeback(rf, Some(j.(memoryResult := None))) == Ok(rf)
  {
  }
}
