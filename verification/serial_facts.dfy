/** Properties of the serial path: its cycle accounting, its agreement with
    main memory while the cache is coherent, and store-then-load. */
module SerialFacts {
  import opened Common
  import opened Config
  import opened Registers
  import opened Isa
  import opened Pipeline
  import opened Serial
  import Caches
  import Hierarchy
  import MainMemory

  /* ---------------------------------------------------------------------------
     Coherence
     --------------------------------------------------------------------------- */

  /** Cache line `i` is coherent: if valid, its tag names a memory line (line
      number tag * 16 + i) and it holds exactly that line's words. */
  predicate LineCoherent(c: Caches.Cache, data: MainMemory.MemLines, i: int)
    requires 0 <= i < CacheSize
  {
    var l := c.lines[i];
    l.valid ==> 0 <= l.tag * CacheSize + i < MemoryLines && l.data == data[l.tag * CacheSize + i]
  }

  predicate Coherent(h: Hierarchy.MemorySystem) {
    forall i :: 0 <= i < CacheSize ==> LineCoherent(h.cache, h.memory.data, i)
  }

  /** A reset invalidates every line, so the memory system is coherent after it. */
  lemma ResetIsCoherent(h: Hierarchy.MemorySystem)
    ensures Coherent(Hierarchy.Reset(h))
  {
    var r := Hierarchy.Reset(h);
    forall i | 0 <= i < CacheSize
      ensures LineCoherent(r.cache, r.memory.data, i)
    {
      assert Hierarchy.IsCleared(r.cache.lines[i]);
    }
  }

  /** The memory line number of an address, split as cache tag and index. */
  lemma {:induction false} LineNumberSplit(a: int)
    requires 0 <= a < MemorySize
    ensures Caches.TagOf(a) * CacheSize + Caches.IndexOf(a) == a / WordsPerLine
    ensures Caches.OffsetOf(a) == a % WordsPerLine
  {
    Caches.AddressSplit(a);
    var t := Caches.TagOf(a);
    var i := Caches.IndexOf(a);
    var o := Caches.OffsetOf(a);
    assert a == WordsPerLine * (t * CacheSize + i) + o;
  }

  /** Distinct cache indices never name the same memory line. */
  lemma {:induction false} LineNumbersDistinct(t: int, i: int, u: int, j: int)
    requires 0 <= i < CacheSize && 0 <= j < CacheSize && i != j
    ensures t * CacheSize + i != u * CacheSize + j
  {
    assert (t * CacheSize + i) % CacheSize == i;
    assert (u * CacheSize + j) % CacheSize == j;
  }

  /** Coherence depends only on the cache lines and the memory words. */
  lemma SameLinesCoherent(h: Hierarchy.MemorySystem, h': Hierarchy.MemorySystem)
    requires Coherent(h) && h'.cache.lines == h.cache.lines && h'.memory.data == h.memory.data
    ensures Coherent(h')
  {
    forall j | 0 <= j < CacheSize
      ensures LineCoherent(h'.cache, h'.memory.data, j)
    {
      assert LineCoherent(h.cache, h.memory.data, j);
    }
  }

  /** Under coherence a hit returns the memory word, and an address outside
      memory never hits. */
  lemma {:induction false} CoherentHit(h: Hierarchy.MemorySystem, a: int)
    requires Coherent(h) && 0 <= Caches.IndexOf(a) < CacheSize
    ensures Caches.IsHit(h.cache.lines[Caches.IndexOf(a)], Caches.TagOf(a)) ==>
              && 0 <= a < MemorySize
              && 0 <= Caches.OffsetOf(a) < WordsPerLine
              && h.cache.lines[Caches.IndexOf(a)].data[Caches.OffsetOf(a)] == MainMemory.WordAt(h.memory.data, a)
  {
    var i := Caches.IndexOf(a);
    var t := Caches.TagOf(a);
    assert LineCoherent(h.cache, h.memory.data, i);
    if a < 0 {
      assert t < 0;
    } else {
      Caches.AddressSplit(a);
      assert a == WordsPerLine * (t * CacheSize + i) + Caches.OffsetOf(a);
      if a < MemorySize {
        LineNumberSplit(a);
      }
    }
  }

  /** Refilling the line of an in-bounds address from memory keeps coherence. */
  lemma {:induction false} RefillKeepsCoherence(h: Hierarchy.MemorySystem, c: Caches.Cache, a: int)
    requires Coherent(h) && c.lines == h.cache.lines && 0 <= a < MemorySize
    ensures Coherent(h.(cache := Hierarchy.RefillFor(c, a, MainMemory.LineOf(h.memory.data, a))))
  {
    LineNumberSplit(a);
    Caches.AddressSplit(a);
    var h' := h.(cache := Hierarchy.RefillFor(c, a, MainMemory.LineOf(h.memory.data, a)));
    forall j | 0 <= j < CacheSize
      ensures LineCoherent(h'.cache, h'.memory.data, j)
    {
      assert LineCoherent(h.cache, h.memory.data, j);
    }
  }

  /** While the cache is coherent, a serial LOAD returns exactly the memory
      word at its address (0 out of bounds), hit or miss, and leaves the cache
      coherent. */
  lemma {:induction false} SerialLoadReadsMemory(h: Hierarchy.MemorySystem, a: int)
    requires Coherent(h)
    ensures SerialLoad(h, a).data == DirectLoad(h.memory, a)
    ensures Coherent(SerialLoad(h, a).sys)
  {
    var o := SerialLoad(h, a);
    if h.cacheEnabled && 0 <= Caches.IndexOf(a) < CacheSize {
      var p := Caches.Read(h.cache, a);
      CoherentHit(h, a);
      if p.result.Hit? {
        SameLinesCoherent(h, o.sys);
      } else if 0 <= a < MemorySize {
        RefillKeepsCoherence(h, p.cache, a);
      } else {
        SameLinesCoherent(h, o.sys);
      }
    }
  }

  /** With the cache on, a serial STR keeps the cache coherent: the resident
      line gets the same word the memory line gets, and no other line's
      memory line changes. */
  lemma {:induction false} SerialStoreKeepsCoherence(h: Hierarchy.MemorySystem, a: int, rd: int, rf: RegFile)
    requires Coherent(h) && h.cacheEnabled
    ensures Coherent(SerialStore(h, a, rd, rf).sys)
  {
    var o := SerialStore(h, a, rd, rf);
    if ValidIndex(rd) && 0 <= a < MemorySize {
      LineNumberSplit(a);
      var i := Caches.IndexOf(a);
      var n := a / WordsPerLine;
      var v := rf[rd];
      assert o.sys.memory.data == h.memory.data[n := h.memory.data[n][a % WordsPerLine := v]];
      forall j | 0 <= j < CacheSize
        ensures LineCoherent(o.sys.cache, o.sys.memory.data, j)
      {
        assert LineCoherent(h.cache, h.memory.data, j);
        var l := h.cache.lines[j];
        if j != i && l.valid {
          LineNumbersDistinct(l.tag, j, Caches.TagOf(a), i);
        }
      }
    }
  }

  /** Store then load through the serial path: with the cache on and
      coherent, a LOAD of an in-bounds address right after a STR of register
      rd to it reads back the stored value, whether or not the line was
      resident. */
  lemma SerialStoreThenLoad(h: Hierarchy.MemorySystem, a: int, rd: int, rf: RegFile)
    requires Coherent(h) && h.cacheEnabled && ValidIndex(rd) && 0 <= a < MemorySize
    ensures SerialLoad(SerialStore(h, a, rd, rf).sys, a).data == rf[rd]
  {
    SerialStoreKeepsCoherence(h, a, rd, rf);
    SerialLoadReadsMemory(SerialStore(h, a, rd, rf).sys, a);
  }

  /* ---------------------------------------------------------------------------
     Whole serial steps
     --------------------------------------------------------------------------- */

  /** A serial arithmetic instruction costs five cycles, writes the result the
      pipelined execute would compute into rd and leaves memory alone. */
  lemma SerialArithmeticStep(m: Machine)
    requires |m.queue| > 0
    requires var w := m.queue[0];
             && WritesResult(KindOf(OpField(w))) && Decode(w, m.regs).Ok? && ValidIndex(RdField(w))
    ensures var w := m.queue[0];
            var r := RunOneInstruction(m);
            && r.Ok?
            && r.value.clock == m.clock + BaseCycles
            && r.value.regs[RdField(w)] == Execute(Decode(w, m.regs).value).result
            && AgreeExcept(r.value.regs, m.regs, RdField(w))
            && r.value.sys == m.sys
  {
    SerialExecuteAgrees(m.queue[0], m.regs);
  }

  /** The serial execute of a LOAD or STR with a good base register
      computes its address and nothing else. */
  lemma SerialExecuteAddress(w: Word, rf: RegFile)
    requires IsMemoryKind(KindOf(OpField(w))) && ValidIndex(RnField(w))
    ensures SerialExecute(OpField(w), RnField(w), ImmField(w), rf) == Ok(Executed(0, rf[RnField(w)] + ImmField(w)))
  {
  }

  /** A serial LOAD or STR with a good base register goes straight to the
      rest of the step with its address. */
  lemma SerialMemoryExecutes(m: Machine)
    requires |m.queue| > 0
    requires var w := m.queue[0];
             IsMemoryKind(KindOf(OpField(w))) && ValidIndex(RnField(w))
    ensures var w := m.queue[0];
            RunOneInstruction(m) == Retire(m, w, Executed(0, m.regs[RnField(w)] + ImmField(w)))
  {
    SerialExecuteAddress(m.queue[0], m.regs);
  }

  /** The rest of a serial LOAD: rd gets the loaded word, the clock the
      access's cycles, and the memory system the access's effect. */
  lemma RetireLoad(m: Machine, w: Word, a: int)
    requires KindOf(OpField(w)) == LOAD && ValidIndex(RdField(w))
    ensures var r := Retire(m, w, Executed(0, a));
            var o := SerialLoad(m.sys, a);
            && r.Ok?
            && r.value.regs[RdField(w)] == o.data && r.value.sys == o.sys
            && r.value.clock == m.clock + BaseCycles + o.extra
  {
    assert MemoryPhase(LOAD, RdField(w), a, m.regs, m.sys).Ok?;
  }

  /** The rest of a serial STR: registers unchanged, the clock gets the
      access's cycles, and the memory system the access's effect. */
  lemma RetireStore(m: Machine, w: Word, a: int)
    requires KindOf(OpField(w)) == STR
    ensures var r := Retire(m, w, Executed(0, a));
            var o := SerialStore(m.sys, a, RdField(w), m.regs);
            && r.Ok?
            && r.value.regs == m.regs && r.value.sys == o.sys
            && r.value.clock == m.clock + BaseCycles + o.extra
  {
    var o := SerialStore(m.sys, a, RdField(w), m.regs);
    assert MemoryPhase(STR, RdField(w), a, m.regs, m.sys) == Ok(Phase(m.regs, o.sys, o.extra));
  }

  /** A serial LOAD of an in-bounds address with the cache on and coherent
      returns the memory word, charges the cache delay on a hit and the
      memory delay on a miss, keeps the cache coherent and leaves the line
      resident. */
  lemma SerialLoadFetchesLine(h: Hierarchy.MemorySystem, a: int)
    requires h.cacheEnabled && Coherent(h) && 0 <= a < MemorySize
    ensures var hit := Caches.IsHit(h.cache.lines[Caches.IndexOf(a)], Caches.TagOf(a));
            var o := SerialLoad(h, a);
            && o.data == MainMemory.WordAt(h.memory.data, a)
            && o.extra == (if hit then CacheDelay - 1 else MemoryDelay - 1)
            && Coherent(o.sys)
            && Caches.Read(o.sys.cache, a).result.Hit?
  {
    SerialLoadReadsMemory(h, a);
    Caches.AddressSplit(a);
  }

  /** A serial STR with the cache on and coherent writes the value through:
      memory gets it, the resident line gets it on a hit (the cache delay is
      charged), no line changes on a miss (the memory delay is charged), and
      the cache stays coherent. */
  lemma SerialStoreWritesThrough(h: Hierarchy.MemorySystem, a: int, rd: int, rf: RegFile)
    requires h.cacheEnabled && Coherent(h) && ValidIndex(rd) && 0 <= a < MemorySize
    ensures var hit := Caches.IsHit(h.cache.lines[Caches.IndexOf(a)], Caches.TagOf(a));
            var o := SerialStore(h, a, rd, rf);
            && MainMemory.WordAt(o.sys.memory.data, a) == rf[rd]
            && o.extra == (if hit then CacheDelay - 1 else MemoryDelay - 1)
            && (hit ==> Caches.Read(o.sys.cache, a).result == Caches.Hit(rf[rd]))
            && (!hit ==> o.sys.cache.lines == h.cache.lines)
            && Coherent(o.sys)
  {
    SerialStoreKeepsCoherence(h, a, rd, rf);
    Caches.AddressSplit(a);
  }

  /** A serial STR at machine level: registers unchanged, rd's value in
      memory, five cycles on a hit and eight on a miss, coherence kept. */
  lemma SerialStoreStep(m: Machine)
    requires |m.queue| > 0 && m.sys.cacheEnabled && Coherent(m.sys)
    requires var w := m.queue[0];
             && KindOf(OpField(w)) == STR && ValidIndex(RnField(w)) && ValidIndex(RdField(w))
             && 0 <= m.regs[RnField(w)] + ImmField(w) < MemorySize
    ensures var w := m.queue[0];
            var a := m.regs[RnField(w)] + ImmField(w);
            var hit := Caches.IsHit(m.sys.cache.lines[Caches.IndexOf(a)], Caches.TagOf(a));
            var r := RunOneInstruction(m);
            && r.Ok?
            && MainMemory.WordAt(r.value.sys.memory.data, a) == m.regs[RdField(w)]
            && r.value.regs == m.regs
            && r.value.clock == m.clock + (if hit then BaseCycles + CacheDelay - 1 else BaseCycles + MemoryDelay - 1)
            && Coherent(r.value.sys)
  {
    var w := m.queue[0];
    var a := m.regs[RnField(w)] + ImmField(w);
    var rd := RdField(w);
    var o := SerialStore(m.sys, a, rd, m.regs);
    SerialMemoryExecutes(m);
    RetireStore(m, w, a);
    SerialStoreWritesThrough(m.sys, a, rd, m.regs);
    var r := RunOneInstruction(m).value;
    assert r.sys == o.sys;
    assert Coherent(r.sys);
  }
}
