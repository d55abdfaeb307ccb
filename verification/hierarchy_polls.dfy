/** Sequences of polls of the memory system by one stage, and what they
    take: a read hit two polls, a read miss six, a write six. */
module HierarchyPolls {
  import opened Common
  import opened Config
  import opened Caches
  import MainMemory
  import opened Hierarchy

  datatype SysTrace = SysTrace(sys: MemorySystem, statuses: seq<Status>)

  /** `n` consecutive MemorySystem.read calls by stage `s` for address `a`. */
  function ReadPolls(h: MemorySystem, a: int, s: Stage, n: nat): (t: SysTrace)
    ensures |t.statuses| == n
    decreases n
  {
    if n == 0 then SysTrace(h, [])
    else
      var r := Hierarchy.Read(h, a, s);
      var rest := ReadPolls(r.sys, a, s, n - 1);
      SysTrace(rest.sys, [r.status] + rest.statuses)
  }

  /** `n` consecutive MemorySystem.write calls by stage `s`. */
  function WritePolls(h: MemorySystem, a: int, v: int, s: Stage, n: nat): (t: SysTrace)
    ensures |t.statuses| == n
    decreases n
  {
    if n == 0 then SysTrace(h, [])
    else
      var r := Write(h, a, v, s);
      var rest := WritePolls(r.sys, a, v, s, n - 1);
      SysTrace(rest.sys, [r.status] + rest.statuses)
  }

  /** Stage `s` has nothing in flight, the cache port is free and main memory is idle. */
  predicate Quiet(h: MemorySystem, s: Stage) {
    s !in h.pending && h.cacheServing == None && h.cacheCount == 0 && h.memory.count == 0
  }

  /* ---------------------------------------------------------------------------
     Read hit
     --------------------------------------------------------------------------- */

  /** A read hit takes two polls and probes the cache twice, so it counts two
      hits; the second poll returns the cached word with source "cache". */
  lemma {:induction false} ReadHitTwoPolls(h: MemorySystem, a: int, s: Stage)
    requires h.cacheEnabled && Quiet(h, s) && a >= 0
    requires IsHit(h.cache.lines[IndexOf(a)], TagOf(a))
    ensures OffsetOf(a) < WordsPerLine
    ensures var t := ReadPolls(h, a, s, 2);
            && t.statuses == [Wait(None), Done(Some(h.cache.lines[IndexOf(a)].data[OffsetOf(a)]), FromCache)]
            && t.sys.cache == h.cache.(totalHits := h.cache.totalHits + 2)
            && t.sys.memory == h.memory
            && t.sys.pending == h.pending && t.sys.cacheServing == None && t.sys.cacheCount == 0
            && t.sys.readCount == h.readCount + 2 && t.sys.writeCount == h.writeCount
  {
    AddressSplit(a);
    var r1 := Hierarchy.Read(h, a, s);
    var r2 := Hierarchy.Read(r1.sys, a, s);
    assert r1.sys.pending == h.pending[s := ReadRequest(a, true)];
    assert ReadPolls(r1.sys, a, s, 1) == SysTrace(r2.sys, [r2.status]);
  }

  /* ---------------------------------------------------------------------------
     Read miss
     --------------------------------------------------------------------------- */

  /** `s`'s pending entry is a read miss for an in-range address and main
      memory is counting down that read for `s`. */
  predicate MissInFlight(h: MemorySystem, s: Stage) {
    && h.cacheEnabled && !BusyForOther(h, s)
    && s in h.pending && h.pending[s].ReadRequest? && !h.pending[s].cacheHit
    && 0 <= h.pending[s].address < MemorySize
    && MainMemory.Owns(h.memory, s)
  }

  /** While the countdown has more than `n` cycles left, `n` polls all wait,
      whatever address they name, and change only readCount and the countdown. */
  lemma {:induction false} MissWaits(h: MemorySystem, b: int, s: Stage, n: nat)
    requires MissInFlight(h, s) && n < h.memory.count
    ensures var t := ReadPolls(h, b, s, n);
            && (forall j :: 0 <= j < n ==> t.statuses[j] == Wait(None))
            && t.sys == h.(readCount := h.readCount + n, memory := h.memory.(count := h.memory.count - n))
    decreases n
  {
    if n > 0 {
      var r := Hierarchy.Read(h, b, s);
      assert r.sys == h.(readCount := h.readCount + 1, memory := h.memory.(count := h.memory.count - 1));
      MissWaits(r.sys, b, s, n - 1);
    }
  }

  /** With `k` cycles left, the k-th poll completes the miss: it returns the
      memory word of the pending address (not of the polled one), refills that
      address's line and deletes the entry. */
  lemma {:induction false} MissCountdown(h: MemorySystem, b: int, s: Stage)
    requires MissInFlight(h, s)
    ensures var a := h.pending[s].address;
            var k := h.memory.count;
            var t := ReadPolls(h, b, s, k);
            && (forall j :: 0 <= j < k - 1 ==> t.statuses[j] == Wait(None))
            && t.statuses[k - 1] == Done(Some(MainMemory.WordAt(h.memory.data, a)), FromMemory)
            && t.sys == h.(readCount := h.readCount + k,
                           memory := MainMemory.Memory(h.memory.data, 0, None),
                           cache := RefillFor(h.cache, a, MainMemory.LineOf(h.memory.data, a)),
                           pending := h.pending - {s})
    decreases h.memory.count
  {
    var r := Hierarchy.Read(h, b, s);
    if h.memory.count > 1 {
      assert r.sys == h.(readCount := h.readCount + 1, memory := h.memory.(count := h.memory.count - 1));
      MissCountdown(r.sys, b, s);
    }
  }

  /** The first two polls of a read miss: the first records the pending entry
      and counts the miss, the second arms main memory. */
  lemma MissFirstTwoPolls(h: MemorySystem, a: int, s: Stage)
    requires h.cacheEnabled && Quiet(h, s) && 0 <= a < MemorySize
    requires !IsHit(h.cache.lines[IndexOf(a)], TagOf(a))
    ensures var t := ReadPolls(h, a, s, 2);
            && t.statuses == [Wait(None), Wait(None)]
            && t.sys == h.(readCount := h.readCount + 2,
                           cache := h.cache.(totalMisses := h.cache.totalMisses + 1),
                           pending := h.pending[s := ReadRequest(a, false)],
                           memory := h.memory.(count := MemoryDelay, serving := Some(s)))
            && MissInFlight(t.sys, s)
  {
    var r1 := Hierarchy.Read(h, a, s);
    var r2 := Hierarchy.Read(r1.sys, a, s);
    assert ReadPolls(r1.sys, a, s, 1) == SysTrace(r2.sys, [r2.status]);
  }

  /** A read miss takes six polls: five waits, then the memory word with
      source "memory". Its line is refilled, so a later probe of the address
      hits and returns the same word. */
  lemma {:induction false} ReadMissSixPolls(h: MemorySystem, a: int, s: Stage)
    requires h.cacheEnabled && Quiet(h, s) && 0 <= a < MemorySize
    requires !IsHit(h.cache.lines[IndexOf(a)], TagOf(a))
    ensures var t := ReadPolls(h, a, s, 6);
            && (forall j :: 0 <= j < 5 ==> t.statuses[j] == Wait(None))
            && t.statuses[5] == Done(Some(MainMemory.WordAt(h.memory.data, a)), FromMemory)
            && t.sys.pending == h.pending
            && t.sys.memory == MainMemory.Memory(h.memory.data, 0, None)
            && t.sys.cache.totalMisses == h.cache.totalMisses + 1
            && t.sys.cache.totalHits == h.cache.totalHits
            && t.sys.readCount == h.readCount + 6
            && Caches.Read(t.sys.cache, a).result == Hit(MainMemory.WordAt(h.memory.data, a))
  {
    MissFirstTwoPolls(h, a, s);
    var h2 := ReadPolls(h, a, s, 2).sys;
    MissCountdown(h2, a, s);
    ReadPollsSplit(h, a, s, 2, 4);
    var t := ReadPolls(h, a, s, 6);
    var tail := ReadPolls(h2, a, s, 4);
    assert t.statuses == [Wait(None), Wait(None)] + tail.statuses;
    assert h2.pending - {s} == h.pending;
    AddressSplit(a);
  }

  /** `n` consecutive calls of any one poll of the memory system. */
  function Polls(step: MemorySystem -> SysStep, h: MemorySystem, n: nat): (t: SysTrace)
    ensures |t.statuses| == n
    decreases n
  {
    if n == 0 then SysTrace(h, [])
    else
      var r := step(h);
      var rest := Polls(step, r.sys, n - 1);
      SysTrace(rest.sys, [r.status] + rest.statuses)
  }

  /** Polls compose: n + m polls are n polls followed by m more. */
  lemma {:induction false} PollsSplit(step: MemorySystem -> SysStep, h: MemorySystem, n: nat, m: nat)
    ensures var first := Polls(step, h, n);
            var second := Polls(step, first.sys, m);
            Polls(step, h, n + m) == SysTrace(second.sys, first.statuses + second.statuses)
    decreases n
  {
    if n > 0 {
      var r := step(h);
      PollsSplit(step, r.sys, n - 1, m);
      var first := Polls(step, r.sys, n - 1);
      var second := Polls(step, first.sys, m);
      assert [r.status] + (first.statuses + second.statuses) == ([r.status] + first.statuses) + second.statuses;
    }
  }

  /** ReadPolls is Polls of MemorySystem.read. */
  lemma {:induction false} ReadPollsAre(h: MemorySystem, a: int, s: Stage, n: nat)
    ensures ReadPolls(h, a, s, n) == Polls(h' => Hierarchy.Read(h', a, s), h, n)
    decreases n
  {
    if n > 0 {
      ReadPollsAre(Hierarchy.Read(h, a, s).sys, a, s, n - 1);
    }
  }

  /** Read polls compose. */
  lemma ReadPollsSplit(h: MemorySystem, a: int, s: Stage, n: nat, m: nat)
    ensures var first := ReadPolls(h, a, s, n);
            var second := ReadPolls(first.sys, a, s, m);
            ReadPolls(h, a, s, n + m) == SysTrace(second.sys, first.statuses + second.statuses)
  {
    var first := ReadPolls(h, a, s, n);
    ReadPollsAre(h, a, s, n);
    ReadPollsAre(first.sys, a, s, m);
    ReadPollsAre(h, a, s, n + m);
    PollsSplit(h' => Hierarchy.Read(h', a, s), h, n, m);
  }

  /** Five polls of a read miss all wait, and leave the entry in place with
      main memory still owned by `s` and one cycle from completion. */
  lemma {:induction false} ReadMissFivePollsWait(h: MemorySystem, a: int, s: Stage)
    requires h.cacheEnabled && Quiet(h, s) && 0 <= a < MemorySize
    requires !IsHit(h.cache.lines[IndexOf(a)], TagOf(a))
    ensures var t := ReadPolls(h, a, s, 5);
            && (forall j :: 0 <= j < 5 ==> t.statuses[j] == Wait(None))
            && s in t.sys.pending && t.sys.pending[s] == ReadRequest(a, false)
            && MainMemory.Owns(t.sys.memory, s) && t.sys.memory.count == 1
            && MissInFlight(t.sys, s)
  {
    MissFirstTwoPolls(h, a, s);
    var h2 := ReadPolls(h, a, s, 2).sys;
    MissWaits(h2, a, s, 3);
    ReadPollsSplit(h, a, s, 2, 3);
    var t := ReadPolls(h, a, s, 5);
    var tail := ReadPolls(h2, a, s, 3);
    assert t.statuses == [Wait(None), Wait(None)] + tail.statuses;
  }

  /* ---------------------------------------------------------------------------
     Write-through
     --------------------------------------------------------------------------- */

  /** `s`'s pending entry is a write to an in-range address and main memory is
      counting it down for `s`. */
  predicate WriteInFlight(h: MemorySystem, s: Stage) {
    && !BusyForOther(h, s)
    && s in h.pending && h.pending[s].WriteRequest?
    && 0 <= h.pending[s].address < MemorySize
    && MainMemory.Owns(h.memory, s)
  }

  lemma {:induction false} WriteWaits(h: MemorySystem, b: int, v: int, s: Stage, n: nat)
    requires WriteInFlight(h, s) && n < h.memory.count
    ensures var t := WritePolls(h, b, v, s, n);
            && (forall j :: 0 <= j < n ==> t.statuses[j] == Wait(None))
            && t.sys == h.(writeCount := h.writeCount + n, memory := h.memory.(count := h.memory.count - n))
    decreases n
  {
    if n > 0 {
      var r := Write(h, b, v, s);
      assert r.sys == h.(writeCount := h.writeCount + 1, memory := h.memory.(count := h.memory.count - 1));
      WriteWaits(r.sys, b, v, s, n - 1);
    }
  }

  /** With `k` cycles left, the k-th poll lands the pending write's value at
      the pending write's address, and deletes the entry. */
  lemma {:induction false} WriteCountdown(h: MemorySystem, b: int, v: int, s: Stage)
    requires WriteInFlight(h, s)
    ensures var req := h.pending[s];
            var k := h.memory.count;
            var t := WritePolls(h, b, v, s, k);
            && (forall j :: 0 <= j < k - 1 ==> t.statuses[j] == Wait(None))
            && t.statuses[k - 1] == Done(None, Unlabelled)
            && t.sys == h.(writeCount := h.writeCount + k,
                           memory := MainMemory.Memory(MainMemory.Store(h.memory.data, req.address, req.value), 0, None),
                           pending := h.pending - {s})
    decreases h.memory.count
  {
    var r := Write(h, b, v, s);
    if h.memory.count > 1 {
      assert r.sys == h.(writeCount := h.writeCount + 1, memory := h.memory.(count := h.memory.count - 1));
      WriteCountdown(r.sys, b, v, s);
    }
  }

  /** WritePolls is Polls of MemorySystem.write. */
  lemma {:induction false} WritePollsAre(h: MemorySystem, a: int, v: int, s: Stage, n: nat)
    ensures WritePolls(h, a, v, s, n) == Polls(h' => Write(h', a, v, s), h, n)
    decreases n
  {
    if n > 0 {
      WritePollsAre(Write(h, a, v, s).sys, a, v, s, n - 1);
    }
  }

  /** Write polls compose like read polls. */
  lemma WritePollsSplit(h: MemorySystem, a: int, v: int, s: Stage, n: nat, m: nat)
    ensures var first := WritePolls(h, a, v, s, n);
            var second := WritePolls(first.sys, a, v, s, m);
            WritePolls(h, a, v, s, n + m) == SysTrace(second.sys, first.statuses + second.statuses)
  {
    var first := WritePolls(h, a, v, s, n);
    WritePollsAre(h, a, v, s, n);
    WritePollsAre(first.sys, a, v, s, m);
    WritePollsAre(h, a, v, s, n + m);
    PollsSplit(h' => Write(h', a, v, s), h, n, m);
  }

  /** The first two polls of a write: the cache side happens at once, the
      second poll arms main memory. */
  lemma WriteFirstTwoPolls(h: MemorySystem, a: int, v: int, s: Stage)
    requires Quiet(h, s) && 0 <= a < MemorySize
    ensures var t := WritePolls(h, a, v, s, 2);
            && t.statuses == [Wait(None), Wait(None)]
            && t.sys == h.(writeCount := h.writeCount + 2,
                           cache := WriteProbe(h.cache, a, v),
                           pending := h.pending[s := WriteRequest(a, v)],
                           memory := h.memory.(count := MemoryDelay, serving := Some(s)))
            && WriteInFlight(t.sys, s)
  {
    var r1 := Write(h, a, v, s);
    var r2 := Write(r1.sys, a, v, s);
    assert WritePolls(r1.sys, a, v, s, 1) == SysTrace(r2.sys, [r2.status]);
  }

  /** A write takes six polls. Afterwards the memory word is the value, no
      other word changed, a resident line holds the value too, and a line that
      was not resident is still not (no write-allocate). */
  lemma {:induction false} WriteThroughSixPolls(h: MemorySystem, a: int, v: int, s: Stage)
    requires Quiet(h, s) && 0 <= a < MemorySize
    ensures var t := WritePolls(h, a, v, s, 6);
            && (forall j :: 0 <= j < 5 ==> t.statuses[j] == Wait(None))
            && t.statuses[5] == Done(None, Unlabelled)
            && MainMemory.WordAt(t.sys.memory.data, a) == v
            && (forall b :: 0 <= b < MemorySize && b != a ==>
                  MainMemory.WordAt(t.sys.memory.data, b) == MainMemory.WordAt(h.memory.data, b))
            && t.sys.memory.count == 0 && t.sys.memory.serving == None
            && t.sys.pending == h.pending
            && (IsHit(t.sys.cache.lines[IndexOf(a)], TagOf(a)) <==> IsHit(h.cache.lines[IndexOf(a)], TagOf(a)))
            && (IsHit(t.sys.cache.lines[IndexOf(a)], TagOf(a)) ==>
                  t.sys.cache.lines[IndexOf(a)].data[OffsetOf(a)] == v)
            && (!IsHit(h.cache.lines[IndexOf(a)], TagOf(a)) ==> t.sys.cache.lines == h.cache.lines)
            && t.sys.writeCount == h.writeCount + 6
  {
    AddressSplit(a);
    WriteFirstTwoPolls(h, a, v, s);
    var h2 := WritePolls(h, a, v, s, 2).sys;
    WriteCountdown(h2, a, v, s);
    WritePollsSplit(h, a, v, s, 2, 4);
    var t := WritePolls(h, a, v, s, 6);
    var tail := WritePolls(h2, a, v, s, 4);
    assert t.statuses == [Wait(None), Wait(None)] + tail.statuses;
    assert h2.pending - {s} == h.pending;
  }

  /** Five polls of a write all wait, and leave the entry in place with main
      memory still owned by `s`, one cycle from landing the word. */
  lemma {:induction false} WriteFivePollsWait(h: MemorySystem, a: int, v: int, s: Stage)
    requires Quiet(h, s) && 0 <= a < MemorySize
    ensures var t := WritePolls(h, a, v, s, 5);
            && (forall j :: 0 <= j < 5 ==> t.statuses[j] == Wait(None))
            && s in t.sys.pending && t.sys.pending[s] == WriteRequest(a, v)
            && MainMemory.Owns(t.sys.memory, s) && t.sys.memory.count == 1
            && t.sys.memory.data == h.memory.data
            && WriteInFlight(t.sys, s)
  {
    WriteFirstTwoPolls(h, a, v, s);
    var h2 := WritePolls(h, a, v, s, 2).sys;
    WriteWaits(h2, a, v, s, 3);
    WritePollsSplit(h, a, v, s, 2, 3);
    var t := WritePolls(h, a, v, s, 5);
    var tail := WritePolls(h2, a, v, s, 3);
    assert t.statuses == [Wait(None), Wait(None)] + tail.statuses;
  }
}
