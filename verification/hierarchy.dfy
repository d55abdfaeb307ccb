/** The memory system: the cache in front of main memory, shared by named
    requesters (pipeline stages). Every operation is polled: a call returns
    `Wait` until the stage's request completes, and the completing call
    returns `Done` once. Writes are write-through with no write-allocate. */
module Hierarchy {
  import opened Common
  import opened Config
  import opened Caches
  import MainMemory

  /** An in-flight request of one stage; the JavaScript entry also repeats the
      stage name, which always equals its key in the pending map. */
  datatype Request =
    | ReadRequest(address: int, cacheHit: bool)
    | WriteRequest(address: int, value: int)

  /** `cacheCount`, `cacheServing` and `cachePendingData` are the cache's own
      single-port service state for read hits; `pending` maps each stage to
      its in-flight request. */
  datatype MemorySystem = MemorySystem(
    cache: Cache,
    memory: MainMemory.Memory,
    readCount: nat,
    writeCount: nat,
    cacheCount: int,
    cacheServing: Option<Stage>,
    cachePendingData: Option<int>,
    pending: map<Stage, Request>,
    cacheEnabled: bool)

  /** The memory system as constructed: every line invalid, memory zero,
      counters zero, nothing pending, the cache switched on. */
  function Initial(): MemorySystem {
    MemorySystem(EmptyCache(), MainMemory.EmptyMemory(), 0, 0, 0, None, None, map[], true)
  }

  /** Where a completed read's word came from; replies from main memory
      reached directly and write completions carry no source. */
  datatype Source = FromCache | FromMemory | Unlabelled

  datatype Status =
    | Wait(remaining: Option<int>)
    | Done(data: Option<int>, source: Source)
    | Error                       // the "Unexpected state in read operation" reply
    | Threw(fault: Fault)         // an exception escaped the call

  /** The state after a call (after the exception, if one was thrown) and its reply. */
  datatype SysStep = SysStep(sys: MemorySystem, status: Status)

  /** The cache is serving a stage other than `s`. */
  predicate BusyForOther(h: MemorySystem, s: Stage) {
    h.cacheServing.Some? && h.cacheServing.value != s
  }

  /** A memory reply passed through unchanged by a read with the cache off. */
  function FromMemReply(reply: MainMemory.MemReply): Status {
    match reply
    case MemWait(n) => Wait(Some(n))
    case ReadDone(w, _) => Done(Some(w), Unlabelled)
    case WriteDone => Done(None, Unlabelled)
    case MemFault(f) => Threw(f)
  }

  /** Line IndexOf(a) refilled for a's tag with `line`. */
  function RefillFor(c: Cache, a: int, line: Line): (c': Cache)
    requires a >= 0
    ensures c'.totalHits == c.totalHits && c'.totalMisses == c.totalMisses
    ensures IsHit(c'.lines[IndexOf(a)], TagOf(a)) && c'.lines[IndexOf(a)].data == line
    ensures forall i :: 0 <= i < CacheSize && i != IndexOf(a) ==> c'.lines[i] == c.lines[i]
  {
    c.(lines := c.lines[IndexOf(a) := Refill(c.lines[IndexOf(a)], TagOf(a), line)])
  }

  /** The cache side of a write: a resident word is updated in place and a
      hit counted; otherwise a miss is counted and no line changes. */
  function WriteProbe(c: Cache, a: int, v: int): (c': Cache)
    requires 0 <= IndexOf(a) < CacheSize
    ensures IsHit(c.lines[IndexOf(a)], TagOf(a)) ==>
              && 0 <= OffsetOf(a) < WordsPerLine
              && c'.totalHits == c.totalHits + 1 && c'.totalMisses == c.totalMisses
              && c'.lines[IndexOf(a)].data[OffsetOf(a)] == v
              && c'.lines[IndexOf(a)].tag == c.lines[IndexOf(a)].tag
              && c'.lines[IndexOf(a)].valid
              && (forall k :: 0 <= k < WordsPerLine && k != OffsetOf(a) ==>
                    c'.lines[IndexOf(a)].data[k] == c.lines[IndexOf(a)].data[k])
              && (forall i :: 0 <= i < CacheSize && i != IndexOf(a) ==> c'.lines[i] == c.lines[i])
    ensures !IsHit(c.lines[IndexOf(a)], TagOf(a)) ==>
              c' == c.(totalMisses := c.totalMisses + 1)
  {
    var index := IndexOf(a);
    var line := c.lines[index];
    if IsHit(line, TagOf(a)) then
      OffsetInRange(a);
      var offset := OffsetOf(a);
      c.(lines := c.lines[index := line.(data := line.data[offset := v])],
         totalHits := c.totalHits + 1)
    else
      c.(totalMisses := c.totalMisses + 1)
  }

  /* ---------------------------------------------------------------------------
     Continuing a pending request
     --------------------------------------------------------------------------- */

  /** MemorySystem.processRead for stage `s`, whose pending entry is a read. */
  function ProcessRead(h: MemorySystem, a: int, s: Stage): (r: SysStep)
    requires s in h.pending && h.pending[s].ReadRequest?
    ensures r.sys.pending == h.pending && r.sys.cacheEnabled == h.cacheEnabled
    ensures r.sys.readCount == h.readCount && r.sys.writeCount == h.writeCount
    // a cache-miss request is driven through main memory
    ensures !h.pending[s].cacheHit ==>
              (r.status.Done? <==> MainMemory.Read(h.memory, a, s).reply.ReadDone?)
    ensures !h.pending[s].cacheHit ==> r.sys.memory == MainMemory.Read(h.memory, a, s).mem
    // on completion the line is refilled and the word comes from memory
    ensures !h.pending[s].cacheHit && r.status.Done? ==>
              && 0 <= a < MemorySize
              && r.status == Done(Some(MainMemory.WordAt(h.memory.data, a)), FromMemory)
              && r.sys.cache == RefillFor(h.cache, a, MainMemory.LineOf(h.memory.data, a))
    ensures !h.pending[s].cacheHit && !r.status.Done? ==> r.sys.cache == h.cache
    // a cache-hit request never touches main memory
    ensures h.pending[s].cacheHit ==> r.sys.memory == h.memory
    ensures h.pending[s].cacheHit && r.status.Done? ==> r.status.source == FromCache
  {
    if h.pending[s].cacheHit then
      if h.cacheServing == Some(s) then
        var count := h.cacheCount - 1;
        if count == 0 then
          var p := Caches.Read(h.cache, a);
          match p.result
          case ProbeFault(f) => SysStep(h.(cacheCount := count), Threw(f))
          case Hit(d) =>
            SysStep(h.(cache := p.cache, cacheCount := count, cacheServing := None), Done(Some(d), FromCache))
          case Miss(_, _, _) =>
            SysStep(h.(cache := p.cache, cacheCount := count, cacheServing := None), Done(None, FromCache))
        else
          SysStep(h.(cacheCount := count), Wait(Some(count)))
      else
        SysStep(h, Wait(None))
    else
      var m := MainMemory.Read(h.memory, a, s);
      match m.reply
      case ReadDone(w, line) =>
        SysStep(h.(memory := m.mem, cache := RefillFor(h.cache, a, line)), Done(Some(w), FromMemory))
      case MemWait(n) => SysStep(h.(memory := m.mem), Wait(Some(n)))
      case MemFault(f) => SysStep(h, Threw(f))
      case WriteDone => assert false; SysStep(h, Error)
  }

  /** MemorySystem.processWrite: drives the deferred main-memory write. */
  function ProcessWrite(h: MemorySystem, a: int, v: int, s: Stage): (r: SysStep)
    ensures r.sys == h.(memory := MainMemory.Write(h.memory, a, v, s).mem)
    ensures r.status.Done? <==> MainMemory.Write(h.memory, a, v, s).reply.WriteDone?
    ensures r.status.Done? ==>
              && 0 <= a < MemorySize && r.status == Done(None, Unlabelled)
              && MainMemory.WordAt(r.sys.memory.data, a) == v
    ensures r.status.Threw? <==> !(0 <= a < MemorySize)
  {
    var m := MainMemory.Write(h.memory, a, v, s);
    match m.reply
    case WriteDone => SysStep(h.(memory := m.mem), Done(None, Unlabelled))
    case MemWait(n) => SysStep(h.(memory := m.mem), Wait(Some(n)))
    case MemFault(f) => SysStep(h, Threw(f))
    case ReadDone(_, _) => assert false; SysStep(h, Error)
  }

  /** MemorySystem.processRequest: continues the stage's own pending request,
      at the address that request recorded. */
  function ProcessRequest(h: MemorySystem, s: Stage): (r: SysStep)
    requires s in h.pending
    ensures r.sys.pending == h.pending
    ensures r.sys.readCount == h.readCount && r.sys.writeCount == h.writeCount
  {
    match h.pending[s]
    case ReadRequest(a, _) => ProcessRead(h, a, s)
    case WriteRequest(a, v) => ProcessWrite(h, a, v, s)
  }

  /** A call from a stage with a pending request continues that request and
      deletes the entry exactly when it completes. */
  function Resume(h: MemorySystem, s: Stage): (r: SysStep)
    requires s in h.pending
    ensures r.status.Done? <==> ProcessRequest(h, s).status.Done?
    ensures r.status.Done? ==> r.sys.pending == h.pending - {s}
    ensures !r.status.Done? ==> r.sys.pending == h.pending
    ensures r.sys.readCount == h.readCount && r.sys.writeCount == h.writeCount
  {
    var st := ProcessRequest(h, s);
    match st.status
    case Done(_, _) => SysStep(st.sys.(pending := st.sys.pending - {s}), st.status)
    case Threw(_) => st
    case _ => SysStep(st.sys, Wait(None))
  }

  /** A read hit by a stage without a pending request: arms the cache's
      one-cycle service (the common case), or continues it. */
  function HitPoll(h: MemorySystem, a: int, s: Stage, d: int): (r: SysStep)
    ensures h.cacheCount == 0 ==>
              && r.status == Wait(None)
              && r.sys.cacheServing == Some(s) && r.sys.cacheCount == CacheDelay
              && r.sys.pending == h.pending[s := ReadRequest(a, true)]
    ensures r.status.Done? ==> r.sys.pending == h.pending - {s} && r.sys.cacheServing == None
    ensures !r.status.Done? ==> r.sys.pending - {s} == h.pending - {s}
    ensures r.sys.cache == h.cache && r.sys.memory == h.memory
    ensures r.sys.readCount == h.readCount && r.sys.writeCount == h.writeCount
  {
    if h.cacheCount == 0 then
      SysStep(h.(cacheCount := CacheDelay, cacheServing := Some(s), cachePendingData := Some(d),
                 pending := h.pending[s := ReadRequest(a, true)]),
              Wait(None))
    else if h.cacheServing == Some(s) then
      var count := h.cacheCount - 1;
      if count == 0 then
        match h.cachePendingData
        case None => SysStep(h.(cacheCount := count), Threw(NullOperation))
        case Some(pd) =>
          SysStep(h.(cacheCount := 0, cacheServing := None, cachePendingData := None,
                     pending := h.pending - {s}),
                  Done(Some(pd), FromCache))
      else
        SysStep(h.(cacheCount := count), Wait(Some(count)))
    else
      SysStep(h, Error)
  }

  /* ---------------------------------------------------------------------------
     MemorySystem.read and MemorySystem.write
     --------------------------------------------------------------------------- */

  /** MemorySystem.read polled by stage `s`. */
  function Read(h: MemorySystem, a: int, s: Stage): (r: SysStep)
    // with the cache off the call is main memory's, and no counter moves
    ensures !h.cacheEnabled ==>
              r == SysStep(h.(memory := MainMemory.Read(h.memory, a, s).mem),
                           FromMemReply(MainMemory.Read(h.memory, a, s).reply))
    // with the cache on every call counts as a read, even a rejected one
    ensures h.cacheEnabled ==> r.sys.readCount == h.readCount + 1
    ensures r.sys.writeCount == h.writeCount && r.sys.cacheEnabled == h.cacheEnabled
    // a stage the cache is not serving is told to wait, and only readCount moves
    ensures h.cacheEnabled && BusyForOther(h, s) ==>
              r == SysStep(h.(readCount := h.readCount + 1), Wait(None))
    // other stages' entries never change; s's entry goes exactly when the call completes
    ensures r.sys.pending - {s} == h.pending - {s}
    ensures h.cacheEnabled && r.status.Done? ==> s !in r.sys.pending
    ensures s in h.pending && s !in r.sys.pending ==> r.status.Done?
  {
    if !h.cacheEnabled then
      var m := MainMemory.Read(h.memory, a, s);
      SysStep(h.(memory := m.mem), FromMemReply(m.reply))
    else
      var h1 := h.(readCount := h.readCount + 1);
      if BusyForOther(h1, s) then SysStep(h1, Wait(None))
      else if s in h1.pending then Resume(h1, s)
      else
        var p := Caches.Read(h1.cache, a);
        match p.result
        case ProbeFault(f) => SysStep(h1, Threw(f))
        case Miss(_, _, _) =>
          SysStep(h1.(cache := p.cache, pending := h1.pending[s := ReadRequest(a, false)]), Wait(None))
        case Hit(d) => HitPoll(h1.(cache := p.cache), a, s, d)
  }

  /** MemorySystem.write polled by stage `s`. The cache switch is not consulted. */
  function Write(h: MemorySystem, a: int, v: int, s: Stage): (r: SysStep)
    ensures r.sys.writeCount == h.writeCount + 1 && r.sys.readCount == h.readCount
    ensures r.sys.cacheEnabled == h.cacheEnabled
    ensures BusyForOther(h, s) ==> r == SysStep(h.(writeCount := h.writeCount + 1), Wait(None))
    ensures r.sys.pending - {s} == h.pending - {s}
    ensures r.status.Done? ==> s !in r.sys.pending
    ensures s in h.pending && s !in r.sys.pending ==> r.status.Done?
    // the first call does the cache side at once and queues the memory write
    ensures !BusyForOther(h, s) && s !in h.pending && 0 <= IndexOf(a) < CacheSize ==>
              && r.status == Wait(None)
              && r.sys.cache == WriteProbe(h.cache, a, v)
              && r.sys.memory == h.memory
              && r.sys.pending == h.pending[s := WriteRequest(a, v)]
  {
    var h1 := h.(writeCount := h.writeCount + 1);
    if BusyForOther(h1, s) then SysStep(h1, Wait(None))
    else if s in h1.pending then Resume(h1, s)
    else
      var index := IndexOf(a);
      if !(0 <= index < CacheSize) then SysStep(h1, Threw(NoCacheLine(index)))
      else
        SysStep(h1.(cache := WriteProbe(h1.cache, a, v), pending := h1.pending[s := WriteRequest(a, v)]),
                Wait(None))
  }

  /* ---------------------------------------------------------------------------
     Resets and statistics
     --------------------------------------------------------------------------- */

  /** A line as a reset leaves it: invalid, tag -1, every word 0. */
  predicate IsCleared(l: CacheLine) {
    !l.valid && l.tag == -1 && forall k :: 0 <= k < WordsPerLine ==> l.data[k] == 0
  }

  /** MemorySystem.reset: invalidates the cache, zeroes memory and drops every
      request, but leaves the counters and main memory's own owner/countdown. */
  function Reset(h: MemorySystem): (r: MemorySystem)
    ensures forall i :: 0 <= i < CacheSize ==> IsCleared(r.cache.lines[i])
    ensures forall a :: 0 <= a < MemorySize ==> MainMemory.WordAt(r.memory.data, a) == 0
    ensures r.pending == map[] && r.cacheCount == 0 && r.cacheServing == None && r.cachePendingData == None
    ensures r.memory.count == h.memory.count && r.memory.serving == h.memory.serving
    ensures r.readCount == h.readCount && r.writeCount == h.writeCount
    ensures r.cache.totalHits == h.cache.totalHits && r.cache.totalMisses == h.cache.totalMisses
    ensures r.cacheEnabled == h.cacheEnabled
  {
    h.(cache := h.cache.(lines := seq(CacheSize, _ => EmptyLine)),
       memory := h.memory.(data := MainMemory.EmptyMemory().data),
       pending := map[], cacheCount := 0, cacheServing := None, cachePendingData := None)
  }

  /** MemorySystem.resetStats: zeroes the four counters and nothing else. */
  function ResetStats(h: MemorySystem): (r: MemorySystem)
    ensures r.readCount == 0 && r.writeCount == 0 && r.cache.totalHits == 0 && r.cache.totalMisses == 0
    ensures r.cache.lines == h.cache.lines && r.memory == h.memory && r.pending == h.pending
    ensures r.cacheCount == h.cacheCount && r.cacheServing == h.cacheServing
    ensures r.cachePendingData == h.cachePendingData && r.cacheEnabled == h.cacheEnabled
  {
    h.(readCount := 0, writeCount := 0, cache := h.cache.(totalHits := 0, totalMisses := 0))
  }

  datatype Stats = Stats(readRequests: nat, writeRequests: nat, cacheHits: nat, cacheMisses: nat, hitRate: real)

  /** MemorySystem.getStats; the hit rate is an exact rational here. */
  function GetStats(h: MemorySystem): (st: Stats)
    ensures st.readRequests == h.readCount && st.writeRequests == h.writeCount
    ensures st.cacheHits == h.cache.totalHits && st.cacheMisses == h.cache.totalMisses
    ensures 0.0 <= st.hitRate <= 1.0
    ensures st.cacheHits + st.cacheMisses == 0 ==> st.hitRate == 0.0
    ensures st.cacheHits + st.cacheMisses > 0 ==>
              st.hitRate * (st.cacheHits + st.cacheMisses) as real == st.cacheHits as real
  {
    var total := h.cache.totalHits + h.cache.totalMisses;
    var rate := if total > 0 then h.cache.totalHits as real / total as real else 0.0;
    Stats(h.readCount, h.writeCount, h.cache.totalHits, h.cache.totalMisses, rate)
  }
}
