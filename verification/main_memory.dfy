/** Main memory: 32768 words in lines of sixteen, with one operation in flight
    at a time. An operation is started by one stage and then polled by that
    stage until it completes; the first poll only arms the countdown. */
module MainMemory {
  import opened Common
  import opened Config

  type MemLines = s: seq<Line> | |s| == MemoryLines witness seq(2048, _ => ZeroLine())

  /** `count` is the remaining delay of the operation in flight (0: idle) and
      `serving` the stage that owns it. */
  datatype Memory = Memory(data: MemLines, count: nat, serving: Option<Stage>)

  function EmptyMemory(): Memory { Memory(seq(MemoryLines, _ => ZeroLine()), 0, None) }

  datatype Location = Location(line: int, offset: int)

  /** Memory.getLineAndOffset: the line and offset of an address, or the
      out-of-bounds exception. */
  function LineAndOffset(a: int): (r: Result<Location>)
    ensures r.Ok? <==> 0 <= a < MemorySize
    ensures r.Ok? ==> 0 <= r.value.line < MemoryLines && 0 <= r.value.offset < WordsPerLine
    ensures r.Ok? ==> r.value.line * WordsPerLine + r.value.offset == a
  {
    if a < 0 || a >= MemorySize then Err(AddressOutOfBounds(a))
    else Ok(Location(a / WordsPerLine, a % WordsPerLine))
  }

  /** Distinct in-range addresses live at distinct locations. */
  lemma LocationsDistinct(a: int, b: int)
    requires 0 <= a < MemorySize && 0 <= b < MemorySize && a != b
    ensures LineAndOffset(a).value != LineAndOffset(b).value
  {
  }

  /** The word stored at an in-range address. */
  function WordAt(data: MemLines, a: int): int
    requires 0 <= a < MemorySize
  {
    data[a / WordsPerLine][a % WordsPerLine]
  }

  /** Every word of memory is 0. */
  predicate IsZeroed(data: MemLines) {
    forall a :: 0 <= a < MemorySize ==> WordAt(data, a) == 0
  }

  /** The line that holds an in-range address. */
  function LineOf(data: MemLines, a: int): Line
    requires 0 <= a < MemorySize
  {
    data[a / WordsPerLine]
  }

  /** The memory contents with the word at `a` replaced by `v`. */
  function Store(data: MemLines, a: int, v: int): (d: MemLines)
    requires 0 <= a < MemorySize
    ensures WordAt(d, a) == v
    ensures forall b :: 0 <= b < MemorySize && b != a ==> WordAt(d, b) == WordAt(data, b)
  {
    var line := data[a / WordsPerLine];
    data[a / WordsPerLine := line[a % WordsPerLine := v]]
  }

  /** What a poll of memory reports. */
  datatype MemReply =
    | MemWait(remaining: int)
    | ReadDone(word: int, line: Line)
    | WriteDone
    | MemFault(fault: Fault)

  datatype MemStep = MemStep(mem: Memory, reply: MemReply)

  /** True when stage `s` owns the operation in flight. */
  predicate Owns(m: Memory, s: Stage) {
    m.count > 0 && m.serving == Some(s)
  }

  /** Memory.read polled by stage `s`. */
  function Read(m: Memory, a: int, s: Stage): (r: MemStep)
    // the contents never change
    ensures r.mem.data == m.data
    // a bad address throws before anything changes
    ensures r.reply.MemFault? <==> !(0 <= a < MemorySize)
    ensures r.reply.MemFault? ==> r.mem == m
    // while another stage owns the memory, nothing changes and the remaining count is reported
    ensures 0 <= a < MemorySize && m.count > 0 && m.serving != Some(s) ==> r == MemStep(m, MemWait(m.count))
    // an idle memory is armed for `s` with the full delay
    ensures 0 <= a < MemorySize && m.count == 0 ==>
              r == MemStep(m.(count := MemoryDelay, serving := Some(s)), MemWait(MemoryDelay))
    // the owner's poll counts down by one, and completes exactly when the count reaches 0
    ensures 0 <= a < MemorySize && Owns(m, s) ==> r.mem.count == m.count - 1
    ensures r.reply.ReadDone? <==> 0 <= a < MemorySize && Owns(m, s) && m.count == 1
    ensures r.reply.ReadDone? ==>
              && r.reply.word == WordAt(m.data, a) && r.reply.line == LineOf(m.data, a)
              && r.mem.count == 0 && r.mem.serving == None
    ensures r.reply.MemWait? ==> r.reply.remaining == r.mem.count && r.mem.count > 0
    ensures !r.reply.WriteDone?
  {
    if a < 0 || a >= MemorySize then MemStep(m, MemFault(AddressOutOfBounds(a)))
    else if m.count > 0 then
      if m.serving == Some(s) then
        var count := m.count - 1;
        if count == 0 then
          MemStep(m.(count := 0, serving := None), ReadDone(WordAt(m.data, a), LineOf(m.data, a)))
        else
          MemStep(m.(count := count), MemWait(count))
      else
        MemStep(m, MemWait(m.count))
    else
      MemStep(m.(count := MemoryDelay, serving := Some(s)), MemWait(MemoryDelay))
  }

  /** Memory.write polled by stage `s`: the word lands only on the completing poll. */
  function Write(m: Memory, a: int, v: int, s: Stage): (r: MemStep)
    ensures r.reply.MemFault? <==> !(0 <= a < MemorySize)
    ensures r.reply.MemFault? ==> r.mem == m
    ensures 0 <= a < MemorySize && m.count > 0 && m.serving != Some(s) ==> r == MemStep(m, MemWait(m.count))
    ensures 0 <= a < MemorySize && m.count == 0 ==>
              r == MemStep(m.(count := MemoryDelay, serving := Some(s)), MemWait(MemoryDelay))
    ensures 0 <= a < MemorySize && Owns(m, s) ==> r.mem.count == m.count - 1
    ensures r.reply.WriteDone? <==> 0 <= a < MemorySize && Owns(m, s) && m.count == 1
    // only the addressed word changes, and only on the completing poll
    ensures r.reply.WriteDone? ==> r.mem == Memory(Store(m.data, a, v), 0, None)
    ensures !r.reply.WriteDone? ==> r.mem.data == m.data
    ensures r.reply.MemWait? ==> r.reply.remaining == r.mem.count && r.mem.count > 0
    ensures !r.reply.ReadDone?
  {
    if a < 0 || a >= MemorySize then MemStep(m, MemFault(AddressOutOfBounds(a)))
    else if m.count > 0 then
      if m.serving == Some(s) then
        var count := m.count - 1;
        if count == 0 then
          MemStep(Memory(Store(m.data, a, v), 0, None), WriteDone)
        else
          MemStep(m.(count := count), MemWait(count))
      else
        MemStep(m, MemWait(m.count))
    else
      MemStep(m.(count := MemoryDelay, serving := Some(s)), MemWait(MemoryDelay))
  }

  /* ---------------------------------------------------------------------------
     Polling sequences
     --------------------------------------------------------------------------- */

  datatype MemTrace = MemTrace(mem: Memory, replies: seq<MemReply>)

  /** `n` consecutive read polls by stage `s` of address `a`. */
  function ReadPolls(m: Memory, a: int, s: Stage, n: nat): (t: MemTrace)
    ensures |t.replies| == n
    decreases n
  {
    if n == 0 then MemTrace(m, [])
    else
      var r := Read(m, a, s);
      var rest := ReadPolls(r.mem, a, s, n - 1);
      MemTrace(rest.mem, [r.reply] + rest.replies)
  }

  /** `n` consecutive write polls by stage `s`. */
  function WritePolls(m: Memory, a: int, v: int, s: Stage, n: nat): (t: MemTrace)
    ensures |t.replies| == n
    decreases n
  {
    if n == 0 then MemTrace(m, [])
    else
      var r := Write(m, a, v, s);
      var rest := WritePolls(r.mem, a, v, s, n - 1);
      MemTrace(rest.mem, [r.reply] + rest.replies)
  }

  /** The owner of an operation with `k` cycles left sees wait(k-1), ...,
      wait(1) and then done: exactly `k` further polls. */
  lemma {:induction false} OwnerReadCountdown(m: Memory, a: int, s: Stage, k: nat)
    requires 0 <= a < MemorySize && Owns(m, s) && m.count == k
    ensures var t := ReadPolls(m, a, s, k);
            && (forall j :: 0 <= j < k - 1 ==> t.replies[j] == MemWait(k - 1 - j))
            && t.replies[k - 1] == ReadDone(WordAt(m.data, a), LineOf(m.data, a))
            && t.mem == Memory(m.data, 0, None)
    decreases k
  {
    var r := Read(m, a, s);
    if k > 1 {
      OwnerReadCountdown(r.mem, a, s, k - 1);
    }
  }

  /** A read started on an idle memory reports wait(4), wait(3), wait(2),
      wait(1) and then done on the fifth poll, leaving the memory idle. */
  lemma {:induction false} ReadTakesDelayPlusOnePolls(m: Memory, a: int, s: Stage)
    requires 0 <= a < MemorySize && m.count == 0
    ensures var t := ReadPolls(m, a, s, MemoryDelay + 1);
            && t.replies == [MemWait(4), MemWait(3), MemWait(2), MemWait(1),
                             ReadDone(WordAt(m.data, a), LineOf(m.data, a))]
            && t.mem == Memory(m.data, 0, None)
  {
    var r := Read(m, a, s);
    OwnerReadCountdown(r.mem, a, s, MemoryDelay);
    var t := ReadPolls(r.mem, a, s, MemoryDelay);
    assert t.replies[0] == MemWait(3) && t.replies[1] == MemWait(2) && t.replies[2] == MemWait(1);
  }

  /** The owner of a write with `k` cycles left completes it on its k-th
      further poll, and the word lands only then. */
  lemma {:induction false} OwnerWriteCountdown(m: Memory, a: int, v: int, s: Stage, k: nat)
    requires 0 <= a < MemorySize && Owns(m, s) && m.count == k
    ensures var t := WritePolls(m, a, v, s, k);
            && (forall j :: 0 <= j < k - 1 ==> t.replies[j] == MemWait(k - 1 - j))
            && t.replies[k - 1] == WriteDone
            && t.mem == Memory(Store(m.data, a, v), 0, None)
    decreases k
  {
    var r := Write(m, a, v, s);
    if k > 1 {
      OwnerWriteCountdown(r.mem, a, v, s, k - 1);
    }
  }

  /** A write started on an idle memory takes five polls; afterwards the
      addressed word holds the value and every other word is unchanged. */
  lemma {:induction false} WriteTakesDelayPlusOnePolls(m: Memory, a: int, v: int, s: Stage)
    requires 0 <= a < MemorySize && m.count == 0
    ensures var t := WritePolls(m, a, v, s, MemoryDelay + 1);
            && t.replies == [MemWait(4), MemWait(3), MemWait(2), MemWait(1), WriteDone]
            && WordAt(t.mem.data, a) == v
            && (forall b :: 0 <= b < MemorySize && b != a ==> WordAt(t.mem.data, b) == WordAt(m.data, b))
            && t.mem.count == 0 && t.mem.serving == None
  {
    var r := Write(m, a, v, s);
    OwnerWriteCountdown(r.mem, a, v, s, MemoryDelay);
    var t := WritePolls(r.mem, a, v, s, MemoryDelay);
    assert t.replies[0] == MemWait(3) && t.replies[1] == MemWait(2) && t.replies[2] == MemWait(1);
  }

  /** Memory.viewLine; None stands for the "Invalid memory line index" object. */
  function ViewLine(m: Memory, index: int): (v: Option<Line>)
    ensures v.Some? <==> 0 <= index < MemoryLines
    ensures v.Some? ==> v.value == m.data[index]
  {
    if index < 0 || index >= MemoryLines then None else Some(m.data[index])
  }

  /** The view of the line that holds an in-range address shows, at the
      address's offset, the word a read of that address returns. */
  lemma {:induction false} ViewShowsWord(m: Memory, a: int)
    requires 0 <= a < MemorySize
    ensures var loc := LineAndOffset(a).value;
            && ViewLine(m, loc.line).Some?
            && ViewLine(m, loc.line).value[loc.offset] == WordAt(m.data, a)
  {
  }

  /** After a completed write of `v` at `a`, the view of a's line shows `v` at
      a's offset and the line's other words as they were. */
  lemma {:induction false} ViewAfterWrite(m: Memory, a: int, v: int, s: Stage)
    requires Write(m, a, v, s).reply.WriteDone?
    ensures var loc := LineAndOffset(a).value;
            var before := ViewLine(m, loc.line);
            var after := ViewLine(Write(m, a, v, s).mem, loc.line);
            && before.Some? && after.Some?
            && after.value[loc.offset] == v
            && forall k :: 0 <= k < WordsPerLine && k != loc.offset ==> after.value[k] == before.value[k]
  {
    var loc := LineAndOffset(a).value;
    var after := Write(m, a, v, s).mem;
    assert after.data == Store(m.data, a, v);
    forall k | 0 <= k < WordsPerLine && k != loc.offset
      ensures after.data[loc.line][k] == m.data[loc.line][k]
    {
      var b := loc.line * WordsPerLine + k;
      assert b / WordsPerLine == loc.line && b % WordsPerLine == k;
      assert WordAt(after.data, b) == WordAt(m.data, b);
    }
    assert WordAt(after.data, a) == v;
  }
}
