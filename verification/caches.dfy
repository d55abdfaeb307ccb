/** The direct-mapped cache: sixteen lines of sixteen words, addressed by
    splitting a word address into tag, index and offset. */
module Caches {
  import opened Common
  import opened Config

  datatype CacheLine = CacheLine(tag: int, valid: bool, data: Line)

  /** A line as the constructor and a reset leave it: tag -1, invalid, zero data. */
  const EmptyLine: CacheLine := CacheLine(-1, false, ZeroLine())

  /** CacheLine.updateCacheLine: the line holds a copy of `newData` under `tag` and is valid. */
  function Refill(l: CacheLine, tag: int, newData: Line): CacheLine {
    CacheLine(tag, true, newData)
  }

  predicate IsHit(l: CacheLine, tag: int) {
    tag == l.tag && l.valid
  }

  /** After a refill the line hits for exactly the tag it was refilled with. */
  lemma RefillHitsExactlyItsTag(l: CacheLine, tag: int, newData: Line, probe: int)
    ensures IsHit(Refill(l, tag, newData), probe) <==> probe == tag
  {
  }

  type Lines = s: seq<CacheLine> | |s| == CacheSize witness seq(16, _ => EmptyLine)

  datatype Cache = Cache(lines: Lines, totalHits: nat, totalMisses: nat)

  function EmptyCache(): Cache { Cache(seq(CacheSize, _ => EmptyLine), 0, 0) }

  /* ---------------------------------------------------------------------------
     Address split. The simulator computes the index as floor((a / 16) % 16)
     with JavaScript's `%`, which keeps the sign of the dividend, and the
     offset as a % 16 likewise; for a negative address both can be negative.
     --------------------------------------------------------------------------- */

  function IndexOf(a: int): (i: int)
    ensures -CacheSize <= i < CacheSize
    ensures a >= 0 ==> 0 <= i
  {
    if a >= 0 then (a / WordsPerLine) % CacheSize
    else -(((-a) % LineSpan + WordsPerLine - 1) / WordsPerLine)
  }

  function TagOf(a: int): int {
    a / LineSpan
  }

  function OffsetOf(a: int): int {
    if a >= 0 then a % WordsPerLine else -((-a) % WordsPerLine)
  }

  /** An index that names a real line comes with an offset that names a real
      word: a negative address only reaches line 0 when it is a multiple of 256. */
  lemma OffsetInRange(a: int)
    requires 0 <= IndexOf(a) < CacheSize
    ensures 0 <= OffsetOf(a) < WordsPerLine
    ensures a < 0 ==> IndexOf(a) == 0 && (-a) % LineSpan == 0
  {
    if a < 0 {
      var b := -a;
      assert b % LineSpan == 0;
      assert b == LineSpan * (b / LineSpan);
      assert b == WordsPerLine * (CacheSize * (b / LineSpan));
    }
  }

  /** Tag, index and offset of a non-negative address are in range and put
      the address back together. */
  lemma {:induction false} AddressSplit(a: int)
    requires a >= 0
    ensures 0 <= IndexOf(a) < CacheSize && 0 <= OffsetOf(a) < WordsPerLine && TagOf(a) >= 0
    ensures TagOf(a) * LineSpan + IndexOf(a) * WordsPerLine + OffsetOf(a) == a
  {
    var q := a / WordsPerLine;
    var r := a % WordsPerLine;
    var t := q / CacheSize;
    var i := q % CacheSize;
    assert a == WordsPerLine * q + r;
    assert q == CacheSize * t + i;
    assert a == LineSpan * t + (WordsPerLine * i + r);
    assert 0 <= WordsPerLine * i + r < LineSpan;
    assert a / LineSpan == t;
  }

  /** The converse: an address assembled from a tag, an index and an offset
      splits back into exactly those parts. */
  lemma {:induction false} AddressCompose(tag: int, index: int, offset: int)
    requires tag >= 0 && 0 <= index < CacheSize && 0 <= offset < WordsPerLine
    ensures var a := tag * LineSpan + index * WordsPerLine + offset;
            TagOf(a) == tag && IndexOf(a) == index && OffsetOf(a) == offset
  {
    var a := tag * LineSpan + index * WordsPerLine + offset;
    var q := tag * CacheSize + index;
    assert a == WordsPerLine * q + offset;
    assert a / WordsPerLine == q;
    assert a % WordsPerLine == offset;
    assert q / CacheSize == tag;
    assert q % CacheSize == index;
    assert 0 <= index * WordsPerLine + offset < LineSpan;
    assert a / LineSpan == tag;
  }

  /* ---------------------------------------------------------------------------
     Cache.read
     --------------------------------------------------------------------------- */

  /** What a probe reports: the word on a hit; index, tag and offset on a miss;
      or the TypeError raised when the index names no line. */
  datatype ProbeResult =
    | Hit(data: int)
    | Miss(index: int, tag: int, offset: int)
    | ProbeFault(fault: Fault)

  datatype Probe = Probe(cache: Cache, result: ProbeResult)

  /** Probes the cache for address `a`, counting a hit or a miss. */
  function Read(c: Cache, a: int): (p: Probe)
    ensures p.cache.lines == c.lines
    ensures p.result.ProbeFault? <==> !(0 <= IndexOf(a) < CacheSize)
    ensures p.result.ProbeFault? ==> p.cache == c
    ensures p.result.Hit? <==> 0 <= IndexOf(a) < CacheSize && IsHit(c.lines[IndexOf(a)], TagOf(a))
    ensures p.result.Hit? ==>
              && p.cache.totalHits == c.totalHits + 1 && p.cache.totalMisses == c.totalMisses
              && 0 <= OffsetOf(a) < WordsPerLine
              && p.result.data == c.lines[IndexOf(a)].data[OffsetOf(a)]
    ensures p.result.Miss? ==>
              && p.cache.totalMisses == c.totalMisses + 1 && p.cache.totalHits == c.totalHits
              && p.result == Miss(IndexOf(a), TagOf(a), OffsetOf(a))
  {
    var index := IndexOf(a);
    if !(0 <= index < CacheSize) then
      Probe(c, ProbeFault(NoCacheLine(index)))
    else
      var tag := TagOf(a);
      var offset := OffsetOf(a);
      if IsHit(c.lines[index], tag) then
        OffsetInRange(a);
        Probe(c.(totalHits := c.totalHits + 1), Hit(c.lines[index].data[offset]))
      else
        Probe(c.(totalMisses := c.totalMisses + 1), Miss(index, tag, offset))
  }

  /** A probe never hits a line that is not valid. */
  lemma InvalidLineNeverHits(c: Cache, a: int)
    requires 0 <= IndexOf(a) < CacheSize && !c.lines[IndexOf(a)].valid
    ensures Read(c, a).result.Miss?
  {
  }

  /** After line IndexOf(a) is refilled for a's tag, a probe of `a` hits and
      returns the word at a's offset in the refilled data. */
  lemma {:induction false} RefillThenHit(c: Cache, a: int, newData: Line)
    requires a >= 0
    ensures var c' := c.(lines := c.lines[IndexOf(a) := Refill(c.lines[IndexOf(a)], TagOf(a), newData)]);
            Read(c', a).result == Hit(newData[OffsetOf(a)])
  {
    AddressSplit(a);
  }

  /** What viewLine shows: the tag only when the line is valid. */
  datatype LineView = LineView(tag: Option<int>, valid: bool, data: Line)

  /** Cache.viewLine; None stands for the "Invalid cache line index" object. */
  function ViewLine(c: Cache, index: int): (v: Option<LineView>)
    ensures v.Some? <==> 0 <= index < CacheSize
    ensures v.Some? ==> v.value.valid == c.lines[index].valid && v.value.data == c.lines[index].data
    ensures v.Some? ==> (v.value.tag.Some? <==> c.lines[index].valid)
    ensures v.Some? && v.value.tag.Some? ==> v.value.tag.value == c.lines[index].tag
  {
    if index < 0 || index >= CacheSize then None
    else
      var l := c.lines[index];
      Some(LineView(if l.valid then Some(l.tag) else None, l.valid, l.data))
  }

  /** The view of a line predicts a probe: an address whose index names the
      line hits exactly when the view shows the address's tag, and then
      returns the word the view shows at the address's offset. */
  lemma {:induction false} ViewPredictsProbe(c: Cache, a: int)
    requires 0 <= IndexOf(a) < CacheSize
    ensures ViewLine(c, IndexOf(a)).Some?
    ensures var v := ViewLine(c, IndexOf(a)).value;
            && (Read(c, a).result.Hit? <==> v.tag == Some(TagOf(a)))
            && (Read(c, a).result.Hit? ==> Read(c, a).result.data == v.data[OffsetOf(a)])
  {
    OffsetInRange(a);
  }

  /** After line IndexOf(a) is refilled for a's tag, its view shows that tag,
      the valid bit and the new words. */
  lemma {:induction false} ViewAfterRefill(c: Cache, a: int, newData: Line)
    requires a >= 0
    ensures var c' := c.(lines := c.lines[IndexOf(a) := Refill(c.lines[IndexOf(a)], TagOf(a), newData)]);
            ViewLine(c', IndexOf(a)) == Some(LineView(Some(TagOf(a)), true, newData))
  {
    var c' := c.(lines := c.lines[IndexOf(a) := Refill(c.lines[IndexOf(a)], TagOf(a), newData)]);
    assert c'.lines[IndexOf(a)] == CacheLine(TagOf(a), true, newData);
  }
}
