/** The configuration constants of the cache simulator and the word-line type
    that both the cache and main memory store. */
module Config {

  const WordsPerLine: int := 16
  const CacheSize: int := 16
  /** Words covered by one full sweep of the cache: the tag's unit. */
  const LineSpan: int := WordsPerLine * CacheSize
  const MemorySize: int := 32768
  const MemoryLines: int := MemorySize / WordsPerLine
  /** Main memory's latency in cycles (an operation takes MemoryDelay + 1 polls). */
  const MemoryDelay: nat := 4
  /** The cache's service time for a read hit. */
  const CacheDelay: int := 1

  /** One line of words. Words are unbounded integers: the simulator stores
      JavaScript numbers and never truncates them. */
  type Line = s: seq<int> | |s| == WordsPerLine witness seq(16, _ => 0)

  function ZeroLine(): Line { seq(WordsPerLine, _ => 0) }
}
