/** The 32 general registers. An index outside 0..31 throws on read and on
    write; registers hold unbounded integers. */
module Registers {
  import opened Common

  const RegisterCount: int := 32

  type RegFile = s: seq<int> | |s| == RegisterCount witness seq(32, _ => 0)


  predicate ValidIndex(i: int) {
    0 <= i < RegisterCount
  }

  predicate AllZero(rf: RegFile) {
    forall j :: 0 <= j < RegisterCount ==> rf[j] == 0
  }

  /** The register file as the constructor and a reset leave it. */
  function ZeroRegisters(): (rf: RegFile)
    ensures AllZero(rf)
  {
    seq(RegisterCount, _ => 0)
  }

  /** The two register files agree everywhere except possibly at index `i`. */
  predicate AgreeExcept(a: RegFile, b: RegFile, i: int) {
    forall j :: 0 <= j < RegisterCount && j != i ==> a[j] == b[j]
  }

  /** GeneralRegisters.read */
  function Read(rf: RegFile, i: int): (r: Result<int>)
    ensures r.Ok? <==> ValidIndex(i)
    ensures r.Err? ==> r.fault == InvalidRegister(i)
    ensures r.Ok? ==> r.value == rf[i]
  {
    if i < 0 || i > 31 then Err(InvalidRegister(i)) else Ok(rf[i])
  }

  /** GeneralRegisters.write */
  function Write(rf: RegFile, i: int, v: int): (r: Result<RegFile>)
    ensures r.Ok? <==> ValidIndex(i)
    ensures r.Err? ==> r.fault == InvalidRegister(i)
    ensures r.Ok? ==> r.value[i] == v
    ensures r.Ok? ==> AgreeExcept(r.value, rf, i)
  {
    if i < 0 || i > 31 then Err(InvalidRegister(i)) else Ok(rf[i := v])
  }

  /** A write followed by a read of the same register returns the value; a
      read of any other register sees the old contents. */
  lemma ReadAfterWrite(rf: RegFile, i: int, j: int, v: int)
    requires ValidIndex(i)
    ensures Read(Write(rf, i, v).value, j) == if j == i then Ok(v) else Read(rf, j)
  {
  }
}
