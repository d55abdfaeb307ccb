/** The instruction set: 32-bit words laid out as [opcode:8][rd:8][rn:8][imm:8],
    the decoded instruction record that travels down the pipeline, and the
    execute step. The low byte is an immediate (ADDI, SUBI, MOVI), a second
    source register (ADD, SUB, MUL) or an address offset (LOAD, STR). */
module Isa {
  import opened Common
  import opened Registers

  /* Opcode byte values. The real values come from the assembler's table,
     which is not part of this model; these stand in for them. */
  const OpMovi: int := 0x01
  const OpMov: int := 0x02
  const OpAdd: int := 0x03
  const OpSub: int := 0x04
  const OpAddi: int := 0x05
  const OpSubi: int := 0x06
  const OpMul: int := 0x07
  const OpLoad: int := 0x08
  const OpStr: int := 0x09

  datatype Kind = MOVI | MOV | ADD | SUB | ADDI | SUBI | MUL | LOAD | STR | NOP

  /** The decoder's opcode switch; every other byte is a NOP. */
  function KindOf(op: int): Kind {
    if op == OpMovi then MOVI
    else if op == OpMov then MOV
    else if op == OpAdd then ADD
    else if op == OpSub then SUB
    else if op == OpAddi then ADDI
    else if op == OpSubi then SUBI
    else if op == OpLoad then LOAD
    else if op == OpStr then STR
    else if op == OpMul then MUL
    else NOP
  }

  /** The opcode byte of a real instruction kind. */
  function OpcodeOf(k: Kind): (op: int)
    requires k != NOP
    ensures 0 <= op < 0x100
    ensures KindOf(op) == k
  {
    match k
    case MOVI => OpMovi
    case MOV => OpMov
    case ADD => OpAdd
    case SUB => OpSub
    case ADDI => OpAddi
    case SUBI => OpSubi
    case MUL => OpMul
    case LOAD => OpLoad
    case STR => OpStr
  }

  /** Every opcode byte the decoder recognises is the opcode of its kind. */
  lemma OpcodeOfKindOf(op: int)
    requires KindOf(op) != NOP
    ensures OpcodeOf(KindOf(op)) == op
  {
  }

  /* ---------------------------------------------------------------------------
     Word layout
     --------------------------------------------------------------------------- */

  type Word = w: int | 0 <= w < 0x1_0000_0000

  predicate IsByte(b: int) {
    0 <= b < 0x100
  }

  function OpField(w: Word): int { (w / 0x100_0000) % 0x100 }
  function RdField(w: Word): int { (w / 0x1_0000) % 0x100 }
  function RnField(w: Word): int { (w / 0x100) % 0x100 }
  function ImmField(w: Word): int { w % 0x100 }

  /** The word with the four given bytes, as the assembler lays them out. */
  function Encode(op: int, rd: int, rn: int, imm: int): Word
    requires IsByte(op) && IsByte(rd) && IsByte(rn) && IsByte(imm)
  {
    op * 0x100_0000 + rd * 0x1_0000 + rn * 0x100 + imm
  }

  /** Decoding the fields of an encoded word gives back the four bytes. */
  lemma {:induction false} FieldsOfEncode(op: int, rd: int, rn: int, imm: int)
    requires IsByte(op) && IsByte(rd) && IsByte(rn) && IsByte(imm)
    ensures var w := Encode(op, rd, rn, imm);
            OpField(w) == op && RdField(w) == rd && RnField(w) == rn && ImmField(w) == imm
  {
    var w := Encode(op, rd, rn, imm);
    var low := rn * 0x100 + imm;
    var mid := rd * 0x100 + rn;
    var high := op * 0x100 + rd;
    assert w == 0x100 * (high * 0x100 + rn) + imm;
    assert w % 0x100 == imm && w / 0x100 == high * 0x100 + rn;
    assert w == 0x1_0000 * high + low && 0 <= low < 0x1_0000;
    assert w / 0x1_0000 == high;
    assert w == 0x100_0000 * op + (rd * 0x1_0000 + low);
    assert w / 0x100_0000 == op;
  }

  /** Every word is the encoding of its four fields. */
  lemma {:induction false} EncodeOfFields(w: Word)
    ensures IsByte(OpField(w)) && IsByte(RdField(w)) && IsByte(RnField(w)) && IsByte(ImmField(w))
    ensures Encode(OpField(w), RdField(w), RnField(w), ImmField(w)) == w
  {
    var q1 := w / 0x100;
    var q2 := q1 / 0x100;
    var q3 := q2 / 0x100;
    assert w == 0x100 * q1 + ImmField(w);
    assert q1 == 0x100 * q2 + q1 % 0x100;
    assert q2 == 0x100 * q3 + q2 % 0x100;
    assert w / 0x1_0000 == q2;
    assert w / 0x100_0000 == q3;
    assert q3 < 0x100;
  }

  /* ---------------------------------------------------------------------------
     Decoded instructions
     --------------------------------------------------------------------------- */

  /** The kinds that read register rn at decode. */
  predicate ReadsRn(k: Kind) {
    k != MOVI && k != NOP
  }

  /** The kinds that read the low byte as a second register at decode. */
  predicate ReadsRm(k: Kind) {
    k == ADD || k == SUB || k == MUL
  }

  /** The kinds whose writeback stores `result` into rd. */
  predicate WritesResult(k: Kind) {
    k == ADD || k == ADDI || k == SUB || k == SUBI || k == MOV || k == MOVI || k == MUL
  }

  predicate IsMemoryKind(k: Kind) {
    k == LOAD || k == STR
  }

  /** An instruction in flight. `imm` is the low byte in whichever role the
      kind gives it; `rnValue` and `rmValue` are the register values captured
      at decode; `result` is set by execute for arithmetic kinds, `address`
      for LOAD and STR; `memoryResult` is the loaded word once known (absent
      when a completion carried no data); `stallCycles` counts the memory
      stage's unsuccessful polls. Fields the JavaScript leaves undefined are
      0 here; none of them is read before it is set. */
  datatype Instr = Instr(
    kind: Kind,
    rd: int,
    rn: int,
    imm: int,
    rnValue: int,
    rmValue: int,
    result: int,
    address: int,
    memoryResult: Option<int>,
    stallCycles: nat)

  /** The decode stage: splits the word and captures the source registers'
      values from the register file as it is at that moment; rn is read
      before rm, and a bad register number throws. */
  function Decode(w: Word, rf: RegFile): (r: Result<Instr>)
    ensures var k := KindOf(OpField(w));
            r.Ok? <==> (ReadsRn(k) ==> ValidIndex(RnField(w))) && (ReadsRm(k) ==> ValidIndex(ImmField(w)))
    ensures var k := KindOf(OpField(w));
            r.Err? ==> r.fault == if ReadsRn(k) && !ValidIndex(RnField(w)) then InvalidRegister(RnField(w))
                                  else InvalidRegister(ImmField(w))
    ensures r.Ok? ==>
              && r.value.kind == KindOf(OpField(w))
              && r.value.rd == RdField(w) && r.value.rn == RnField(w) && r.value.imm == ImmField(w)
              && (ReadsRn(r.value.kind) ==> r.value.rnValue == rf[r.value.rn])
              && (ReadsRm(r.value.kind) ==> r.value.rmValue == rf[r.value.imm])
              && r.value.memoryResult.None? && r.value.stallCycles == 0
  {
    var k := KindOf(OpField(w));
    var rnValue :- if ReadsRn(k) then Registers.Read(rf, RnField(w)) else Ok(0);
    var rmValue :- if ReadsRm(k) then Registers.Read(rf, ImmField(w)) else Ok(0);
    Ok(Instr(k, RdField(w), RnField(w), ImmField(w), rnValue, rmValue, 0, 0, None, 0))
  }

  /** The execute stage: computes the result of an arithmetic kind or the
      effective address of a LOAD or STR; nothing else about the
      instruction changes. */
  function Execute(i: Instr): (r: Instr)
    ensures r.kind == i.kind && r.rd == i.rd && r.rn == i.rn && r.imm == i.imm
    ensures r.rnValue == i.rnValue && r.rmValue == i.rmValue
    ensures r.memoryResult == i.memoryResult && r.stallCycles == i.stallCycles
    ensures !WritesResult(i.kind) ==> r.result == i.result
    ensures !IsMemoryKind(i.kind) ==> r.address == i.address
    ensures IsMemoryKind(i.kind) ==> r.address - i.imm == i.rnValue
  {
    match i.kind
    case ADD => i.(result := i.rnValue + i.rmValue)
    case ADDI => i.(result := i.rnValue + i.imm)
    case SUB => i.(result := i.rnValue - i.rmValue)
    case SUBI => i.(result := i.rnValue - i.imm)
    case MOV => i.(result := i.rnValue)
    case MOVI => i.(result := i.imm)
    case MUL => i.(result := i.rnValue * i.rmValue)
    case LOAD => i.(address := i.rnValue + i.imm)
    case STR => i.(address := i.rnValue + i.imm)
    case NOP => i
  }

  /* ---------------------------------------------------------------------------
     Decode followed by execute, from the encoded word
     --------------------------------------------------------------------------- */

  /** A register-register word computes its operator on the current values of
      registers rn and rm, for the destination named in the word. */
  lemma {:induction false} DecodeExecuteRegisterOps(d: int, n: int, m: int, rf: RegFile)
    requires IsByte(d) && ValidIndex(n) && ValidIndex(m)
    ensures var r := Decode(Encode(OpAdd, d, n, m), rf);
            r.Ok? && r.value.kind == ADD && r.value.rd == d && Execute(r.value).result == rf[n] + rf[m]
    ensures var r := Decode(Encode(OpSub, d, n, m), rf);
            r.Ok? && r.value.kind == SUB && r.value.rd == d && Execute(r.value).result == rf[n] - rf[m]
    ensures var r := Decode(Encode(OpMul, d, n, m), rf);
            r.Ok? && r.value.kind == MUL && r.value.rd == d && Execute(r.value).result == rf[n] * rf[m]
  {
    FieldsOfEncode(OpAdd, d, n, m);
    FieldsOfEncode(OpSub, d, n, m);
    FieldsOfEncode(OpMul, d, n, m);
  }

  /** A word with an immediate computes from register rn and the low byte;
      MOV ignores the low byte and MOVI ignores rn, whatever byte it holds. */
  lemma {:induction false} DecodeExecuteImmediateOps(d: int, n: int, k: int, rf: RegFile)
    requires IsByte(d) && IsByte(n) && IsByte(k)
    ensures ValidIndex(n) ==>
              var r := Decode(Encode(OpAddi, d, n, k), rf);
              r.Ok? && r.value.kind == ADDI && r.value.rd == d && Execute(r.value).result == rf[n] + k
    ensures ValidIndex(n) ==>
              var r := Decode(Encode(OpSubi, d, n, k), rf);
              r.Ok? && r.value.kind == SUBI && r.value.rd == d && Execute(r.value).result == rf[n] - k
    ensures ValidIndex(n) ==>
              var r := Decode(Encode(OpMov, d, n, k), rf);
              r.Ok? && r.value.kind == MOV && r.value.rd == d && Execute(r.value).result == rf[n]
    ensures var r := Decode(Encode(OpMovi, d, n, k), rf);
            r.Ok? && r.value.kind == MOVI && r.value.rd == d && Execute(r.value).result == k
  {
    FieldsOfEncode(OpAddi, d, n, k);
    FieldsOfEncode(OpSubi, d, n, k);
    FieldsOfEncode(OpMov, d, n, k);
    FieldsOfEncode(OpMovi, d, n, k);
  }

  /** LOAD and STR address the word at register rn's value plus the low byte. */
  lemma {:induction false} DecodeExecuteAddress(d: int, n: int, k: int, rf: RegFile)
    requires IsByte(d) && ValidIndex(n) && IsByte(k)
    ensures var r := Decode(Encode(OpLoad, d, n, k), rf);
            r.Ok? && r.value.kind == LOAD && r.value.rd == d && Execute(r.value).address == rf[n] + k
    ensures var r := Decode(Encode(OpStr, d, n, k), rf);
            r.Ok? && r.value.kind == STR && r.value.rd == d && Execute(r.value).address == rf[n] + k
  {
    FieldsOfEncode(OpLoad, d, n, k);
    FieldsOfEncode(OpStr, d, n, k);
  }
}
