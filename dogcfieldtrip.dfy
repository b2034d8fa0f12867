/**
 * What reading gives back after writing, field by field and instruction by
 * instruction. The reader rebuilds every instruction through its opcode's
 * factory, so the round trip reproduces the opcode, its payload, the line,
 * the column and the source line, with the writer's defaults in place of
 * absent payloads ("0" for a BigInteger text, "" for the other strings, 0 and
 * false for numbers and flags) and NaNs in canonical form.
 */
module DogcFieldRoundTrip {
  import opened Wrappers
  import opened JavaLang
  import opened OpCodes
  import opened Bytecode
  import opened Bytes
  import Utf8
  import opened DogcFormat
  import opened DogcFits
  import opened DogcNormal

  // ---- regrouping a concatenation to the right, one field at a time ----

  lemma Regroup3(a: seq<byte>, b: seq<byte>, c: seq<byte>)
    ensures a + b + c == a + (b + c)
  {
  }

  lemma Regroup4(a: seq<byte>, b: seq<byte>, c: seq<byte>, d: seq<byte>)
    ensures a + b + c + d == a + (b + (c + d))
  {
  }

  lemma Regroup5(a: seq<byte>, b: seq<byte>, c: seq<byte>, d: seq<byte>, e: seq<byte>)
    ensures a + b + c + d + e == a + (b + (c + (d + e)))
  {
  }

  lemma Regroup6(a: seq<byte>, b: seq<byte>, c: seq<byte>, d: seq<byte>, e: seq<byte>, f: seq<byte>)
    ensures a + b + c + d + e + f == a + (b + (c + (d + (e + f))))
  {
  }

  // ---- fields ----

  lemma {:induction false} ReadIntField(x: int, rest: seq<byte>)
    ensures ReadInt(IntField(x) + rest) == Ok((WrapInt(x), rest))
  {
    var e := IntField(x);
    assert (e + rest)[..4] == e;
    assert (e + rest)[4..] == rest;
    IntRoundTrip(WrapInt(x));
  }

  lemma {:induction false} ReadLongField(x: Int64, rest: seq<byte>)
    ensures ReadLong(LongBytes(x) + rest) == Ok((x, rest))
  {
    var e := LongBytes(x);
    assert (e + rest)[..8] == e;
    assert (e + rest)[8..] == rest;
    LongRoundTrip(x);
  }

  lemma {:induction false} ReadBitsField(bits: DoubleBits, rest: seq<byte>)
    ensures ReadBits(BitsBytes(bits) + rest) == Ok((bits, rest))
  {
    var e := BitsBytes(bits);
    assert (e + rest)[..8] == e;
    assert (e + rest)[8..] == rest;
    BitsRoundTrip(bits);
  }

  lemma {:induction false} ReadBoolField(b: bool, rest: seq<byte>)
    ensures ReadBool(BoolField(b) + rest) == Ok((b, rest))
  {
    assert (BoolField(b) + rest)[1..] == rest;
  }

  lemma {:induction false} ReadUtfField(s: string, rest: seq<byte>)
    requires FitsText(s)
    ensures ReadUtf(UtfField(s) + rest) == Ok((s, rest))
  {
    var b := Utf8.Encode(s);
    Regroup3(IntField(|b|), b, rest);
    ReadIntField(|b|, b + rest);
    assert (b + rest)[..|b|] == b;
    assert (b + rest)[|b|..] == rest;
    Utf8.DecodeEncode(s);
  }

  // ---- payloads ----

  /** The Payload record the reader fills from what writePayload wrote. */
  function PayloadOf(ins: Instruction): Payload
  {
    match ins.op
    case CONST_INT => EMPTY_PAYLOAD.(i := ins.intVal.GetOr(0))
    case CONST_LONG => EMPTY_PAYLOAD.(l := ins.longVal.GetOr(0))
    case CONST_DOUBLE => EMPTY_PAYLOAD.(d := DoubleToLongBits(ins.doubleVal.GetOr(0)))
    case CONST_BIGINT => EMPTY_PAYLOAD.(s1 := Some(ins.text.GetOr("0")))
    case CONST_STR => EMPTY_PAYLOAD.(s1 := Some(ins.text.GetOr("")))
    case CONST_BOOL => EMPTY_PAYLOAD.(b := ins.boolVal == Some(true))
    case CONST_FUNC => EMPTY_PAYLOAD.(i := WrapInt(ins.funcIndex))
    case CALL_VALUE => EMPTY_PAYLOAD.(i := WrapInt(ins.argCount))
    case ARRAY_NEW => EMPTY_PAYLOAD.(i := WrapInt(ins.argCount))
    case LOAD => EMPTY_PAYLOAD.(s1 := Some(ins.name.GetOr("")))
    case STORE => EMPTY_PAYLOAD.(s1 := Some(ins.name.GetOr("")))
    case IMPORT => EMPTY_PAYLOAD.(s1 := Some(ins.moduleName.GetOr("")))
    case CALL =>
      Payload(WrapInt(ins.argCount), 0, 0, ins.isConst, Some(ins.moduleName.GetOr("")), Some(ins.member.GetOr("")))
    case JUMP => EMPTY_PAYLOAD.(i := WrapInt(ins.jumpTarget))
    case JUMP_IF_FALSE => EMPTY_PAYLOAD.(i := WrapInt(ins.jumpTarget))
    case _ => EMPTY_PAYLOAD
  }

  lemma {:induction false} ReadIntOperandBytes(x: int, rest: seq<byte>)
    ensures ReadIntOperand(IntField(x) + rest) == Ok((EMPTY_PAYLOAD.(i := WrapInt(x)), rest))
  {
    ReadIntField(x, rest);
  }

  lemma {:induction false} ReadTextOperandBytes(s: string, rest: seq<byte>)
    requires FitsText(s)
    ensures ReadTextOperand(UtfField(s) + rest) == Ok((EMPTY_PAYLOAD.(s1 := Some(s)), rest))
  {
    ReadUtfField(s, rest);
  }

  /** What writePayload emits for CALL: module, member, argument count, const flag. */
  function CallBytes(m: string, f: string, n: int, c: bool): seq<byte>
  {
    UtfField(m) + UtfField(f) + IntField(n) + BoolField(c)
  }

  lemma {:induction false} ReadCallOperandsBytes(m: string, f: string, n: int, c: bool, rest: seq<byte>)
    requires FitsText(m) && FitsText(f)
    ensures ReadCallOperands(CallBytes(m, f, n, c) + rest)
      == Ok((Payload(WrapInt(n), 0, 0, c, Some(m), Some(f)), rest))
  {
    var t3 := BoolField(c) + rest;
    var t2 := IntField(n) + t3;
    var t1 := UtfField(f) + t2;
    var input := UtfField(m) + t1;
    Regroup5(UtfField(m), UtfField(f), IntField(n), BoolField(c), rest);
    ReadUtfField(m, t1);
    ReadUtfField(f, t2);
    ReadIntField(n, t3);
    ReadBoolField(c, rest);
    ReadCallStep(input, m, t1, f, t2, WrapInt(n), t3, c, rest);
  }

  /** The four reads of a CALL payload, one after the other. */
  lemma {:induction false} ReadCallStep(input: seq<byte>, m: string, t1: seq<byte>, f: string, t2: seq<byte>,
                                        n: Int32, t3: seq<byte>, c: bool, rest: seq<byte>)
    requires ReadUtf(input) == Ok((m, t1)) && ReadUtf(t1) == Ok((f, t2))
    requires ReadInt(t2) == Ok((n, t3)) && ReadBool(t3) == Ok((c, rest))
    ensures ReadCallOperands(input) == Ok((Payload(n, 0, 0, c, Some(m), Some(f)), rest))
  {
  }

  /** The number a one-int opcode writes. */
  function IntOperand(ins: Instruction): int
  {
    match ins.op
    case CONST_INT => ins.intVal.GetOr(0)
    case CONST_FUNC => ins.funcIndex
    case CALL_VALUE => ins.argCount
    case ARRAY_NEW => ins.argCount
    case _ => ins.jumpTarget
  }

  /** readPayload's dispatch, one opcode group at a time. */
  lemma DispatchInt(input: seq<byte>, op: OpCode)
    requires HasIntOperand(op)
    ensures ReadPayload(input, op) == ReadIntOperand(input)
  {
  }

  lemma DispatchText(input: seq<byte>, op: OpCode)
    requires HasTextOperand(op)
    ensures ReadPayload(input, op) == ReadTextOperand(input)
  {
  }

  lemma DispatchCall(input: seq<byte>)
    ensures ReadPayload(input, CALL) == ReadCallOperands(input)
  {
  }

  /** What a one-int opcode writes and what the reader's record holds for it. */
  lemma IntPayloadParts(ins: Instruction)
    requires HasIntOperand(ins.op)
    ensures PayloadBytes(ins) == IntField(IntOperand(ins))
    ensures PayloadOf(ins) == EMPTY_PAYLOAD.(i := WrapInt(IntOperand(ins)))
  {
  }

  /** The opcodes with one int operand. */
  lemma {:induction false} ReadIntPayload(ins: Instruction, rest: seq<byte>)
    requires HasIntOperand(ins.op)
    ensures ReadPayload(PayloadBytes(ins) + rest, ins.op) == Ok((PayloadOf(ins), rest))
  {
    var x := IntOperand(ins);
    IntPayloadParts(ins);
    ReadIntOperandBytes(x, rest);
    DispatchInt(IntField(x) + rest, ins.op);
  }

  /** The string a one-string opcode writes: its operand, or the writer's default. */
  function TextOperand(ins: Instruction): string
  {
    match ins.op
    case CONST_BIGINT => ins.text.GetOr("0")
    case CONST_STR => ins.text.GetOr("")
    case LOAD => ins.name.GetOr("")
    case STORE => ins.name.GetOr("")
    case _ => ins.moduleName.GetOr("")
  }

  /** What a one-string opcode writes and what the reader's record holds for it. */
  lemma TextPayloadParts(ins: Instruction)
    requires HasTextOperand(ins.op)
    ensures PayloadBytes(ins) == UtfField(TextOperand(ins))
    ensures PayloadOf(ins) == EMPTY_PAYLOAD.(s1 := Some(TextOperand(ins)))
  {
  }

  /** The opcodes with one string operand. */
  lemma {:induction false} ReadTextPayload(ins: Instruction, rest: seq<byte>)
    requires HasTextOperand(ins.op) && FitsText(TextOperand(ins))
    ensures ReadPayload(PayloadBytes(ins) + rest, ins.op) == Ok((PayloadOf(ins), rest))
  {
    var s := TextOperand(ins);
    TextPayloadParts(ins);
    ReadTextOperandBytes(s, rest);
    DispatchText(UtfField(s) + rest, ins.op);
  }

  /** What CALL writes and what the reader's record holds for it. */
  lemma CallPayloadParts(ins: Instruction)
    requires ins.op == CALL
    ensures PayloadBytes(ins) == CallBytes(ins.moduleName.GetOr(""), ins.member.GetOr(""), ins.argCount, ins.isConst)
    ensures PayloadOf(ins)
      == Payload(WrapInt(ins.argCount), 0, 0, ins.isConst, Some(ins.moduleName.GetOr("")), Some(ins.member.GetOr("")))
  {
  }

  lemma {:induction false} ReadCallPayload(ins: Instruction, rest: seq<byte>)
    requires ins.op == CALL && FitsInstruction(ins)
    ensures ReadPayload(PayloadBytes(ins) + rest, ins.op) == Ok((PayloadOf(ins), rest))
  {
    var m, f := ins.moduleName.GetOr(""), ins.member.GetOr("");
    CallPayloadParts(ins);
    ReadCallOperandsBytes(m, f, ins.argCount, ins.isConst, rest);
    DispatchCall(CallBytes(m, f, ins.argCount, ins.isConst) + rest);
  }

  lemma {:induction false} ReadLongPayload(ins: Instruction, rest: seq<byte>)
    requires ins.op == CONST_LONG
    ensures ReadPayload(PayloadBytes(ins) + rest, ins.op) == Ok((PayloadOf(ins), rest))
  {
    ReadLongField(ins.longVal.GetOr(0), rest);
  }

  lemma {:induction false} ReadDoublePayload(ins: Instruction, rest: seq<byte>)
    requires ins.op == CONST_DOUBLE
    ensures ReadPayload(PayloadBytes(ins) + rest, ins.op) == Ok((PayloadOf(ins), rest))
  {
    ReadBitsField(DoubleToLongBits(ins.doubleVal.GetOr(0)), rest);
  }

  lemma {:induction false} ReadBoolPayload(ins: Instruction, rest: seq<byte>)
    requires ins.op == CONST_BOOL
    ensures ReadPayload(PayloadBytes(ins) + rest, ins.op) == Ok((PayloadOf(ins), rest))
  {
    ReadBoolField(ins.boolVal == Some(true), rest);
  }

  /** Each opcode's payload reads back as the record the writer's fields describe. */
  lemma {:induction false} ReadPayloadBytes(ins: Instruction, rest: seq<byte>)
    requires FitsInstruction(ins)
    ensures ReadPayload(PayloadBytes(ins) + rest, ins.op) == Ok((PayloadOf(ins), rest))
  {
    var op := ins.op;
    if HasIntOperand(op) {
      ReadIntPayload(ins, rest);
    } else if HasTextOperand(op) {
      assert FitsText(TextOperand(ins));
      ReadTextPayload(ins, rest);
    } else if op == CALL {
      ReadCallPayload(ins, rest);
    } else if op == CONST_LONG {
      ReadLongPayload(ins, rest);
    } else if op == CONST_DOUBLE {
      ReadDoublePayload(ins, rest);
    } else if op == CONST_BOOL {
      ReadBoolPayload(ins, rest);
    } else {
      assert PayloadBytes(ins) + rest == rest;
      assert PayloadOf(ins) == EMPTY_PAYLOAD;
    }
  }

  lemma {:induction false} BuildNormalized(ins: Instruction)
    requires FitsInstruction(ins)
    ensures BuildInstruction(ins.op, PayloadOf(ins), ins.line, ins.col, ins.sourceLine) == Normalized(ins)
  {
  }

  /** The has-source flag and, when set, the source line. */
  lemma {:induction false} ReadSourceBytes(src: Option<string>, rest: seq<byte>)
    requires FitsOptText(src)
    ensures ReadBool(SourceBytes(src) + rest) == Ok((src.Some?, SourceBytes(src)[1..] + rest))
    ensures ReadSource(SourceBytes(src)[1..] + rest, src.Some?) == Ok((src, rest))
  {
    assert (SourceBytes(src) + rest)[1..] == SourceBytes(src)[1..] + rest;
    match src
    case None =>
    case Some(s) =>
      assert SourceBytes(src)[1..] == UtfField(s);
      ReadUtfField(s, rest);
  }

  // ---- instructions, parameters, code ----

  /** One instruction reads back as its normalized form, using exactly its bytes. */
  lemma {:induction false} ReadInstructionBytes(ins: Instruction, rest: seq<byte>)
    requires FitsInstruction(ins)
    ensures ReadInstruction(InstructionBytes(ins) + rest) == Ok((Normalized(ins), rest))
  {
    var t5 := SourceBytes(ins.sourceLine)[1..] + rest;
    var t4 := SourceBytes(ins.sourceLine) + rest;
    var t3 := IntField(ins.col) + t4;
    var t2 := IntField(ins.line) + t3;
    var t1 := PayloadBytes(ins) + t2;
    var input := IntField(Ordinal(ins.op)) + t1;
    Regroup6(IntField(Ordinal(ins.op)), PayloadBytes(ins), IntField(ins.line), IntField(ins.col),
             SourceBytes(ins.sourceLine), rest);
    ReadIntField(Ordinal(ins.op), t1);
    ReadPayloadBytes(ins, t2);
    ReadIntField(ins.line, t3);
    ReadIntField(ins.col, t4);
    ReadSourceBytes(ins.sourceLine, rest);
    ReadInstructionStep(input, ins.op, t1, PayloadOf(ins), t2, ins.line, t3, ins.col, t4, t5, ins.sourceLine, rest);
    BuildNormalized(ins);
  }

  /** The reads of one instruction, one after the other. */
  lemma {:induction false} ReadInstructionStep(input: seq<byte>, op: OpCode, t1: seq<byte>, p: Payload, t2: seq<byte>,
                                               line: Int32, t3: seq<byte>, col: Int32, t4: seq<byte>, t5: seq<byte>,
                                               src: Option<string>, rest: seq<byte>)
    requires ReadInt(input) == Ok((Ordinal(op), t1)) && ReadPayload(t1, op) == Ok((p, t2))
    requires ReadInt(t2) == Ok((line, t3)) && ReadInt(t3) == Ok((col, t4))
    requires ReadBool(t4) == Ok((src.Some?, t5)) && ReadSource(t5, src.Some?) == Ok((src, rest))
    ensures ReadInstruction(input) == Ok((BuildInstruction(op, p, line, col, src), rest))
  {
    OrdinalRoundTrip(op);
  }
}
