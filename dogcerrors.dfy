/**
 * How the .dogc reader rejects malformed input: negative counts and string
 * lengths are corrupt, an ordinal outside the enum is corrupt, and running
 * out of bytes is an end-of-file. Also the shape of what it builds.
 */
module DogcErrors {
  import opened Wrappers
  import opened JavaLang
  import opened OpCodes
  import opened Bytecode
  import opened Bytes
  import opened DogcFormat

  /** readUtf: the length decides between corrupt input, the empty string, end of file and
      a decoded string. */
  lemma ReadUtfCases(input: seq<byte>)
    ensures |input| < 4 ==> ReadUtf(input) == Err(EndOfFile)
    ensures |input| >= 4 && IntOfBytes(input[..4]) < 0 ==>
      ReadUtf(input) == Err(IOError("Corrupt DOGC: negative string length"))
    ensures |input| >= 4 && IntOfBytes(input[..4]) == 0 ==> ReadUtf(input) == Ok(("", input[4..]))
    ensures |input| >= 4 && IntOfBytes(input[..4]) > |input| - 4 ==> ReadUtf(input) == Err(EndOfFile)
  {
  }

  /** The opcodes without operands read nothing. */
  lemma ReadPayloadNothing(input: seq<byte>, op: OpCode)
    requires !HasPayload(op)
    ensures ReadPayload(input, op) == Ok((EMPTY_PAYLOAD, input))
  {
  }

  /** An instruction whose ordinal names no opcode is corrupt, whatever follows it. */
  lemma BadOrdinalRejected(input: seq<byte>)
    requires |input| >= 4 && !(0 <= IntOfBytes(input[..4]) < COUNT)
    ensures ReadInstruction(input) == Err(IOError("Corrupt DOGC: bad opcode ordinal: " + IntToDecimal(IntOfBytes(input[..4]))))
  {
  }

  /** A negative function count is corrupt. */
  lemma NegativeFunctionCountRejected(input: seq<byte>)
    requires |input| >= 4 && IntOfBytes(input[..4]) < 0
    ensures ReadChunk(input) == Err(IOError("Corrupt DOGC: negative functionsCount"))
  {
  }

  /** A negative instruction count, after a function table that reads, is corrupt. */
  lemma NegativeCodeCountRejected(input: seq<byte>, fc: nat, t1: seq<byte>, fs: seq<FunctionProto>, t2: seq<byte>)
    requires ReadInt(input) == Ok((fc, t1)) && ReadFunctions(t1, fc) == Ok((fs, t2))
    requires |t2| >= 4 && IntOfBytes(t2[..4]) < 0
    ensures ReadChunk(input) == Err(IOError("Corrupt DOGC: negative codeCount"))
  {
  }

  /** A negative parameter count is corrupt. */
  lemma NegativeParamCountRejected(input: seq<byte>)
    requires |input| >= 4 && IntOfBytes(input[..4]) < 0
    ensures ReadFunction(input) == Err(IOError("Corrupt DOGC: negative paramsCount"))
  {
  }

  /** buildInstruction only uses the factories: the result has their field layout, the
      opcode asked for and the debug information read. */
  lemma BuildInstructionShaped(op: OpCode, p: Payload, line: int, col: int, src: Option<string>)
    ensures var i := BuildInstruction(op, p, line, col, src);
      Shaped(i) && i.op == op && Located(i, line, col, src)
  {
    match op
    case CONST_INT | CONST_LONG | CONST_DOUBLE | CONST_BIGINT | CONST_STR | CONST_BOOL | CONST_NIL =>
    case CONST_FUNC | CALL_VALUE | RETURN | ARRAY_NEW | ARRAY_GET | ARRAY_SET =>
    case LOAD | STORE | IMPORT | CALL | JUMP | JUMP_IF_FALSE =>
    case _ =>
  }
}
