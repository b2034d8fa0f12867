/**
 * The .dogc byte format, as pure functions: what DogBytecodeIO writes for a
 * chunk, what it reads back from a byte string, and the round trip between
 * the two. The stream form is the magic bytes "DOGC", the version as a
 * big-endian int, and the chunk; the Path-based pair writes the chunk alone.
 *
 * A chunk is its function count, each function (parameter count, the
 * parameters, the body chunk), its instruction count and each instruction
 * (opcode ordinal, the opcode's payload, line, column, a has-source flag and
 * the source line when present). Strings are an int byte count followed by
 * their UTF-8 bytes.
 */
module DogcFormat {
  import opened Wrappers
  import opened JavaLang
  import opened OpCodes
  import opened Bytecode
  import opened Bytes
  import Utf8

  const MAGIC: seq<byte> := [0x44, 0x4F, 0x47, 0x43]   // 'D', 'O', 'G', 'C'
  const VERSION: Int32 := 3

  /** What reading throws: EOFException when the bytes run out, or an IOException with a message. */
  datatype IOFailure = EndOfFile | IOError(message: string)

  // ---- writing ----

  /** writeInt of a Java int field. */
  function IntField(x: int): (r: seq<byte>)
    ensures |r| == 4
  {
    IntBytes(WrapInt(x))
  }

  /** writeBoolean: one byte, 1 for true and 0 for false. */
  function BoolField(b: bool): (r: seq<byte>)
    ensures |r| == 1
  {
    if b then [1] else [0]
  }

  /** writeUtf: the UTF-8 byte count as an int, then the bytes. */
  function UtfField(s: string): (r: seq<byte>)
    ensures |r| == 4 + |Utf8.Encode(s)|
  {
    var b := Utf8.Encode(s);
    IntField(|b|) + b
  }

  /** The exponent bits all set and a non-zero fraction. */
  predicate IsNaN(bits: DoubleBits)
  {
    (bits / 0x10_0000_0000_0000) % 0x800 == 0x7FF && bits % 0x10_0000_0000_0000 != 0
  }

  const CANONICAL_NAN: DoubleBits := 0x7FF8_0000_0000_0000

  /** Double.doubleToLongBits, which writeDouble uses: every NaN becomes the canonical one. */
  function DoubleToLongBits(bits: DoubleBits): (r: DoubleBits)
    ensures IsNaN(bits) <==> IsNaN(r)
    ensures !IsNaN(r) || r == CANONICAL_NAN
  {
    if IsNaN(bits) then CANONICAL_NAN else bits
  }

  /** writePayload: the opcode's own fields, with the defaults the writer substitutes for nulls. */
  function PayloadBytes(ins: Instruction): seq<byte>
  {
    match ins.op
    case CONST_INT => IntField(ins.intVal.GetOr(0))
    case CONST_LONG => LongBytes(ins.longVal.GetOr(0))
    case CONST_DOUBLE => BitsBytes(DoubleToLongBits(ins.doubleVal.GetOr(0)))
    case CONST_BIGINT => UtfField(ins.text.GetOr("0"))
    case CONST_STR => UtfField(ins.text.GetOr(""))
    case CONST_BOOL => BoolField(ins.boolVal == Some(true))
    case CONST_FUNC => IntField(ins.funcIndex)
    case CALL_VALUE => IntField(ins.argCount)
    case ARRAY_NEW => IntField(ins.argCount)
    case LOAD => UtfField(ins.name.GetOr(""))
    case STORE => UtfField(ins.name.GetOr(""))
    case IMPORT => UtfField(ins.moduleName.GetOr(""))
    case CALL =>
      UtfField(ins.moduleName.GetOr("")) + UtfField(ins.member.GetOr(""))
      + IntField(ins.argCount) + BoolField(ins.isConst)
    case JUMP => IntField(ins.jumpTarget)
    case JUMP_IF_FALSE => IntField(ins.jumpTarget)
    case _ => []
  }

  function SourceBytes(src: Option<string>): (r: seq<byte>)
    ensures |r| >= 1 && r[0] == (if src.Some? then 1 else 0)
  {
    match src
    case Some(s) => BoolField(true) + UtfField(s)
    case None => BoolField(false)
  }

  /** One instruction: ordinal, payload, line, column and the optional source line. */
  function InstructionBytes(ins: Instruction): (r: seq<byte>)
    ensures |r| >= 13
  {
    IntField(Ordinal(ins.op)) + PayloadBytes(ins) + IntField(ins.line) + IntField(ins.col)
    + SourceBytes(ins.sourceLine)
  }

  /** The parameter names, one string field each. */
  function ParamsBytes(params: seq<string>): (r: seq<byte>)
    ensures |r| >= 4 * |params|
  {
    if params == [] then [] else UtfField(params[0]) + ParamsBytes(params[1..])
  }

  /** The instructions, one after the other. */
  function CodeBytes(code: seq<Instruction>): (r: seq<byte>)
    ensures |r| >= 13 * |code|
  {
    if code == [] then [] else InstructionBytes(code[0]) + CodeBytes(code[1..])
  }

  /** writeChunk. */
  function ChunkBytes(c: ChunkData): (r: seq<byte>)
    ensures |r| >= 8
    decreases c, 1
  {
    IntField(|c.functions|) + FunctionsBytes(c, 0) + IntField(|c.code|) + CodeBytes(c.code)
  }

  /** One entry of the function table: parameter count, parameters, body. */
  function FunctionBytes(c: ChunkData, i: nat): (r: seq<byte>)
    requires i < |c.functions|
    ensures |r| >= 12
    decreases c, 0, 0
  {
    var f := c.functions[i];
    IntField(|f.params|) + ParamsBytes(f.params) + ChunkBytes(f.body)
  }

  /** The entries of the function table from the i-th on. */
  function FunctionsBytes(c: ChunkData, i: nat): (r: seq<byte>)
    requires i <= |c.functions|
    ensures |r| >= 12 * (|c.functions| - i)
    decreases c, 0, |c.functions| - i + 1
  {
    if i == |c.functions| then [] else FunctionBytes(c, i) + FunctionsBytes(c, i + 1)
  }

  /** writeToStream / writeToFile: header, then the chunk. */
  function StreamBytes(c: ChunkData): seq<byte>
  {
    MAGIC + IntField(VERSION) + ChunkBytes(c)
  }

  // ---- reading: each reader takes the bytes not yet consumed, as DataInputStream holds
  // ---- them, and gives the value and the bytes after it, or the failure

  type Reading<T> = Result<(T, seq<byte>), IOFailure>

  /** readInt: four bytes, or EOFException when fewer are left. */
  function ReadInt(input: seq<byte>): (r: Reading<Int32>)
    ensures r.Ok? <==> |input| >= 4
    ensures r.Ok? ==> r.value == (IntOfBytes(input[..4]), input[4..])
    ensures r.Err? ==> r.error == EndOfFile
  {
    if |input| >= 4 then Ok((IntOfBytes(input[..4]), input[4..])) else Err(EndOfFile)
  }

  /** readLong: eight bytes. */
  function ReadLong(input: seq<byte>): (r: Reading<Int64>)
    ensures r.Ok? <==> |input| >= 8
    ensures r.Ok? ==> r.value.1 == input[8..]
  {
    if |input| >= 8 then Ok((LongOfBytes(input[..8]), input[8..])) else Err(EndOfFile)
  }

  /** readDouble: the eight bytes are the bit pattern, kept as it is. */
  function ReadBits(input: seq<byte>): (r: Reading<DoubleBits>)
    ensures r.Ok? <==> |input| >= 8
    ensures r.Ok? ==> r.value.1 == input[8..]
  {
    if |input| >= 8 then Ok((BitsOfBytes(input[..8]), input[8..])) else Err(EndOfFile)
  }

  /** readBoolean: any non-zero byte is true. */
  function ReadBool(input: seq<byte>): (r: Reading<bool>)
    ensures r.Ok? <==> |input| >= 1
    ensures r.Ok? ==> r.value == (input[0] != 0, input[1..])
  {
    if |input| >= 1 then Ok((input[0] != 0, input[1..])) else Err(EndOfFile)
  }

  /** readUtf: a negative length is corrupt, zero is the empty string, otherwise that many
      bytes decoded as UTF-8. */
  function ReadUtf(input: seq<byte>): (r: Reading<string>)
    ensures r.Ok? ==> |r.value.1| <= |input| - 4
  {
    var n :- ReadInt(input);
    if n.0 < 0 then Err(IOError("Corrupt DOGC: negative string length"))
    else if n.0 == 0 then Ok(("", n.1))
    else if n.0 <= |n.1| then Ok((Utf8.Decode(n.1[..n.0]), n.1[n.0..]))
    else Err(EndOfFile)
  }

  /** The reader's scratch record; the fields start as Java's defaults. */
  datatype Payload = Payload(i: Int32, l: Int64, d: DoubleBits, b: bool, s1: Option<string>, s2: Option<string>)

  const EMPTY_PAYLOAD := Payload(0, 0, 0, false, None, None)

  /** readPayload: the fields the opcode carries, in the order writePayload puts them. */
  function ReadPayload(input: seq<byte>, op: OpCode): (r: Reading<Payload>)
    ensures r.Ok? ==> |r.value.1| <= |input|
  {
    if HasIntOperand(op) then ReadIntOperand(input)
    else if HasTextOperand(op) then ReadTextOperand(input)
    else if op == CALL then ReadCallOperands(input)
    else if op == CONST_LONG then var x :- ReadLong(input); Ok((EMPTY_PAYLOAD.(l := x.0), x.1))
    else if op == CONST_DOUBLE then var x :- ReadBits(input); Ok((EMPTY_PAYLOAD.(d := x.0), x.1))
    else if op == CONST_BOOL then var x :- ReadBool(input); Ok((EMPTY_PAYLOAD.(b := x.0), x.1))
    else Ok((EMPTY_PAYLOAD, input))
  }

  /** The opcodes whose payload is one int: a constant, a function index, an argument or
      element count, or a jump target. */
  predicate HasIntOperand(op: OpCode)
  {
    op.CONST_INT? || op.CONST_FUNC? || op.CALL_VALUE? || op.ARRAY_NEW? || op.JUMP? || op.JUMP_IF_FALSE?
  }

  /** The opcodes whose payload is one string: a literal's text, a variable or a module name. */
  predicate HasTextOperand(op: OpCode)
  {
    op.CONST_BIGINT? || op.CONST_STR? || op.LOAD? || op.STORE? || op.IMPORT?
  }

  function ReadIntOperand(input: seq<byte>): (r: Reading<Payload>)
    ensures r.Ok? ==> |r.value.1| == |input| - 4
  {
    var x :- ReadInt(input);
    Ok((EMPTY_PAYLOAD.(i := x.0), x.1))
  }

  function ReadTextOperand(input: seq<byte>): (r: Reading<Payload>)
    ensures r.Ok? ==> |r.value.1| <= |input| - 4
  {
    var x :- ReadUtf(input);
    Ok((EMPTY_PAYLOAD.(s1 := Some(x.0)), x.1))
  }

  /** CALL: module, member, argument count, const flag. */
  function ReadCallOperands(input: seq<byte>): (r: Reading<Payload>)
    ensures r.Ok? ==> |r.value.1| <= |input| - 13
  {
    var m :- ReadUtf(input);
    var f :- ReadUtf(m.1);
    var n :- ReadInt(f.1);
    var c :- ReadBool(n.1);
    Ok((Payload(n.0, 0, 0, c.0, Some(m.0), Some(f.0)), c.1))
  }

  /** The opcodes writePayload writes something for. */
  predicate HasPayload(op: OpCode)
  {
    HasIntOperand(op) || HasTextOperand(op) || op.CALL? || op.CONST_LONG? || op.CONST_DOUBLE? || op.CONST_BOOL?
  }

  /** buildInstruction: the factory for the opcode, fed from the payload. */
  function BuildInstruction(op: OpCode, p: Payload, line: int, col: int, src: Option<string>): Instruction
  {
    match op
    case CONST_INT => ConstInt(p.i, line, col, src)
    case CONST_LONG => ConstLong(p.l, line, col, src)
    case CONST_DOUBLE => ConstDouble(p.d, line, col, src)
    case CONST_BIGINT => ConstBigInt(p.s1, line, col, src)
    case CONST_STR => ConstStr(p.s1, line, col, src)
    case CONST_BOOL => ConstBool(p.b, line, col, src)
    case CONST_NIL => ConstNil(line, col, src)
    case CONST_FUNC => ConstFunc(p.i, line, col, src)
    case CALL_VALUE => CallValue(p.i, line, col, src)
    case RETURN => Ret(line, col, src)
    case ARRAY_NEW => ArrayNew(p.i, line, col, src)
    case ARRAY_GET => ArrayGet(line, col, src)
    case ARRAY_SET => ArraySet(line, col, src)
    case LOAD => Load(p.s1, line, col, src)
    case STORE => Store(p.s1, line, col, src)
    case IMPORT => ImportMod(p.s1, line, col, src)
    case CALL => Call(p.s1, p.s2, p.i, p.b, line, col, src)
    case JUMP => Jump(p.i, line, col, src)
    case JUMP_IF_FALSE => JumpIfFalse(p.i, line, col, src)
    case _ => Simple(op, line, col, src)
  }

  /** opcodeByOrdinal: an ordinal outside the enum is corrupt input. */
  function OpCodeAt(ord: Int32): (r: Result<OpCode, IOFailure>)
    ensures r.Ok? <==> 0 <= ord < COUNT
    ensures r.Ok? ==> Ordinal(r.value) == ord
    ensures r.Err? ==> r.error == IOError("Corrupt DOGC: bad opcode ordinal: " + IntToDecimal(ord))
  {
    match OpCodeByOrdinal(ord)
    case Some(op) => Ok(op)
    case None => Err(IOError("Corrupt DOGC: bad opcode ordinal: " + IntToDecimal(ord)))
  }

  /** The source line after the has-source flag: read only when the flag is set. */
  function ReadSource(input: seq<byte>, hasSrc: bool): (r: Reading<Option<string>>)
    ensures r.Ok? ==> |r.value.1| <= |input| && (r.value.0.Some? <==> hasSrc)
    ensures !hasSrc ==> r == Ok((None, input))
  {
    if hasSrc then
      var s :- ReadUtf(input);
      Ok((Some(s.0), s.1))
    else Ok((None, input))
  }

  /** One pass of readChunk's instruction loop. */
  function ReadInstruction(input: seq<byte>): (r: Reading<Instruction>)
    ensures r.Ok? ==> |r.value.1| <= |input| - 13
  {
    var o :- ReadInt(input);
    var op :- OpCodeAt(o.0);
    var p :- ReadPayload(o.1, op);
    var line :- ReadInt(p.1);
    var col :- ReadInt(line.1);
    var has :- ReadBool(col.1);
    var src :- ReadSource(has.1, has.0);
    Ok((BuildInstruction(op, p.0, line.0, col.0, src.0), src.1))
  }

  /** n parameter names, read one after the other. */
  function ReadParams(input: seq<byte>, n: nat): (r: Reading<seq<string>>)
    ensures r.Ok? ==> |r.value.0| == n && |r.value.1| <= |input| - 4 * n
    decreases n
  {
    if n == 0 then Ok(([], input))
    else
      var first :- ReadUtf(input);
      var more :- ReadParams(first.1, n - 1);
      Ok(([first.0] + more.0, more.1))
  }

  /** n instructions, read one after the other. */
  function ReadCode(input: seq<byte>, n: nat): (r: Reading<seq<Instruction>>)
    ensures r.Ok? ==> |r.value.0| == n && |r.value.1| <= |input| - 13 * n
    decreases n
  {
    if n == 0 then Ok(([], input))
    else
      var first :- ReadInstruction(input);
      var more :- ReadCode(first.1, n - 1);
      Ok(([first.0] + more.0, more.1))
  }

  /** readChunk: the function table, then the code; negative counts are corrupt. */
  function ReadChunk(input: seq<byte>): (r: Reading<ChunkData>)
    ensures r.Ok? ==> |r.value.1| <= |input| - 8
    decreases |input|, 2
  {
    var fc :- ReadInt(input);
    if fc.0 < 0 then Err(IOError("Corrupt DOGC: negative functionsCount"))
    else
      var fs :- ReadFunctions(fc.1, fc.0);
      var cc :- ReadInt(fs.1);
      if cc.0 < 0 then Err(IOError("Corrupt DOGC: negative codeCount"))
      else
        var code :- ReadCode(cc.1, cc.0);
        Ok((ChunkData(code.0, fs.0), code.1))
  }

  /** n entries of a function table, read one after the other. */
  function ReadFunctions(input: seq<byte>, n: nat): (r: Reading<seq<FunctionProto>>)
    ensures r.Ok? ==> |r.value.0| == n && |r.value.1| <= |input| - 12 * n
    decreases |input|, 1, n
  {
    if n == 0 then Ok(([], input))
    else
      var first :- ReadFunction(input);
      var more :- ReadFunctions(first.1, n - 1);
      Ok(([first.0] + more.0, more.1))
  }

  /** One pass of readChunk's function loop: parameter count, parameters, body. */
  function ReadFunction(input: seq<byte>): (r: Reading<FunctionProto>)
    ensures r.Ok? ==> |r.value.1| <= |input| - 12
    decreases |input|, 0
  {
    var pc :- ReadInt(input);
    if pc.0 < 0 then Err(IOError("Corrupt DOGC: negative paramsCount"))
    else
      var ps :- ReadParams(pc.1, pc.0);
      var body :- ReadChunk(ps.1);
      Ok((NewFunctionProto(Some(ps.0), Some(body.0)), body.1))
  }

  /** readFromStream / readFromFile: the header, then one chunk; bytes after it are ignored. */
  function ReadStream(data: seq<byte>): (r: Result<ChunkData, IOFailure>)
    ensures |data| < 4 ==> r == Err(IOError("Not a DOGC file (EOF before magic)"))
    ensures |data| >= 4 && data[..4] != MAGIC ==> r == Err(IOError("Not a DOGC file (bad magic)"))
    ensures |data| >= 8 && data[..4] == MAGIC && IntOfBytes(data[4..8]) != VERSION
      ==> r == Err(IOError("Unsupported DOGC version: " + IntToDecimal(IntOfBytes(data[4..8])) + " (expected 3)"))
    ensures r.Ok? ==> |data| >= 16 && data[..4] == MAGIC && IntOfBytes(data[4..8]) == VERSION
  {
    if |data| < 4 then Err(IOError("Not a DOGC file (EOF before magic)"))
    else if data[..4] != MAGIC then Err(IOError("Not a DOGC file (bad magic)"))
    else
      assert |data| >= 8 ==> data[4..][..4] == data[4..8];
      var ver :- ReadInt(data[4..]);
      if ver.0 != VERSION then
        Err(IOError("Unsupported DOGC version: " + IntToDecimal(ver.0) + " (expected 3)"))
      else
        var c :- ReadChunk(ver.1);
        Ok(c.0)
  }

  /** The Path-based readChunk: a chunk with no header. */
  function ReadHeaderless(data: seq<byte>): (r: Result<ChunkData, IOFailure>)
    ensures r.Ok? ==> |data| >= 8
  {
    var c :- ReadChunk(data);
    Ok(c.0)
  }
}
