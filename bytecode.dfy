/**
 * Instructions, function prototypes and the frozen contents of a chunk.
 * Java's nullable payload fields are Options; the int fields are unbounded
 * integers and `Int32Fields` says when they fit a Java int.
 */
module Bytecode {
  import opened Wrappers
  import opened JavaLang
  import opened OpCodes

  datatype Instruction = Instruction(
    op: OpCode,
    intVal: Option<Int32>,
    longVal: Option<Int64>,
    doubleVal: Option<DoubleBits>,   // the IEEE 754 bit pattern of the double
    text: Option<string>,
    boolVal: Option<bool>,
    name: Option<string>,
    moduleName: Option<string>,
    member: Option<string>,
    argCount: int,
    isConst: bool,
    funcIndex: int,
    jumpTarget: int,           // the only field the compiler changes after construction
    line: int,
    col: int,
    sourceLine: Option<string>)

  /** The contents of a Chunk: its instructions and its table of function prototypes. */
  datatype ChunkData = ChunkData(code: seq<Instruction>, functions: seq<FunctionProto>)

  datatype FunctionProto = FunctionProto(params: seq<string>, body: ChunkData)

  const EMPTY_CHUNK := ChunkData([], [])

  /** The field layout every factory produces: each payload field is present only for the
      opcodes that carry it, and the int fields keep their defaults (-1, -1, 0, false) elsewhere. */
  predicate Shaped(i: Instruction)
  {
    && (i.jumpTarget != -1 ==> (i.op.JUMP? || i.op.JUMP_IF_FALSE?))
    && (i.funcIndex != -1 ==> i.op == CONST_FUNC)
    && (i.argCount != 0 ==> (i.op.CALL_VALUE? || i.op.ARRAY_NEW? || i.op.CALL?))
    && (i.isConst ==> i.op == CALL)
    && (i.intVal.Some? ==> i.op == CONST_INT)
    && (i.longVal.Some? ==> i.op == CONST_LONG)
    && (i.doubleVal.Some? ==> i.op == CONST_DOUBLE)
    && (i.boolVal.Some? ==> i.op == CONST_BOOL)
    && (i.text.Some? ==> (i.op.CONST_BIGINT? || i.op.CONST_STR?))
    && (i.name.Some? ==> (i.op.LOAD? || i.op.STORE?))
    && (i.moduleName.Some? ==> (i.op.IMPORT? || i.op.CALL?))
    && (i.member.Some? ==> i.op == CALL)
  }

  /** The instruction carries the given debug information. */
  predicate Located(i: Instruction, line: int, col: int, src: Option<string>)
  {
    i.line == line && i.col == col && i.sourceLine == src
  }

  /** The private constructor with every payload absent: what `simple` builds. */
  function Bare(op: OpCode, line: int, col: int, src: Option<string>): Instruction
  {
    Instruction(op, None, None, None, None, None, None, None, None, 0, false, -1, -1, line, col, src)
  }

  function ConstInt(n: Int32, line: int, col: int, src: Option<string>): (i: Instruction)
    ensures Shaped(i) && i.op == CONST_INT && Located(i, line, col, src) && i.intVal == Some(n)
  {
    Bare(CONST_INT, line, col, src).(intVal := Some(n))
  }

  function ConstLong(n: Int64, line: int, col: int, src: Option<string>): (i: Instruction)
    ensures Shaped(i) && i.op == CONST_LONG && Located(i, line, col, src) && i.longVal == Some(n)
  {
    Bare(CONST_LONG, line, col, src).(longVal := Some(n))
  }

  function ConstDouble(bits: DoubleBits, line: int, col: int, src: Option<string>): (i: Instruction)
    ensures Shaped(i) && i.op == CONST_DOUBLE && Located(i, line, col, src) && i.doubleVal == Some(bits)
  {
    Bare(CONST_DOUBLE, line, col, src).(doubleVal := Some(bits))
  }

  function ConstBigInt(text: Option<string>, line: int, col: int, src: Option<string>): (i: Instruction)
    ensures Shaped(i) && i.op == CONST_BIGINT && Located(i, line, col, src) && i.text == text
  {
    Bare(CONST_BIGINT, line, col, src).(text := text)
  }

  function ConstStr(s: Option<string>, line: int, col: int, src: Option<string>): (i: Instruction)
    ensures Shaped(i) && i.op == CONST_STR && Located(i, line, col, src) && i.text == s
  {
    Bare(CONST_STR, line, col, src).(text := s)
  }

  function ConstBool(b: bool, line: int, col: int, src: Option<string>): (i: Instruction)
    ensures Shaped(i) && i.op == CONST_BOOL && Located(i, line, col, src) && i.boolVal == Some(b)
  {
    Bare(CONST_BOOL, line, col, src).(boolVal := Some(b))
  }

  function ConstNil(line: int, col: int, src: Option<string>): (i: Instruction)
    ensures Shaped(i) && i.op == CONST_NIL && Located(i, line, col, src)
  {
    Bare(CONST_NIL, line, col, src)
  }

  function ConstFunc(index: int, line: int, col: int, src: Option<string>): (i: Instruction)
    ensures i.op == CONST_FUNC && Located(i, line, col, src) && i.funcIndex == index
    ensures Shaped(i)
  {
    Bare(CONST_FUNC, line, col, src).(funcIndex := index)
  }

  function CallValue(argCount: int, line: int, col: int, src: Option<string>): (i: Instruction)
    ensures Shaped(i) && i.op == CALL_VALUE && Located(i, line, col, src) && i.argCount == argCount
  {
    Bare(CALL_VALUE, line, col, src).(argCount := argCount)
  }

  function Ret(line: int, col: int, src: Option<string>): (i: Instruction)
    ensures Shaped(i) && i.op == RETURN && Located(i, line, col, src)
  {
    Bare(RETURN, line, col, src)
  }

  function ArrayNew(count: int, line: int, col: int, src: Option<string>): (i: Instruction)
    ensures Shaped(i) && i.op == ARRAY_NEW && Located(i, line, col, src) && i.argCount == count
  {
    Bare(ARRAY_NEW, line, col, src).(argCount := count)
  }

  function ArrayGet(line: int, col: int, src: Option<string>): (i: Instruction)
    ensures Shaped(i) && i.op == ARRAY_GET && Located(i, line, col, src)
  {
    Bare(ARRAY_GET, line, col, src)
  }

  function ArraySet(line: int, col: int, src: Option<string>): (i: Instruction)
    ensures Shaped(i) && i.op == ARRAY_SET && Located(i, line, col, src)
  {
    Bare(ARRAY_SET, line, col, src)
  }

  /** `simple(op, ...)`: any opcode, with no payload. */
  function Simple(op: OpCode, line: int, col: int, src: Option<string>): (i: Instruction)
    ensures Shaped(i) && i.op == op && Located(i, line, col, src)
    ensures i.jumpTarget == -1 && i.funcIndex == -1 && i.argCount == 0 && !i.isConst
  {
    Bare(op, line, col, src)
  }

  function Load(name: Option<string>, line: int, col: int, src: Option<string>): (i: Instruction)
    ensures Shaped(i) && i.op == LOAD && Located(i, line, col, src) && i.name == name
  {
    Bare(LOAD, line, col, src).(name := name)
  }

  function Store(name: Option<string>, line: int, col: int, src: Option<string>): (i: Instruction)
    ensures Shaped(i) && i.op == STORE && Located(i, line, col, src) && i.name == name
  {
    Bare(STORE, line, col, src).(name := name)
  }

  function ImportMod(moduleName: Option<string>, line: int, col: int, src: Option<string>): (i: Instruction)
    ensures Shaped(i) && i.op == IMPORT && Located(i, line, col, src) && i.moduleName == moduleName
  {
    Bare(IMPORT, line, col, src).(moduleName := moduleName)
  }

  function Call(moduleName: Option<string>, member: Option<string>, argCount: int, isConst: bool,
                line: int, col: int, src: Option<string>): (i: Instruction)
    ensures Shaped(i) && i.op == CALL && Located(i, line, col, src)
    ensures i.moduleName == moduleName && i.member == member && i.argCount == argCount && i.isConst == isConst
  {
    Bare(CALL, line, col, src).(moduleName := moduleName, member := member, argCount := argCount, isConst := isConst)
  }

  function Jump(target: int, line: int, col: int, src: Option<string>): (i: Instruction)
    ensures Shaped(i) && i.op == JUMP && Located(i, line, col, src) && i.jumpTarget == target
  {
    Bare(JUMP, line, col, src).(jumpTarget := target)
  }

  function JumpIfFalse(target: int, line: int, col: int, src: Option<string>): (i: Instruction)
    ensures Shaped(i) && i.op == JUMP_IF_FALSE && Located(i, line, col, src) && i.jumpTarget == target
  {
    Bare(JUMP_IF_FALSE, line, col, src).(jumpTarget := target)
  }

  /** Patching a jump target (the public mutable field) changes nothing else. */
  function WithTarget(i: Instruction, target: int): (r: Instruction)
    ensures r.jumpTarget == target && r.(jumpTarget := i.jumpTarget) == i
  {
    i.(jumpTarget := target)
  }

  lemma PatchedJumpStaysShaped(i: Instruction, target: int)
    requires Shaped(i) && i.op in {JUMP, JUMP_IF_FALSE}
    ensures Shaped(WithTarget(i, target))
  {
  }

  /** The FunctionProto constructor: the parameter list is copied (null gives no parameters)
      and a null body becomes an empty chunk. */
  function NewFunctionProto(params: Option<seq<string>>, body: Option<ChunkData>): (p: FunctionProto)
    ensures params.Some? ==> p.params == params.value
    ensures params.None? ==> p.params == []
    ensures body.Some? ==> p.body == body.value
    ensures body.None? ==> p.body.code == [] && p.body.functions == []
  {
    FunctionProto(params.GetOr([]), body.GetOr(EMPTY_CHUNK))
  }

  // ---- well-formed code, as the compiler produces it ----

  predicate IsJump(i: Instruction)
  {
    i.op == JUMP || i.op == JUMP_IF_FALSE
  }

  /** Every jump in code[from..] targets an index in [0, |code|]. */
  predicate JumpsInRange(code: seq<Instruction>, from: nat)
  {
    forall j :: from <= j < |code| && IsJump(code[j]) ==> 0 <= code[j].jumpTarget <= |code|
  }

  /** Every CONST_FUNC in code[from..] names an entry of a table of `count` prototypes. */
  predicate FuncRefsInRange(code: seq<Instruction>, from: nat, count: nat)
  {
    forall j :: from <= j < |code| && code[j].op == CONST_FUNC ==> 0 <= code[j].funcIndex < count
  }

  predicate EndsInReturn(c: ChunkData)
  {
    |c.code| > 0 && c.code[|c.code| - 1].op == RETURN
  }

  /** The code-generation invariants: jumps in range, function indices in the table, and every
      nested function body ending in RETURN and itself well formed. */
  predicate WellFormed(c: ChunkData)
    decreases c
  {
    && JumpsInRange(c.code, 0)
    && FuncRefsInRange(c.code, 0, |c.functions|)
    && forall k :: 0 <= k < |c.functions| ==> EndsInReturn(c.functions[k].body) && WellFormed(c.functions[k].body)
  }
}
