/**
 * The instructions and chunks the .dogc reader builds from what the writer
 * wrote: each instruction rebuilt through its opcode's factory, with the
 * writer's defaults in place of absent payloads.
 */
module DogcNormal {
  import opened Wrappers
  import opened JavaLang
  import opened OpCodes
  import opened Bytecode
  import opened DogcFormat

  /** The instruction the reader builds from what the writer wrote for `ins`. */
  function Normalized(ins: Instruction): (r: Instruction)
    ensures r.op == ins.op && Located(r, ins.line, ins.col, ins.sourceLine) && Shaped(r)
  {
    var l, c, s := ins.line, ins.col, ins.sourceLine;
    match ins.op
    case CONST_INT => ConstInt(ins.intVal.GetOr(0), l, c, s)
    case CONST_LONG => ConstLong(ins.longVal.GetOr(0), l, c, s)
    case CONST_DOUBLE => ConstDouble(DoubleToLongBits(ins.doubleVal.GetOr(0)), l, c, s)
    case CONST_BIGINT => ConstBigInt(Some(ins.text.GetOr("0")), l, c, s)
    case CONST_STR => ConstStr(Some(ins.text.GetOr("")), l, c, s)
    case CONST_BOOL => ConstBool(ins.boolVal == Some(true), l, c, s)
    case CONST_FUNC => ConstFunc(ins.funcIndex, l, c, s)
    case CALL_VALUE => CallValue(ins.argCount, l, c, s)
    case ARRAY_NEW => ArrayNew(ins.argCount, l, c, s)
    case LOAD => Load(Some(ins.name.GetOr("")), l, c, s)
    case STORE => Store(Some(ins.name.GetOr("")), l, c, s)
    case IMPORT => ImportMod(Some(ins.moduleName.GetOr("")), l, c, s)
    case CALL => Call(Some(ins.moduleName.GetOr("")), Some(ins.member.GetOr("")), ins.argCount, ins.isConst, l, c, s)
    case JUMP => Jump(ins.jumpTarget, l, c, s)
    case JUMP_IF_FALSE => JumpIfFalse(ins.jumpTarget, l, c, s)
    case _ => Simple(ins.op, l, c, s)
  }

  function NormalizedCode(code: seq<Instruction>): (r: seq<Instruction>)
    ensures |r| == |code|
  {
    if code == [] then [] else [Normalized(code[0])] + NormalizedCode(code[1..])
  }

  /** Code is normalized instruction by instruction. */
  lemma {:induction false} NormalizedCodeAt(code: seq<Instruction>)
    ensures forall k :: 0 <= k < |code| ==> NormalizedCode(code)[k] == Normalized(code[k])
  {
    if code != [] {
      NormalizedCodeAt(code[1..]);
      assert NormalizedCode(code) == [Normalized(code[0])] + NormalizedCode(code[1..]);
    }
  }

  function NormalizedChunk(c: ChunkData): (r: ChunkData)
    ensures |r.functions| == |c.functions|
    decreases c, 1
  {
    ChunkData(NormalizedCode(c.code), NormalizedFunctions(c, 0))
  }

  /** The function table from the i-th entry on, each body normalized. */
  function NormalizedFunctions(c: ChunkData, i: nat): (r: seq<FunctionProto>)
    requires i <= |c.functions|
    ensures |r| == |c.functions| - i
    decreases c, 0, |c.functions| - i
  {
    if i == |c.functions| then []
    else
      var f := c.functions[i];
      [FunctionProto(f.params, NormalizedChunk(f.body))] + NormalizedFunctions(c, i + 1)
  }

  /** Normalizing a chunk keeps every function's parameters and normalizes its body. */
  lemma {:induction false} NormalizedFunctionsAt(c: ChunkData, i: nat)
    requires i <= |c.functions|
    ensures forall k :: i <= k < |c.functions| ==>
      NormalizedFunctions(c, i)[k - i] == FunctionProto(c.functions[k].params, NormalizedChunk(c.functions[k].body))
    decreases |c.functions| - i
  {
    if i < |c.functions| {
      NormalizedFunctionsAt(c, i + 1);
      var f := c.functions[i];
      assert NormalizedFunctions(c, i) == [FunctionProto(f.params, NormalizedChunk(f.body))] + NormalizedFunctions(c, i + 1);
    }
  }

  lemma NormalizedFunctionsCons(c: ChunkData, i: nat)
    requires i < |c.functions|
    ensures NormalizedFunctions(c, i)
      == [FunctionProto(c.functions[i].params, NormalizedChunk(c.functions[i].body))] + NormalizedFunctions(c, i + 1)
  {
  }

  lemma NormalizedChunkParts(c: ChunkData)
    ensures NormalizedChunk(c).code == NormalizedCode(c.code)
    ensures forall k :: 0 <= k < |c.functions| ==>
      NormalizedChunk(c).functions[k] == FunctionProto(c.functions[k].params, NormalizedChunk(c.functions[k].body))
  {
    NormalizedFunctionsAt(c, 0);
  }

  /** The opcode's payload is present (and a double is not a non-canonical NaN). */
  predicate Complete(ins: Instruction)
  {
    && (ins.op == CONST_INT ==> ins.intVal.Some?)
    && (ins.op == CONST_LONG ==> ins.longVal.Some?)
    && (ins.op == CONST_DOUBLE ==> ins.doubleVal.Some? && (!IsNaN(ins.doubleVal.value) || ins.doubleVal.value == CANONICAL_NAN))
    && ((ins.op.CONST_BIGINT? || ins.op.CONST_STR?) ==> ins.text.Some?)
    && (ins.op == CONST_BOOL ==> ins.boolVal.Some?)
    && ((ins.op.LOAD? || ins.op.STORE?) ==> ins.name.Some?)
    && ((ins.op.IMPORT? || ins.op.CALL?) ==> ins.moduleName.Some?)
    && (ins.op == CALL ==> ins.member.Some?)
  }

  /** Instructions with the factories' layout and their payload come back unchanged. */
  lemma {:induction false} CompleteInstructionSurvives(ins: Instruction)
    requires Shaped(ins) && Complete(ins)
    ensures Normalized(ins) == ins
  {
    match ins.op
    case CONST_INT | CONST_LONG | CONST_DOUBLE | CONST_BIGINT | CONST_STR | CONST_BOOL | CONST_NIL =>
      ConstantSurvives(ins);
    case CONST_FUNC | CALL_VALUE | ARRAY_NEW | JUMP | JUMP_IF_FALSE =>
      NumberOperandSurvives(ins);
    case LOAD | STORE | IMPORT | CALL =>
      NameOperandSurvives(ins);
    case _ =>
      assert Normalized(ins) == Simple(ins.op, ins.line, ins.col, ins.sourceLine);
  }

  /** The constants: the value is kept, and a double's bits are already canonical. */
  lemma ConstantSurvives(ins: Instruction)
    requires Shaped(ins) && Complete(ins)
    requires ins.op.CONST_INT? || ins.op.CONST_LONG? || ins.op.CONST_DOUBLE? || ins.op.CONST_BIGINT?
          || ins.op.CONST_STR? || ins.op.CONST_BOOL? || ins.op.CONST_NIL?
    ensures Normalized(ins) == ins
  {
    if ins.op == CONST_DOUBLE {
      assert DoubleToLongBits(ins.doubleVal.value) == ins.doubleVal.value;
    } else if ins.op == CONST_BOOL {
      if ins.boolVal.value {
        assert ins.boolVal == Some(true);
      } else {
        assert ins.boolVal == Some(false);
      }
    }
  }

  /** The opcodes with a function index, a count or a jump target. */
  lemma NumberOperandSurvives(ins: Instruction)
    requires Shaped(ins) && Complete(ins)
    requires ins.op.CONST_FUNC? || ins.op.CALL_VALUE? || ins.op.ARRAY_NEW? || ins.op.JUMP? || ins.op.JUMP_IF_FALSE?
    ensures Normalized(ins) == ins
  {
  }

  /** The opcodes with a variable, module or member name. */
  lemma NameOperandSurvives(ins: Instruction)
    requires Shaped(ins) && Complete(ins)
    requires ins.op.LOAD? || ins.op.STORE? || ins.op.IMPORT? || ins.op.CALL?
    ensures Normalized(ins) == ins
  {
  }

  /** Absent payloads come back as the writer's defaults rather than as absent. */
  lemma {:induction false} AbsentPayloadsComeBackAsDefaults(ins: Instruction)
    ensures ins.op == CONST_BIGINT && ins.text.None? ==> Normalized(ins).text == Some("0")
    ensures ins.op == CONST_STR && ins.text.None? ==> Normalized(ins).text == Some("")
    ensures ins.op in {LOAD, STORE} && ins.name.None? ==> Normalized(ins).name == Some("")
    ensures ins.op in {IMPORT, CALL} && ins.moduleName.None? ==> Normalized(ins).moduleName == Some("")
    ensures ins.op == CALL && ins.member.None? ==> Normalized(ins).member == Some("")
    ensures ins.op == CONST_INT && ins.intVal.None? ==> Normalized(ins).intVal == Some(0)
    ensures ins.op == CONST_BOOL && ins.boolVal.None? ==> Normalized(ins).boolVal == Some(false)
  {
  }
}
