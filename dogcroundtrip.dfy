/**
 * What reading gives back after writing, for parameter lists, code and whole
 * chunks with their nested function tables: each reader consumes exactly the
 * bytes its writer produced, whatever follows them.
 */
module DogcRoundTrip {
  import opened Wrappers
  import opened JavaLang
  import opened Bytecode
  import opened Bytes
  import opened DogcFormat
  import opened DogcFits
  import opened DogcNormal
  import opened DogcReads
  import opened DogcFieldRoundTrip

  // ---- parameters and code ----

  lemma {:induction false} ReadParamsBytes(params: seq<string>, rest: seq<byte>)
    requires forall k :: 0 <= k < |params| ==> FitsText(params[k])
    ensures ParamsComeBack(params, rest)
  {
    if params == [] {
      assert ParamsBytes(params) + rest == rest;
    } else {
      var tail := ParamsBytes(params[1..]) + rest;
      Regroup3(UtfField(params[0]), ParamsBytes(params[1..]), rest);
      ReadUtfField(params[0], tail);
      ReadParamsBytes(params[1..], rest);
      assert [params[0]] + params[1..] == params;
      ReadParamsStep(UtfField(params[0]) + tail, |params|, params[0], tail, params[1..], rest);
    }
  }

  /** One parameter name, then the others. */
  lemma {:induction false} ReadParamsStep(input: seq<byte>, n: nat, first: string, tail: seq<byte>,
                                          more: seq<string>, rest: seq<byte>)
    requires n > 0
    requires ReadUtf(input) == Ok((first, tail)) && ParamsReadAs(tail, n - 1, more, rest)
    ensures ParamsReadAs(input, n, [first] + more, rest)
  {
  }

  lemma {:induction false} ReadCodeBytes(code: seq<Instruction>, rest: seq<byte>)
    requires forall k :: 0 <= k < |code| ==> FitsInstruction(code[k])
    ensures CodeComesBack(code, rest)
  {
    if code == [] {
      assert CodeBytes(code) + rest == rest;
    } else {
      var tail := CodeBytes(code[1..]) + rest;
      Regroup3(InstructionBytes(code[0]), CodeBytes(code[1..]), rest);
      ReadInstructionBytes(code[0], tail);
      ReadCodeBytes(code[1..], rest);
      assert NormalizedCode(code) == [Normalized(code[0])] + NormalizedCode(code[1..]);
      ReadCodeStep(InstructionBytes(code[0]) + tail, |code|, Normalized(code[0]), tail, NormalizedCode(code[1..]), rest);
    }
  }

  /** One instruction, then the others. */
  lemma {:induction false} ReadCodeStep(input: seq<byte>, n: nat, first: Instruction, tail: seq<byte>,
                                        more: seq<Instruction>, rest: seq<byte>)
    requires n > 0
    requires ReadInstruction(input) == Ok((first, tail)) && CodeReadAs(tail, n - 1, more, rest)
    ensures CodeReadAs(input, n, [first] + more, rest)
  {
  }

  // ---- chunks and function tables ----

  /** A chunk reads back as its normalized form, using exactly its bytes, whatever follows. */
  lemma {:induction false} ReadChunkBytes(c: FitChunk, rest: seq<byte>)
    ensures ChunkComesBack(c, rest)
    decreases c, 1, 0, 0
  {
    var t2 := IntField(|c.code|) + CodeBytes(c.code) + rest;
    ReadFunctionsBytes(c, 0, t2);
    ReadCodeBytes(c.code, rest);
    assert FunctionsComeBack(c, 0, t2);
    assert CodeComesBack(c.code, rest);
    ChunkFromParts(c, rest);
  }

  /** A chunk comes back once its function table and its code do. */
  lemma {:induction false} ChunkFromParts(c: ChunkData, rest: seq<byte>)
    requires |c.functions| <= INT_MAX && |c.code| <= INT_MAX
    requires FunctionsComeBack(c, 0, IntField(|c.code|) + CodeBytes(c.code) + rest)
    requires CodeComesBack(c.code, rest)
    ensures ChunkComesBack(c, rest)
  {
    var t3 := CodeBytes(c.code) + rest;
    var t2 := IntField(|c.code|) + t3;
    var t1 := FunctionsBytes(c, 0) + t2;
    var input := IntField(|c.functions|) + t1;
    Regroup5(IntField(|c.functions|), FunctionsBytes(c, 0), IntField(|c.code|), CodeBytes(c.code), rest);
    Regroup3(IntField(|c.code|), CodeBytes(c.code), rest);
    ReadIntField(|c.functions|, t1);
    ReadIntField(|c.code|, t3);
    ReadChunkStep(input, |c.functions|, t1, NormalizedFunctions(c, 0), t2, |c.code|, t3, NormalizedCode(c.code), rest);
  }

  /** The reads of a chunk, one after the other. */
  lemma {:induction false} ReadChunkStep(input: seq<byte>, nf: nat, t1: seq<byte>, fs: seq<FunctionProto>, t2: seq<byte>,
                                         nc: nat, t3: seq<byte>, code: seq<Instruction>, rest: seq<byte>)
    requires ReadInt(input) == Ok((nf, t1)) && FunctionsReadAs(t1, nf, fs, t2)
    requires ReadInt(t2) == Ok((nc, t3)) && CodeReadAs(t3, nc, code, rest)
    ensures ChunkReadAs(input, ChunkData(code, fs), rest)
  {
  }

  lemma {:induction false} ReadFunctionsBytes(c: FitChunk, i: nat, rest: seq<byte>)
    requires i <= |c.functions|
    ensures FunctionsComeBack(c, i, rest)
    decreases c, 0, |c.functions| - i + 1, 1
  {
    if i == |c.functions| {
      FunctionsEnd(c, i, rest);
    } else {
      ReadFunctionsEntry(c, i, rest);
    }
  }

  /** Entry i of the table, then the entries after it. */
  lemma {:induction false} ReadFunctionsEntry(c: FitChunk, i: nat, rest: seq<byte>)
    requires i < |c.functions|
    ensures FunctionsComeBack(c, i, rest)
    decreases c, 0, |c.functions| - i + 1, 0
  {
    var tail := FunctionsBytes(c, i + 1) + rest;
    ReadFunctionBytes(c, i, tail);
    ReadFunctionsBytes(c, i + 1, rest);
    assert FunctionComesBack(c, i, tail);
    assert FunctionsComeBack(c, i + 1, rest);
    FunctionsFromParts(c, i, rest);
  }

  /** An empty remainder of the function table reads nothing. */
  lemma {:induction false} FunctionsEnd(c: ChunkData, i: nat, rest: seq<byte>)
    requires i == |c.functions|
    ensures FunctionsComeBack(c, i, rest)
  {
    assert FunctionsBytes(c, i) + rest == rest;
  }

  /** The table from entry i on comes back once entry i and the entries after it do. */
  lemma {:induction false} FunctionsFromParts(c: ChunkData, i: nat, rest: seq<byte>)
    requires i < |c.functions|
    requires FunctionComesBack(c, i, FunctionsBytes(c, i + 1) + rest)
    requires FunctionsComeBack(c, i + 1, rest)
    ensures FunctionsComeBack(c, i, rest)
  {
    var tail := FunctionsBytes(c, i + 1) + rest;
    var g := FunctionProto(c.functions[i].params, NormalizedChunk(c.functions[i].body));
    var input := FunctionBytes(c, i) + tail;
    Regroup3(FunctionBytes(c, i), FunctionsBytes(c, i + 1), rest);
    assert FunctionsBytes(c, i) + rest == input;
    assert FunctionReadAs(input, g, tail);
    assert FunctionsReadAs(tail, |c.functions| - i - 1, NormalizedFunctions(c, i + 1), rest);
    ReadFunctionsStep(input, |c.functions| - i, g, tail, NormalizedFunctions(c, i + 1), rest);
    NormalizedFunctionsCons(c, i);
  }

  /** One entry of a function table, then the rest of it. */
  lemma {:induction false} ReadFunctionsStep(input: seq<byte>, n: nat, g: FunctionProto, tail: seq<byte>,
                                             more: seq<FunctionProto>, rest: seq<byte>)
    requires n > 0
    requires FunctionReadAs(input, g, tail) && FunctionsReadAs(tail, n - 1, more, rest)
    ensures FunctionsReadAs(input, n, [g] + more, rest)
  {
  }

  lemma {:induction false} ReadFunctionBytes(c: FitChunk, i: nat, rest: seq<byte>)
    requires i < |c.functions|
    ensures FunctionComesBack(c, i, rest)
    decreases c, 0, 0, 0
  {
    var f := c.functions[i];
    var t2 := ChunkBytes(f.body) + rest;
    ReadParamsBytes(f.params, t2);
    ReadChunkBytes(f.body, rest);
    assert ParamsComeBack(f.params, t2);
    assert ChunkComesBack(f.body, rest);
    FunctionFromParts(c, i, rest);
  }

  /** Entry i comes back once its parameters and its body do. */
  lemma {:induction false} FunctionFromParts(c: ChunkData, i: nat, rest: seq<byte>)
    requires i < |c.functions| && |c.functions[i].params| <= INT_MAX
    requires ParamsComeBack(c.functions[i].params, ChunkBytes(c.functions[i].body) + rest)
    requires ChunkComesBack(c.functions[i].body, rest)
    ensures FunctionComesBack(c, i, rest)
  {
    var f := c.functions[i];
    var t2 := ChunkBytes(f.body) + rest;
    var t1 := ParamsBytes(f.params) + t2;
    var input := IntField(|f.params|) + t1;
    Regroup4(IntField(|f.params|), ParamsBytes(f.params), ChunkBytes(f.body), rest);
    ReadIntField(|f.params|, t1);
    ReadFunctionStep(input, |f.params|, t1, f.params, t2, NormalizedChunk(f.body), rest);
  }

  /** The reads of one function: parameter count, parameters, body. */
  lemma {:induction false} ReadFunctionStep(input: seq<byte>, np: nat, t1: seq<byte>, params: seq<string>,
                                            t2: seq<byte>, body: ChunkData, rest: seq<byte>)
    requires ReadInt(input) == Ok((np, t1)) && ParamsReadAs(t1, np, params, t2)
    requires ChunkReadAs(t2, body, rest)
    ensures FunctionReadAs(input, FunctionProto(params, body), rest)
  {
  }
}
