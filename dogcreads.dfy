/**
 * What the recursive .dogc readers give back, as named facts: a proof about
 * one layer of the format states and uses these without unfolding the layers
 * below it.
 */
module DogcReads {
  import opened Wrappers
  import opened Bytecode
  import opened Bytes
  import opened DogcFormat
  import opened DogcNormal

  predicate ParamsReadAs(input: seq<byte>, n: nat, params: seq<string>, rest: seq<byte>)
  {
    ReadParams(input, n) == Ok((params, rest))
  }

  predicate CodeReadAs(input: seq<byte>, n: nat, code: seq<Instruction>, rest: seq<byte>)
  {
    ReadCode(input, n) == Ok((code, rest))
  }

  predicate ChunkReadAs(input: seq<byte>, c: ChunkData, rest: seq<byte>)
  {
    ReadChunk(input) == Ok((c, rest))
  }

  predicate FunctionsReadAs(input: seq<byte>, n: nat, fs: seq<FunctionProto>, rest: seq<byte>)
  {
    ReadFunctions(input, n) == Ok((fs, rest))
  }

  predicate FunctionReadAs(input: seq<byte>, g: FunctionProto, rest: seq<byte>)
  {
    ReadFunction(input) == Ok((g, rest))
  }

  /** The parameter names, followed by `rest`, read back as themselves, leaving `rest`. */
  predicate ParamsComeBack(params: seq<string>, rest: seq<byte>)
  {
    ReadParams(ParamsBytes(params) + rest, |params|) == Ok((params, rest))
  }

  /** The code, followed by `rest`, reads back normalized, leaving `rest`. */
  predicate CodeComesBack(code: seq<Instruction>, rest: seq<byte>)
  {
    ReadCode(CodeBytes(code) + rest, |code|) == Ok((NormalizedCode(code), rest))
  }

  /** The chunk, followed by `rest`, reads back normalized, leaving `rest`. */
  predicate ChunkComesBack(c: ChunkData, rest: seq<byte>)
  {
    ReadChunk(ChunkBytes(c) + rest) == Ok((NormalizedChunk(c), rest))
  }

  /** The function table from entry i on, followed by `rest`, reads back normalized. */
  predicate FunctionsComeBack(c: ChunkData, i: nat, rest: seq<byte>)
  {
    i <= |c.functions|
    && ReadFunctions(FunctionsBytes(c, i) + rest, |c.functions| - i) == Ok((NormalizedFunctions(c, i), rest))
  }

  /** Entry i of the function table, followed by `rest`, reads back with its body normalized. */
  predicate FunctionComesBack(c: ChunkData, i: nat, rest: seq<byte>)
  {
    i < |c.functions|
    && ReadFunction(FunctionBytes(c, i) + rest)
       == Ok((FunctionProto(c.functions[i].params, NormalizedChunk(c.functions[i].body)), rest))
  }
}
