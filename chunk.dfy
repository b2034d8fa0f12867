/** The mutable Chunk the compiler and the bytecode reader fill in. */
module Chunks {
  import opened Bytecode

  class Chunk {
    var code: seq<Instruction>
    var functions: seq<FunctionProto>

    constructor ()
      ensures code == [] && functions == []
    {
      code := [];
      functions := [];
    }

    /** The chunk's current contents as a value. */
    function Contents(): ChunkData
      reads this
    {
      ChunkData(code, functions)
    }

    /** Appends an instruction and returns its index; the function table is untouched. */
    method Add(ins: Instruction) returns (index: int)
      modifies this
      ensures code == old(code) + [ins] && functions == old(functions)
      ensures index == old(|code|) && code[index] == ins
    {
      code := code + [ins];
      index := |code| - 1;
    }

    /** Replaces the instruction at `index` and nothing else. */
    method Set(index: int, ins: Instruction)
      requires 0 <= index < |code|
      modifies this
      ensures code == old(code)[index := ins] && functions == old(functions)
    {
      code := code[index := ins];
    }

    function Size(): (n: nat)
      reads this
      ensures n == |Contents().code|
    {
      |code|
    }

    /** Appends a prototype and returns its index; the instruction list is untouched. */
    method AddFunction(proto: FunctionProto) returns (index: int)
      modifies this
      ensures functions == old(functions) + [proto] && code == old(code)
      ensures index == old(|functions|) && 0 <= index < |functions|
      ensures GetFunction(index) == proto
    {
      functions := functions + [proto];
      index := |functions| - 1;
    }

    function GetFunction(index: int): FunctionProto
      requires 0 <= index < |functions|
      reads this
    {
      functions[index]
    }
  }
}
