/**
 * What a Java program can hold: int fields, and strings whose UTF-8 form has
 * a length that fits an int. The round trip of the .dogc format is stated for
 * chunks within these limits.
 */
module DogcFits {
  import opened Wrappers
  import opened JavaLang
  import opened Bytecode

  predicate FitsInt(x: int) { INT_MIN <= x <= INT_MAX }

  /** Short enough that its UTF-8 form, at most four bytes a character, has an int length. */
  predicate FitsText(s: string) { 4 * |s| <= INT_MAX }

  predicate FitsOptText(o: Option<string>) { o.Some? ==> FitsText(o.value) }

  predicate FitsInstruction(ins: Instruction)
  {
    && FitsInt(ins.argCount) && FitsInt(ins.funcIndex) && FitsInt(ins.jumpTarget)
    && FitsInt(ins.line) && FitsInt(ins.col)
    && FitsOptText(ins.text) && FitsOptText(ins.name) && FitsOptText(ins.moduleName)
    && FitsOptText(ins.member) && FitsOptText(ins.sourceLine)
  }

  predicate FitsParams(params: seq<string>)
  {
    |params| <= INT_MAX && forall k :: 0 <= k < |params| ==> FitsText(params[k])
  }

  predicate Fits(c: ChunkData)
    decreases c
  {
    && |c.code| <= INT_MAX && |c.functions| <= INT_MAX
    && (forall k :: 0 <= k < |c.code| ==> FitsInstruction(c.code[k]))
    && (forall k :: 0 <= k < |c.functions| ==> FitsParams(c.functions[k].params) && Fits(c.functions[k].body))
  }

  /** A chunk within those limits throughout. */
  type FitChunk = c: ChunkData | Fits(c) witness ChunkData([], [])
}
