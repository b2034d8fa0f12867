/**
 * The invariant the compiler keeps while it fills a chunk: the code a block adds only jumps
 * inside the block (or just past it), its CONST_FUNC indices name entries of the function
 * table, and every prototype it adds has a body that ends in RETURN and is itself well formed.
 * Chunk contents are values here; the compiler's methods work on the mutable Chunk.
 */
module CodeGen {
  import opened Bytecode
  import opened OpCodes
  import opened ParseSpec

  /** c is c0 with instructions and prototypes appended (and nothing before them changed). */
  predicate Grew(c: ChunkData, c0: ChunkData)
  {
    && |c0.code| <= |c.code| && c.code[..|c0.code|] == c0.code
    && |c0.functions| <= |c.functions| && c.functions[..|c0.functions|] == c0.functions
  }

  /** Every prototype from index `from` on has a body that ends in RETURN and is well formed. */
  predicate ProtosSound(fns: seq<FunctionProto>, from: nat)
  {
    forall k :: from <= k < |fns| ==> EndsInReturn(fns[k].body) && WellFormed(fns[k].body)
  }

  /** The jumps among code[a..b] land in [lo, hi]. */
  predicate JumpsBetween(code: seq<Instruction>, a: nat, b: nat, lo: int, hi: int)
  {
    forall j :: a <= j < b && j < |code| && IsJump(code[j]) ==> lo <= code[j].jumpTarget <= hi
  }

  /** The code from instruction `from` and the prototypes from `nf` on keep the code-generation
      invariant: jumps stay in [from, |code|], function indices are in the table, and the new
      prototypes are sound. */
  predicate Extends(c: ChunkData, from: nat, nf: nat)
  {
    && from <= |c.code| && nf <= |c.functions|
    && JumpsBetween(c.code, from, |c.code|, from, |c.code|)
    && FuncRefsInRange(c.code, from, |c.functions|)
    && ProtosSound(c.functions, nf)
  }

  lemma GrewTrans(c2: ChunkData, c1: ChunkData, c0: ChunkData)
    requires Grew(c1, c0) && Grew(c2, c1)
    ensures Grew(c2, c0)
  {
    assert c2.code[..|c0.code|] == c2.code[..|c1.code|][..|c0.code|];
    assert c2.functions[..|c0.functions|] == c2.functions[..|c1.functions|][..|c0.functions|];
  }

  /** An extension of an extension is an extension of the first state. */
  lemma ExtendsTrans(c2: ChunkData, c1: ChunkData, from: nat, nf: nat)
    requires Extends(c1, from, nf) && Grew(c2, c1)
    requires Extends(c2, |c1.code|, |c1.functions|)
    ensures Extends(c2, from, nf)
  {
    forall j | from <= j < |c1.code|
      ensures c2.code[j] == c1.code[j]
    {
      assert c2.code[j] == c2.code[..|c1.code|][j];
    }
    forall k | nf <= k < |c1.functions|
      ensures c2.functions[k] == c1.functions[k]
    {
      assert c2.functions[k] == c2.functions[..|c1.functions|][k];
    }
  }

  /** Appending what a sound parse emitted extends the chunk. */
  lemma AppendSound(c: ChunkData, code: seq<Instruction>, fns: seq<FunctionProto>)
    requires Sound(Emitted(code, fns, 0, false), |c.functions|)
    ensures var c2 := ChunkData(c.code + code, c.functions + fns);
      Grew(c2, c) && Extends(c2, |c.code|, |c.functions|)
  {
    var c2 := ChunkData(c.code + code, c.functions + fns);
    assert c2.code[..|c.code|] == c.code;
    assert c2.functions[..|c.functions|] == c.functions;
    forall j | |c.code| <= j < |c2.code|
      ensures c2.code[j] == code[j - |c.code|]
    {
    }
    forall k | |c.functions| <= k < |c2.functions|
      ensures c2.functions[k] == fns[k - |c.functions|]
    {
    }
  }

  /** c is c0 with code and prototypes appended that keep the invariant on their own. */
  predicate Appended(c: ChunkData, c0: ChunkData)
  {
    Grew(c, c0) && Extends(c, |c0.code|, |c0.functions|)
  }

  lemma AppendedRefl(c: ChunkData)
    ensures Appended(c, c)
  {
    assert c.code[..|c.code|] == c.code;
    assert c.functions[..|c.functions|] == c.functions;
  }

  lemma AppendedTrans(c2: ChunkData, c1: ChunkData, c0: ChunkData)
    requires Appended(c1, c0) && Appended(c2, c1)
    ensures Appended(c2, c0)
  {
    GrewTrans(c2, c1, c0);
    ExtendsTrans(c2, c1, |c0.code|, |c0.functions|);
  }

  /** Replacing an instruction before `from` leaves an extension from `from` an extension. */
  lemma PatchKeeps(c: ChunkData, j: nat, ins: Instruction, from: nat, nf: nat)
    requires j < from && j < |c.code| && Extends(c, from, nf)
    ensures Extends(c.(code := c.code[j := ins]), from, nf)
  {
  }

  /**
   * Closing a forward jump: `pre` ends just before the jump at index |pre.code|, the code after
   * the jump extends the chunk, and the jump's target lies in the block. Then the whole block
   * extends the chunk from where `pre` started.
   */
  lemma CloseJump(pre: ChunkData, c: ChunkData, from: nat, nf: nat)
    requires Extends(pre, from, nf)
    requires |pre.code| < |c.code| && c.code[..|pre.code|] == pre.code
    requires |pre.functions| <= |c.functions| && c.functions[..|pre.functions|] == pre.functions
    requires IsJump(c.code[|pre.code|]) && from <= c.code[|pre.code|].jumpTarget <= |c.code|
    requires Extends(c, |pre.code| + 1, |pre.functions|)
    ensures Extends(c, from, nf)
  {
    forall j | from <= j < |pre.code|
      ensures c.code[j] == pre.code[j]
    {
      assert c.code[j] == c.code[..|pre.code|][j];
    }
    forall k | nf <= k < |pre.functions|
      ensures c.functions[k] == pre.functions[k]
    {
      assert c.functions[k] == c.functions[..|pre.functions|][k];
    }
  }

  /**
   * The if statement without else: condition code `pre` (from `from`), JUMP_IF_FALSE at jf,
   * then-block code, and jf patched to the end.
   */
  lemma IfClosed(pre: ChunkData, cb: ChunkData, from: nat, nf: nat) returns (c: ChunkData)
    requires Extends(pre, from, nf)
    requires Grew(cb, pre) && |pre.code| < |cb.code| && IsJump(cb.code[|pre.code|])
    requires Extends(cb, |pre.code| + 1, |pre.functions|)
    ensures c == cb.(code := cb.code[|pre.code| := WithTarget(cb.code[|pre.code|], |cb.code|)])
    ensures Extends(c, from, nf) && Grew(c, pre)
  {
    var jf := |pre.code|;
    c := cb.(code := cb.code[jf := WithTarget(cb.code[jf], |cb.code|)]);
    PatchKeeps(cb, jf, WithTarget(cb.code[jf], |cb.code|), jf + 1, |pre.functions|);
    assert c.code[..jf] == cb.code[..jf];
    CloseJump(pre, c, from, nf);
  }

  /**
   * The if statement with else: condition code `pre`, JUMP_IF_FALSE at jf, then-block code up
   * to `cb`, JUMP at je = |cb.code| appended, jf patched to je + 1, else-block code up to `ce`,
   * and je patched to the end.
   */
  lemma IfElseClosed(pre: ChunkData, cb: ChunkData, jmp: Instruction, ce: ChunkData, from: nat, nf: nat)
    returns (c: ChunkData)
    requires Extends(pre, from, nf)
    requires Grew(cb, pre) && |pre.code| < |cb.code| && IsJump(cb.code[|pre.code|]) && IsJump(jmp)
    requires Extends(cb, |pre.code| + 1, |pre.functions|)
    requires var cd := ChunkData((cb.code + [jmp])[|pre.code| := WithTarget(cb.code[|pre.code|], |cb.code| + 1)], cb.functions);
      Grew(ce, cd) && Extends(ce, |cd.code|, |cd.functions|)
    ensures c == ce.(code := ce.code[|cb.code| := WithTarget(ce.code[|cb.code|], |ce.code|)])
    ensures Extends(c, from, nf) && Grew(c, pre)
    ensures c.code[|pre.code|] == WithTarget(cb.code[|pre.code|], |cb.code| + 1)
    ensures c.code[|cb.code|] == WithTarget(jmp, |ce.code|)
  {
    var jf, je := |pre.code|, |cb.code|;
    var cd := ChunkData((cb.code + [jmp])[jf := WithTarget(cb.code[jf], je + 1)], cb.functions);
    assert ce.code[je] == cd.code[je] == jmp by {
      assert ce.code[je] == ce.code[..|cd.code|][je];
    }
    c := ce.(code := ce.code[je := WithTarget(jmp, |ce.code|)]);
    // The then-block, with jf patched, seen on its own.
    var cb2 := cb.(code := cb.code[jf := WithTarget(cb.code[jf], je + 1)]);
    PatchKeeps(cb, jf, WithTarget(cb.code[jf], je + 1), jf + 1, |pre.functions|);
    assert c.code[..je] == cb2.code by {
      assert cd.code[..je] == cb2.code;
      assert ce.code[..je] == cd.code[..je] by {
        assert ce.code[..je] == ce.code[..|cd.code|][..je];
      }
    }
    assert c.functions[..|cb2.functions|] == cb2.functions;
    PatchKeeps(ce, je, WithTarget(jmp, |ce.code|), je + 1, |cd.functions|);
    CloseJump(cb2, c, jf + 1, |pre.functions|);
    assert c.code[jf] == cd.code[jf] by {
      assert ce.code[jf] == ce.code[..|cd.code|][jf];
    }
    assert c.code[..jf] == pre.code by {
      assert ce.code[..jf] == ce.code[..|cd.code|][..jf];
      assert cd.code[..jf] == cb.code[..jf];
      assert cb.code[..jf] == cb.code[..|pre.code|];
    }
    assert c.functions[..|pre.functions|] == pre.functions by {
      assert c.functions[..|pre.functions|] == c.functions[..|cb.functions|][..|pre.functions|];
    }
    CloseJump(pre, c, from, nf);
  }

  /**
   * The while statement: condition code from `from` ending in `pre`, JUMP_IF_FALSE at jf,
   * body code up to `cb`, a JUMP back to `from` appended and jf patched to the end.
   */
  lemma WhileClosed(pre: ChunkData, cb: ChunkData, back: Instruction, c: ChunkData, from: nat, nf: nat)
    requires Extends(pre, from, nf)
    requires Grew(cb, pre) && |pre.code| < |cb.code| && IsJump(cb.code[|pre.code|])
    requires Extends(cb, |pre.code| + 1, |pre.functions|)
    requires IsJump(back) && back.jumpTarget == from
    requires var jf := |pre.code|;
      c.code == (cb.code + [back])[jf := WithTarget((cb.code + [back])[jf], |cb.code| + 1)]
    requires c.functions == cb.functions
    ensures Extends(c, from, nf) && Grew(c, pre)
    ensures c.code[|pre.code|] == WithTarget(cb.code[|pre.code|], |c.code|) && c.code[|c.code| - 1] == back
  {
    var jf := |pre.code|;
    forall j | from <= j < |c.code|
      ensures j < jf ==> c.code[j] == pre.code[j]
      ensures jf < j < |cb.code| ==> c.code[j] == cb.code[j]
    {
      if j < jf {
        assert cb.code[j] == cb.code[..|pre.code|][j];
      }
    }
    forall k | nf <= k < |pre.functions|
      ensures c.functions[k] == pre.functions[k]
    {
      assert c.functions[k] == c.functions[..|pre.functions|][k];
    }
  }

  /** The code and prototypes of a block that starts empty keep the invariant of a whole chunk. */
  lemma ExtendsWellFormed(c: ChunkData)
    requires Extends(c, 0, 0)
    ensures WellFormed(c)
  {
  }

  /**
   * A function body: after compiling into an empty chunk and appending CONST_NIL and RETURN
   * when it does not already end in RETURN, the body is sound for a prototype.
   */
  lemma BodyWithReturn(body: ChunkData, tail: seq<Instruction>, b: ChunkData)
    requires Extends(body, 0, 0)
    requires forall j :: 0 <= j < |tail| ==> !IsJump(tail[j]) && tail[j].op != CONST_FUNC
    requires b.code == body.code + tail && b.functions == body.functions && EndsInReturn(b)
    ensures WellFormed(b)
  {
    forall j | 0 <= j < |b.code|
      ensures j < |body.code| ==> b.code[j] == body.code[j]
      ensures j >= |body.code| ==> b.code[j] == tail[j - |body.code|]
    {
    }
    assert Extends(b, 0, 0);
  }

  /** Registering a sound prototype and appending CONST_FUNC with its index and a STORE. */
  lemma FunctionAdded(c: ChunkData, proto: FunctionProto, cf: Instruction, st: Instruction)
    requires EndsInReturn(proto.body) && WellFormed(proto.body)
    requires cf.op == CONST_FUNC && cf.funcIndex == |c.functions|
    requires !IsJump(st) && st.op != CONST_FUNC
    ensures var c2 := ChunkData(c.code + [cf, st], c.functions + [proto]);
      Grew(c2, c) && Extends(c2, |c.code|, |c.functions|)
  {
    var c2 := ChunkData(c.code + [cf, st], c.functions + [proto]);
    assert c2.code[..|c.code|] == c.code;
    assert c2.functions[..|c.functions|] == c.functions;
  }
}
