/**
 * BytecodeCompiler: turns the lines of a program into a Chunk. Blocks (if / else, while, fn)
 * are compiled by loops over the line index that keep a brace depth, append to the chunk and
 * patch the targets of forward jumps once the block's end is known. Every other line is one
 * statement (see Statements), whose code is appended as a whole.
 *
 * Each method that fills a chunk promises the code-generation invariant of CodeGen for what it
 * appended, and the if and while compilers promise the exact targets of the jumps they patch.
 * On an error the source throws and the chunk is dropped, so nothing is promised about the
 * chunk then.
 */
module Compiler {
  import opened Wrappers
  import opened JavaLang
  import opened OpCodes
  import opened Bytecode
  import opened Values
  import opened Exceptions
  import opened Chunks
  import opened LexScan
  import opened LineScan
  import opened ParseSpec
  import opened CodeGen
  import opened Statements

  /** The lines a block body passes over without compiling them. */
  predicate Skipped(tr: string)
  {
    tr == [] || StartsWith(tr, "#") || tr == "{" || tr == "}" || StartsWith(tr, "}")
  }

  /** The lines that open a nested block. */
  predicate Opens(tr: string)
  {
    StartsWith(tr, "if ") || StartsWith(tr, "while ") || StartsWith(tr, "fn ")
  }

  /** What one body line took: the last line index used, and the brace balance the block adds
      for the lines after the first one. */
  datatype Consumed = Consumed(last: nat, delta: int)

  /** How a block loop ended: at its closing line, on an error, or at the end of the lines. */
  datatype Close = Closed(line: nat) | Failed(error: DogError) | Unclosed

  /** Appends a statement's instructions and prototypes, one at a time. */
  method Emit(chunk: Chunk, st: Stmt)
    modifies chunk
    ensures chunk.code == old(chunk.code) + st.code
    ensures chunk.functions == old(chunk.functions) + st.fns
  {
    var j := 0;
    while j < |st.code|
      invariant 0 <= j <= |st.code|
      invariant chunk.code == old(chunk.code) + st.code[..j]
      invariant chunk.functions == old(chunk.functions)
    {
      var _ := chunk.Add(st.code[j]);
      assert st.code[..j + 1] == st.code[..j] + [st.code[j]];
      j := j + 1;
    }
    assert st.code[..j] == st.code;
    j := 0;
    while j < |st.fns|
      invariant 0 <= j <= |st.fns|
      invariant chunk.code == old(chunk.code) + st.code
      invariant chunk.functions == old(chunk.functions) + st.fns[..j]
    {
      var _ := chunk.AddFunction(st.fns[j]);
      assert st.fns[..j + 1] == st.fns[..j] + [st.fns[j]];
      j := j + 1;
    }
    assert st.fns[..j] == st.fns;
  }

  /** Appends a sound statement: the chunk grows by exactly its code and prototypes. */
  method EmitSound(chunk: Chunk, st: Stmt)
    requires StmtSound(st, |chunk.functions|)
    modifies chunk
    ensures chunk.code == old(chunk.code) + st.code
    ensures chunk.functions == old(chunk.functions) + st.fns
    ensures Appended(chunk.Contents(), old(chunk.Contents()))
  {
    AppendSound(chunk.Contents(), st.code, st.fns);
    Emit(chunk, st);
  }

  /** compileSingleLine: the statement's code is appended, or its error returned. */
  method CompileSingleLine(rawOriginal: string, line: int, chunk: Chunk, fl: FloatOps)
    returns (err: Option<DogError>)
    modifies chunk
    ensures var r := SingleLine(rawOriginal, line, old(|chunk.functions|), fl);
      && (r.Err? ==> err == Some(r.error))
      && (r.Ok? ==> err.None? && chunk.code == old(chunk.code) + r.value.code
                    && chunk.functions == old(chunk.functions) + r.value.fns)
    ensures err.None? ==> Appended(chunk.Contents(), old(chunk.Contents()))
  {
    var r := SingleLine(rawOriginal, line, |chunk.functions|, fl);
    if r.Err? {
      return Some(r.error);
    }
    EmitSound(chunk, r.value);
    return None;
  }

  /** The condition of an if or while header: its code is appended; the result is the column
      the header's instructions report. */
  method EmitCondition(raw: string, line: int, kw: string, chunk: Chunk, fl: FloatOps)
    returns (r: Result<int, DogError>)
    requires kw == "if" || kw == "while"
    requires StartsWith(Trim(raw), kw + " ")
    modifies chunk
    ensures match CondHeader(raw, line, kw)
      case Err(e) => r == Err(e)
      case Ok(h) =>
        match ParseAt(h.cond, line, h.col, raw, old(|chunk.functions|), fl)
        case Err(e) => r == Err(e)
        case Ok(cond) =>
          && r == Ok(h.col)
          && chunk.code == old(chunk.code) + cond.code
          && chunk.functions == old(chunk.functions) + cond.fns
    ensures r.Ok? ==> Appended(chunk.Contents(), old(chunk.Contents()))
  {
    var h := CondHeader(raw, line, kw);
    if h.Err? {
      return Err(h.error);
    }
    var cond := ParseAt(h.value.cond, line, h.value.col, raw, |chunk.functions|, fl);
    if cond.Err? {
      return Err(cond.error);
    }
    EmitSound(chunk, Stmt(cond.value.code, cond.value.fns));
    return Ok(h.value.col);
  }

  /** The header of an if or while: its condition's code (the chunk is then `pre`) and a
      JUMP_IF_FALSE at jf whose target is not known yet. */
  method OpenCondition(raw: string, line: int, kw: string, chunk: Chunk, fl: FloatOps)
    returns (r: Result<int, DogError>, jf: nat, ghost pre: ChunkData)
    requires kw == "if" || kw == "while"
    requires StartsWith(Trim(raw), kw + " ")
    modifies chunk
    ensures CondHeader(raw, line, kw).Err? ==> r == Err(CondHeader(raw, line, kw).error)
    ensures r.Ok? ==>
      && CondHeader(raw, line, kw).Ok? && r.value == CondHeader(raw, line, kw).value.col
      && Appended(pre, old(chunk.Contents())) && jf == |pre.code|
      && chunk.code == pre.code + [JumpIfFalse(-1, line, r.value, Some(raw))]
      && chunk.functions == pre.functions
  {
    jf, pre := 0, chunk.Contents();
    r := EmitCondition(raw, line, kw, chunk, fl);
    if r.Err? {
      return;
    }
    pre := chunk.Contents();
    jf := chunk.Add(JumpIfFalse(-1, line, r.value, Some(raw)));
  }

  /** A statement line: the logical line that starts at k is read and compiled; the result is
      the index of its last line. */
  method CompileStatement(lines: seq<string>, k: nat, chunk: Chunk, fl: FloatOps) returns (r: Result<nat, DogError>)
    requires k < |lines|
    modifies chunk
    ensures r.Ok? ==> k <= r.value < |lines| && Appended(chunk.Contents(), old(chunk.Contents()))
  {
    var raw, last := ReadLogicalLine(lines, k);
    var err := CompileSingleLine(raw, k + 1, chunk, fl);
    if err.Some? {
      return Err(err.value);
    }
    return Ok(last);
  }

  /** The line that holds the else of an if whose then-block closed at `close`, or -1: the
      closing line itself when it reads "} else", else the next line when it starts with "else"
      or "} else". */
  function ElseLine(lines: seq<string>, close: nat): (r: int)
    requires close < |lines|
    ensures r == -1 || (close <= r <= close + 1 && r < |lines|)
    ensures r == close <==> StartsWith(Trim(lines[close]), "} else")
    ensures r == close + 1 ==> StartsWith(Trim(lines[r]), "else") || StartsWith(Trim(lines[r]), "} else")
    ensures r == -1 && close + 1 < |lines| ==>
      !StartsWith(Trim(lines[close + 1]), "else") && !StartsWith(Trim(lines[close + 1]), "} else")
  {
    if StartsWith(Trim(lines[close]), "} else") then close
    else if close + 1 < |lines|
      && (StartsWith(Trim(lines[close + 1]), "else") || StartsWith(Trim(lines[close + 1]), "} else"))
    then close + 1
    else -1
  }

  /**
   * compileIf. The condition's code is followed by a JUMP_IF_FALSE at jf. Without an else, jf
   * is patched to the end of the then-block. With one, a JUMP at je follows the then-block, jf
   * is patched to the else-block's first instruction je + 1, and je to the end of the
   * else-block. The result is the index of the last line of the statement.
   */
  method CompileIf(lines: seq<string>, i: nat, chunk: Chunk, fl: FloatOps)
    returns (r: Result<nat, DogError>, jf: nat, je: int)
    requires i < |lines| && StartsWith(Trim(lines[i]), "if ")
    modifies chunk
    decreases |lines| - i, 3
    ensures CondHeader(lines[i], i + 1, "if").Err? ==> r == Err(CondHeader(lines[i], i + 1, "if").error)
    ensures r.Ok? ==> i < r.value < |lines| && Appended(chunk.Contents(), old(chunk.Contents()))
    ensures r.Ok? ==> old(|chunk.code|) <= jf < |chunk.code| && chunk.code[jf].op == JUMP_IF_FALSE
    ensures r.Ok? && je < 0 ==> chunk.code[jf].jumpTarget == |chunk.code|
    ensures r.Ok? && je >= 0 ==>
      && jf < je < |chunk.code| && chunk.code[je].op == JUMP
      && chunk.code[jf].jumpTarget == je + 1 && chunk.code[je].jumpTarget == |chunk.code|
  {
    je := -1;
    ghost var c0 := chunk.Contents();
    var line := i + 1;
    var col;
    ghost var pre;
    col, jf, pre := OpenCondition(lines[i], line, "if", chunk, fl);
    if col.Err? {
      return Err(col.error), jf, je;
    }
    ghost var withJump := chunk.Contents();
    var thenClose := ThenBlock(lines, i, chunk, fl);
    if thenClose.Err? {
      return Err(thenClose.error), jf, je;
    }
    ghost var cb := chunk.Contents();
    AppendedGrew(cb, withJump, pre, jf);
    var elseLine := ElseLine(lines, thenClose.value);
    if elseLine != -1 {
      var jmp := Jump(-1, line, col.value, Some(lines[i]));
      r, je := ElsePart(lines, elseLine, jf, jmp, chunk, fl, pre, |c0.code|, |c0.functions|);
      if r.Ok? {
        GrewTrans(chunk.Contents(), pre, c0);
      }
      return r, jf, je;
    }
    chunk.Set(jf, WithTarget(chunk.code[jf], |chunk.code|));
    ghost var c := IfClosed(pre, cb, |c0.code|, |c0.functions|);
    GrewTrans(c, pre, c0);
    return Ok(thenClose.value), jf, je;
  }

  /**
   * The else half of compileIf. On entry the chunk is `pre` (the condition, from instruction
   * `from` on), the JUMP_IF_FALSE at jf = |pre.code| and the then-block. A JUMP at je is
   * appended, jf is patched to je + 1, the else-block is compiled, and je is patched to its end.
   */
  method ElsePart(lines: seq<string>, e: nat, jf: nat, jmp: Instruction, chunk: Chunk, fl: FloatOps,
                  ghost pre: ChunkData, ghost from: nat, ghost nf: nat)
    returns (r: Result<nat, DogError>, je: int)
    requires e < |lines| && IsJump(jmp) && jf == |pre.code|
    requires Extends(pre, from, nf)
    requires var cb := chunk.Contents();
      Grew(cb, pre) && |pre.code| < |cb.code| && IsJump(cb.code[|pre.code|])
      && Extends(cb, |pre.code| + 1, |pre.functions|)
    modifies chunk
    decreases |lines| - e, 3
    ensures je == old(|chunk.code|)
    ensures r.Ok? ==>
      && e < r.value < |lines|
      && Extends(chunk.Contents(), from, nf) && Grew(chunk.Contents(), pre)
      && je < |chunk.code| && chunk.code[je] == WithTarget(jmp, |chunk.code|)
      && chunk.code[jf] == WithTarget(old(chunk.code[jf]), je + 1)
  {
    ghost var cb := chunk.Contents();
    je := chunk.Add(jmp);
    assert chunk.code[jf] == cb.code[jf];
    chunk.Set(jf, WithTarget(chunk.code[jf], |chunk.code|));
    ghost var cd := chunk.Contents();
    assert cd == ChunkData((cb.code + [jmp])[jf := WithTarget(cb.code[jf], |cb.code| + 1)], cb.functions);
    r := ElseBlock(lines, e, chunk, fl);
    if r.Err? {
      return;
    }
    ghost var ce := chunk.Contents();
    chunk.Set(je, WithTarget(chunk.code[je], |chunk.code|));
    ghost var c := IfElseClosed(pre, cb, jmp, ce, from, nf);
  }

  /** After the condition `pre`, the jump at jf and a block appended to it: cb grew from pre,
      keeps the jump at jf, and the block extends from just past it. */
  lemma AppendedGrew(cb: ChunkData, withJump: ChunkData, pre: ChunkData, jf: nat)
    requires jf == |pre.code| < |withJump.code| && withJump.code == pre.code + [withJump.code[jf]]
    requires withJump.functions == pre.functions && IsJump(withJump.code[jf])
    requires Appended(cb, withJump)
    ensures Grew(cb, pre) && |pre.code| < |cb.code| && IsJump(cb.code[jf])
    ensures cb.code[jf] == withJump.code[jf]
    ensures Extends(cb, |pre.code| + 1, |pre.functions|)
  {
    assert cb.code[jf] == cb.code[..|withJump.code|][jf];
    assert Grew(withJump, pre) by {
      assert withJump.code[..|pre.code|] == pre.code;
    }
    GrewTrans(cb, withJump, pre);
  }

  /**
   * compileThenBlock: from the if line, whose braces count, to the line where the depth
   * returns to zero. A line starting with "} else" counts as one closing brace only.
   */
  method ThenBlock(lines: seq<string>, i: nat, chunk: Chunk, fl: FloatOps) returns (r: Result<nat, DogError>)
    requires i < |lines|
    modifies chunk
    decreases |lines| - i, 2
    ensures r.Ok? ==> i < r.value < |lines| && Appended(chunk.Contents(), old(chunk.Contents()))
  {
    ghost var c0 := chunk.Contents();
    AppendedRefl(c0);
    var depth := BraceDelta(lines[i]);
    var k := i + 1;
    while k < |lines|
      invariant i < k <= |lines|
      invariant Appended(chunk.Contents(), c0)
      decreases |lines| - k
    {
      if StartsWith(Trim(lines[k]), "} else") {
        depth := depth - 1;
        if depth == 0 {
          return Ok(k);
        }
      } else {
        var d := BraceDelta(lines[k]);
        depth := depth + d;
        if depth == 0 {
          return Ok(k);
        }
        ghost var before := chunk.Contents();
        var step := BodyLine(lines, k, chunk, fl);
        if step.Err? {
          return Err(step.error);
        }
        AppendedTrans(chunk.Contents(), before, c0);
        depth := depth + step.value.delta;
        k := step.value.last;
      }
      k := k + 1;
    }
    return Err(At(i + 1, 1, Some(lines[i]), "Unclosed block: missing '}'"));
  }

  /**
   * The loop shared by compileElseBlock, compileWhileBlock and compileFn: from line `from` with
   * brace depth `depth0`, each line's braces count first and the loop closes where the depth
   * is zero; otherwise the line is compiled into `chunk`.
   */
  method BlockLoop(lines: seq<string>, from: nat, depth0: int, chunk: Chunk, fl: FloatOps) returns (r: Close)
    modifies chunk
    decreases |lines| - from, 6
    ensures r.Closed? ==> from <= r.line < |lines| && Appended(chunk.Contents(), old(chunk.Contents()))
    ensures from >= |lines| ==> r == Unclosed && chunk.Contents() == old(chunk.Contents())
  {
    ghost var c0 := chunk.Contents();
    AppendedRefl(c0);
    var depth := depth0;
    var k := from;
    while k < |lines|
      invariant from <= k || from >= |lines|
      invariant Appended(chunk.Contents(), c0)
      invariant from >= |lines| ==> chunk.Contents() == c0
      decreases |lines| - k
    {
      var d := BraceDelta(lines[k]);
      depth := depth + d;
      if depth == 0 {
        return Closed(k);
      }
      ghost var before := chunk.Contents();
      var step := BodyLine(lines, k, chunk, fl);
      if step.Err? {
        return Failed(step.error);
      }
      AppendedTrans(chunk.Contents(), before, c0);
      depth := depth + step.value.delta;
      k := step.value.last + 1;
    }
    return Unclosed;
  }

  /** compileElseBlock: the else line's checks, then the body at depth one. */
  method ElseBlock(lines: seq<string>, e: nat, chunk: Chunk, fl: FloatOps) returns (r: Result<nat, DogError>)
    requires e < |lines|
    modifies chunk
    decreases |lines| - e, 2
    ensures ElseHeader(lines[e], e + 1).Err? ==> r == Err(ElseHeader(lines[e], e + 1).error)
    ensures r.Ok? ==> e < r.value < |lines| && Appended(chunk.Contents(), old(chunk.Contents()))
  {
    var h := ElseHeader(lines[e], e + 1);
    if h.Err? {
      return Err(h.error);
    }
    var close := BlockLoop(lines, e + 1, 1, chunk, fl);
    match close {
      case Closed(k) => return Ok(k);
      case Failed(err) => return Err(err);
      case Unclosed => return Err(At(e + 1, 1, Some(lines[e]), "Unclosed else block: missing '}'"));
    }
  }

  /**
   * compileWhile. The loop starts at the condition's first instruction `start`; the condition
   * is followed by a JUMP_IF_FALSE at jf, the body, and a JUMP back to `start`; jf is patched
   * to the instruction after that JUMP.
   */
  method CompileWhile(lines: seq<string>, i: nat, chunk: Chunk, fl: FloatOps)
    returns (r: Result<nat, DogError>, jf: nat)
    requires i < |lines| && StartsWith(Trim(lines[i]), "while ")
    modifies chunk
    decreases |lines| - i, 3
    ensures CondHeader(lines[i], i + 1, "while").Err? ==> r == Err(CondHeader(lines[i], i + 1, "while").error)
    ensures r.Ok? ==> i < r.value < |lines| && Appended(chunk.Contents(), old(chunk.Contents()))
    ensures r.Ok? ==>
      && old(|chunk.code|) <= jf < |chunk.code| - 1 && chunk.code[jf].op == JUMP_IF_FALSE
      && chunk.code[jf].jumpTarget == |chunk.code|
      && chunk.code[|chunk.code| - 1].op == JUMP && chunk.code[|chunk.code| - 1].jumpTarget == old(|chunk.code|)
  {
    ghost var c0 := chunk.Contents();
    var line := i + 1;
    var loopStart := |chunk.code|;
    var col;
    ghost var pre;
    col, jf, pre := OpenCondition(lines[i], line, "while", chunk, fl);
    if col.Err? {
      return Err(col.error), jf;
    }
    ghost var withJump := chunk.Contents();
    var close := WhileBlock(lines, i, chunk, fl);
    if close.Err? {
      return Err(close.error), jf;
    }
    ghost var cb := chunk.Contents();
    AppendedGrew(cb, withJump, pre, jf);
    CloseLoop(chunk, jf, Jump(loopStart, line, col.value, Some(lines[i])), pre, |c0.code|, |c0.functions|);
    GrewTrans(chunk.Contents(), pre, c0);
    return Ok(close.value), jf;
  }

  /** The end of compileWhile: the JUMP back to the loop's start `from` is appended and the
      JUMP_IF_FALSE at jf is patched to the instruction after it. */
  method CloseLoop(chunk: Chunk, jf: nat, back: Instruction, ghost pre: ChunkData, ghost from: nat, ghost nf: nat)
    requires jf == |pre.code| && Extends(pre, from, nf)
    requires var cb := chunk.Contents();
      Grew(cb, pre) && |pre.code| < |cb.code| && IsJump(cb.code[|pre.code|])
      && Extends(cb, |pre.code| + 1, |pre.functions|)
    requires IsJump(back) && back.jumpTarget == from
    modifies chunk
    ensures Extends(chunk.Contents(), from, nf) && Grew(chunk.Contents(), pre)
    ensures chunk.code == old(chunk.code)[jf := WithTarget(old(chunk.code)[jf], |chunk.code|)] + [back]
  {
    ghost var cb := chunk.Contents();
    var _ := chunk.Add(back);
    chunk.Set(jf, WithTarget(chunk.code[jf], |chunk.code|));
    WhileClosed(pre, cb, back, chunk.Contents(), from, nf);
  }

  /** compileWhileBlock: the while line's braces count, then the body. */
  method WhileBlock(lines: seq<string>, i: nat, chunk: Chunk, fl: FloatOps) returns (r: Result<nat, DogError>)
    requires i < |lines|
    modifies chunk
    decreases |lines| - i, 2
    ensures r.Ok? ==> i < r.value < |lines| && Appended(chunk.Contents(), old(chunk.Contents()))
  {
    var d := BraceDelta(lines[i]);
    var close := BlockLoop(lines, i + 1, d, chunk, fl);
    match close {
      case Closed(k) => return Ok(k);
      case Failed(err) => return Err(err);
      case Unclosed => return Err(At(i + 1, 1, Some(lines[i]), "Unclosed while block: missing '}'"));
    }
  }

  /** compileFn's parameter loop: the trimmed pieces of the list, each an identifier. */
  method CollectParams(paramsText: string, line: int, col: int, raw: string) returns (r: Result<seq<string>, DogError>)
    ensures r == Params(paramsText, line, col, raw)
  {
    if paramsText == [] {
      return Ok([]);
    }
    var parts := SplitCommas(paramsText);
    var params: seq<string> := [];
    var j := 0;
    while j < |parts|
      invariant 0 <= j <= |parts|
      invariant ParamList(parts[..j], line, col, raw) == Ok(params)
    {
      assert parts[..j + 1][..j] == parts[..j];
      var id := Trim(parts[j]);
      var ok := IsIdent(id);
      if !ok {
        ParamListErrorStays(parts, j + 1, line, col, raw);
        return Err(At(line, col, Some(raw), "Bad parameter name: " + id));
      }
      params := params + [id];
      j := j + 1;
    }
    assert parts[..j] == parts;
    return Ok(params);
  }

  /**
   * compileFn. The body is compiled into a fresh chunk; CONST_NIL and RETURN are appended when
   * it does not already end in RETURN; the prototype is registered and CONST_FUNC with its index
   * and a STORE of the function's name follow in the enclosing chunk.
   */
  method CompileFn(lines: seq<string>, i: nat, chunk: Chunk, fl: FloatOps) returns (r: Result<nat, DogError>)
    requires i < |lines| && StartsWith(Trim(lines[i]), "fn ")
    modifies chunk
    decreases |lines| - i, 3
    ensures FnSignature(lines[i], i + 1).Err? ==> r == Err(FnSignature(lines[i], i + 1).error)
    ensures FnSignature(lines[i], i + 1).Ok? ==>
      var sig := FnSignature(lines[i], i + 1).value;
      && (Params(sig.paramsText, i + 1, sig.col, lines[i]).Err? ==>
            r == Err(Params(sig.paramsText, i + 1, sig.col, lines[i]).error))
      && (r.Ok? ==>
            && |chunk.functions| == old(|chunk.functions|) + 1
            && chunk.functions[..old(|chunk.functions|)] == old(chunk.functions)
            && var proto := chunk.functions[old(|chunk.functions|)];
            && Params(sig.paramsText, i + 1, sig.col, lines[i]) == Ok(proto.params)
            && EndsInReturn(proto.body) && WellFormed(proto.body)
            && chunk.code == old(chunk.code) + [ConstFunc(old(|chunk.functions|), i + 1, sig.col, Some(lines[i])),
                                                 Store(Some(sig.name), i + 1, sig.col, Some(lines[i]))])
    ensures r.Ok? ==> i < r.value < |lines| && Appended(chunk.Contents(), old(chunk.Contents()))
  {
    var raw := lines[i];
    var line := i + 1;
    var sig := FnSignature(raw, line);
    if sig.Err? {
      return Err(sig.error);
    }
    var col := sig.value.col;
    var params := CollectParams(sig.value.paramsText, line, col, raw);
    if params.Err? {
      return Err(params.error);
    }
    var close, body := FnBody(lines, i, col, fl);
    if close.Err? {
      return Err(close.error);
    }
    var proto := FunctionProto(params.value, body);
    ghost var c0 := chunk.Contents();
    var fnIndex := chunk.AddFunction(proto);
    var cf := ConstFunc(fnIndex, line, col, Some(raw));
    var st := Store(Some(sig.value.name), line, col, Some(raw));
    var _ := chunk.Add(cf);
    var _ := chunk.Add(st);
    FunctionAdded(c0, proto, cf, st);
    assert chunk.functions[..|c0.functions|] == c0.functions;
    return Ok(close.value);
  }

  /**
   * The body of the fn whose header is line i, compiled into a fresh chunk and ended with
   * CONST_NIL and RETURN (reported at the header's line and column) unless its last
   * instruction already is a RETURN.
   */
  method FnBody(lines: seq<string>, i: nat, col: int, fl: FloatOps) returns (r: Result<nat, DogError>, body: ChunkData)
    requires i < |lines|
    decreases |lines| - i, 2
    ensures r.Ok? ==> i < r.value < |lines| && EndsInReturn(body) && WellFormed(body)
  {
    var raw := lines[i];
    var line := i + 1;
    var chunk := new Chunk();
    body := chunk.Contents();
    var d := BraceDelta(raw);
    var close := BlockLoop(lines, i + 1, d, chunk, fl);
    if close.Failed? {
      return Err(close.error), body;
    } else if close.Unclosed? {
      return Err(At(line, col, Some(raw), "Unclosed fn block: missing '}'")), body;
    }
    EndWithReturn(chunk, line, col, raw);
    return Ok(close.line), chunk.Contents();
  }

  /** The end of compileFn's body: CONST_NIL and RETURN at the header's position, unless the
      body's last instruction is already a RETURN. */
  method EndWithReturn(chunk: Chunk, line: int, col: int, raw: string)
    requires Extends(chunk.Contents(), 0, 0)
    modifies chunk
    ensures EndsInReturn(chunk.Contents()) && WellFormed(chunk.Contents())
    ensures chunk.functions == old(chunk.functions)
    ensures EndsInReturn(old(chunk.Contents())) ==> chunk.code == old(chunk.code)
    ensures !EndsInReturn(old(chunk.Contents())) ==>
      chunk.code == old(chunk.code) + [ConstNil(line, col, Some(raw)), Ret(line, col, Some(raw))]
  {
    ghost var b0 := chunk.Contents();
    if |chunk.code| == 0 || chunk.code[|chunk.code| - 1].op != RETURN {
      var _ := chunk.Add(ConstNil(line, col, Some(raw)));
      var _ := chunk.Add(Ret(line, col, Some(raw)));
      BodyWithReturn(b0, [ConstNil(line, col, Some(raw)), Ret(line, col, Some(raw))], chunk.Contents());
    } else {
      BodyWithReturn(b0, [], chunk.Contents());
    }
  }

  /** A line that opens a nested if, while or fn block; the result is the block's last line. */
  method NestedBlock(lines: seq<string>, k: nat, chunk: Chunk, fl: FloatOps) returns (r: Result<nat, DogError>)
    requires k < |lines| && Opens(Trim(lines[k]))
    modifies chunk
    decreases |lines| - k, 4
    ensures r.Ok? ==> k < r.value < |lines| && Appended(chunk.Contents(), old(chunk.Contents()))
  {
    var tr := Trim(lines[k]);
    var jf: nat, je: int;
    if StartsWith(tr, "if ") {
      r, jf, je := CompileIf(lines, k, chunk, fl);
    } else if StartsWith(tr, "while ") {
      r, jf := CompileWhile(lines, k, chunk, fl);
    } else {
      r := CompileFn(lines, k, chunk, fl);
    }
  }

  /**
   * One line of a block body that did not close the block: skipped, compiled as a nested if,
   * while or fn (whose lines after the first then count toward the depth), or read as a logical
   * line and compiled as one statement (whose continuation lines do not count).
   */
  method BodyLine(lines: seq<string>, k: nat, chunk: Chunk, fl: FloatOps) returns (r: Result<Consumed, DogError>)
    requires k < |lines|
    modifies chunk
    decreases |lines| - k, 5
    ensures r.Ok? ==> k <= r.value.last < |lines| && Appended(chunk.Contents(), old(chunk.Contents()))
    ensures Skipped(Trim(lines[k])) ==> r == Ok(Consumed(k, 0)) && chunk.Contents() == old(chunk.Contents())
    ensures r.Ok? && !Skipped(Trim(lines[k])) && Opens(Trim(lines[k])) ==>
      k < r.value.last && r.value.delta == DeltaSum(lines, k + 1, r.value.last + 1)
    ensures r.Ok? && !Skipped(Trim(lines[k])) && !Opens(Trim(lines[k])) ==> r.value.delta == 0
  {
    var tr := Trim(lines[k]);
    if Skipped(tr) {
      AppendedRefl(chunk.Contents());
      return Ok(Consumed(k, 0));
    }
    if Opens(tr) {
      var end := NestedBlock(lines, k, chunk, fl);
      if end.Err? {
        return Err(end.error);
      }
      var d := BraceDeltaRange(lines, k, end.value);
      return Ok(Consumed(end.value, d));
    }
    var last := CompileStatement(lines, k, chunk, fl);
    if last.Err? {
      return Err(last.error);
    }
    return Ok(Consumed(last.value, 0));
  }

  /**
   * compile: the top-level loop. Blank and comment lines are skipped; if, while and fn compile
   * their blocks; anything else is read as a logical line and compiled as one statement. On
   * success the chunk is well formed: every jump lands in the code or just past it, every
   * CONST_FUNC names a prototype, and every prototype's body ends in RETURN and is well formed.
   */
  method Compile(lines: seq<string>, fl: FloatOps) returns (chunk: Chunk, err: Option<DogError>)
    ensures fresh(chunk)
    ensures err.None? ==> WellFormed(chunk.Contents())
  {
    chunk := new Chunk();
    var i := 0;
    while i < |lines|
      invariant 0 <= i <= |lines|
      invariant Extends(chunk.Contents(), 0, 0)
      decreases |lines| - i
    {
      var t0 := Trim(lines[i]);
      ghost var before := chunk.Contents();
      if t0 == [] || StartsWith(t0, "#") {
        i := i + 1;
        continue;
      }
      var end: Result<nat, DogError>;
      if Opens(t0) {
        end := NestedBlock(lines, i, chunk, fl);
      } else {
        end := CompileStatement(lines, i, chunk, fl);
      }
      if end.Err? {
        return chunk, Some(end.error);
      }
      ExtendsTrans(chunk.Contents(), before, 0, 0);
      i := end.value + 1;
    }
    ExtendsWellFormed(chunk.Contents());
    return chunk, None;
  }
}
