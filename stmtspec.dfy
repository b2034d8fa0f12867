/**
 * What the compiler makes of one logical statement and of a block's header line, as pure
 * functions of the text. Each statement appends the instructions of its expressions (see
 * ParseSpec) followed by its own instruction; each error is the DogError the compiler throws.
 */
module Statements {
  import opened Wrappers
  import opened JavaLang
  import opened OpCodes
  import opened Bytecode
  import opened Values
  import opened Exceptions
  import opened LexScan
  import opened LineScan
  import opened ParseSpec

  /** What one statement appends to the chunk: instructions, and the prototypes of its lambdas. */
  datatype Stmt = Stmt(code: seq<Instruction>, fns: seq<FunctionProto>)

  const BODY_NEXT_LINE := "Put '{' at end of line. Body must be on next lines."
  const ELSE_NEXT_LINE := "Put '{' at end of line. Else body must be on next lines."
  const NEED_EXPR := "Expected expression after '='"
  const DOES_NOTHING := "This line does nothing. Use 'say <expr>' or call something like io.print(...)"

  /** stripInlineComment as a function. */
  function Stripped(raw: string): string
  {
    raw[..CodeEnd(raw)]
  }

  /** A fresh Parser over `text` at (line, col), parseExpression() and finish(). */
  function ParseAt(text: string, line: int, col: int, src: string, nf: nat, fl: FloatOps): Parse
  {
    Compiled(Source(text, line, col, src, fl), nf)
  }

  // ---- keywords found by indexOf ----

  lemma {:induction false} TrimStartSkipsBlanks(s: string)
    ensures IsBlank(s[..|s| - |TrimStart(s)|])
  {
    if s != [] && s[0] <= ' ' {
      TrimStartSkipsBlanks(s[1..]);
      var d := |s| - |TrimStart(s)|;
      forall j | 1 <= j < d
        ensures s[j] <= ' '
      {
        assert s[j] == s[1..][..d - 1][j - 1];
      }
    }
  }

  /** When the trimmed line starts with w, w follows the leading blanks. */
  lemma TrimmedStart(raw: string, w: string)
    requires StartsWith(Trim(raw), w)
    ensures var p := |raw| - |TrimStart(raw)|; OccursAt(raw, w, p) && IsBlank(raw[..p])
  {
    var p := |raw| - |TrimStart(raw)|;
    var t := TrimStart(raw);
    var u := TrimEnd(t);
    TrimStartIsSuffix(raw);
    TrimEndIsPrefix(t);
    forall i | 0 <= i < |w|
      ensures raw[p + i] == w[i]
    {
      calc {
        w[i];
        u[..|w|][i];
        u[i];
        t[..|u|][i];
        t[i];
        raw[p..][i];
      }
    }
    assert raw[p..p + |w|] == w;
    TrimStartSkipsBlanks(raw);
  }

  /** indexOf finds the first occurrence. */
  lemma FirstOccurrence(s: string, t: string, p: nat)
    requires OccursAt(s, t, p) && forall i :: 0 <= i < p ==> !OccursAt(s, t, i)
    ensures IndexOf(s, t) == p
  {
    IndexOfFromIsFirst(s, t, 0, p);
  }

  /** A keyword starting with a non-blank character cannot occur among blanks. */
  lemma NotAmongBlanks(raw: string, kw: string, p: nat)
    requires 0 < |kw| && kw[0] > ' ' && p <= |raw| && IsBlank(raw[..p])
    ensures forall i :: 0 <= i < p ==> !OccursAt(raw, kw, i)
  {
    forall i | 0 <= i < p
      ensures !OccursAt(raw, kw, i)
    {
      assert raw[i] == raw[..p][i];
    }
  }

  /** Blanks followed by w hold no '{' when w holds none. */
  lemma NoBraceBefore(raw: string, w: string, p: nat)
    requires OccursAt(raw, w, p) && IsBlank(raw[..p]) && '{' !in w
    ensures '{' !in raw[..p + |w|]
  {
    forall j | 0 <= j < p + |w|
      ensures raw[j] != '{'
    {
      if j < p {
        assert raw[j] == raw[..p][j];
      } else {
        assert raw[j] == raw[p..p + |w|][j - p];
      }
    }
  }

  /**
   * When the trimmed line starts with w (whose first character is not blank), indexOf finds
   * kw, a prefix of w, right where the leading blanks end, and w follows there.
   */
  lemma KeywordFound(raw: string, kw: string, w: string)
    requires 0 < |kw| <= |w| && w[..|kw|] == kw && w[0] > ' '
    requires StartsWith(Trim(raw), w)
    ensures var p := |raw| - |TrimStart(raw)|;
      && IndexOf(raw, kw) == p && OccursAt(raw, w, p) && IsBlank(raw[..p])
      && ('{' !in w ==> '{' !in raw[..p + |w|])
  {
    var p := |raw| - |TrimStart(raw)|;
    TrimmedStart(raw, w);
    assert OccursAt(raw, kw, p) by {
      assert raw[p..p + |kw|] == raw[p..p + |w|][..|kw|];
    }
    NotAmongBlanks(raw, kw, p);
    FirstOccurrence(raw, kw, p);
    if '{' !in w {
      NoBraceBefore(raw, w, p);
    }
  }

  // ---- block headers ----

  /** The condition of an if or while header and the column the block's code reports. */
  datatype Header = Header(cond: string, col: int)

  /**
   * compileIf / compileWhile up to the condition: the keyword's column, a '{' that ends the
   * line, and a non-empty condition between the keyword and the '{'.
   */
  function CondHeader(raw: string, line: int, kw: string): (r: Result<Header, DogError>)
    requires kw == "if" || kw == "while"
    requires StartsWith(Trim(raw), kw + " ")
    ensures IndexOfChar(raw, '{') < 0 ==> r.Err?
    ensures r.Ok? ==> r.value.cond != [] && r.value.col == IndexOf(raw, kw) + 1 >= 1
  {
    var kwIndex := IndexOf(raw, kw);
    var baseCol := if kwIndex >= 0 then kwIndex + 1 else 1;
    var brace := IndexOfChar(raw, '{');
    if brace < 0 then
      Err(At(line, baseCol, Some(raw), "Expected '{' after " + kw + " condition (use: " + kw + " cond { ... })"))
    else if Trim(Stripped(raw[brace + 1..])) != [] then
      Err(At(line, baseCol, Some(raw), BODY_NEXT_LINE))
    else
      KeywordFound(raw, kw, kw + " ");
      var cond := Trim(raw[kwIndex + |kw|..brace]);
      if cond == [] then Err(At(line, baseCol, Some(raw), "Expected condition after '" + kw + "'"))
      else Ok(Header(cond, baseCol))
  }

  /** compileElseBlock's checks of the else line; Ok(()) when the body may follow. */
  function ElseHeader(raw: string, line: int): (r: Result<(), DogError>)
    ensures r.Ok? ==> IndexOf(raw, "else") >= 0 && IndexOfFrom(raw, "{", IndexOf(raw, "else")) >= 0
    ensures r.Err? ==> r.error.column == 1
  {
    var elsePos := IndexOf(raw, "else");
    if elsePos < 0 then Err(At(line, 1, Some(raw), "Expected 'else'"))
    else
      var brace := IndexOfFrom(raw, "{", elsePos);
      if brace < 0 then Err(At(line, 1, Some(raw), "Expected '{' after else"))
      else if Trim(Stripped(raw[brace + 1..])) != [] then Err(At(line, 1, Some(raw), ELSE_NEXT_LINE))
      else Ok(())
  }

  /** A fn header split into the function's name and the text between its parentheses. */
  datatype Signature = Signature(name: string, paramsText: string, col: int)

  /** compileFn up to the parameter list. */
  function FnSignature(raw: string, line: int): (r: Result<Signature, DogError>)
    requires StartsWith(Trim(raw), "fn ")
    ensures IndexOfChar(raw, '{') < 0 ==> r.Err?
    ensures r.Ok? ==> IdentText(r.value.name) && r.value.col == IndexOf(raw, "fn") + 1 >= 1
  {
    var fnPos := IndexOf(raw, "fn");
    var baseCol := if fnPos >= 0 then fnPos + 1 else 1;
    var brace := IndexOfChar(raw, '{');
    if brace < 0 then Err(At(line, baseCol, Some(raw), "Expected '{' after fn header"))
    else if Trim(Stripped(raw[brace + 1..])) != [] then Err(At(line, baseCol, Some(raw), BODY_NEXT_LINE))
    else
      KeywordFound(raw, "fn", "fn ");
      var header := Trim(raw[fnPos + 2..brace]);
      var lp := IndexOfChar(header, '(');
      var rp := LastIndexOfChar(header, ')');
      if lp < 0 || rp < 0 || rp < lp then Err(At(line, baseCol, Some(raw), "Bad fn header. Use: fn name(a,b) {"))
      else
        var name := Trim(header[..lp]);
        if !IdentText(name) then Err(At(line, baseCol, Some(raw), "Bad function name: " + name))
        else Ok(Signature(name, Trim(header[lp + 1..rp]), baseCol))
  }

  /** Drops the empty strings at the end of a list. */
  function DropTrailingEmpty(parts: seq<string>): (r: seq<string>)
    ensures |r| <= |parts| && r == parts[..|r|]
    ensures r == [] || r[|r| - 1] != []
  {
    if parts != [] && parts[|parts| - 1] == [] then DropTrailingEmpty(parts[..|parts| - 1]) else parts
  }

  /** String.split(",") with no limit: the pieces between commas, the empty ones at the end
      dropped (the whole string when it holds no comma). */
  function SplitCommas(s: string): seq<string>
  {
    if IndexOf(s, ",") == -1 then [s] else DropTrailingEmpty(SplitLiteral(s, ","))
  }

  /** The trimmed parameter names of compileFn's loop, or the first one that is no identifier. */
  function ParamList(parts: seq<string>, line: int, col: int, raw: string): Result<seq<string>, DogError>
    decreases |parts|
  {
    if parts == [] then Ok([])
    else
      var ps :- ParamList(parts[..|parts| - 1], line, col, raw);
      var id := Trim(parts[|parts| - 1]);
      if IdentText(id) then Ok(ps + [id]) else Err(At(line, col, Some(raw), "Bad parameter name: " + id))
  }

  /** The first bad parameter ends the list: the error of a prefix is the error of the whole. */
  lemma {:induction false} ParamListErrorStays(parts: seq<string>, n: nat, line: int, col: int, raw: string)
    requires n <= |parts| && ParamList(parts[..n], line, col, raw).Err?
    ensures ParamList(parts, line, col, raw) == ParamList(parts[..n], line, col, raw)
    decreases |parts| - n
  {
    if n < |parts| {
      assert parts[..n + 1][..n] == parts[..n];
      ParamListErrorStays(parts, n + 1, line, col, raw);
    } else {
      assert parts[..n] == parts;
    }
  }

  /** The parameters of a fn header: none for an empty list, else the split pieces. */
  function Params(paramsText: string, line: int, col: int, raw: string): Result<seq<string>, DogError>
  {
    if paramsText == [] then Ok([]) else ParamList(SplitCommas(paramsText), line, col, raw)
  }

  // ---- what every statement keeps ----

  /** A statement's code has no jumps, names only prototypes in the table, and adds sound ones. */
  predicate StmtSound(st: Stmt, nf: nat)
  {
    Sound(Emitted(st.code, st.fns, 0, false), nf)
  }

  /** An expression's code followed by an instruction that is neither a jump nor CONST_FUNC. */
  lemma ThenOne(e: Emitted, ins: Instruction, nf: nat)
    requires Sound(e, nf) && !IsJump(ins) && ins.op != CONST_FUNC
    ensures StmtSound(Stmt(e.code + [ins], e.fns), nf)
  {
    var code := e.code + [ins];
    forall j | 0 <= j < |code|
      ensures j < |e.code| ==> code[j] == e.code[j]
    {
    }
  }

  /** The statement made of `e`'s code and one more plain instruction. */
  function Followed(e: Emitted, ins: Instruction, nf: nat): (r: Stmt)
    requires Sound(e, nf) && !IsJump(ins) && ins.op != CONST_FUNC
    ensures StmtSound(r, nf) && r.code != [] && r.code[|r.code| - 1] == ins && r.fns == e.fns
  {
    ThenOne(e, ins, nf);
    Stmt(e.code + [ins], e.fns)
  }

  /** Code without jumps followed by code without jumps has none. */
  lemma NoJumpsAppend(a: seq<Instruction>, b: seq<Instruction>)
    requires NoJumps(a) && NoJumps(b)
    ensures NoJumps(a + b)
  {
    forall j | 0 <= j < |a + b|
      ensures !IsJump((a + b)[j])
    {
      if j < |a| { assert (a + b)[j] == a[j]; } else { assert (a + b)[j] == b[j - |a|]; }
    }
  }

  /** Function indices in range on both sides of a concatenation are in range in it. */
  lemma FuncRefsAppend(a: seq<Instruction>, b: seq<Instruction>, count: nat)
    requires FuncRefsInRange(a, 0, count) && FuncRefsInRange(b, 0, count)
    ensures FuncRefsInRange(a + b, 0, count)
  {
    forall j | 0 <= j < |a + b| && (a + b)[j].op == CONST_FUNC
      ensures 0 <= (a + b)[j].funcIndex < count
    {
      if j < |a| { assert (a + b)[j] == a[j]; } else { assert (a + b)[j] == b[j - |a|]; }
    }
  }

  /** A larger function table keeps the indices in range. */
  lemma FuncRefsWiden(a: seq<Instruction>, count: nat, wider: nat)
    requires FuncRefsInRange(a, 0, count) && count <= wider
    ensures FuncRefsInRange(a, 0, wider)
  {
  }

  /** Two lists of sound prototypes form one. */
  lemma FunctionsAppend(a: seq<FunctionProto>, b: seq<FunctionProto>)
    requires FunctionsSound(a) && FunctionsSound(b)
    ensures FunctionsSound(a + b)
  {
    forall k | 0 <= k < |a + b|
      ensures EndsInReturn((a + b)[k].body) && WellFormed((a + b)[k].body)
    {
      if k < |a| { assert (a + b)[k] == a[k]; } else { assert (a + b)[k] == b[k - |a|]; }
    }
  }

  /** Two sound statements in a row form a sound statement. */
  lemma SoundAppend(a: Stmt, b: Stmt, nf: nat)
    requires StmtSound(a, nf) && StmtSound(b, nf + |a.fns|)
    ensures StmtSound(Stmt(a.code + b.code, a.fns + b.fns), nf)
  {
    NoJumpsAppend(a.code, b.code);
    FuncRefsWiden(a.code, nf + |a.fns|, nf + |a.fns + b.fns|);
    FuncRefsAppend(a.code, b.code, nf + |a.fns + b.fns|);
    FunctionsAppend(a.fns, b.fns);
  }

  /** Instructions that are neither jumps nor CONST_FUNC form a sound statement. */
  lemma PlainSound(code: seq<Instruction>, nf: nat)
    requires forall j :: 0 <= j < |code| ==> !IsJump(code[j]) && code[j].op != CONST_FUNC
    ensures StmtSound(Stmt(code, []), nf)
  {
  }

  /** The array store: LOAD, the index code, the value code, ARRAY_SET and POP. */
  lemma ArraySetSound(head: Instruction, idx: Emitted, val: Emitted, tail: seq<Instruction>, nf: nat)
    requires Sound(idx, nf) && Sound(val, nf + |idx.fns|)
    requires !IsJump(head) && head.op != CONST_FUNC
    requires forall j :: 0 <= j < |tail| ==> !IsJump(tail[j]) && tail[j].op != CONST_FUNC
    ensures StmtSound(Stmt([head] + idx.code + val.code + tail, idx.fns + val.fns), nf)
  {
    var h := Stmt([head], []);
    var i := Stmt(idx.code, idx.fns);
    var v := Stmt(val.code, val.fns);
    var t := Stmt(tail, []);
    PlainSound([head], nf);
    SoundAppend(h, i, nf);
    var hi := Stmt([head] + idx.code, idx.fns);
    assert hi == Stmt(h.code + i.code, h.fns + i.fns);
    SoundAppend(hi, v, nf);
    var hiv := Stmt([head] + idx.code + val.code, idx.fns + val.fns);
    assert hiv == Stmt(hi.code + v.code, hi.fns + v.fns);
    PlainSound(tail, nf + |hiv.fns|);
    SoundAppend(hiv, t, nf);
    assert hiv.fns + t.fns == idx.fns + val.fns;
  }

  // ---- one statement ----

  /** import <module>. */
  function ImportStmt(raw: string, trimmed: string, line: int, src: string): (r: Result<Stmt, DogError>)
    requires StartsWith(trimmed, "import ")
    ensures r.Ok? ==> StmtSound(r.value, 0) && |r.value.code| == 1 && r.value.code[0].op == IMPORT
  {
    var col := SkipWhitespace(raw, 0) + 1;
    var mod := Trim(trimmed[7..]);
    if mod == [] then Err(At(line, col, Some(src), "Expected module name after import"))
    else Ok(Stmt([ImportMod(Some(mod), line, col, Some(src))], []))
  }

  /** return, with or without a value: the statement's code ends in RETURN. */
  function ReturnStmt(raw: string, trimmed: string, line: int, src: string, nf: nat, fl: FloatOps): (r: Result<Stmt, DogError>)
    requires StartsWith(trimmed, "return")
    ensures r.Ok? ==> StmtSound(r.value, nf) && EndsInReturn(ChunkData(r.value.code, []))
  {
    var col := SkipWhitespace(raw, 0) + 1;
    var rest := Trim(trimmed[6..]);
    if rest == [] then Ok(Stmt([ConstNil(line, col, Some(src)), Ret(line, col, Some(src))], []))
    else
      ReturnValue(rest, line, col, src, nf, fl)
  }

  /** `return e`: the code of e, then RETURN. */
  function ReturnValue(rest: string, line: int, col: int, src: string, nf: nat, fl: FloatOps): (r: Result<Stmt, DogError>)
    ensures r.Ok? ==> StmtSound(r.value, nf) && r.value.code != [] && r.value.code[|r.value.code| - 1] == Ret(line, col, Some(src))
  {
    var e :- ParseAt(rest, line, col, src, nf, fl);
    Ok(Followed(e, Ret(line, col, Some(src)), nf))
  }

  /** say <expr>: the expression starts at the first non-blank after "say"; PRINT follows. */
  function SayStmt(raw: string, line: int, src: string, nf: nat, fl: FloatOps): (r: Result<Stmt, DogError>)
    requires StartsWith(Trim(raw), "say")
    ensures r.Ok? ==> StmtSound(r.value, nf) && r.value.code != [] && r.value.code[|r.value.code| - 1].op == PRINT
  {
    KeywordFound(raw, "say", "say");
    var after := IndexOf(raw, "say") + 3;
    if Trim(raw[after..]) == [] then Err(At(line, after + 1, Some(src), "Expected expression after 'say'"))
    else
      SayExpr(raw, SkipWhitespace(raw, after), line, src, nf, fl)
  }

  /** The expression of a say statement, starting at `exprStart`, then PRINT. */
  function SayExpr(raw: string, exprStart: nat, line: int, src: string, nf: nat, fl: FloatOps): (r: Result<Stmt, DogError>)
    requires exprStart <= |raw|
    ensures r.Ok? ==> StmtSound(r.value, nf) && r.value.code != [] && r.value.code[|r.value.code| - 1].op == PRINT
  {
    var e :- ParseAt(raw[exprStart..], line, exprStart + 1, src, nf, fl);
    Ok(Followed(e, Simple(PRINT, line, exprStart + 1, Some(src)), nf))
  }

  /** let <name> = <expr>: STORE of the name follows the expression. */
  function LetStmt(raw: string, trimmed: string, line: int, src: string, nf: nat, fl: FloatOps): (r: Result<Stmt, DogError>)
    requires StartsWith(trimmed, "let ")
    ensures r.Ok? ==> StmtSound(r.value, nf) && r.value.code != [] && r.value.code[|r.value.code| - 1].op == STORE
  {
    var baseCol := IndexOf(raw, "let") + 1;
    var rest := Trim(trimmed[4..]);
    var eq := IndexOfChar(rest, '=');
    if eq < 0 then Err(At(line, baseCol, Some(src), "Expected '=' in let statement"))
    else
      var name := Trim(rest[..eq]);
      var expr := Trim(rest[eq + 1..]);
      if !IdentText(name) then Err(At(line, baseCol, Some(src), "Bad variable name: " + name))
      else if expr == [] then Err(At(line, baseCol, Some(src), NEED_EXPR))
      else
        LetValue(name, expr, line, baseCol, src, nf, fl)
  }

  /** `let name = expr`: the code of expr, then STORE into name. */
  function LetValue(name: string, expr: string, line: int, col: int, src: string, nf: nat, fl: FloatOps): (r: Result<Stmt, DogError>)
    ensures r.Ok? ==> StmtSound(r.value, nf) && r.value.code != [] && r.value.code[|r.value.code| - 1] == Store(Some(name), line, col, Some(src))
  {
    var e :- ParseAt(expr, line, col, src, nf, fl);
    Ok(Followed(e, Store(Some(name), line, col, Some(src)), nf))
  }

  /** tryCompileArraySet: None when the line is no `name[index] = value`. */
  function ArraySetStmt(raw: string, line: int, src: string, nf: nat, fl: FloatOps): (r: Option<Result<Stmt, DogError>>)
    ensures r.Some? && r.value.Ok? ==> StmtSound(r.value.value, nf) && |r.value.value.code| >= 3
    ensures r.Some? ==> AssignIndex(Trim(raw)) >= 0
  {
    var trimmed := Trim(raw);
    var eq := AssignIndex(trimmed);
    if eq < 0 then None
    else
      AssignFromFound(trimmed, 0);
      var left := Trim(trimmed[..eq]);
      var right := Trim(trimmed[eq + 1..]);
      var lb := IndexOfChar(left, '[');
      var rb := LastIndexOfChar(left, ']');
      if lb < 0 || rb < 0 || rb < lb then None
      else
        var name := Trim(left[..lb]);
        var idxExpr := Trim(left[lb + 1..rb]);
        if !IdentText(name) then None
        else if idxExpr == [] then Some(Err(At(line, 1, Some(src), "Expected index expression inside []")))
        else if right == [] then Some(Err(At(line, 1, Some(src), NEED_EXPR)))
        else
          var col := SkipWhitespace(raw, 0) + 1;
          Some(ArraySetCode(name, idxExpr, right, line, col, src, nf, fl))
  }

  /** LOAD name, the index, the value, ARRAY_SET and POP. */
  function ArraySetCode(name: string, idxExpr: string, right: string, line: int, col: int, src: string, nf: nat, fl: FloatOps): (r: Result<Stmt, DogError>)
    ensures r.Ok? ==> StmtSound(r.value, nf) && |r.value.code| >= 3
  {
    var idx :- ParseAt(idxExpr, line, col, src, nf, fl);
    ArraySetValue(name, idx, right, line, col, src, nf, fl)
  }

  /** The value part of an array store, after the index expression `idx`. */
  function ArraySetValue(name: string, idx: Emitted, right: string, line: int, col: int, src: string, nf: nat, fl: FloatOps): (r: Result<Stmt, DogError>)
    requires Sound(idx, nf)
    ensures r.Ok? ==> StmtSound(r.value, nf) && |r.value.code| >= 3
  {
    var val :- ParseAt(right, line, col, src, nf + |idx.fns|, fl);
    Ok(ArraySetOf(name, idx, val, line, col, src, nf))
  }

  /** LOAD name, the index code, the value code, ARRAY_SET, POP. */
  function ArraySetOf(name: string, idx: Emitted, val: Emitted, line: int, col: int, src: string, nf: nat): (r: Stmt)
    requires Sound(idx, nf) && Sound(val, nf + |idx.fns|)
    ensures StmtSound(r, nf) && |r.code| >= 3
    ensures r.code[0].op == LOAD && r.code[|r.code| - 2].op == ARRAY_SET && r.code[|r.code| - 1].op == POP
  {
    var head := Load(Some(name), line, col, Some(src));
    var tail := [ArraySet(line, col, Some(src)), Simple(POP, line, col, Some(src))];
    ArraySetSound(head, idx, val, tail, nf);
    Stmt([head] + idx.code + val.code + tail, idx.fns + val.fns)
  }

  /** <name> = <expr>, at the first top-level assignment '='. */
  function AssignStmt(raw: string, trimmed: string, assignPos: nat, line: int, src: string, nf: nat, fl: FloatOps): (r: Result<Stmt, DogError>)
    requires assignPos < |trimmed|
    ensures r.Ok? ==> StmtSound(r.value, nf) && r.value.code != [] && r.value.code[|r.value.code| - 1].op == STORE
  {
    var left := Trim(trimmed[..assignPos]);
    var right := Trim(trimmed[assignPos + 1..]);
    var col := SkipWhitespace(raw, 0) + 1;
    if !IdentText(left) then Err(At(line, col, Some(src), "Bad assignment target: " + left))
    else if right == [] then Err(At(line, col, Some(src), NEED_EXPR))
    else
      var e :- ParseAt(right, line, col, src, nf, fl);
      Ok(Followed(e, Store(Some(left), line, col, Some(src)), nf))
  }

  /** compileExprStatement: an expression is kept only when it calls something; its value is
      popped. */
  function ExprStmt(raw: string, line: int, src: string, nf: nat, fl: FloatOps): (r: Result<Stmt, DogError>)
    ensures r.Ok? ==> StmtSound(r.value, nf) && r.value.code != [] && r.value.code[|r.value.code| - 1].op == POP
    ensures r.Ok? <==> ParseAt(raw[SkipWhitespace(raw, 0)..], line, SkipWhitespace(raw, 0) + 1, src, nf, fl).Ok?
                        && ParseAt(raw[SkipWhitespace(raw, 0)..], line, SkipWhitespace(raw, 0) + 1, src, nf, fl).value.call
  {
    var exprStart := SkipWhitespace(raw, 0);
    var e :- ParseAt(raw[exprStart..], line, exprStart + 1, src, nf, fl);
    if !e.call then Err(At(line, exprStart + 1, Some(src), DOES_NOTHING))
    else
      Ok(Followed(e, Simple(POP, line, exprStart + 1, Some(src)), nf))
  }

  /**
   * compileSingleLine: the statement kinds are tried in order (import, return, say, let, array
   * set, assignment, expression), each by a prefix of the trimmed text without its comment.
   * Every statement it accepts keeps the code-generation invariant.
   */
  function SingleLine(rawOriginal: string, line: int, nf: nat, fl: FloatOps): (r: Result<Stmt, DogError>)
    ensures r.Ok? ==> StmtSound(r.value, nf)
  {
    var raw := Stripped(rawOriginal);
    var trimmed := Trim(raw);
    if trimmed == [] then Ok(Stmt([], []))
    else if StartsWith(trimmed, "import ") then ImportStmt(raw, trimmed, line, rawOriginal)
    else if StartsWith(trimmed, "return") then ReturnStmt(raw, trimmed, line, rawOriginal, nf, fl)
    else if StartsWith(trimmed, "say") then SayStmt(raw, line, rawOriginal, nf, fl)
    else if StartsWith(trimmed, "let ") then LetStmt(raw, trimmed, line, rawOriginal, nf, fl)
    else match ArraySetStmt(raw, line, rawOriginal, nf, fl)
      case Some(r) => r
      case None =>
        AssignFromFound(trimmed, 0);
        var assignPos := AssignIndex(trimmed);
        if assignPos >= 0 then AssignStmt(raw, trimmed, assignPos, line, rawOriginal, nf, fl)
        else ExprStmt(raw, line, rawOriginal, nf, fl)
  }
}
