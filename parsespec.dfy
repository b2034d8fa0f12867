/**
 * What the compiler's expression parser emits, as pure functions over the
 * expression text and a position in it. Each function is one parsing method
 * of the Parser class: it either fails with the DogException the method
 * throws, or returns the instructions it appends, the prototypes it adds to
 * the function table, the position it stops at and whether it parsed a call.
 *
 * Precedence, loosest first: equality (== != <>), comparison (< > <= >=),
 * addition (+ -), multiplication (* /), unary (! -), then postfix calls and
 * indexing after a primary. Every binary level is a loop, so operators
 * associate to the left, and each operator is emitted after both operands.
 */
module ParseSpec {
  import opened Wrappers
  import opened JavaLang
  import opened OpCodes
  import opened Bytecode
  import opened Values
  import opened Exceptions
  import opened LexScan
  import opened LineScan

  /** One Parser's fixed inputs: the expression text, the line number, the column of the
      text's first character, the whole source line for diagnostics, and the double parser. */
  datatype Source = Source(s: string, line: int, baseCol: int, fullLine: string, fl: FloatOps)

  /** What a parse appended: instructions, function prototypes, the position reached and
      whether a call was parsed (the Parser's didCall). */
  datatype Emitted = Emitted(code: seq<Instruction>, fns: seq<FunctionProto>, pos: nat, call: bool)

  /** A comma-separated list: the code of its items, and how many there were. */
  datatype Listed = Listed(items: Emitted, count: nat)

  type Parse = Result<Emitted, DogError>

  const ARGS_MSG := "Expected ',' or ')' in arguments"
  const ARRAY_MSG := "Expected ',' or ']' in array literal"

  // ---- the Parser's small helpers ----

  /** err(msg): a DogException at the Parser's current column. */
  function Fail<T>(c: Source, pos: int, msg: string): Result<T, DogError>
  {
    Err(At(c.line, c.baseCol + pos, Some(c.fullLine), msg))
  }

  function Skip(c: Source, p: nat): nat
  {
    SkipWhitespace(c.s, p)
  }

  /** peek(): the character at p, or '\0' past the end. */
  function Peek(c: Source, p: nat): char
  {
    if p < |c.s| then c.s[p] else '\0'
  }

  /** match(ch) succeeds at p. */
  predicate Looks(c: Source, p: nat, ch: char)
  {
    p < |c.s| && c.s[p] == ch
  }

  /** match2(ab) succeeds at p. */
  predicate Looks2(c: Source, p: nat, a: char, b: char)
  {
    p + 1 < |c.s| && c.s[p] == a && c.s[p + 1] == b
  }

  /** emit(op): an operand-free instruction at the column of the current position. */
  function Op(c: Source, e: Emitted, op: OpCode): Emitted
  {
    e.(code := e.code + [Simple(op, c.line, c.baseCol + e.pos, Some(c.fullLine))])
  }

  /** Two parses one after the other. */
  function Then(a: Emitted, b: Emitted): Emitted
  {
    Emitted(a.code + b.code, a.fns + b.fns, b.pos, a.call || b.call)
  }

  /** Sound code followed by sound code, whose function references count the first part's
      prototypes, is sound. */
  lemma ThenSound(a: Emitted, b: Emitted, nf: nat)
    requires Sound(a, nf) && Sound(b, nf + |a.fns|)
    ensures Sound(Then(a, b), nf)
  {
    var e := Then(a, b);
    forall j | 0 <= j < |e.code| && e.code[j].op == CONST_FUNC
      ensures 0 <= e.code[j].funcIndex < nf + |e.fns|
    {
      if j >= |a.code| {
        assert e.code[j] == b.code[j - |a.code|];
      }
    }
    forall k | 0 <= k < |e.fns|
      ensures EndsInReturn(e.fns[k].body) && WellFormed(e.fns[k].body)
    {
      if k >= |a.fns| {
        assert e.fns[k] == b.fns[k - |a.fns|];
      }
    }
  }

  /** `acc op b`: both operands, then the operator at the column where b stopped. */
  function Binary(c: Source, nf: nat, acc: Emitted, b: Emitted, op: OpCode): (e: Emitted)
    requires Sound(acc, nf) && Sound(b, nf + |acc.fns|) && op != JUMP && op != JUMP_IF_FALSE && op != CONST_FUNC
    ensures e.pos == b.pos && Sound(e, nf)
    ensures |e.code| > 0 && e.code == acc.code + b.code + [e.code[|e.code| - 1]] && e.code[|e.code| - 1].op == op
  {
    Op(c, Then(acc, b), op)
  }

  function Progress(c: Source, pos: nat, r: Parse): bool
  {
    r.Ok? ==> pos <= r.value.pos <= |c.s|
  }

  // ---- what the emitted code satisfies ----

  predicate NoJumps(code: seq<Instruction>)
  {
    forall j :: 0 <= j < |code| ==> !IsJump(code[j])
  }

  predicate FunctionsSound(fns: seq<FunctionProto>)
  {
    forall k :: 0 <= k < |fns| ==> EndsInReturn(fns[k].body) && WellFormed(fns[k].body)
  }

  /** Emitted code after `nf` prototypes: no jumps, every CONST_FUNC index names one of the
      nf + |fns| prototypes, and every added prototype body ends in RETURN and is well formed. */
  predicate Sound(e: Emitted, nf: nat)
  {
    NoJumps(e.code) && FuncRefsInRange(e.code, 0, nf + |e.fns|) && FunctionsSound(e.fns)
  }

  // ---- the binary operators ----

  /** A binary operator found in the text, and how many characters it takes. */
  datatype Operator = Operator(op: OpCode, width: nat)

  /** The operators the binary levels emit: none of them jumps or names a function. */
  predicate BinaryOp(o: Operator)
  {
    o.op != JUMP && o.op != JUMP_IF_FALSE && o.op != CONST_FUNC && 1 <= o.width <= 2
  }

  /** What continues an equality chain at p: `==`, or `!=` and `<>`, both NEQ. */
  function EqualityOp(c: Source, p: nat): (r: Option<Operator>)
    ensures r.Some? ==> BinaryOp(r.value) && p + r.value.width <= |c.s|
  {
    if Looks2(c, p, '=', '=') then Some(Operator(EQ, 2))
    else if Looks2(c, p, '!', '=') || Looks2(c, p, '<', '>') then Some(Operator(NEQ, 2))
    else None
  }

  /** What continues a comparison chain at p; `<>` stops it and is left to the equality level. */
  function CompareOp(c: Source, p: nat): (r: Option<Operator>)
    ensures r.Some? ==> BinaryOp(r.value) && p + r.value.width <= |c.s|
  {
    if Peek(c, p) == '<' && Peek(c, p + 1) == '>' then None
    else if Looks2(c, p, '>', '=') then Some(Operator(GE, 2))
    else if Looks2(c, p, '<', '=') then Some(Operator(LE, 2))
    else if Looks(c, p, '>') then Some(Operator(GT, 1))
    else if Looks(c, p, '<') then Some(Operator(LT, 1))
    else None
  }

  function AdditiveOp(c: Source, p: nat): (r: Option<Operator>)
    ensures r.Some? ==> BinaryOp(r.value) && p + r.value.width <= |c.s|
  {
    if Looks(c, p, '+') then Some(Operator(ADD, 1))
    else if Looks(c, p, '-') then Some(Operator(SUB, 1))
    else None
  }

  function MultiplicativeOp(c: Source, p: nat): (r: Option<Operator>)
    ensures r.Some? ==> BinaryOp(r.value) && p + r.value.width <= |c.s|
  {
    if Looks(c, p, '*') then Some(Operator(MUL, 1))
    else if Looks(c, p, '/') then Some(Operator(DIV, 1))
    else None
  }

  // ---- the grammar ----

  /** parseExpression. */
  function Expression(c: Source, pos: nat, nf: nat): (r: Parse)
    requires pos <= |c.s|
    decreases |c.s| - pos, 14
    ensures Progress(c, pos, r) && (r.Ok? ==> Sound(r.value, nf))
  {
    Equality(c, pos, nf)
  }

  /** parseEquality. */
  function Equality(c: Source, pos: nat, nf: nat): (r: Parse)
    requires pos <= |c.s|
    decreases |c.s| - pos, 13
    ensures Progress(c, pos, r) && (r.Ok? ==> Sound(r.value, nf))
  {
    var a :- Compare(c, pos, nf);
    EqualityRest(c, nf, a)
  }

  /** The loop of parseEquality, after `acc`. */
  function EqualityRest(c: Source, nf: nat, acc: Emitted): (r: Parse)
    requires acc.pos <= |c.s| && Sound(acc, nf)
    decreases |c.s| - acc.pos, 12
    ensures Progress(c, acc.pos, r) && (r.Ok? ==> Sound(r.value, nf))
  {
    var p := Skip(c, acc.pos);
    match EqualityOp(c, p)
    case None => Ok(acc.(pos := p))
    case Some(o) =>
      var b :- Compare(c, p + o.width, nf + |acc.fns|);
      EqualityRest(c, nf, Binary(c, nf, acc, b, o.op))
  }

  /** parseCompare. */
  function Compare(c: Source, pos: nat, nf: nat): (r: Parse)
    requires pos <= |c.s|
    decreases |c.s| - pos, 11
    ensures Progress(c, pos, r) && (r.Ok? ==> Sound(r.value, nf))
  {
    var a :- Additive(c, pos, nf);
    CompareRest(c, nf, a)
  }

  /** The loop of parseCompare. */
  function CompareRest(c: Source, nf: nat, acc: Emitted): (r: Parse)
    requires acc.pos <= |c.s| && Sound(acc, nf)
    decreases |c.s| - acc.pos, 10
    ensures Progress(c, acc.pos, r) && (r.Ok? ==> Sound(r.value, nf))
  {
    var p := Skip(c, acc.pos);
    match CompareOp(c, p)
    case None => Ok(acc.(pos := p))
    case Some(o) =>
      var b :- Additive(c, p + o.width, nf + |acc.fns|);
      CompareRest(c, nf, Binary(c, nf, acc, b, o.op))
  }

  /** parseAdd. */
  function Additive(c: Source, pos: nat, nf: nat): (r: Parse)
    requires pos <= |c.s|
    decreases |c.s| - pos, 9
    ensures Progress(c, pos, r) && (r.Ok? ==> Sound(r.value, nf))
  {
    var a :- Multiplicative(c, pos, nf);
    AdditiveRest(c, nf, a)
  }

  /** The loop of parseAdd. */
  function AdditiveRest(c: Source, nf: nat, acc: Emitted): (r: Parse)
    requires acc.pos <= |c.s| && Sound(acc, nf)
    decreases |c.s| - acc.pos, 8
    ensures Progress(c, acc.pos, r) && (r.Ok? ==> Sound(r.value, nf))
  {
    var p := Skip(c, acc.pos);
    match AdditiveOp(c, p)
    case None => Ok(acc.(pos := p))
    case Some(o) =>
      var b :- Multiplicative(c, p + o.width, nf + |acc.fns|);
      AdditiveRest(c, nf, Binary(c, nf, acc, b, o.op))
  }

  /** parseMul. */
  function Multiplicative(c: Source, pos: nat, nf: nat): (r: Parse)
    requires pos <= |c.s|
    decreases |c.s| - pos, 7
    ensures Progress(c, pos, r) && (r.Ok? ==> Sound(r.value, nf))
  {
    var a :- Unary(c, pos, nf);
    MultiplicativeRest(c, nf, a)
  }

  /** The loop of parseMul. */
  function MultiplicativeRest(c: Source, nf: nat, acc: Emitted): (r: Parse)
    requires acc.pos <= |c.s| && Sound(acc, nf)
    decreases |c.s| - acc.pos, 6
    ensures Progress(c, acc.pos, r) && (r.Ok? ==> Sound(r.value, nf))
  {
    var p := Skip(c, acc.pos);
    match MultiplicativeOp(c, p)
    case None => Ok(acc.(pos := p))
    case Some(o) =>
      var b :- Unary(c, p + o.width, nf + |acc.fns|);
      MultiplicativeRest(c, nf, Binary(c, nf, acc, b, o.op))
  }

  /** parseUnary: `!e` emits e then NOT; `-e` emits CONST_INT 0, e, SUB. */
  function Unary(c: Source, pos: nat, nf: nat): (r: Parse)
    requires pos <= |c.s|
    decreases |c.s| - pos, 5
    ensures Progress(c, pos, r) && (r.Ok? ==> Sound(r.value, nf))
  {
    var p := Skip(c, pos);
    if Looks(c, p, '!') || Looks(c, p, '-') then Prefixed(c, p, nf)
    else Operand(c, p, nf)
  }

  /** The operand of `!` or `-` at p, and its operator. */
  function Prefixed(c: Source, p: nat, nf: nat): (r: Parse)
    requires p < |c.s| && (c.s[p] == '!' || c.s[p] == '-')
    decreases |c.s| - p, 4
    ensures Progress(c, p, r) && (r.Ok? ==> Sound(r.value, nf))
  {
    var a :- Unary(c, p + 1, nf);
    Ok(PrefixOp(c, p, a, nf))
  }

  /** The operand's code, then NOT for `!`; for `-`, a zero pushed first and SUB after, so
      that `-x` computes `0 - x`. */
  function PrefixOp(c: Source, p: nat, a: Emitted, nf: nat): (e: Emitted)
    requires p < |c.s| && Sound(a, nf)
    ensures e.pos == a.pos && e.fns == a.fns && Sound(e, nf)
    ensures |e.code| > 0 && e.code[|e.code| - 1].op == (if c.s[p] == '!' then NOT else SUB)
    ensures |e.code| == |a.code| + (if c.s[p] == '!' then 1 else 2)
  {
    if c.s[p] == '!' then
      OpSound(c, a, NOT, nf);
      Op(c, a, NOT)
    else
      var zero := ConstInt(0, c.line, c.baseCol + p + 1, Some(c.fullLine));
      var b := a.(code := [zero] + a.code);
      PrefixSound(zero, a, nf);
      OpSound(c, b, SUB, nf);
      Op(c, b, SUB)
  }

  /** Sound code followed by one plain operator instruction is sound. */
  lemma OpSound(c: Source, e: Emitted, op: OpCode, nf: nat)
    requires Sound(e, nf) && op != JUMP && op != JUMP_IF_FALSE && op != CONST_FUNC
    ensures Sound(Op(c, e, op), nf)
  {
    var code := Op(c, e, op).code;
    forall j | 0 <= j < |e.code|
      ensures code[j] == e.code[j]
    {
    }
  }

  /** An operand: a primary expression and the calls, indexes and members that follow it. */
  function Operand(c: Source, p: nat, nf: nat): (r: Parse)
    requires p <= |c.s|
    decreases |c.s| - p, 4
    ensures Progress(c, p, r) && (r.Ok? ==> Sound(r.value, nf))
  {
    var a :- Primary(c, p, nf);
    var b :- Postfix(c, nf + |a.fns|, Emitted([], [], a.pos, false));
    ThenSound(a, b, nf);
    Ok(Then(a, b))
  }

  /** Code that starts with one plain instruction is as sound as the rest of it. */
  lemma PrefixSound(first: Instruction, a: Emitted, nf: nat)
    requires Sound(a, nf) && !IsJump(first) && first.op != CONST_FUNC
    ensures Sound(a.(code := [first] + a.code), nf)
  {
    var code := [first] + a.code;
    forall j | 0 < j < |code|
      ensures code[j] == a.code[j - 1]
    {
    }
  }

  /** parsePostfix: calls `(args)` and indexing `[e]`, any number of them, after what the
      accumulator `acc` already holds. */
  function Postfix(c: Source, nf: nat, acc: Emitted): (r: Parse)
    requires acc.pos <= |c.s| && Sound(acc, nf)
    decreases |c.s| - acc.pos, 3
    ensures Progress(c, acc.pos, r) && (r.Ok? ==> Sound(r.value, nf))
  {
    var p := Skip(c, acc.pos);
    if Looks(c, p, '(') then
      var e :- CallSuffix(c, p + 1, nf + |acc.fns|);
      ThenSound(acc, e, nf);
      Postfix(c, nf, Then(acc, e))
    else if Looks(c, p, '[') then
      var e :- IndexSuffix(c, p + 1, nf + |acc.fns|);
      ThenSound(acc, e, nf);
      Postfix(c, nf, Then(acc, e))
    else
      Ok(acc.(pos := p))
  }

  /** A call after its '(': the arguments, then CALL_VALUE with their count at the column
      after ')'; it counts as a call. */
  function CallSuffix(c: Source, pos: nat, nf: nat): (r: Parse)
    requires pos <= |c.s|
    decreases |c.s| - pos, 17
    ensures Progress(c, pos, r) && (r.Ok? ==> Sound(r.value, nf))
  {
    var l :- Items(c, pos, nf, ')', ARGS_MSG);
    Ok(l.items.(code := l.items.code + [CallValue(l.count, c.line, c.baseCol + l.items.pos, Some(c.fullLine))], call := true))
  }

  /** An indexing after its '[': the index, then ARRAY_GET at the column after ']'. */
  function IndexSuffix(c: Source, pos: nat, nf: nat): (r: Parse)
    requires pos <= |c.s|
    decreases |c.s| - pos, 15
    ensures Progress(c, pos, r) && (r.Ok? ==> Sound(r.value, nf))
  {
    var i :- Expression(c, Skip(c, pos), nf);
    var q := Skip(c, i.pos);
    if !Looks(c, q, ']') then Fail(c, q, "Missing ']'")
    else Ok(i.(code := i.code + [ArrayGet(c.line, c.baseCol + q + 1, Some(c.fullLine))], pos := q + 1))
  }

  /** The items of an argument list or array literal, just after its opening bracket, up to
      and including `close` (parseArgsAfterOpenParen, and the array-literal loop). */
  function Items(c: Source, pos: nat, nf: nat, close: char, msg: string): (r: Result<Listed, DogError>)
    requires pos <= |c.s|
    decreases |c.s| - pos, 16
    ensures r.Ok? ==> pos <= r.value.items.pos <= |c.s| && Sound(r.value.items, nf)
  {
    var p := Skip(c, pos);
    if Looks(c, p, close) then Ok(Listed(Emitted([], [], p + 1, false), 0))
    else ItemsRest(c, nf, close, msg, Listed(Emitted([], [], p, false), 0))
  }

  function ItemsRest(c: Source, nf: nat, close: char, msg: string, acc: Listed): (r: Result<Listed, DogError>)
    requires acc.items.pos <= |c.s| && Sound(acc.items, nf)
    decreases |c.s| - acc.items.pos, 15
    ensures r.Ok? ==> acc.items.pos <= r.value.items.pos <= |c.s| && Sound(r.value.items, nf)
  {
    var e :- Expression(c, acc.items.pos, nf + |acc.items.fns|);
    var items := Then(acc.items, e);
    var q := Skip(c, e.pos);
    if Looks(c, q, close) then Ok(Listed(items.(pos := q + 1), acc.count + 1))
    else if !Looks(c, q, ',') then Fail(c, q, msg)
    else ItemsRest(c, nf, close, msg, Listed(items.(pos := Skip(c, q + 1)), acc.count + 1))
  }

  /** An array literal after its '[': the items, then ARRAY_NEW with their count. */
  function ArrayLiteral(c: Source, pos: nat, nf: nat): (r: Parse)
    requires pos <= |c.s|
    decreases |c.s| - pos, 17
    ensures Progress(c, pos, r) && (r.Ok? ==> Sound(r.value, nf))
  {
    var l :- Items(c, pos, nf, ']', ARRAY_MSG);
    Ok(l.items.(code := l.items.code + [ArrayNew(l.count, c.line, c.baseCol + l.items.pos, Some(c.fullLine))]))
  }

  /** parsePrimary. */
  function Primary(c: Source, pos: nat, nf: nat): (r: Parse)
    requires pos <= |c.s|
    decreases |c.s| - pos, 2
    ensures Progress(c, pos, r) && (r.Ok? ==> Sound(r.value, nf))
  {
    var p := Skip(c, pos);
    if Looks(c, p, '[') then
      ArrayLiteral(c, p + 1, nf)
    else if Peek(c, p) == '"' then
      var str :- StringLiteral(c, p + 1, "");
      Ok(Emitted([ConstStr(Some(str.0), c.line, c.baseCol + p, Some(c.fullLine))], [], str.1, false))
    else if Peek(c, p) == '(' then
      Paren(c, p, nf)
    else if IsDigit(Peek(c, p)) || Peek(c, p) == '.' then
      var q := NumberEnd(c.s, p, false, false);
      var ins :- NumberLiteral(c, c.s[p..q], p, q);
      Ok(Emitted([ins], [], q, false))
    else if IdentStart(Peek(c, p)) then
      Word(c, p, nf)
    else
      Fail(c, p, "Unexpected token near: " + c.s[p..])
  }

  /** A '(' in primary position: a lambda when a parameter header and an arrow follow,
      otherwise a parenthesized expression. */
  function Paren(c: Source, p: nat, nf: nat): (r: Parse)
    requires p < |c.s| && c.s[p] == '('
    decreases |c.s| - p, 1
    ensures Progress(c, p, r) && (r.Ok? ==> Sound(r.value, nf))
  {
    match LambdaHeader(c.s, p)
    case Some(h) =>
      var q := Skip(c, h.1);
      if Looks2(c, q, '=', '>') || Looks2(c, q, '-', '>') then
        Lambda(c, p, nf, h.0, Skip(c, q + 2))
      else
        Group(c, p, nf)
    case None =>
      Group(c, p, nf)
  }

  /** The lambda whose parameters are `params` and whose body text starts at bodyStart: the
      body is parsed on its own into a new chunk that ends in RETURN, the prototype is added
      to the table, and CONST_FUNC names it. */
  function Lambda(c: Source, p: nat, nf: nat, params: seq<string>, bodyStart: nat): (r: Parse)
    requires p + 4 <= bodyStart <= |c.s|
    decreases |c.s| - p, 0
    ensures Progress(c, p, r) && (r.Ok? ==> Sound(r.value, nf))
  {
    var len := LambdaBodyLength(c.s[bodyStart..]);
    var body := c.s[bodyStart..bodyStart + len];
    if IsBlank(body) then
      Fail(c, bodyStart, "Expected expression after lambda arrow")
    else
      var inner := Source(body, c.line, c.baseCol + bodyStart, c.fullLine, c.fl);
      var b :- Expression(inner, 0, 0);
      var end :- Finish(inner, b.pos);
      var chunk := ChunkData(b.code + [Ret(c.line, c.baseCol + bodyStart, Some(c.fullLine))], b.fns);
      Ok(Emitted([ConstFunc(nf, c.line, c.baseCol + p, Some(c.fullLine))], [FunctionProto(params, chunk)],
                 bodyStart + len, false))
  }

  /** A parenthesized expression. */
  function Group(c: Source, p: nat, nf: nat): (r: Parse)
    requires p < |c.s| && c.s[p] == '('
    decreases |c.s| - p, 0
    ensures Progress(c, p, r) && (r.Ok? ==> Sound(r.value, nf))
  {
    var e :- Expression(c, p + 1, nf);
    var q := Skip(c, e.pos);
    if !Looks(c, q, ')') then Fail(c, q, "Missing ')'") else Ok(e.(pos := q + 1))
  }

  /** parseIdentOrQualifiedOrKeyword: true, false, nil, a module member, or a variable. */
  function Word(c: Source, p: nat, nf: nat): (r: Parse)
    requires p < |c.s| && IdentStart(c.s[p])
    decreases |c.s| - p, 1
    ensures Progress(c, p, r) && (r.Ok? ==> Sound(r.value, nf))
  {
    var src := Some(c.fullLine);
    var q := IdentEnd(c.s, p + 1);
    var a := c.s[p..q];
    if a == "true" then Ok(Emitted([ConstBool(true, c.line, c.baseCol + p, src)], [], q, false))
    else if a == "false" then Ok(Emitted([ConstBool(false, c.line, c.baseCol + p, src)], [], q, false))
    else if a == "nil" then Ok(Emitted([ConstNil(c.line, c.baseCol + p, src)], [], q, false))
    else Named(c, p, nf, a, q)
  }

  /** A name that is not a literal keyword: `a.` starts a module member, anything else loads
      the variable a. */
  function Named(c: Source, p: nat, nf: nat, a: string, q: nat): (r: Parse)
    requires p < q <= |c.s|
    decreases |c.s| - p, 0
    ensures Progress(c, p, r) && (r.Ok? ==> Sound(r.value, nf))
  {
    var q1 := Skip(c, q);
    if Looks(c, q1, '.') then Member(c, p, nf, a, q1 + 1)
    else Ok(Emitted([Load(Some(a), c.line, c.baseCol + p, Some(c.fullLine))], [], q1, false))
  }

  /** After `a.`: `a.b(args)` calls member b of module a and counts as a call; a bare `a.b`
      reads the module's constant b. */
  function Member(c: Source, p: nat, nf: nat, a: string, after: nat): (r: Parse)
    requires p + 1 < after <= |c.s|
    decreases |c.s| - after + 1, 0
    ensures Progress(c, p, r) && (r.Ok? ==> Sound(r.value, nf))
  {
    var q2 := Skip(c, after);
    if !IdentStart(Peek(c, q2)) then Fail(c, q2, "Expected identifier after '.'")
    else
      var q3 := IdentEnd(c.s, q2 + 1);
      var b := c.s[q2..q3];
      var q4 := Skip(c, q3);
      if Looks(c, q4, '(') then MemberCall(c, p, nf, a, b, q4)
      else Ok(Emitted([Call(Some(a), Some(b), 0, true, c.line, c.baseCol + p, Some(c.fullLine))], [], q4, false))
  }

  /** `a.b(` ... `)`: the arguments, then a call of member b of module a with their count. */
  function MemberCall(c: Source, p: nat, nf: nat, a: string, b: string, open: nat): (r: Parse)
    requires p < open < |c.s| && c.s[open] == '('
    decreases |c.s| - open, 0
    ensures Progress(c, p, r) && (r.Ok? ==> Sound(r.value, nf))
  {
    var l :- Items(c, open + 1, nf, ')', ARGS_MSG);
    Ok(Emitted(l.items.code + [Call(Some(a), Some(b), l.count, false, c.line, c.baseCol + p, Some(c.fullLine))],
               l.items.fns, l.items.pos, true))
  }

  /** finish(): only whitespace may follow the expression. */
  function Finish(c: Source, pos: nat): (r: Result<nat, DogError>)
    requires pos <= |c.s|
    ensures r.Ok? ==> r.value == |c.s|
  {
    var q := Skip(c, pos);
    if q < |c.s| then Fail(c, q, "Bad expression near: " + c.s[q..]) else Ok(q)
  }

  /** A whole expression: parseExpression then finish, as every statement runs them. */
  function Compiled(c: Source, nf: nat): (r: Parse)
    ensures r.Ok? ==> r.value.pos == |c.s| && Sound(r.value, nf)
  {
    var e :- Expression(c, 0, nf);
    var end :- Finish(c, e.pos);
    Ok(e.(pos := end))
  }

  // ---- tokens ----

  /** The end of the identifier whose later characters start at i. */
  function IdentEnd(s: string, i: nat): (k: nat)
    decreases |s| - i
    ensures i <= k && (i <= |s| ==> k <= |s|)
  {
    if i < |s| && IdentPart(s[i]) then IdentEnd(s, i + 1) else i
  }

  /** tryParseLambdaHeader: `(` then either `)` or identifiers separated by commas and a `)`,
      with whitespace anywhere between; the parameters and the position after `)`. */
  function LambdaHeader(s: string, p: nat): (r: Option<(seq<string>, nat)>)
    ensures r.Some? ==> p + 2 <= r.value.1 <= |s|
  {
    if p >= |s| || s[p] != '(' then None
    else
      var q := SkipWhitespace(s, p + 1);
      if q < |s| && s[q] == ')' then Some(([], q + 1))
      else HeaderParams(s, q, [])
  }

  /** One parameter of a lambda header: the identifier after any whitespace, and the position
      of the first non-whitespace character after it. */
  function HeaderParam(s: string, q: nat): (r: Option<(string, nat)>)
    ensures r.Some? ==> q < r.value.1 <= |s| && r.value.0 != [] && IdentStart(r.value.0[0])
  {
    var q0 := SkipWhitespace(s, q);
    if q0 >= |s| || !IdentStart(s[q0]) then None
    else
      var e := IdentEnd(s, q0 + 1);
      Some((s[q0..e], SkipWhitespace(s, e)))
  }

  /** The parameters from q on, after those already read, up to and past the closing `)`. */
  function HeaderParams(s: string, q: nat, params: seq<string>): (r: Option<(seq<string>, nat)>)
    decreases |s| - q
    ensures r.Some? ==> q < r.value.1 <= |s| && |r.value.0| > |params|
  {
    match HeaderParam(s, q)
    case None => None
    case Some((name, r)) =>
      if r >= |s| then None
      else if s[r] == ')' then Some((params + [name], r + 1))
      else if s[r] == ',' then HeaderParams(s, r + 1, params + [name])
      else None
  }

  /** parseNumberToken: digits, at most one '.' before any exponent, and one exponent mark
      optionally followed by a sign. */
  function NumberEnd(s: string, i: nat, dot: bool, exp: bool): (k: nat)
    requires i <= |s|
    decreases |s| - i
    ensures i <= k <= |s|
  {
    if i == |s| then i
    else if IsDigit(s[i]) then NumberEnd(s, i + 1, dot, exp)
    else if s[i] == '.' && !dot && !exp then NumberEnd(s, i + 1, true, exp)
    else if (s[i] == 'e' || s[i] == 'E') && !exp then
      NumberEnd(s, if i + 1 < |s| && (s[i + 1] == '+' || s[i + 1] == '-') then i + 2 else i + 1, dot, true)
    else i
  }

  /** The character a backslash escape stands for in a string literal. */
  function Unescape(n: char): char
  {
    if n == 'n' then '\n'
    else if n == 't' then '\t'
    else if n == '"' then '"'
    else if n == '\\' then '\\'
    else n
  }

  /** parseString after the opening quote: the text read so far is `acc`; the value and the
      position after the closing quote. */
  function StringLiteral(c: Source, i: nat, acc: string): (r: Result<(string, nat), DogError>)
    requires i <= |c.s|
    decreases |c.s| - i
    ensures r.Ok? ==> i < r.value.1 <= |c.s|
  {
    if i == |c.s| then Fail(c, |c.s|, "Unterminated string literal")
    else if c.s[i] == '"' then Ok((acc, i + 1))
    else if c.s[i] == '\\' && i + 1 < |c.s| then StringLiteral(c, i + 2, acc + [Unescape(c.s[i + 1])])
    else StringLiteral(c, i + 1, acc + [c.s[i]])
  }

  /** The constant instruction for an integer literal: the narrowest of int, long and
      BigInteger text that holds it. */
  function IntegerConst(b: int, line: int, col: int, src: Option<string>): (i: Instruction)
    ensures INT_MIN <= b <= INT_MAX ==> i.op == CONST_INT && i.intVal == Some(b)
    ensures !(INT_MIN <= b <= INT_MAX) && LONG_MIN <= b <= LONG_MAX ==> i.op == CONST_LONG && i.longVal == Some(b)
    ensures !(LONG_MIN <= b <= LONG_MAX) ==> i.op == CONST_BIGINT && i.text == Some(IntToDecimal(b))
    ensures Located(i, line, col, src) && Shaped(i)
  {
    BitLengthJavaRanges(b);
    if BitLength(b) <= 31 then ConstInt(b, line, col, src)
    else if BitLength(b) <= 63 then ConstLong(b, line, col, src)
    else ConstBigInt(Some(IntToDecimal(b)), line, col, src)
  }

  /** emitNumberLiteral: a token with '.', 'e' or 'E' is a double (or a bad number when
      Double.parseDouble rejects it); any other token is an integer. Errors are reported at
      `end`, the position after the token. */
  function NumberLiteral(c: Source, token: string, start: nat, end: nat): (r: Result<Instruction, DogError>)
  {
    if token == [] then Fail(c, end, "Bad number")
    else if '.' in token || 'e' in token || 'E' in token then
      match c.fl.parse(token)
      case Some(d) => Ok(ConstDouble(d, c.line, c.baseCol + start, Some(c.fullLine)))
      case None => Fail(c, end, "Bad number: " + token)
    else
      match ParseBigInteger(token)
      case Some(b) => Ok(IntegerConst(b, c.line, c.baseCol + start, Some(c.fullLine)))
      case None => Fail(c, end, "Bad number: " + token)
  }
}
