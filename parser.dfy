/**
 * The cursor of the compiler's expression parser: the character-level steps
 * that parseExpression and its helpers are built from (skipping whitespace,
 * matching operators, reading identifiers, strings, numbers, a lambda's
 * header and body text, and the final check that nothing is left over).
 * Each method is proved to agree with the matching definition of ParseSpec,
 * where the grammar itself is stated.
 */
module ExprParser {
  import opened Wrappers
  import opened JavaLang
  import opened OpCodes
  import opened Bytecode
  import opened Values
  import opened Exceptions
  import opened Chunks
  import opened LexScan
  import opened LineScan
  import opened ParseSpec

  class Parser {
    const s: string
    const line: int
    const baseCol: int
    const fullLine: string
    const fl: FloatOps
    const out: Chunk
    var pos: nat
    var didCall: bool

    constructor (s: string, line: int, baseCol: int, fullLine: string, fl: FloatOps, out: Chunk)
      ensures this.s == s && this.line == line && this.baseCol == baseCol && this.fullLine == fullLine
      ensures this.fl == fl && this.out == out && pos == 0 && !didCall
    {
      this.s := s;
      this.line := line;
      this.baseCol := baseCol;
      this.fullLine := fullLine;
      this.fl := fl;
      this.out := out;
      pos := 0;
      didCall := false;
    }

    /** The parser's fixed inputs as a value. */
    function Src(): Source
    {
      Source(s, line, baseCol, fullLine, fl)
    }

    // ---- cursor primitives ----

    /** err(msg). */
    function Error(msg: string): (e: DogError)
      reads this
    {
      At(line, baseCol + pos, Some(fullLine), msg)
    }

    method SkipSpaces()
      modifies this
      ensures pos == Skip(Src(), old(pos)) && didCall == old(didCall)
    {
      while pos < |s| && IsWhitespace(s[pos])
        invariant old(pos) <= pos && didCall == old(didCall)
        invariant Skip(Src(), pos) == Skip(Src(), old(pos))
        decreases |s| - pos
      {
        pos := pos + 1;
      }
    }

    method Match(ch: char) returns (m: bool)
      modifies this
      ensures m == Looks(Src(), old(pos), ch) && pos == (if m then old(pos) + 1 else old(pos))
      ensures didCall == old(didCall)
    {
      if pos < |s| && s[pos] == ch {
        pos := pos + 1;
        return true;
      }
      return false;
    }

    method Match2(a: char, b: char) returns (m: bool)
      modifies this
      ensures m == Looks2(Src(), old(pos), a, b) && pos == (if m then old(pos) + 2 else old(pos))
      ensures didCall == old(didCall)
    {
      if pos + 1 >= |s| {
        return false;
      }
      if s[pos] == a && s[pos + 1] == b {
        pos := pos + 2;
        return true;
      }
      return false;
    }

    /** emit(op): the operator at the current column. */
    method Emit(op: OpCode)
      modifies out
      ensures out.code == old(out.code) + [Simple(op, line, baseCol + pos, Some(fullLine))]
      ensures out.functions == old(out.functions)
    {
      var _ := out.Add(Simple(op, line, baseCol + pos, Some(fullLine)));
    }

    /** The operator tests of parseEquality's loop: `==`, then `!=`, then `<>`. */
    method MatchEqualityOp() returns (o: Option<Operator>)
      modifies this
      ensures o == EqualityOp(Src(), old(pos)) && didCall == old(didCall)
      ensures pos == old(pos) + (if o.Some? then o.value.width else 0)
    {
      var m := Match2('=', '=');
      if m {
        return Some(Operator(EQ, 2));
      }
      m := Match2('!', '=');
      if !m {
        m := Match2('<', '>');
      }
      return if m then Some(Operator(NEQ, 2)) else None;
    }

    /** The operator tests of parseCompare's loop: it stops before `<>`, then tries `>=`, `<=`,
        `>` and `<`. */
    method MatchCompareOp() returns (o: Option<Operator>)
      modifies this
      ensures o == CompareOp(Src(), old(pos)) && didCall == old(didCall)
      ensures pos == old(pos) + (if o.Some? then o.value.width else 0)
    {
      if Peek() == '<' && PeekNext() == '>' {
        return None;
      }
      var m := Match2('>', '=');
      if m {
        return Some(Operator(GE, 2));
      }
      m := Match2('<', '=');
      if m {
        return Some(Operator(LE, 2));
      }
      m := Match('>');
      if m {
        return Some(Operator(GT, 1));
      }
      m := Match('<');
      return if m then Some(Operator(LT, 1)) else None;
    }

    /** The operator tests of parseAdd's loop. */
    method MatchAdditiveOp() returns (o: Option<Operator>)
      modifies this
      ensures o == AdditiveOp(Src(), old(pos)) && didCall == old(didCall)
      ensures pos == old(pos) + (if o.Some? then o.value.width else 0)
    {
      var m := Match('+');
      if m {
        return Some(Operator(ADD, 1));
      }
      m := Match('-');
      return if m then Some(Operator(SUB, 1)) else None;
    }

    /** The operator tests of parseMul's loop. */
    method MatchMultiplicativeOp() returns (o: Option<Operator>)
      modifies this
      ensures o == MultiplicativeOp(Src(), old(pos)) && didCall == old(didCall)
      ensures pos == old(pos) + (if o.Some? then o.value.width else 0)
    {
      var m := Match('*');
      if m {
        return Some(Operator(MUL, 1));
      }
      m := Match('/');
      return if m then Some(Operator(DIV, 1)) else None;
    }

    /** matchArrow: `=>` or `->`. */
    method MatchArrow() returns (m: bool)
      modifies this
      ensures m == (Looks2(Src(), old(pos), '=', '>') || Looks2(Src(), old(pos), '-', '>'))
      ensures pos == (if m then old(pos) + 2 else old(pos)) && didCall == old(didCall)
    {
      m := Match2('=', '>');
      if !m {
        m := Match2('-', '>');
      }
    }

    /** tryParseLambdaHeader: on success the parameters, with the cursor after ')'; on
        failure the cursor does not move. */
    method TryParseLambdaHeader(savedPos: nat) returns (h: Option<seq<string>>)
      modifies this
      ensures didCall == old(didCall)
      ensures match LambdaHeader(s, savedPos)
        case Some(r) => h == Some(r.0) && pos == r.1
        case None => h.None? && pos == old(pos)
    {
      var r := ScanLambdaHeader(s, savedPos);
      if r.None? {
        return None;
      }
      pos := r.value.1;
      return Some(r.value.0);
    }

    /** readLambdaBodySlice: the text from the cursor up to the first top-level delimiter or
        comment; the cursor does not move. */
    method ReadLambdaBodySlice() returns (body: string)
      requires pos <= |s|
      ensures body == s[pos..pos + LambdaBodyLength(s[pos..])]
    {
      ghost var t := s[pos..];
      var i := pos;
      var par: nat, br: nat, cr: nat := 0, 0, 0;
      var inStr, esc := false, false;
      while i < |s|
        invariant pos <= i <= |s|
        invariant Lex(inStr, esc) == LexAt(t, i - pos) && (esc ==> inStr)
        invariant Nesting(par, br, cr) == NestAt(t, i - pos)
        invariant BodyEndFrom(t, 0) == BodyEndFrom(t, i - pos)
        decreases |s| - i
      {
        var ch := s[i];
        assert ch == t[i - pos];
        if inStr {
          if esc {
            esc := false;
          } else if ch == '\\' {
            esc := true;
          } else if ch == '"' {
            inStr := false;
          }
          i := i + 1;
          continue;
        }
        if ch == '"' {
          inStr := true;
          i := i + 1;
          continue;
        }
        if ch == '#' {
          break;
        }
        if par == 0 && br == 0 && cr == 0 {
          if ch == ',' || ch == ')' || ch == ']' || ch == '}' {
            break;
          }
        }
        if ch == '(' {
          par := par + 1;
        } else if ch == ')' && par > 0 {
          par := par - 1;
        } else if ch == '[' {
          br := br + 1;
        } else if ch == ']' && br > 0 {
          br := br - 1;
        } else if ch == '{' {
          cr := cr + 1;
        } else if ch == '}' && cr > 0 {
          cr := cr - 1;
        }
        i := i + 1;
      }
      body := s[pos..i];
    }

    // ---- numbers and strings ----

    method EmitConstInt(v: Int32, startPos: int)
      modifies out
      ensures out.code == old(out.code) + [ConstInt(v, line, baseCol + startPos, Some(fullLine))]
      ensures out.functions == old(out.functions)
    {
      var _ := out.Add(ConstInt(v, line, baseCol + startPos, Some(fullLine)));
    }

    /** parseString: the literal's value after unescaping, with the cursor after the closing
        quote. */
    method ParseString() returns (str: string, err: Option<DogError>)
      requires pos <= |s|
      modifies this
      ensures didCall == old(didCall)
      ensures !Looks(Src(), old(pos), '"') ==> err == Some(At(line, baseCol + old(pos), Some(fullLine), "Expected '\"'"))
      ensures Looks(Src(), old(pos), '"') ==>
        match StringLiteral(Src(), old(pos) + 1, "")
        case Ok(v) => err.None? && str == v.0 && pos == v.1
        case Err(e) => err == Some(e)
    {
      var m := Match('"');
      if !m {
        return "", Some(Error("Expected '\"'"));
      }
      ghost var c := Src();
      str := "";
      while pos < |s|
        invariant old(pos) < pos <= |s|
        invariant StringLiteral(c, old(pos) + 1, "") == StringLiteral(c, pos, str) && didCall == old(didCall)
        decreases |s| - pos
      {
        var ch := s[pos];
        pos := pos + 1;
        if ch == '"' {
          return str, None;
        }
        if ch == '\\' && pos < |s| {
          var n := s[pos];
          pos := pos + 1;
          str := str + [Unescape(n)];
        } else {
          str := str + [ch];
        }
      }
      err := Some(Error("Unterminated string literal"));
    }

    /** parseNumberToken: the longest number token at the cursor. */
    method ParseNumberToken() returns (token: string)
      requires pos <= |s|
      modifies this
      ensures pos == NumberEnd(s, old(pos), false, false) && token == s[old(pos)..pos]
      ensures didCall == old(didCall)
    {
      var start := pos;
      var dot, exp := false, false;
      while pos < |s|
        invariant start <= pos <= |s|
        invariant NumberEnd(s, pos, dot, exp) == NumberEnd(s, start, false, false) && didCall == old(didCall)
        decreases |s| - pos
      {
        var ch := s[pos];
        if IsDigit(ch) {
          pos := pos + 1;
          continue;
        }
        if ch == '.' && !dot && !exp {
          dot := true;
          pos := pos + 1;
          continue;
        }
        if (ch == 'e' || ch == 'E') && !exp {
          exp := true;
          pos := pos + 1;
          if pos < |s| {
            var sgn := s[pos];
            if sgn == '+' || sgn == '-' {
              pos := pos + 1;
            }
          }
          continue;
        }
        break;
      }
      token := s[start..pos];
    }

    /** emitNumberLiteral: the constant for `token`, or the error NumberLiteral names. */
    method EmitNumberLiteral(token: string, startPos: nat) returns (err: Option<DogError>)
      modifies out
      ensures out.functions == old(out.functions)
      ensures match NumberLiteral(Src(), token, startPos, pos)
        case Ok(i) => err.None? && out.code == old(out.code) + [i]
        case Err(e) => err == Some(e)
    {
      if token == [] {
        return Some(Error("Bad number"));
      }
      if '.' in token || 'e' in token || 'E' in token {
        match fl.parse(token)
        case Some(d) =>
          var _ := out.Add(ConstDouble(d, line, baseCol + startPos, Some(fullLine)));
          return None;
        case None =>
          return Some(Error("Bad number: " + token));
      }
      match ParseBigInteger(token)
      case Some(bi) =>
        BitLengthJavaRanges(bi);
        if BitLength(bi) <= 31 {
          var _ := out.Add(ConstInt(bi, line, baseCol + startPos, Some(fullLine)));
          return None;
        }
        if BitLength(bi) <= 63 {
          var _ := out.Add(ConstLong(bi, line, baseCol + startPos, Some(fullLine)));
          return None;
        }
        var _ := out.Add(ConstBigInt(Some(IntToDecimal(bi)), line, baseCol + startPos, Some(fullLine)));
        return None;
      case None =>
        return Some(Error("Bad number: " + token));
    }

    // ---- finish and small utilities ----

    /** finish(): only whitespace may remain. */
    method Finish() returns (err: Option<DogError>)
      requires pos <= |s|
      modifies this
      ensures didCall == old(didCall)
      ensures match ParseSpec.Finish(Src(), old(pos))
        case Ok(q) => err.None? && pos == q
        case Err(e) => err == Some(e)
    {
      SkipSpaces();
      if pos < |s| {
        return Some(Error("Bad expression near: " + Rest()));
      }
      return None;
    }

    function Peek(): (ch: char)
      reads this
      ensures ch == ParseSpec.Peek(Src(), pos)
    {
      if pos >= |s| then '\0' else s[pos]
    }

    function PeekNext(): (ch: char)
      reads this
      ensures ch == ParseSpec.Peek(Src(), pos + 1)
    {
      if pos + 1 >= |s| then '\0' else s[pos + 1]
    }

    /** rest(): the text from the cursor on. */
    function Rest(): (r: string)
      reads this
      ensures pos <= |s| ==> r == s[pos..]
    {
      s[Min(pos, |s|)..]
    }

    /** parseIdent: the identifier at the cursor. */
    method ParseIdent() returns (r: Result<string, DogError>)
      modifies this
      ensures didCall == old(didCall)
      ensures old(pos) < |s| && IdentStart(s[old(pos)]) ==>
        var e := IdentEnd(s, old(pos) + 1);
        r == Ok(s[old(pos)..e]) && pos == e
      ensures !(old(pos) < |s| && IdentStart(s[old(pos)])) ==>
        r == Err(At(line, baseCol + old(pos), Some(fullLine), "Expected identifier")) && pos == old(pos)
    {
      var start := pos;
      if !IdentStart(Peek()) {
        return Err(Error("Expected identifier"));
      }
      pos := ScanIdent(s, pos + 1);
      return Ok(s[start..pos]);
    }
  }

  /** The scan of tryParseLambdaHeader, on the text alone. */
  method ScanLambdaHeader(s: string, savedPos: nat) returns (r: Option<(seq<string>, nat)>)
    ensures r == LambdaHeader(s, savedPos)
  {
    var p := savedPos;
    if p >= |s| || s[p] != '(' {
      return None;
    }
    p := FindExprStartIndex(s, p + 1);
    if p < |s| && s[p] == ')' {
      return Some(([], p + 1));
    }
    r := ScanHeaderParams(s, p);
  }

  /** The comma-separated identifiers of a lambda header, up to and past the closing `)`. */
  method ScanHeaderParams(s: string, from: nat) returns (r: Option<(seq<string>, nat)>)
    ensures r == HeaderParams(s, from, [])
  {
    var p := from;
    var params: seq<string> := [];
    while true
      invariant HeaderParams(s, from, []) == HeaderParams(s, p, params)
      decreases |s| - p
    {
      var param := ScanHeaderParam(s, p);
      if param.None? {
        return None;
      }
      params := params + [param.value.0];
      p := param.value.1;
      if p >= |s| {
        return None;
      }
      if s[p] == ')' {
        return Some((params, p + 1));
      }
      if s[p] != ',' {
        return None;
      }
      p := p + 1;
    }
  }

  /** One identifier of a lambda header, and the first non-whitespace position after it. */
  method ScanHeaderParam(s: string, p: nat) returns (r: Option<(string, nat)>)
    ensures r == HeaderParam(s, p)
  {
    var q := FindExprStartIndex(s, p);
    if q >= |s| || !IdentStart(s[q]) {
      return None;
    }
    var e := ScanIdent(s, q + 1);
    var after := FindExprStartIndex(s, e);
    return Some((s[q..e], after));
  }

  method ScanIdent(s: string, i: nat) returns (k: nat)
    requires i <= |s|
    ensures k == IdentEnd(s, i)
  {
    k := i;
    while k < |s| && IdentPart(s[k])
      invariant i <= k <= |s| && IdentEnd(s, k) == IdentEnd(s, i)
      decreases |s| - k
    {
      k := k + 1;
    }
  }
}
