/**
 * The character scans the compiler runs over one line of Dog text. They all
 * skip string literals (a backslash inside one escapes the next character)
 * and stop at the first '#' outside a literal, where a comment starts.
 * Each scan is a pure function over the text; the methods are the loops the
 * compiler runs, proved to compute it.
 */
module LexScan {
  import opened JavaLang

  // ---- string literals and comments ----

  /** Where a left-to-right scan stands: inside a string literal or not, and whether the
      previous character inside it was a backslash still to be applied. */
  datatype Lex = Lex(inStr: bool, esc: bool)

  const OUTSIDE := Lex(false, false)

  function LexStep(st: Lex, c: char): Lex
  {
    if st.inStr then
      if st.esc then Lex(true, false)
      else if c == '\\' then Lex(true, true)
      else if c == '"' then OUTSIDE
      else st
    else if c == '"' then Lex(true, false)
    else st
  }

  /** The scan state just before s[i]. */
  function LexAt(s: string, i: nat): Lex
    requires i <= |s|
  {
    if i == 0 then OUTSIDE else LexStep(LexAt(s, i - 1), s[i - 1])
  }

  /** A comment starts at s[i]: a '#' outside any string literal. */
  predicate CommentAt(s: string, i: nat)
    requires i < |s|
  {
    !LexAt(s, i).inStr && s[i] == '#'
  }

  /** The first comment start at or after `from`, or |s| when there is none. */
  function CommentFrom(s: string, from: nat): (k: nat)
    requires from <= |s|
    decreases |s| - from
    ensures from <= k <= |s|
  {
    if from == |s| then |s| else if CommentAt(s, from) then from else CommentFrom(s, from + 1)
  }

  /** Where the code part of a line ends: at its first comment, or at its end. */
  function CodeEnd(s: string): nat
    ensures CodeEnd(s) <= |s|
  {
    CommentFrom(s, 0)
  }

  lemma {:induction false} CommentFromIsFirst(s: string, from: nat, j: nat)
    requires from <= j <= |s|
    decreases |s| - from
    ensures j < CommentFrom(s, from) ==> !CommentAt(s, j)
    ensures j == CommentFrom(s, from) && j < |s| ==> CommentAt(s, j)
  {
    if from < |s| && !CommentAt(s, from) && from < j {
      CommentFromIsFirst(s, from + 1, j);
    }
  }

  /** The scan of a prefix agrees with the scan of the whole text. */
  lemma {:induction false} LexAtPrefix(s: string, k: nat, i: nat)
    requires i <= k <= |s|
    ensures LexAt(s[..k], i) == LexAt(s, i)
  {
    if i > 0 {
      LexAtPrefix(s, k, i - 1);
      assert s[..k][i - 1] == s[i - 1];
    }
  }

  /** No comment starts before the code end of a prefix that stops at or before it. */
  lemma {:induction false} CommentFromPrefix(s: string, k: nat, from: nat)
    requires from <= k <= CodeEnd(s)
    requires CommentFrom(s, 0) == CommentFrom(s, from)
    decreases k - from
    ensures CommentFrom(s[..k], from) == k
  {
    if from < k {
      CommentFromIsFirst(s, 0, from);
      LexAtPrefix(s, k, from);
      assert s[..k][from] == s[from];
      assert !CommentAt(s[..k], from);
      CommentFromPrefix(s, k, from + 1);
    }
  }

  /** The code part of a line holds no comment: its own code part is all of it. */
  lemma CodeEndOfCodePart(s: string)
    ensures CodeEnd(s[..CodeEnd(s)]) == CodeEnd(s)
  {
    CommentFromPrefix(s, CodeEnd(s), 0);
  }

  // ---- stripInlineComment ----

  /** stripInlineComment: the text before the first comment; the whole line when there is none. */
  method StripInlineComment(raw: string) returns (r: string)
    ensures r == raw[..CodeEnd(raw)]
  {
    var inStr := false;
    var esc := false;
    var i := 0;
    while i < |raw|
      invariant 0 <= i <= |raw|
      invariant Lex(inStr, esc) == LexAt(raw, i) && (esc ==> inStr)
      invariant CommentFrom(raw, 0) == CommentFrom(raw, i)
    {
      var c := raw[i];
      if inStr {
        if esc {
          esc := false;
        } else if c == '\\' {
          esc := true;
        } else if c == '"' {
          inStr := false;
        }
      } else if c == '"' {
        inStr := true;
      } else if c == '#' {
        return raw[..i];
      }
      i := i + 1;
    }
    return raw;
  }

  /** What stripInlineComment keeps is a prefix holding no comment, and when it cut
      something off, a comment starts right at the cut. */
  lemma StrippedLine(raw: string)
    ensures var r := raw[..CodeEnd(raw)];
      && |r| <= |raw| && r == raw[..|r|]
      && CodeEnd(r) == |r|
      && (|r| < |raw| ==> CommentAt(raw, |r|))
  {
    CodeEndOfCodePart(raw);
    CommentFromIsFirst(raw, 0, CodeEnd(raw));
  }

  /** Stripping twice is stripping once. */
  lemma StripIdempotent(raw: string)
    ensures var r := raw[..CodeEnd(raw)]; r[..CodeEnd(r)] == r
  {
    CodeEndOfCodePart(raw);
  }

  // ---- braceDelta ----

  /** What s[i] adds to the brace balance: +1 for '{' and -1 for '}' outside literals. */
  function BraceWeight(s: string, i: nat): int
    requires i < |s|
  {
    if LexAt(s, i).inStr then 0 else if s[i] == '{' then 1 else if s[i] == '}' then -1 else 0
  }

  function BraceSum(s: string, n: nat): int
    requires n <= |s|
  {
    if n == 0 then 0 else BraceSum(s, n - 1) + BraceWeight(s, n - 1)
  }

  /** The brace balance of a line: opening minus closing braces of its code part. */
  function Delta(s: string): int
  {
    BraceSum(s, CodeEnd(s))
  }

  /** braceDelta: the loop computes the brace balance. */
  method BraceDelta(raw: string) returns (d: int)
    ensures d == Delta(raw)
  {
    var inStr := false;
    var esc := false;
    d := 0;
    var i := 0;
    while i < |raw|
      invariant 0 <= i <= |raw|
      invariant Lex(inStr, esc) == LexAt(raw, i) && (esc ==> inStr)
      invariant d == BraceSum(raw, i)
      invariant CommentFrom(raw, 0) == CommentFrom(raw, i)
    {
      var c := raw[i];
      if inStr {
        if esc {
          esc := false;
        } else if c == '\\' {
          esc := true;
        } else if c == '"' {
          inStr := false;
        }
      } else if c == '#' {
        break;
      } else if c == '"' {
        inStr := true;
      } else if c == '{' {
        d := d + 1;
      } else if c == '}' {
        d := d - 1;
      }
      i := i + 1;
    }
  }

  lemma {:induction false} BraceSumPrefix(s: string, k: nat, n: nat)
    requires n <= k <= |s|
    ensures BraceSum(s[..k], n) == BraceSum(s, n)
  {
    if n > 0 {
      BraceSumPrefix(s, k, n - 1);
      LexAtPrefix(s, k, n - 1);
      assert s[..k][n - 1] == s[n - 1];
    }
  }

  /** A comment never changes the brace balance: the code part alone has the same one. */
  lemma DeltaIgnoresComment(s: string)
    ensures Delta(s[..CodeEnd(s)]) == Delta(s)
  {
    CodeEndOfCodePart(s);
    BraceSumPrefix(s, CodeEnd(s), CodeEnd(s));
  }

  /** The number of times c occurs in s[..n]. */
  function CountChar(s: string, c: char, n: nat): nat
    requires n <= |s|
  {
    if n == 0 then 0 else CountChar(s, c, n - 1) + (if s[n - 1] == c then 1 else 0)
  }

  predicate Plain(s: string)
  {
    forall i :: 0 <= i < |s| ==> s[i] != '"' && s[i] != '#'
  }

  lemma {:induction false} PlainIsOutside(s: string, i: nat)
    requires Plain(s) && i <= |s|
    ensures LexAt(s, i) == OUTSIDE
  {
    if i > 0 {
      PlainIsOutside(s, i - 1);
    }
  }

  lemma {:induction false} PlainHasNoComment(s: string, from: nat)
    requires Plain(s) && from <= |s|
    decreases |s| - from
    ensures CommentFrom(s, from) == |s|
  {
    if from < |s| {
      PlainHasNoComment(s, from + 1);
    }
  }

  lemma {:induction false} PlainBraceSum(s: string, n: nat)
    requires Plain(s) && n <= |s|
    ensures BraceSum(s, n) == CountChar(s, '{', n) - CountChar(s, '}', n)
  {
    if n > 0 {
      PlainBraceSum(s, n - 1);
      PlainIsOutside(s, n - 1);
    }
  }

  /** On text without quotes or '#', the brace balance is plain counting. */
  lemma DeltaOfPlainText(s: string)
    requires Plain(s)
    ensures Delta(s) == CountChar(s, '{', |s|) - CountChar(s, '}', |s|)
  {
    PlainHasNoComment(s, 0);
    PlainBraceSum(s, |s|);
  }

  // ---- isStatementComplete ----

  /** The open parentheses, brackets and braces; a closer with none open is ignored. */
  datatype Nesting = Nesting(par: nat, br: nat, cr: nat)

  const FLAT := Nesting(0, 0, 0)

  function NestStep(n: Nesting, c: char): Nesting
  {
    if c == '(' then n.(par := n.par + 1)
    else if c == ')' then n.(par := if n.par > 0 then n.par - 1 else 0)
    else if c == '[' then n.(br := n.br + 1)
    else if c == ']' then n.(br := if n.br > 0 then n.br - 1 else 0)
    else if c == '{' then n.(cr := n.cr + 1)
    else if c == '}' then n.(cr := if n.cr > 0 then n.cr - 1 else 0)
    else n
  }

  /** The nesting just before s[i], counting only characters outside string literals. */
  function NestAt(s: string, i: nat): Nesting
    requires i <= |s|
  {
    if i == 0 then FLAT
    else if LexAt(s, i - 1).inStr then NestAt(s, i - 1)
    else NestStep(NestAt(s, i - 1), s[i - 1])
  }

  /** A statement is complete when, at the end of its code part, no string literal is open
      and nothing is left open. */
  predicate Complete(s: string)
  {
    !LexAt(s, CodeEnd(s)).inStr && NestAt(s, CodeEnd(s)) == FLAT
  }

  /** isStatementComplete: the loop decides Complete. */
  method IsStatementComplete(raw: string) returns (b: bool)
    ensures b == Complete(raw)
  {
    var par: nat, br: nat, cr: nat := 0, 0, 0;
    var inStr := false;
    var esc := false;
    var i := 0;
    while i < |raw|
      invariant 0 <= i <= |raw|
      invariant Lex(inStr, esc) == LexAt(raw, i) && (esc ==> inStr)
      invariant Nesting(par, br, cr) == NestAt(raw, i)
      invariant CommentFrom(raw, 0) == CommentFrom(raw, i)
    {
      var c := raw[i];
      if inStr {
        if esc {
          esc := false;
        } else if c == '\\' {
          esc := true;
        } else if c == '"' {
          inStr := false;
        }
      } else if c == '#' {
        break;
      } else if c == '"' {
        inStr := true;
      } else if c == '(' {
        par := par + 1;
      } else if c == ')' {
        par := if par > 0 then par - 1 else 0;
      } else if c == '[' {
        br := br + 1;
      } else if c == ']' {
        br := if br > 0 then br - 1 else 0;
      } else if c == '{' {
        cr := cr + 1;
      } else if c == '}' {
        cr := if cr > 0 then cr - 1 else 0;
      }
      i := i + 1;
    }
    return !inStr && par == 0 && br == 0 && cr == 0;
  }

  lemma {:induction false} NestAtPrefix(s: string, k: nat, n: nat)
    requires n <= k <= |s|
    ensures NestAt(s[..k], n) == NestAt(s, n)
  {
    if n > 0 {
      NestAtPrefix(s, k, n - 1);
      LexAtPrefix(s, k, n - 1);
      assert s[..k][n - 1] == s[n - 1];
    }
  }

  /** A trailing comment never makes a statement complete or incomplete. */
  lemma CompleteIgnoresComment(s: string)
    ensures Complete(s[..CodeEnd(s)]) == Complete(s)
  {
    var k := CodeEnd(s);
    CodeEndOfCodePart(s);
    LexAtPrefix(s, k, k);
    NestAtPrefix(s, k, k);
  }

  /** An open string literal, with no comment, leaves the statement incomplete. */
  lemma OpenStringIsIncomplete(s: string)
    requires CodeEnd(s) == |s| && LexAt(s, |s|).inStr
    ensures !Complete(s)
  {
  }

  // ---- readLambdaBodySlice ----

  /** The scan of a lambda body stops at t[j]: a '#', or a ',', ')', ']' or '}' with nothing
      open, outside string literals. */
  predicate BodyStopsAt(t: string, j: nat)
    requires j < |t|
  {
    && !LexAt(t, j).inStr
    && (t[j] == '#' || (NestAt(t, j) == FLAT && (t[j] == ',' || t[j] == ')' || t[j] == ']' || t[j] == '}')))
  }

  /** The first stop at or after `from`, or |t|. */
  function BodyEndFrom(t: string, from: nat): (k: nat)
    requires from <= |t|
    decreases |t| - from
    ensures from <= k <= |t|
  {
    if from == |t| then |t| else if BodyStopsAt(t, from) then from else BodyEndFrom(t, from + 1)
  }

  /** How much of the text after a lambda arrow is the lambda's body. */
  function LambdaBodyLength(t: string): nat
    ensures LambdaBodyLength(t) <= |t|
  {
    BodyEndFrom(t, 0)
  }

  lemma {:induction false} BodyEndFromIsFirst(t: string, from: nat, j: nat)
    requires from <= j <= |t|
    decreases |t| - from
    ensures j < BodyEndFrom(t, from) ==> !BodyStopsAt(t, j)
    ensures j == BodyEndFrom(t, from) && j < |t| ==> BodyStopsAt(t, j)
  {
    if from < |t| && !BodyStopsAt(t, from) && from < j {
      BodyEndFromIsFirst(t, from + 1, j);
    }
  }

  /** The body runs up to the first top-level delimiter or comment and contains none. */
  lemma LambdaBodyIsFirstStop(t: string)
    ensures forall j :: 0 <= j < LambdaBodyLength(t) ==> !BodyStopsAt(t, j)
    ensures LambdaBodyLength(t) < |t| ==> BodyStopsAt(t, LambdaBodyLength(t))
  {
    forall j | 0 <= j < LambdaBodyLength(t)
      ensures !BodyStopsAt(t, j)
    {
      BodyEndFromIsFirst(t, 0, j);
    }
    BodyEndFromIsFirst(t, 0, LambdaBodyLength(t));
  }
}
