/**
 * The JSON-like text helpers of the json module: minify, pretty-print and string escaping.
 *
 * minify and pretty are not parsers: a small scanner only tracks whether it is inside a
 * string literal (and just after a backslash there), and acts on the characters outside.
 * Each is specified by a function that walks the text from a scanner state; the methods are
 * the StringBuilder loops, proved equal to those functions.
 */
module JsonText {
  import opened Wrappers
  import opened JavaLang

  // ---- the string-literal scanner ----

  /** Outside a string literal, or inside one (`escaped`: the previous char was a backslash). */
  datatype Lex = Outside | InString(escaped: bool)

  /** The scanner state after reading `c`. */
  function Step(st: Lex, c: char): Lex
  {
    match st
    case Outside => if c == '"' then InString(false) else Outside
    case InString(e) =>
      if e then InString(false)
      else if c == '\\' then InString(true)
      else if c == '"' then Outside
      else InString(false)
  }

  /** The scanner state after reading all of `s`. */
  function After(st: Lex, s: string): Lex
    decreases |s|
  {
    if s == [] then st else After(Step(st, s[0]), s[1..])
  }

  /** The state held by the two flags `inStr` and `esc` of the loops. */
  function LexOf(inStr: bool, esc: bool): Lex
  {
    if inStr then InString(esc) else Outside
  }

  // ---- minify ----

  /** What minify emits for one char: everything inside a literal, and outside one every
      char that is not whitespace (a quote opening a literal included). */
  function MinChunk(st: Lex, c: char): string
  {
    if st.InString? || !IsWhitespace(c) then [c] else []
  }

  function MinFrom(st: Lex, s: string): string
    decreases |s|
  {
    if s == [] then [] else MinChunk(st, s[0]) + MinFrom(Step(st, s[0]), s[1..])
  }

  /** minifyJsonLike as a function of its input. */
  function Minify(s: string): string
  {
    MinFrom(Outside, s)
  }

  /** minifyJsonLike: the char loop with the `inStr` and `esc` flags. */
  method MinifyJsonLike(s: string) returns (out: string)
    ensures out == Minify(s)
  {
    out := [];
    var inStr, esc := false, false;
    var i := 0;
    while i < |s|
      invariant 0 <= i <= |s|
      invariant !inStr ==> !esc
      invariant out + MinFrom(LexOf(inStr, esc), s[i..]) == Minify(s)
    {
      var c := s[i];
      ghost var st, before := LexOf(inStr, esc), out;
      assert s[i..] == [c] + s[i + 1..];
      MinFromCons(st, c, s[i + 1..]);
      if inStr {
        out := out + [c];
        if esc {
          esc := false;
        } else if c == '\\' {
          esc := true;
        } else if c == '"' {
          inStr := false;
        }
      } else if c == '"' {
        inStr := true;
        out := out + [c];
      } else if !IsWhitespace(c) {
        out := out + [c];
      }
      ghost var chunk, tail := MinChunk(st, c), MinFrom(Step(st, c), s[i + 1..]);
      assert out == before + chunk;
      assert LexOf(inStr, esc) == Step(st, c);
      Associative(before, chunk, tail);
      i := i + 1;
    }
  }

  lemma Associative(a: string, b: string, c: string)
    ensures (a + b) + c == a + (b + c)
  {
  }

  /** `a` can be obtained from `b` by deleting chars (greedy matching decides it). */
  predicate Subsequence(a: string, b: string)
    decreases |b|
  {
    if a == [] then true
    else if b == [] then false
    else if a[0] == b[0] then Subsequence(a[1..], b[1..])
    else Subsequence(a, b[1..])
  }

  lemma {:induction false} SubsequenceDropHead(a: string, b: string)
    requires a != [] && Subsequence(a, b)
    ensures Subsequence(a[1..], b)
    decreases |b|, 0
  {
    if a[0] != b[0] {
      SubsequenceDropHead(a, b[1..]);
      SubsequenceSkip(a[1..], b[1..], b[0]);
      assert [b[0]] + b[1..] == b;
    } else if a[1..] != [] {
      SubsequenceSkip(a[1..], b[1..], b[0]);
      assert [b[0]] + b[1..] == b;
    }
  }

  /** A subsequence of `b` is one of `c` followed by `b` too. */
  lemma {:induction false} SubsequenceSkip(a: string, b: string, c: char)
    requires Subsequence(a, b)
    ensures Subsequence(a, [c] + b)
    decreases |b|, 1
  {
    var cb := [c] + b;
    assert cb[1..] == b;
    if a != [] && a[0] == c {
      SubsequenceDropHead(a, b);
    }
  }

  /** minify only deletes chars: its output is a subsequence of its input. */
  lemma {:induction false} MinFromSubsequence(st: Lex, s: string)
    ensures Subsequence(MinFrom(st, s), s)
    decreases |s|
  {
    if s != [] {
      var c := s[0];
      var rest := MinFrom(Step(st, c), s[1..]);
      MinFromSubsequence(Step(st, c), s[1..]);
      assert s == [c] + s[1..];
      var m := MinFrom(st, s);
      assert m == MinChunk(st, c) + rest;
      if MinChunk(st, c) == [] {
        assert m == rest;
        SubsequenceSkip(rest, s[1..], c);
      } else {
        assert m == [c] + rest;
        assert m[0] == s[0] && m[1..] == rest;
      }
    }
  }

  lemma MinifySubsequence(s: string)
    ensures Subsequence(Minify(s), s)
  {
    MinFromSubsequence(Outside, s);
  }

  /** Text with no whitespace outside string literals, scanned from `st`. */
  predicate Compact(st: Lex, t: string)
    decreases |t|
  {
    t == [] || ((st.InString? || !IsWhitespace(t[0])) && Compact(Step(st, t[0]), t[1..]))
  }

  /** minify leaves no whitespace outside string literals. */
  lemma {:induction false} MinFromCompact(st: Lex, s: string)
    ensures Compact(st, MinFrom(st, s))
    decreases |s|
  {
    if s != [] {
      var c := s[0];
      MinFromCompact(Step(st, c), s[1..]);
      var rest := MinFrom(Step(st, c), s[1..]);
      var m := MinFrom(st, s);
      assert m == MinChunk(st, c) + rest;
      if MinChunk(st, c) == [] {
        assert st == Outside && IsWhitespace(c) && c != '"';
        assert m == rest && Step(st, c) == st;
      } else {
        assert m == [c] + rest;
        assert m[0] == c && m[1..] == rest;
      }
    }
  }

  /** minify keeps compact text as it is. */
  lemma {:induction false} MinFromOfCompact(st: Lex, t: string)
    requires Compact(st, t)
    ensures MinFrom(st, t) == t
    decreases |t|
  {
    if t != [] {
      MinFromOfCompact(Step(st, t[0]), t[1..]);
      assert [t[0]] + t[1..] == t;
    }
  }

  /** minify is idempotent. */
  lemma MinifyIdempotent(s: string)
    ensures Minify(Minify(s)) == Minify(s)
  {
    MinFromCompact(Outside, s);
    MinFromOfCompact(Outside, Minify(s));
  }

  /** minify of a string made of one char then more text, unfolded once. */
  lemma MinFromCons(st: Lex, c: char, t: string)
    ensures MinFrom(st, [c] + t) == MinChunk(st, c) + MinFrom(Step(st, c), t)
  {
    assert ([c] + t)[1..] == t;
  }

  predicate Blank(w: string)
  {
    forall i :: 0 <= i < |w| ==> IsWhitespace(w[i])
  }

  /** Whitespace outside a literal disappears under minify. */
  lemma {:induction false} MinFromDropsBlank(w: string, t: string)
    requires Blank(w)
    ensures MinFrom(Outside, w + t) == MinFrom(Outside, t)
    decreases |w|
  {
    if w != [] {
      var c := w[0];
      assert IsWhitespace(c);
      assert MinChunk(Outside, c) == [] && Step(Outside, c) == Outside;
      assert w + t == [c] + (w[1..] + t);
      MinFromCons(Outside, c, w[1..] + t);
      assert Blank(w[1..]) by {
        forall i | 0 <= i < |w[1..]| ensures IsWhitespace(w[1..][i]) {
          assert w[1..][i] == w[i + 1];
        }
      }
      MinFromDropsBlank(w[1..], t);
      assert MinFrom(Outside, w + t) == MinFrom(Outside, w[1..] + t);
    } else {
      assert w + t == t;
    }
  }

  // ---- pretty ----

  /** `n` spaces. */
  function Spaces(n: nat): (r: string)
    ensures |r| == n
    ensures forall i :: 0 <= i < n ==> r[i] == ' '
  {
    if n == 0 then [] else Spaces(n - 1) + [' ']
  }

  /** appendIndent: level * indent spaces, the product taken in 32-bit int arithmetic (the
      loop runs not at all when it wraps to a negative count). */
  function Indent(level: nat, indent: nat): (r: string)
    ensures forall i :: 0 <= i < |r| ==> r[i] == ' '
    ensures level * indent <= INT_MAX ==> |r| == level * indent
  {
    var n := WrapInt(level * indent);
    if n <= 0 then [] else Spaces(n)
  }

  /** What prettyJsonLike emits for one char of (already minified) text at a nesting level:
      `{`/`[` open a line one level deeper, `}`/`]` go on a new line one level shallower,
      `,` ends a line, and `:` is followed by one space; chars in literals are copied. */
  function PrettyEmit(st: Lex, level: nat, indent: nat, c: char): string
  {
    if st.InString? || c == '"' then [c]
    else if c == '{' || c == '[' then [c, '\n'] + Indent(level + 1, indent)
    else if c == '}' || c == ']' then ['\n'] + Indent(Shallower(level), indent) + [c]
    else if c == ',' then [c, '\n'] + Indent(level, indent)
    else if c == ':' then ": "
    else [c]
  }

  /** level = Math.max(0, level - 1). */
  function Shallower(level: nat): nat
  {
    if level == 0 then 0 else level - 1
  }

  /** The nesting level after one char. */
  function PrettyLevel(st: Lex, level: nat, c: char): nat
  {
    if st.InString? || c == '"' then level
    else if c == '{' || c == '[' then level + 1
    else if c == '}' || c == ']' then Shallower(level)
    else level
  }

  /** prettyJsonLike's loop over text from a scanner state and a nesting level. */
  function PrettyFrom(st: Lex, level: nat, indent: nat, s: string): string
    decreases |s|
  {
    if s == [] then []
    else PrettyEmit(st, level, indent, s[0]) + PrettyFrom(Step(st, s[0]), PrettyLevel(st, level, s[0]), indent, s[1..])
  }

  /** prettyJsonLike(s, indent) for a non-negative indent: the minified text re-laid out. */
  function Pretty(s: string, indent: nat): string
  {
    PrettyFrom(Outside, 0, indent, Minify(s))
  }

  /** appendIndent: the loop appending one space at a time. */
  method AppendIndent(sb: string, level: nat, indent: nat) returns (r: string)
    ensures r == sb + Indent(level, indent)
  {
    r := sb;
    var n := WrapInt(level * indent);
    var i := 0;
    while i < n
      invariant 0 <= i && (n > 0 ==> i <= n)
      invariant r == sb + (if n <= 0 then [] else Spaces(i))
    {
      r := r + [' '];
      i := i + 1;
    }
  }

  /** One round of prettyJsonLike's loop: the char `c` appended to `out` as the flags and the
      level say, and the flags and level updated. */
  method PrettyChar(out: string, inStr: bool, esc: bool, level: nat, indent: nat, c: char)
    returns (out': string, inStr': bool, esc': bool, level': nat)
    requires !inStr ==> !esc
    ensures !inStr' ==> !esc'
    ensures out' == out + PrettyEmit(LexOf(inStr, esc), level, indent, c)
    ensures LexOf(inStr', esc') == Step(LexOf(inStr, esc), c) && level' == PrettyLevel(LexOf(inStr, esc), level, c)
  {
    out', inStr', esc', level' := out, inStr, esc, level;
    if inStr {
      out' := out' + [c];
      if esc {
        esc' := false;
      } else if c == '\\' {
        esc' := true;
      } else if c == '"' {
        inStr' := false;
      }
    } else if c == '"' {
      inStr' := true;
      out' := out' + [c];
    } else if c == '{' || c == '[' {
      out' := out' + [c, '\n'];
      level' := level' + 1;
      out' := AppendIndent(out', level', indent);
    } else if c == '}' || c == ']' {
      out' := out' + ['\n'];
      level' := if level' == 0 then 0 else level' - 1;
      out' := AppendIndent(out', level', indent);
      out' := out' + [c];
    } else if c == ',' {
      out' := out' + [c, '\n'];
      out' := AppendIndent(out', level', indent);
    } else if c == ':' {
      out' := out' + ": ";
    } else {
      out' := out' + [c];
    }
  }

  /** prettyJsonLike: minify, then the char loop with `inStr`, `esc` and `level`. */
  method PrettyJsonLike(s: string, indent: nat) returns (out: string)
    ensures out == Pretty(s, indent)
  {
    var min := MinifyJsonLike(s);
    out := [];
    var inStr, esc := false, false;
    var level: nat := 0;
    var i := 0;
    while i < |min|
      invariant 0 <= i <= |min|
      invariant !inStr ==> !esc
      invariant out + PrettyFrom(LexOf(inStr, esc), level, indent, min[i..]) == Pretty(s, indent)
    {
      var c := min[i];
      assert min[i..] == [c] + min[i + 1..];
      assert ([c] + min[i + 1..])[1..] == min[i + 1..];
      ghost var st, before, level0 := LexOf(inStr, esc), out, level;
      out, inStr, esc, level := PrettyChar(out, inStr, esc, level, indent, c);
      ghost var emit, tail := PrettyEmit(st, level0, indent, c), PrettyFrom(Step(st, c), PrettyLevel(st, level0, c), indent, min[i + 1..]);
      assert out == before + emit;
      assert LexOf(inStr, esc) == Step(st, c) && level == PrettyLevel(st, level0, c);
      Associative(before, emit, tail);
      i := i + 1;
    }
  }

  /** After `{` or `[` outside a literal comes a new line indented one level deeper. */
  lemma PrettyOpensLine(level: nat, indent: nat, c: char, rest: string)
    requires c == '{' || c == '['
    ensures StartsWith(PrettyFrom(Outside, level, indent, [c] + rest), [c, '\n'] + Indent(level + 1, indent))
  {
    assert ([c] + rest)[0] == c && ([c] + rest)[1..] == rest;
  }

  /** After `,` outside a literal comes a new line at the same level. */
  lemma PrettyCommaBreaksLine(level: nat, indent: nat, rest: string)
    ensures StartsWith(PrettyFrom(Outside, level, indent, [','] + rest), [',', '\n'] + Indent(level, indent))
  {
    assert ([','] + rest)[0] == ',' && ([','] + rest)[1..] == rest;
  }

  /** What pretty emits for one char minifies to what minify keeps of that char. */
  lemma MinFromPrettyEmit(st: Lex, level: nat, indent: nat, c: char, p: string)
    ensures MinFrom(st, PrettyEmit(st, level, indent, c) + p) == MinChunk(st, c) + MinFrom(Step(st, c), p)
  {
    if st.InString? || c == '"' {
      MinFromCons(st, c, p);
    } else if c == '{' || c == '[' || c == ',' {
      MinFromPrettyBreak(st, level, indent, c, p);
    } else if c == '}' || c == ']' {
      MinFromPrettyClose(st, level, indent, c, p);
    } else if c == ':' {
      MinFromPrettyColon(st, level, indent, p);
    } else {
      MinFromCons(st, c, p);
    }
  }

  lemma MinFromPrettyBreak(st: Lex, level: nat, indent: nat, c: char, p: string)
    requires st.Outside? && (c == '{' || c == '[' || c == ',')
    ensures MinFrom(st, PrettyEmit(st, level, indent, c) + p) == MinChunk(st, c) + MinFrom(Step(st, c), p)
  {
    var w := ['\n'] + Indent(if c == ',' then level else level + 1, indent);
    assert PrettyEmit(st, level, indent, c) + p == [c] + (w + p);
    MinFromCons(st, c, w + p);
    MinFromDropsBlank(w, p);
  }

  lemma MinFromPrettyClose(st: Lex, level: nat, indent: nat, c: char, p: string)
    requires st.Outside? && (c == '}' || c == ']')
    ensures MinFrom(st, PrettyEmit(st, level, indent, c) + p) == MinChunk(st, c) + MinFrom(Step(st, c), p)
  {
    var w := ['\n'] + Indent(Shallower(level), indent);
    assert PrettyEmit(st, level, indent, c) + p == w + ([c] + p);
    MinFromDropsBlank(w, [c] + p);
    MinFromCons(st, c, p);
  }

  lemma MinFromPrettyColon(st: Lex, level: nat, indent: nat, p: string)
    requires st.Outside?
    ensures MinFrom(st, PrettyEmit(st, level, indent, ':') + p) == MinChunk(st, ':') + MinFrom(Step(st, ':'), p)
  {
    assert PrettyEmit(st, level, indent, ':') + p == [':'] + ([' '] + p);
    MinFromCons(st, ':', [' '] + p);
    MinFromDropsBlank([' '], p);
  }

  /** Pretty-printing only adds whitespace outside literals: minifying its output gives back
      what minifying its input gives. */
  lemma {:induction false} MinFromPrettyFrom(st: Lex, level: nat, indent: nat, t: string)
    ensures MinFrom(st, PrettyFrom(st, level, indent, t)) == MinFrom(st, t)
    decreases |t|
  {
    if t != [] {
      var c, rest := t[0], t[1..];
      MinFromPrettyFrom(Step(st, c), PrettyLevel(st, level, c), indent, rest);
      MinFromPrettyEmit(st, level, indent, c, PrettyFrom(Step(st, c), PrettyLevel(st, level, c), indent, rest));
    }
  }

  /** minify(pretty(s, k)) == minify(s). */
  lemma MinifyPretty(s: string, indent: nat)
    ensures Minify(Pretty(s, indent)) == Minify(s)
  {
    MinFromPrettyFrom(Outside, 0, indent, Minify(s));
    MinifyIdempotent(s);
  }

  // ---- escaping (section 7 of RFC 8259) ----

  function HexDigit(d: nat): (c: char)
    requires d < 16
  {
    if d < 10 then ('0' as int + d) as char else ('a' as int + d - 10) as char
  }

  /** Integer.toHexString(n) left-padded with '0' to four digits, for n < 0x10000. */
  function Hex4(n: nat): (r: string)
    requires n < 0x10000
    ensures |r| == 4
  {
    [HexDigit(n / 0x1000), HexDigit(n / 0x100 % 16), HexDigit(n / 0x10 % 16), HexDigit(n % 16)]
  }

  /** The escape of one char: the two-char escapes for `"`, `\`, LF, CR, TAB, BS and FF,
      \u and four lowercase hex digits for the other chars below 0x20, the char itself
      otherwise. */
  function EscapeChar(c: char): (r: string)
    ensures |r| >= 1
    ensures forall i :: 0 <= i < |r| ==> r[i] >= ' '
    ensures r == [c] <==> (c >= ' ' && c != '"' && c != '\\')
    ensures r != [c] ==> r[0] == '\\'
  {
    if c == '"' then ['\\', '"']
    else if c == '\\' then ['\\', '\\']
    else if c == '\n' then ['\\', 'n']
    else if c == '\r' then ['\\', 'r']
    else if c == '\t' then ['\\', 't']
    else if c == '\U{8}' then ['\\', 'b']
    else if c == '\U{C}' then ['\\', 'f']
    else if c < ' ' then ['\\', 'u'] + Hex4(c as nat)
    else [c]
  }

  function Escape(s: string): string
    decreases |s|
  {
    if s == [] then [] else EscapeChar(s[0]) + Escape(s[1..])
  }

  /** escapeJsonString: the char loop over a StringBuilder. */
  method EscapeJsonString(s: string) returns (out: string)
    ensures out == Escape(s)
  {
    out := [];
    var i := 0;
    while i < |s|
      invariant 0 <= i <= |s|
      invariant out + Escape(s[i..]) == Escape(s)
    {
      assert s[i..][1..] == s[i + 1..];
      out := out + EscapeChar(s[i]);
      i := i + 1;
    }
  }

  /** The escaped text holds no raw control char. */
  lemma {:induction false} EscapeNoControl(s: string)
    ensures forall i :: 0 <= i < |Escape(s)| ==> Escape(s)[i] >= ' '
    decreases |s|
  {
    if s != [] {
      EscapeNoControl(s[1..]);
      var e, rest := EscapeChar(s[0]), Escape(s[1..]);
      forall i | 0 <= i < |e + rest|
        ensures (e + rest)[i] >= ' '
      {
        if i >= |e| {
          assert (e + rest)[i] == rest[i - |e|];
        }
      }
    }
  }

  // A decoder of JSON string contents, the partner that escaping is measured against.

  predicate IsHexDigit(c: char)
  {
    '0' <= c <= '9' || 'a' <= c <= 'f' || 'A' <= c <= 'F'
  }

  function HexValue(c: char): (d: nat)
    requires IsHexDigit(c)
    ensures d < 16
  {
    if '0' <= c <= '9' then c as int - '0' as int
    else if 'a' <= c <= 'f' then c as int - 'a' as int + 10
    else c as int - 'A' as int + 10
  }

  /** The char a one-letter escape stands for (RFC 8259 section 7), if it is one. */
  function SimpleEscape(e: char): Option<char>
  {
    match e
    case '"' => Some('"')
    case '\\' => Some('\\')
    case '/' => Some('/')
    case 'b' => Some('\U{8}')
    case 'f' => Some('\U{C}')
    case 'n' => Some('\n')
    case 'r' => Some('\r')
    case 't' => Some('\t')
    case _ => None
  }

  function Prepend(c: char, o: Option<string>): Option<string>
  {
    match o
    case Some(t) => Some([c] + t)
    case None => None
  }

  /** The chars a JSON string body stands for, or None when it is not a valid body (a raw
      quote or control char, an unknown escape, or a \u escape of a surrogate). */
  function Unescape(t: string): Option<string>
    decreases |t|
  {
    if t == [] then Some([])
    else if t[0] == '"' || t[0] < ' ' then None
    else if t[0] != '\\' then Prepend(t[0], Unescape(t[1..]))
    else if |t| < 2 then None
    else if t[1] == 'u' then
      if |t| >= 6 && IsHexDigit(t[2]) && IsHexDigit(t[3]) && IsHexDigit(t[4]) && IsHexDigit(t[5]) then
        var n := HexValue(t[2]) * 0x1000 + HexValue(t[3]) * 0x100 + HexValue(t[4]) * 0x10 + HexValue(t[5]);
        if 0xD800 <= n < 0xE000 then None else Prepend(n as char, Unescape(t[6..]))
      else None
    else
      match SimpleEscape(t[1])
      case Some(c) => Prepend(c, Unescape(t[2..]))
      case None => None
  }

  /** The \\u escape of a control char decodes to that char. */
  lemma UnescapeHexEscape(c: char, t: string)
    requires c < ' '
    ensures Unescape(['\\', 'u'] + Hex4(c as nat) + t) == Prepend(c, Unescape(t))
  {
    var n := c as nat;
    var u := ['\\', 'u'] + Hex4(n) + t;
    assert n / 0x1000 == 0 && n / 0x100 % 16 == 0 && n / 0x10 % 16 == n / 16;
    assert u[0] == '\\' && u[1] == 'u' && u[6..] == t;
    assert u[2] == '0' && u[3] == '0' && u[4] == HexDigit(n / 16) && u[5] == HexDigit(n % 16);
    assert HexValue(u[4]) == n / 16 && HexValue(u[5]) == n % 16;
  }

  /** Decoding the escape of one char gives that char back. */
  lemma UnescapeEscapeChar(c: char, t: string)
    ensures Unescape(EscapeChar(c) + t) == Prepend(c, Unescape(t))
  {
    var e := EscapeChar(c);
    var u := e + t;
    if e == [c] {
      assert u[0] == c && u[1..] == t;
    } else if c < ' ' && c != '\n' && c != '\r' && c != '\t' && c != '\U{8}' && c != '\U{C}' {
      UnescapeHexEscape(c, t);
    } else {
      assert u[0] == '\\' && u[1] == e[1] && u[2..] == t;
    }
  }

  /** Escaping loses nothing: decoding the escaped text gives the original string. */
  lemma {:induction false} UnescapeEscape(s: string)
    ensures Unescape(Escape(s)) == Some(s)
    decreases |s|
  {
    if s != [] {
      UnescapeEscape(s[1..]);
      UnescapeEscapeChar(s[0], Escape(s[1..]));
      assert [s[0]] + s[1..] == s;
    }
  }
}
