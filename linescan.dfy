/**
 * The compiler's line-level helpers: identifiers, leading whitespace, the
 * search for an assignment '=', joining continuation lines into one logical
 * statement, and the brace balance of a run of lines.
 */
module LineScan {
  import opened JavaLang
  import opened LexScan

  // ---- identifiers ----

  predicate IdentStart(c: char) { IsLetter(c) || c == '_' }

  predicate IdentPart(c: char) { IsLetterOrDigit(c) || c == '_' }

  /** A letter or '_' followed by letters, digits and '_'. */
  predicate IdentText(s: string)
  {
    |s| > 0 && IdentStart(s[0]) && forall i :: 1 <= i < |s| ==> IdentPart(s[i])
  }

  /** isIdent: the loop decides IdentText. */
  method IsIdent(s: string) returns (b: bool)
    ensures b == IdentText(s)
  {
    if |s| == 0 || !IdentStart(s[0]) {
      return false;
    }
    var i := 1;
    while i < |s|
      invariant 1 <= i <= |s|
      invariant forall j :: 1 <= j < i ==> IdentPart(s[j])
    {
      if !IdentPart(s[i]) {
        return false;
      }
      i := i + 1;
    }
    return true;
  }

  // ---- whitespace ----

  /** The first index at or after i that does not hold whitespace (i itself when i is past
      the end). */
  function SkipWhitespace(s: string, i: nat): (k: nat)
    decreases |s| - i
    ensures i <= k && (i <= |s| ==> k <= |s|)
  {
    if i < |s| && IsWhitespace(s[i]) then SkipWhitespace(s, i + 1) else i
  }

  /** SkipWhitespace passes over whitespace only and stops at the first character that is not
      whitespace. */
  lemma {:induction false} SkipWhitespaceSkips(s: string, i: nat)
    decreases |s| - i
    ensures forall j :: i <= j < SkipWhitespace(s, i) ==> j < |s| && IsWhitespace(s[j])
    ensures SkipWhitespace(s, i) < |s| ==> !IsWhitespace(s[SkipWhitespace(s, i)])
  {
    if i < |s| && IsWhitespace(s[i]) {
      SkipWhitespaceSkips(s, i + 1);
      assert SkipWhitespace(s, i) == SkipWhitespace(s, i + 1);
      forall j | i <= j < SkipWhitespace(s, i)
        ensures j < |s| && IsWhitespace(s[j])
      {
        if j > i {
          assert i + 1 <= j < SkipWhitespace(s, i + 1);
        }
      }
    } else {
      assert SkipWhitespace(s, i) == i;
    }
  }

  /** indexOfNonSpace: the first non-whitespace index, or the length. */
  method IndexOfNonSpace(raw: string) returns (r: nat)
    ensures r == SkipWhitespace(raw, 0)
  {
    r := FindExprStartIndex(raw, 0);
  }

  /** findExprStartIndex: the first non-whitespace index from `after` on. */
  method FindExprStartIndex(raw: string, after: nat) returns (i: nat)
    ensures i == SkipWhitespace(raw, after)
  {
    i := after;
    while i < |raw| && IsWhitespace(raw[i])
      invariant after <= i
      invariant SkipWhitespace(raw, i) == SkipWhitespace(raw, after)
      decreases |raw| - i
    {
      i := i + 1;
    }
  }

  // ---- findTopLevelAssign ----

  /** findTopLevelAssign's own view of quotes: every '"' not right after a backslash toggles
      them, inside a literal or not. QuotedAt is the state just before s[i]. */
  function QuotedAt(s: string, i: nat): bool
    requires i <= |s|
  {
    if i == 0 then false
    else if s[i - 1] == '"' && !(i >= 2 && s[i - 2] == '\\') then !QuotedAt(s, i - 1)
    else QuotedAt(s, i - 1)
  }

  /** The nesting just before s[i], counting the characters outside quotes. */
  function DepthAt(s: string, i: nat): Nesting
    requires i <= |s|
  {
    if i == 0 then FLAT
    else if QuotedAt(s, i - 1) then DepthAt(s, i - 1)
    else NestStep(DepthAt(s, i - 1), s[i - 1])
  }

  /** The search stops at a '#' outside quotes. */
  predicate AssignStop(s: string, i: nat)
    requires i < |s|
  {
    !QuotedAt(s, i) && s[i] == '#'
  }

  /** s[i] is an assignment '=': outside quotes and brackets, not followed by '=' and not
      preceded by '!', '<' or '>'. */
  predicate AssignAt(s: string, i: nat)
    requires i < |s|
  {
    && s[i] == '='
    && !QuotedAt(s, i)
    && DepthAt(s, i) == FLAT
    && !(i + 1 < |s| && s[i + 1] == '=')
    && !(i >= 1 && (s[i - 1] == '!' || s[i - 1] == '<' || s[i - 1] == '>'))
  }

  function AssignFrom(s: string, i: nat): (r: int)
    requires i <= |s|
    decreases |s| - i
    ensures r == -1 || i <= r < |s|
  {
    if i == |s| then -1
    else if AssignStop(s, i) then -1
    else if AssignAt(s, i) then i
    else AssignFrom(s, i + 1)
  }

  /** The index of the first assignment '=' before any comment, or -1. */
  function AssignIndex(s: string): int
  {
    AssignFrom(s, 0)
  }

  /** findTopLevelAssign: the loop computes AssignIndex. */
  method FindTopLevelAssign(s: string) returns (r: int)
    ensures r == AssignIndex(s)
  {
    if |s| == 0 {
      return -1;
    }
    var paren: nat, bracket: nat, brace: nat := 0, 0, 0;
    var inQuotes := false;
    var i := 0;
    while i < |s|
      invariant 0 <= i <= |s|
      invariant inQuotes == QuotedAt(s, i)
      invariant Nesting(paren, bracket, brace) == DepthAt(s, i)
      invariant AssignFrom(s, 0) == AssignFrom(s, i)
    {
      var c := s[i];
      if c == '"' {
        var escaped := i > 0 && s[i - 1] == '\\';
        if !escaped {
          inQuotes := !inQuotes;
        }
      } else if !inQuotes {
        if c == '#' {
          return -1;
        }
        if c == '(' {
          paren := paren + 1;
        } else if c == ')' && paren > 0 {
          paren := paren - 1;
        } else if c == '[' {
          bracket := bracket + 1;
        } else if c == ']' && bracket > 0 {
          bracket := bracket - 1;
        } else if c == '{' {
          brace := brace + 1;
        } else if c == '}' && brace > 0 {
          brace := brace - 1;
        }
        if paren == 0 && bracket == 0 && brace == 0 && c == '=' {
          if !(i + 1 < |s| && s[i + 1] == '=') && !(i >= 1 && (s[i - 1] == '!' || s[i - 1] == '<' || s[i - 1] == '>')) {
            return i;
          }
        }
      }
      i := i + 1;
    }
    return -1;
  }

  lemma {:induction false} AssignFromIsFirst(s: string, i: nat, j: nat)
    requires i <= j < |s|
    requires forall k :: i <= k < j ==> !AssignStop(s, k)
    decreases |s| - i
    ensures AssignFrom(s, i) == -1 || j < AssignFrom(s, i) ==> !AssignAt(s, j)
  {
    if !AssignStop(s, i) && !AssignAt(s, i) && i < j {
      AssignFromIsFirst(s, i + 1, j);
    }
  }

  lemma {:induction false} AssignFromFound(s: string, i: nat)
    requires i <= |s|
    decreases |s| - i
    ensures AssignFrom(s, i) >= 0 ==> AssignAt(s, AssignFrom(s, i))
    ensures AssignFrom(s, i) >= 0 ==> forall k :: i <= k < AssignFrom(s, i) ==> !AssignStop(s, k)
  {
    if i < |s| && !AssignStop(s, i) && !AssignAt(s, i) {
      AssignFromFound(s, i + 1);
    }
  }

  /** findTopLevelAssign finds an assignment '=' with none before it, and -1 means there is no
      assignment '=' before the first comment. */
  lemma AssignIndexIsFirst(s: string)
    ensures AssignIndex(s) >= 0 ==> AssignAt(s, AssignIndex(s))
    ensures forall j :: (0 <= j < |s| && (AssignIndex(s) == -1 || j < AssignIndex(s))
      && (forall k :: 0 <= k < j ==> !AssignStop(s, k))) ==> !AssignAt(s, j)
  {
    AssignFromFound(s, 0);
    forall j | 0 <= j < |s| && (AssignIndex(s) == -1 || j < AssignIndex(s))
      && (forall k :: 0 <= k < j ==> !AssignStop(s, k))
      ensures !AssignAt(s, j)
    {
      AssignFromIsFirst(s, 0, j);
    }
  }

  /** An `==` is read as an assignment: its first '=' is skipped because another follows, and
      its second is taken because the character before it is '=', not '!', '<' or '>'. The
      left side "a =" is then no identifier. */
  lemma DoubleEqualsReadAsAssignment()
    ensures AssignIndex("a == b") == 3
    ensures !IdentText(Trim("a == b"[..3]))
  {
    var s := "a == b";
    assert s[0] == 'a' && s[1] == ' ' && s[2] == '=' && s[3] == '=';
    assert !QuotedAt(s, 1) && !QuotedAt(s, 2) && !QuotedAt(s, 3);
    assert DepthAt(s, 1) == FLAT && DepthAt(s, 2) == FLAT && DepthAt(s, 3) == FLAT;
    assert !AssignStop(s, 0) && !AssignAt(s, 0);
    assert !AssignStop(s, 1) && !AssignAt(s, 1);
    assert !AssignStop(s, 2) && !AssignAt(s, 2);
    assert !AssignStop(s, 3) && AssignAt(s, 3);
    assert AssignFrom(s, 0) == 3;
    var t := s[..3];
    assert t == "a =";
    assert TrimStart(t) == t;
    assert TrimEnd(t) == t;
  }

  // ---- logical lines ----

  /** isStructuralLine: the trimmed line opens or closes a block. */
  predicate Structural(t: string)
  {
    || StartsWith(t, "if ") || StartsWith(t, "while ") || StartsWith(t, "fn ")
    || StartsWith(t, "else") || StartsWith(t, "} else")
    || t == "{" || t == "}" || StartsWith(t, "}")
  }

  /** lines[a] to lines[b] joined by line feeds. */
  function JoinLines(lines: seq<string>, a: nat, b: nat): string
    requires a <= b < |lines|
    decreases b - a
  {
    if b == a then lines[a] else JoinLines(lines, a, b - 1) + "\n" + lines[b]
  }

  /** readLogicalLine: a structural line stands alone; any other statement takes the
      following lines until it is complete, or until the lines run out. */
  method ReadLogicalLine(lines: seq<string>, start: nat) returns (raw: string, endIndex: nat)
    requires start < |lines|
    ensures start <= endIndex < |lines|
    ensures raw == JoinLines(lines, start, endIndex)
    ensures Structural(Trim(lines[start])) ==> endIndex == start
    ensures !Structural(Trim(lines[start])) ==>
      && (Complete(raw) || endIndex == |lines| - 1)
      && forall e :: start <= e < endIndex ==> !Complete(JoinLines(lines, start, e))
  {
    if Structural(Trim(lines[start])) {
      return lines[start], start;
    }
    raw := lines[start];
    endIndex := start;
    while true
      invariant start <= endIndex < |lines|
      invariant raw == JoinLines(lines, start, endIndex)
      invariant forall e :: start <= e < endIndex ==> !Complete(JoinLines(lines, start, e))
      decreases |lines| - endIndex
    {
      var done := IsStatementComplete(raw);
      if done || endIndex + 1 >= |lines| {
        return;
      }
      endIndex := endIndex + 1;
      raw := raw + "\n" + lines[endIndex];
    }
  }

  // ---- brace balance of a run of lines ----

  /** The brace balances of lines[lo..hi] added up. */
  function DeltaSum(lines: seq<string>, lo: nat, hi: int): int
    requires hi <= |lines|
    decreases hi - lo
  {
    if hi <= lo then 0 else DeltaSum(lines, lo, hi - 1) + Delta(lines[hi - 1])
  }

  /** braceDeltaRange: the balance of the lines after `fromExclusive` up to `toInclusive`,
      cut at the last line. */
  method BraceDeltaRange(lines: seq<string>, fromExclusive: nat, toInclusive: int) returns (d: int)
    ensures d == DeltaSum(lines, fromExclusive + 1, Min(toInclusive, |lines| - 1) + 1)
  {
    d := 0;
    var a := fromExclusive + 1;
    var b := Min(toInclusive, |lines| - 1);
    if b < a {
      return;
    }
    var i := a;
    while i <= b
      invariant a <= i <= b + 1
      invariant d == DeltaSum(lines, a, i)
      decreases b - i
    {
      var di := BraceDelta(lines[i]);
      d := d + di;
      i := i + 1;
    }
  }
}
