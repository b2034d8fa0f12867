/**
 * The parts of the Java platform the toolchain leans on, written out:
 * 32- and 64-bit integer ranges and wrap-around, BigInteger.bitLength,
 * decimal conversion, the character classes, and the String methods
 * (trim, indexOf, split on a literal separator, join, replace).
 */
module JavaLang {
  import opened Wrappers

  const INT_MIN: int := -0x8000_0000
  const INT_MAX: int := 0x7FFF_FFFF
  const LONG_MIN: int := -0x8000_0000_0000_0000
  const LONG_MAX: int := 0x7FFF_FFFF_FFFF_FFFF

  type Int32 = x: int | INT_MIN <= x <= INT_MAX
  type Int64 = x: int | LONG_MIN <= x <= LONG_MAX

  /** A double's IEEE 754 bit pattern, read as an unsigned 64-bit number. */
  type DoubleBits = x: int | 0 <= x < 0x1_0000_0000_0000_0000

  function Max(a: int, b: int): int { if a < b then b else a }
  function Min(a: int, b: int): int { if a < b then a else b }

  /** Java `long` addition and subtraction: the exact result reduced modulo 2^64 into the signed range. */
  function WrapLong(x: int): (r: Int64)
    ensures (r - x) % 0x1_0000_0000_0000_0000 == 0
    ensures LONG_MIN <= x <= LONG_MAX ==> r == x
  {
    (x - LONG_MIN) % 0x1_0000_0000_0000_0000 + LONG_MIN
  }

  /** Java's narrowing to `int`: the exact value reduced modulo 2^32 into the signed range. */
  function WrapInt(x: int): (r: Int32)
    ensures (r - x) % 0x1_0000_0000 == 0
    ensures INT_MIN <= x <= INT_MAX ==> r == x
  {
    (x - INT_MIN) % 0x1_0000_0000 + INT_MIN
  }

  // ---- BigInteger.bitLength ----

  function Pow2(k: nat): (r: nat)
    ensures r >= 1
  {
    if k == 0 then 1 else 2 * Pow2(k - 1)
  }

  function BitLengthNat(n: nat): nat
  {
    if n == 0 then 0 else 1 + BitLengthNat(n / 2)
  }

  /** Bits in the minimal two's-complement form without the sign bit, as BigInteger.bitLength. */
  function BitLength(x: int): nat
  {
    if x >= 0 then BitLengthNat(x) else BitLengthNat(-x - 1)
  }

  lemma {:induction false} BitLengthNatBound(n: nat, k: nat)
    ensures BitLengthNat(n) <= k <==> n < Pow2(k)
  {
    if n != 0 && k != 0 {
      BitLengthNatBound(n / 2, k - 1);
    }
  }

  /** bitLength(x) <= k exactly when x lies in the signed k+1 bit range. */
  lemma BitLengthRange(x: int, k: nat)
    ensures BitLength(x) <= k <==> -(Pow2(k) as int) <= x < Pow2(k)
  {
    if x >= 0 {
      BitLengthNatBound(x, k);
    } else {
      BitLengthNatBound(-x - 1, k);
    }
  }

  lemma {:induction false} Pow2Add(a: nat, b: nat)
    ensures Pow2(a + b) == Pow2(a) * Pow2(b)
  {
    if b > 0 {
      Pow2Add(a, b - 1);
    }
  }

  lemma Pow2Values()
    ensures Pow2(31) == 0x8000_0000
    ensures Pow2(63) == 0x8000_0000_0000_0000
  {
    Pow2SmallValues();
    Pow2Add(16, 15);
    assert Pow2(31) == 0x8000_0000;
    Pow2Add(16, 16);
    assert Pow2(32) == 0x1_0000_0000;
    Pow2Add(32, 31);
  }

  lemma Pow2SmallValues()
    ensures Pow2(15) == 0x8000
    ensures Pow2(16) == 0x1_0000
  {
    assert Pow2(1) == 2;
    assert Pow2(2) == 4;
    assert Pow2(3) == 8;
    assert Pow2(4) == 16;
    Pow2Add(4, 3);
    assert Pow2(7) == 128;
    Pow2Add(4, 4);
    assert Pow2(8) == 256;
    Pow2Add(8, 7);
    Pow2Add(8, 8);
  }

  /** bitLength <= 31 is the int range and bitLength <= 63 the long range. */
  lemma BitLengthJavaRanges(x: int)
    ensures BitLength(x) <= 31 <==> INT_MIN <= x <= INT_MAX
    ensures BitLength(x) <= 63 <==> LONG_MIN <= x <= LONG_MAX
  {
    Pow2Values();
    BitLengthRange(x, 31);
    BitLengthRange(x, 63);
  }

  // ---- characters ----

  predicate IsDigit(c: char) { '0' <= c <= '9' }

  /** Letters: ASCII only (Character.isLetter also accepts the other Unicode letters). */
  predicate IsLetter(c: char) { 'a' <= c <= 'z' || 'A' <= c <= 'Z' }

  predicate IsLetterOrDigit(c: char) { IsLetter(c) || IsDigit(c) }

  /** Character.isWhitespace: the Unicode space, line and paragraph separators other than the
      no-break spaces, plus TAB, LF, VT, FF, CR and the four information separators. */
  predicate IsWhitespace(c: char)
  {
    ('\t' <= c <= '\r') || ('\U{1C}' <= c <= '\U{1F}') || c == ' ' || c == '\U{1680}'
    || ('\U{2000}' <= c <= '\U{2006}') || ('\U{2008}' <= c <= '\U{200A}')
    || c == '\U{2028}' || c == '\U{2029}' || c == '\U{205F}' || c == '\U{3000}'
  }

  /** The `\s` class of java.util.regex: space, TAB, LF, VT, FF, CR. */
  predicate IsRegexSpace(c: char)
  {
    c == ' ' || ('\t' <= c <= '\r')
  }

  /** ASCII lower-casing (String.toLowerCase also maps the other Unicode letters). */
  function ToLowerAscii(s: string): (r: string)
    ensures |r| == |s|
    ensures forall i :: 0 <= i < |s| ==> r[i] == (if 'A' <= s[i] <= 'Z' then (s[i] as int + 32) as char else s[i])
  {
    if s == [] then [] else
      [if 'A' <= s[0] <= 'Z' then (s[0] as int + 32) as char else s[0]] + ToLowerAscii(s[1..])
  }

  // ---- decimal text ----

  function DigitChar(d: nat): (c: char)
    requires d < 10
    ensures IsDigit(c)
  {
    ('0' as int + d) as char
  }

  function NatToDecimal(n: nat): (s: string)
    ensures |s| >= 1
    ensures forall i :: 0 <= i < |s| ==> IsDigit(s[i])
  {
    if n < 10 then [DigitChar(n)] else NatToDecimal(n / 10) + [DigitChar(n % 10)]
  }

  /** String.valueOf / BigInteger.toString: an optional minus sign and the decimal digits. */
  function IntToDecimal(x: int): string
  {
    if x < 0 then "-" + NatToDecimal(-x) else NatToDecimal(x)
  }

  predicate AllDigits(s: string)
  {
    forall i :: 0 <= i < |s| ==> IsDigit(s[i])
  }

  function DigitsValue(s: string): nat
    requires AllDigits(s)
  {
    if s == [] then 0 else DigitsValue(s[..|s| - 1]) * 10 + (s[|s| - 1] as int - '0' as int)
  }

  /** new BigInteger(s): an optional sign followed by one or more digits; anything else is a
      NumberFormatException. */
  function ParseBigInteger(s: string): Option<int>
  {
    if |s| > 0 && (s[0] == '-' || s[0] == '+') then
      var d := s[1..];
      if |d| > 0 && AllDigits(d) then Some(if s[0] == '-' then -(DigitsValue(d) as int) else DigitsValue(d)) else None
    else if |s| > 0 && AllDigits(s) then Some(DigitsValue(s))
    else None
  }

  /** Integer.parseInt: as BigInteger, and the value must fit in an int. */
  function ParseInt(s: string): Option<Int32>
  {
    match ParseBigInteger(s)
    case Some(v) => if INT_MIN <= v <= INT_MAX then Some(v) else None
    case None => None
  }

  lemma {:induction false} DigitsOfNat(n: nat)
    ensures DigitsValue(NatToDecimal(n)) == n
  {
    if n >= 10 {
      DigitsOfNat(n / 10);
      var s := NatToDecimal(n);
      assert s[..|s| - 1] == NatToDecimal(n / 10);
    }
  }

  /** The decimal text of any integer parses back to it. */
  lemma DecimalRoundTrip(x: int)
    ensures ParseBigInteger(IntToDecimal(x)) == Some(x)
  {
    if x < 0 {
      DigitsOfNat(-x);
      assert IntToDecimal(x)[1..] == NatToDecimal(-x);
    } else {
      DigitsOfNat(x);
    }
  }

  // ---- String methods ----

  predicate StartsWith(s: string, p: string)
  {
    |p| <= |s| && s[..|p|] == p
  }

  predicate EndsWith(s: string, p: string)
  {
    |p| <= |s| && s[|s| - |p|..] == p
  }

  /** A concatenation starts with its first part and ends with its second. */
  lemma ConcatEnds(a: string, b: string)
    ensures StartsWith(a + b, a) && EndsWith(a + b, b)
  {
    assert (a + b)[..|a|] == a;
    assert (a + b)[|a + b| - |b|..] == b;
  }

  function TrimStart(s: string): (r: string)
    ensures |r| <= |s|
  {
    if s != [] && s[0] <= ' ' then TrimStart(s[1..]) else s
  }

  function TrimEnd(s: string): (r: string)
    ensures |r| <= |s|
  {
    if s != [] && s[|s| - 1] <= ' ' then TrimEnd(s[..|s| - 1]) else s
  }

  /** TrimStart keeps a suffix that is empty or starts above U+0020. */
  lemma {:induction false} TrimStartIsSuffix(s: string)
    ensures TrimStart(s) == s[|s| - |TrimStart(s)|..]
    ensures TrimStart(s) == [] || TrimStart(s)[0] > ' '
  {
    if s != [] && s[0] <= ' ' {
      TrimStartIsSuffix(s[1..]);
      assert s[1..][|s| - 1 - |TrimStart(s)|..] == s[|s| - |TrimStart(s)|..];
    }
  }

  /** TrimEnd keeps a prefix that is empty or ends above U+0020. */
  lemma {:induction false} TrimEndIsPrefix(s: string)
    ensures TrimEnd(s) == s[..|TrimEnd(s)|]
    ensures TrimEnd(s) == [] || TrimEnd(s)[|TrimEnd(s)| - 1] > ' '
  {
    if s != [] && s[|s| - 1] <= ' ' {
      TrimEndIsPrefix(s[..|s| - 1]);
      assert s[..|s| - 1][..|TrimEnd(s)|] == s[..|TrimEnd(s)|];
    }
  }

  /** String.trim: drops the characters at or below U+0020 at both ends. */
  function Trim(s: string): string
  {
    TrimEnd(TrimStart(s))
  }

  /** What trim keeps: a slice of the text that is empty or has a char above U+0020 at each
      end, and everything cut off before or after it is at or below U+0020. */
  lemma TrimEnds(s: string)
    ensures var t := Trim(s); var k := |s| - |TrimStart(s)|;
      && k + |t| <= |s| && t == s[k..k + |t|]
      && (t == [] || (t[0] > ' ' && t[|t| - 1] > ' '))
      && (forall i :: 0 <= i < k ==> s[i] <= ' ')
      && (forall i :: k + |t| <= i < |s| ==> s[i] <= ' ')
  {
    var u := TrimStart(s);
    var t := TrimEnd(u);
    assert Trim(s) == t;
    TrimStartIsSuffix(s);
    TrimEndIsPrefix(u);
    TrimStartCut(s);
    TrimEndCut(u);
    KeptSlice(s, |s| - |u|, u, t);
    if t != [] {
      assert t[0] == u[0];
    }
  }

  /** A prefix `t` of the suffix `u` of `s` from `k`, where `u` has only chars at or below
      U+0020 after `t`, is the slice of `s` at `k`, and `s` has only such chars after it. */
  lemma KeptSlice(s: string, k: nat, u: string, t: string)
    requires k <= |s| && u == s[k..] && |t| <= |u| && t == u[..|t|]
    requires forall j :: |t| <= j < |u| ==> u[j] <= ' '
    ensures k + |t| <= |s| && t == s[k..k + |t|]
    ensures forall i :: k + |t| <= i < |s| ==> s[i] <= ' '
  {
    forall i | k + |t| <= i < |s|
      ensures s[i] <= ' '
    {
      assert s[i] == u[i - k];
    }
  }

  /** The chars TrimEnd drops are all at or below U+0020. */
  lemma {:induction false} TrimEndCut(s: string)
    ensures forall i :: |TrimEnd(s)| <= i < |s| ==> s[i] <= ' '
  {
    if s != [] && s[|s| - 1] <= ' ' {
      TrimEndCut(s[..|s| - 1]);
      assert forall i :: |TrimEnd(s)| <= i < |s| - 1 ==> s[i] == s[..|s| - 1][i];
    }
  }

  /** The chars TrimStart drops are all at or below U+0020. */
  lemma {:induction false} TrimStartCut(s: string)
    ensures forall i :: 0 <= i < |s| - |TrimStart(s)| ==> s[i] <= ' '
  {
    if s != [] && s[0] <= ' ' {
      TrimStartCut(s[1..]);
      assert forall i :: 1 <= i < |s| - |TrimStart(s)| ==> s[i] == s[1..][i - 1];
    }
  }

  /** True when trimming leaves nothing (String.trim().isEmpty()). */
  predicate IsBlank(s: string)
  {
    forall i :: 0 <= i < |s| ==> s[i] <= ' '
  }

  lemma {:induction false} TrimStartOfBlank(s: string)
    ensures TrimStart(s) == [] <==> IsBlank(s)
  {
    if s != [] && s[0] <= ' ' {
      TrimStartOfBlank(s[1..]);
      assert forall i :: 1 <= i < |s| ==> s[i] == s[1..][i - 1];
    }
  }

  lemma TrimEmptyIffBlank(s: string)
    ensures Trim(s) == [] <==> IsBlank(s)
  {
    TrimStartOfBlank(s);
    TrimStartIsSuffix(s);
    var t := TrimStart(s);
    if t != [] {
      assert TrimEnd(t) != [] by { TrimEndKeepsNonBlankHead(t); }
    }
  }

  lemma {:induction false} TrimEndKeepsNonBlankHead(t: string)
    requires t != [] && t[0] > ' '
    ensures TrimEnd(t) != []
  {
    if |t| > 1 && t[|t| - 1] <= ' ' {
      TrimEndKeepsNonBlankHead(t[..|t| - 1]);
    }
  }

  /** The first index at or after `from` where `t` occurs in `s`, or -1 (String.indexOf). */
  predicate OccursAt(s: string, t: string, i: int)
  {
    0 <= i && i + |t| <= |s| && s[i..i + |t|] == t
  }

  function IndexOfFrom(s: string, t: string, from: nat): (r: int)
    decreases |s| - from
    ensures r == -1 || (from <= r && OccursAt(s, t, r))
  {
    if from + |t| > |s| then -1
    else if s[from..from + |t|] == t then from
    else IndexOfFrom(s, t, from + 1)
  }

  /** indexOf finds the first occurrence: none lies between `from` and the result, and none at
      all when the result is -1. */
  lemma {:induction false} IndexOfFromIsFirst(s: string, t: string, from: nat, i: int)
    requires from <= i
    decreases |s| - from
    ensures IndexOfFrom(s, t, from) == -1 ==> !OccursAt(s, t, i)
    ensures IndexOfFrom(s, t, from) != -1 && i < IndexOfFrom(s, t, from) ==> !OccursAt(s, t, i)
  {
    if from + |t| <= |s| && s[from..from + |t|] != t && from < i {
      IndexOfFromIsFirst(s, t, from + 1, i);
    }
  }

  function IndexOf(s: string, t: string): int
  {
    IndexOfFrom(s, t, 0)
  }

  /** String.indexOf(char): the first index holding c, or -1. */
  function IndexOfChar(s: string, c: char): (r: int)
    ensures r == -1 <==> c !in s
    ensures r != -1 ==> 0 <= r < |s| && s[r] == c && c !in s[..r]
  {
    if s == [] then -1
    else if s[0] == c then 0
    else var k := IndexOfChar(s[1..], c); if k == -1 then -1 else k + 1
  }

  /** String.lastIndexOf(char): the last index holding c, or -1. */
  function LastIndexOfChar(s: string, c: char): (r: int)
    ensures r == -1 <==> c !in s
    ensures r != -1 ==> 0 <= r < |s| && s[r] == c && c !in s[r + 1..]
  {
    if s == [] then -1
    else if s[|s| - 1] == c then |s| - 1
    else LastIndexOfChar(s[..|s| - 1], c)
  }

  /** String.join: the parts with `sep` between neighbours. */
  function Join(parts: seq<string>, sep: string): string
  {
    if parts == [] then "" else if |parts| == 1 then parts[0] else parts[0] + sep + Join(parts[1..], sep)
  }

  lemma {:induction false} JoinSnoc(parts: seq<string>, p: string, sep: string)
    ensures Join(parts + [p], sep) == if parts == [] then p else Join(parts, sep) + sep + p
  {
    if |parts| > 1 {
      JoinSnoc(parts[1..], p, sep);
      assert (parts + [p])[1..] == parts[1..] + [p];
    } else if |parts| == 1 {
      assert (parts + [p])[1..] == [p];
    }
  }

  /** s.split(Pattern.quote(sep), -1): cut at every occurrence of sep, left to right, keeping
      empty pieces (also the trailing ones). A string without sep gives [s]. */
  function SplitLiteral(s: string, sep: string): (r: seq<string>)
    requires |sep| > 0
    decreases |s|
    ensures |r| >= 1
  {
    var i := IndexOf(s, sep);
    if i == -1 then [s] else [s[..i]] + SplitLiteral(s[i + |sep|..], sep)
  }

  lemma PrefixOccurrence(s: string, n: nat, t: string, j: int)
    requires n <= |s|
    ensures OccursAt(s[..n], t, j) ==> OccursAt(s, t, j) && j + |t| <= n
  {
    if OccursAt(s[..n], t, j) {
      assert s[j..j + |t|] == s[..n][j..j + |t|];
    }
  }

  lemma NoSepInPrefix(s: string, sep: string, i: int)
    requires |sep| > 0 && IndexOf(s, sep) == i && i >= 0
    ensures IndexOf(s[..i], sep) == -1
  {
    forall j | 0 <= j
      ensures !OccursAt(s[..i], sep, j)
    {
      PrefixOccurrence(s, i, sep, j);
      IndexOfFromIsFirst(s, sep, 0, j);
    }
  }

  /** No piece of a literal split contains the separator. */
  lemma {:induction false} SplitPiecesAvoidSep(s: string, sep: string)
    requires |sep| > 0
    decreases |s|
    ensures forall k :: 0 <= k < |SplitLiteral(s, sep)| ==> IndexOf(SplitLiteral(s, sep)[k], sep) == -1
  {
    var i := IndexOf(s, sep);
    if i != -1 {
      NoSepInPrefix(s, sep, i);
      SplitPiecesAvoidSep(s[i + |sep|..], sep);
      var tail := SplitLiteral(s[i + |sep|..], sep);
      assert SplitLiteral(s, sep) == [s[..i]] + tail;
    }
  }

  /** Joining the pieces of a literal split with the same separator gives back the text. */
  lemma {:induction false} JoinSplit(s: string, sep: string)
    requires |sep| > 0
    decreases |s|
    ensures Join(SplitLiteral(s, sep), sep) == s
  {
    var i := IndexOf(s, sep);
    if i != -1 {
      var rest := s[i + |sep|..];
      var tail := SplitLiteral(rest, sep);
      JoinSplit(rest, sep);
      SplitCons(s, sep);
      JoinCons(s[..i], tail, sep);
    }
  }

  /** Where the separator first occurs, the split takes the text before it and splits the rest. */
  lemma SplitCons(s: string, sep: string)
    requires |sep| > 0 && IndexOf(s, sep) != -1
    ensures var i := IndexOf(s, sep);
      && SplitLiteral(s, sep) == [s[..i]] + SplitLiteral(s[i + |sep|..], sep)
      && s == s[..i] + sep + s[i + |sep|..]
  {
    var i := IndexOf(s, sep);
    assert s[i..i + |sep|] == sep;
    Slices3(s, i, i + |sep|);
  }


  /** Cutting an occurrence out and putting it back gives the string again. */
  lemma Rejoin(s: string, t: string, i: int)
    requires OccursAt(s, t, i)
    ensures s[..i] + t + s[i + |t|..] == s
  {
    assert s[i..i + |t|] == t;
    Slices3(s, i, i + |t|);
  }

  lemma Slices3(s: string, i: nat, j: nat)
    requires i <= j <= |s|
    ensures s == s[..i] + s[i..j] + s[j..]
  {
  }

  lemma JoinCons(a: string, tail: seq<string>, sep: string)
    requires |tail| >= 1
    ensures Join([a] + tail, sep) == a + sep + Join(tail, sep)
  {
    assert ([a] + tail)[1..] == tail;
  }

  /** String.replace(target, replacement) with a non-empty target: each occurrence found by a
      left-to-right scan is replaced, and the scan resumes after it. */
  function ReplaceLiteral(s: string, target: string, repl: string): (r: string)
    requires |target| > 0
    decreases |s|
    ensures IndexOf(s, target) == -1 ==> r == s
  {
    var i := IndexOf(s, target);
    if i == -1 then s else s[..i] + repl + ReplaceLiteral(s[i + |target|..], target, repl)
  }

  /** String.replace with an empty target: the replacement before every char and at the end. */
  function InterleaveReplacement(s: string, repl: string): (r: string)
    ensures |r| == |s| + (|s| + 1) * |repl|
  {
    if s == [] then repl else repl + [s[0]] + InterleaveReplacement(s[1..], repl)
  }

  function Replace(s: string, target: string, repl: string): string
  {
    if target == [] then InterleaveReplacement(s, repl) else ReplaceLiteral(s, target, repl)
  }

  /** Replacing with the target itself changes nothing. */
  lemma {:induction false} ReplaceByItself(s: string, target: string)
    requires |target| > 0
    decreases |s|
    ensures ReplaceLiteral(s, target, target) == s
  {
    var i := IndexOf(s, target);
    if i != -1 {
      var rest := s[i + |target|..];
      ReplaceByItself(rest, target);
      Rejoin(s, target, i);
    }
  }

  /** Pieces of a literal split are exactly what `replace(sep, repl)` glues together with repl. */
  lemma {:induction false} ReplaceIsJoinOfSplit(s: string, target: string, repl: string)
    requires |target| > 0
    decreases |s|
    ensures ReplaceLiteral(s, target, repl) == Join(SplitLiteral(s, target), repl)
  {
    var i := IndexOf(s, target);
    if i != -1 {
      var rest := s[i + |target|..];
      ReplaceIsJoinOfSplit(rest, target, repl);
      var tail := SplitLiteral(rest, target);
      assert SplitLiteral(s, target) == [s[..i]] + tail;
      JoinCons(s[..i], tail, repl);
      assert ReplaceLiteral(s, target, repl) == s[..i] + repl + ReplaceLiteral(rest, target, repl);
    } else {
      assert SplitLiteral(s, target) == [s];
    }
  }
}
