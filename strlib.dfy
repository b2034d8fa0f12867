/**
 * The str module: len, trim, contains, replace, split, join and sub on Java strings (modelled
 * as sequences of chars). split and join come back to each other: joining the pieces of a
 * split with the same separator gives the text again, and replace is a split glued with the
 * replacement.
 */
module StrLib {
  import opened Wrappers
  import opened JavaLang
  import opened Values
  import opened LibCommon
  import IoLib

  // ---- argument checks ----

  /** The message of requireString. */
  const NOT_A_STRING := "Expected a string argument"

  /** requireInt: a number whose double value is integral, then its (int) cast; no range
      check, so a value beyond the int range is cut down by the cast. */
  function RequireInt(v: Value, fl: FloatOps, site: Site): (r: Result<Int32, Fault>)
    ensures r.Ok? <==> IsNumber(v) && fl.isIntegral(ToDouble(v, fl))
    ensures r.Ok? ==> r.value == fl.toInt(ToDouble(v, fl))
    ensures !IsNumber(v) ==> r == Err(Throw(site, "Expected a number argument"))
    ensures IsNumber(v) && r.Err? ==> r.error == Throw(site, "Expected an integer argument")
  {
    if !IsNumber(v) then Err(Throw(site, "Expected a number argument"))
    else if !fl.isIntegral(ToDouble(v, fl)) then Err(Throw(site, "Expected an integer argument"))
    else Ok(fl.toInt(ToDouble(v, fl)))
  }

  /** An int argument comes back as itself when the double operations are exact on it. */
  lemma RequireIntOfInt(i: Int32, fl: FloatOps, site: Site)
    requires fl.isIntegral(fl.ofInteger(i)) && fl.toInt(fl.ofInteger(i)) == i
    ensures RequireInt(IntV(i), fl, site) == Ok(i)
  {
  }

  // ---- single-expression members ----

  /** str.len: the string's length. */
  function LenCall(args: seq<Value>, site: Site): (r: Result<Value, Fault>)
    ensures r.Ok? <==> |args| == 1 && args[0].StrV?
    ensures r.Ok? && |args[0].strVal| <= INT_MAX ==> r.value == IntV(|args[0].strVal|)
  {
    match RequireCount(args, 1, "str", "len", site)
    case Some(e) => Err(e)
    case None =>
      match RequireString(args[0], site, NOT_A_STRING)
      case Err(e) => Err(e)
      case Ok(s) => Ok(IntV(WrapInt(|s|)))
  }

  /** str.trim: String.trim, which strips every char up to ' ' from both ends. */
  function TrimCall(args: seq<Value>, site: Site): (r: Result<Value, Fault>)
    ensures r.Ok? <==> |args| == 1 && args[0].StrV?
    ensures r.Ok? ==> r.value == StrV(Trim(args[0].strVal))
    ensures r.Ok? ==> (r.value.strVal == "" <==> IsBlank(args[0].strVal))
  {
    match RequireCount(args, 1, "str", "trim", site)
    case Some(e) => Err(e)
    case None =>
      match RequireString(args[0], site, NOT_A_STRING)
      case Err(e) => Err(e)
      case Ok(s) => TrimEmptyIffBlank(s); Ok(StrV(Trim(s)))
  }

  /** str.contains: whether sub occurs in s (the empty string occurs everywhere). */
  function ContainsCall(args: seq<Value>, site: Site): (r: Result<Value, Fault>)
    ensures r.Ok? <==> |args| == 2 && args[0].StrV? && args[1].StrV?
    ensures r.Ok? ==> (r.value.BoolV?
                       && (r.value.boolVal <==> exists i :: OccursAt(args[0].strVal, args[1].strVal, i)))
  {
    match RequireCount(args, 2, "str", "contains", site)
    case Some(e) => Err(e)
    case None =>
      match RequireString(args[0], site, NOT_A_STRING)
      case Err(e) => Err(e)
      case Ok(s) =>
        match RequireString(args[1], site, NOT_A_STRING)
        case Err(e) => Err(e)
        case Ok(sub) => ContainsIffOccurs(s, sub); Ok(BoolV(IndexOf(s, sub) != -1))
  }

  /** indexOf finds an occurrence exactly when there is one. */
  lemma ContainsIffOccurs(s: string, t: string)
    ensures IndexOf(s, t) != -1 <==> exists i :: OccursAt(s, t, i)
  {
    if IndexOf(s, t) == -1 {
      forall i | OccursAt(s, t, i)
        ensures false
      {
        IndexOfFromIsFirst(s, t, 0, i);
      }
    }
  }

  /** str.replace(s, a, b): String.replace, every occurrence of a found left to right. */
  function ReplaceCall(args: seq<Value>, site: Site): (r: Result<Value, Fault>)
    ensures r.Ok? <==> |args| == 3 && args[0].StrV? && args[1].StrV? && args[2].StrV?
    ensures r.Ok? ==> r.value.StrV?
  {
    match RequireCount(args, 3, "str", "replace", site)
    case Some(e) => Err(e)
    case None =>
      match RequireString(args[0], site, NOT_A_STRING)
      case Err(e) => Err(e)
      case Ok(s) =>
        match RequireString(args[1], site, NOT_A_STRING)
        case Err(e) => Err(e)
        case Ok(a) =>
          match RequireString(args[2], site, NOT_A_STRING)
          case Err(e) => Err(e)
          case Ok(b) => Ok(StrV(Replace(s, a, b)))
  }

  /** Replacing a by itself changes nothing, and a text without a is left as it is. */
  lemma ReplaceKeeps(s: string, a: string, site: Site)
    requires a != ""
    ensures ReplaceCall([StrV(s), StrV(a), StrV(a)], site) == Ok(StrV(s))
    ensures forall b :: IndexOf(s, a) == -1 ==> ReplaceCall([StrV(s), StrV(a), StrV(b)], site) == Ok(StrV(s))
  {
    ReplaceByItself(s, a);
  }

  const BAD_RANGE := "str.sub(s,a,b): bad range"

  /** str.sub(s, a, b): the chars from a up to (not including) b, which must satisfy
      0 <= a <= b <= |s|. */
  function SubCall(args: seq<Value>, fl: FloatOps, site: Site): (r: Result<Value, Fault>)
    ensures r.Ok? <==> (|args| == 3 && args[0].StrV?
                        && RequireInt(args[1], fl, site).Ok? && RequireInt(args[2], fl, site).Ok?
                        && 0 <= RequireInt(args[1], fl, site).value <= RequireInt(args[2], fl, site).value <= |args[0].strVal|)
    ensures r.Ok? ==> var a := RequireInt(args[1], fl, site).value; var b := RequireInt(args[2], fl, site).value;
      r.value.StrV? && |r.value.strVal| == b - a && (forall k :: 0 <= k < b - a ==> r.value.strVal[k] == args[0].strVal[a + k])
    ensures |args| == 3 && args[0].StrV? && RequireInt(args[1], fl, site).Ok? && RequireInt(args[2], fl, site).Ok? && r.Err?
      ==> r.error == Throw(site, BAD_RANGE)
  {
    match RequireCount(args, 3, "str", "sub", site)
    case Some(e) => Err(e)
    case None =>
      match RequireString(args[0], site, NOT_A_STRING)
      case Err(e) => Err(e)
      case Ok(s) =>
        match RequireInt(args[1], fl, site)
        case Err(e) => Err(e)
        case Ok(a) =>
          match RequireInt(args[2], fl, site)
          case Err(e) => Err(e)
          case Ok(b) =>
            if a < 0 || b < 0 || a > |s| || b > |s| || a > b then Err(Throw(site, BAD_RANGE))
            else Ok(StrV(s[a..b]))
  }

  /** Two adjacent substrings make up the substring that spans both. */
  lemma SubAdjacent(s: string, a: Int32, k: Int32, b: Int32, fl: FloatOps, site: Site)
    requires 0 <= a <= k <= b <= |s|
    requires forall n: Int32 :: fl.isIntegral(fl.ofInteger(n)) && fl.toInt(fl.ofInteger(n)) == n
    ensures var left := SubCall([StrV(s), IntV(a), IntV(k)], fl, site);
      var right := SubCall([StrV(s), IntV(k), IntV(b)], fl, site);
      left.Ok? && right.Ok? && SubCall([StrV(s), IntV(a), IntV(b)], fl, site) == Ok(StrV(left.value.strVal + right.value.strVal))
  {
    assert s[a..k] + s[k..b] == s[a..b];
  }

  // ---- split and join ----

  /** s.split(""): one single-char string per char; an empty string gives [""]. */
  function CharsOf(s: string): (ps: seq<string>)
    ensures |ps| == if s == "" then 1 else |s|
    ensures s != "" ==> forall i :: 0 <= i < |s| ==> ps[i] == [s[i]]
  {
    if s == "" then [""] else seq(|s|, i requires 0 <= i < |s| => [s[i]])
  }

  /** The pieces str.split produces: the chars for an empty separator, otherwise the literal
      split that keeps trailing empty pieces. */
  function SplitPieces(s: string, sep: string): (ps: seq<string>)
    ensures |ps| >= 1
  {
    if sep == "" then CharsOf(s) else SplitLiteral(s, sep)
  }

  /** Gluing the chars of a string back together gives the string. */
  lemma {:induction false} JoinChars(s: string)
    ensures Join(CharsOf(s), "") == s
    decreases |s|
  {
    if |s| > 1 {
      var rest := s[1..];
      JoinChars(rest);
      assert CharsOf(s) == [[s[0]]] + CharsOf(rest);
      assert CharsOf(s)[1..] == CharsOf(rest);
    }
  }

  /** Joining the pieces with the separator gives the text back, for every separator. */
  lemma JoinSplitPieces(s: string, sep: string)
    ensures Join(SplitPieces(s, sep), sep) == s
  {
    if sep == "" {
      JoinChars(s);
    } else {
      JoinSplit(s, sep);
    }
  }

  /** str.split(s, sep): a fresh array of the pieces. */
  function SplitOn(args: seq<Value>, heap: Heap, site: Site): (r: Result<(Value, Heap), Fault>)
    ensures r.Ok? <==> |args| == 2 && args[0].StrV? && args[1].StrV?
    ensures r.Ok? ==> r.value == (ArrV(|heap|), heap + [IoLib.Strs(SplitPieces(args[0].strVal, args[1].strVal))])
  {
    match RequireCount(args, 2, "str", "split", site)
    case Some(e) => Err(e)
    case None =>
      match RequireString(args[0], site, NOT_A_STRING)
      case Err(e) => Err(e)
      case Ok(s) =>
        match RequireString(args[1], site, NOT_A_STRING)
        case Err(e) => Err(e)
        case Ok(sep) =>
          var (heap', arr) := NewArray(heap, Some(IoLib.Strs(SplitPieces(s, sep))));
          Ok((arr, heap'))
  }

  /** str.split: the loop that turns each piece into a string value, then a fresh array. */
  method Split(args: seq<Value>, heap: Heap, site: Site) returns (r: Result<(Value, Heap), Fault>)
    ensures r == SplitOn(args, heap, site)
  {
    var e := RequireCount(args, 2, "str", "split", site);
    if e.Some? {
      return Err(e.value);
    }
    var s := RequireString(args[0], site, NOT_A_STRING);
    if s.Err? {
      return Err(s.error);
    }
    var sep := RequireString(args[1], site, NOT_A_STRING);
    if sep.Err? {
      return Err(sep.error);
    }
    var parts := SplitPieces(s.value, sep.value);
    var out: seq<Value> := [];
    var i := 0;
    while i < |parts|
      invariant 0 <= i <= |parts|
      invariant out == IoLib.Strs(parts[..i])
    {
      out := out + [StrV(parts[i])];
      i := i + 1;
    }
    assert parts[..i] == parts;
    return Ok((ArrV(|heap|), heap + [out]));
  }

  const JOIN_NOT_ARRAY := "str.join(arr, sep): arr must be an array"

  /** str.join(arr, sep): the separator is checked before the array, and the elements are
      joined by their printables as io.join does. */
  function JoinOn(args: seq<Value>, heap: Heap, fl: FloatOps, site: Site): (r: Result<Value, Fault>)
    requires IoLib.Live(args, heap)
    ensures r.Ok? <==> (|args| == 2 && args[0].ArrV? && args[1].StrV?
                        && IoLib.JoinText(heap[args[0].handle], args[1].strVal, heap, fl).Some?)
    ensures r.Ok? ==> r.value == StrV(IoLib.JoinText(heap[args[0].handle], args[1].strVal, heap, fl).value)
    ensures |args| == 2 && !args[1].StrV? ==> r == Err(Throw(site, "Expected a string argument"))
    ensures |args| == 2 && args[1].StrV? && !args[0].ArrV? ==> r == Err(Throw(site, JOIN_NOT_ARRAY))
  {
    match RequireCount(args, 2, "str", "join", site)
    case Some(e) => Err(e)
    case None =>
      match RequireString(args[1], site, NOT_A_STRING)
      case Err(e) => Err(e)
      case Ok(sep) =>
        if !args[0].ArrV? then Err(Throw(site, JOIN_NOT_ARRAY))
        else
          match IoLib.JoinText(heap[args[0].handle], sep, heap, fl)
          case Some(s) => Ok(StrV(s))
          case None => Err(TooDeep)
  }

  /** str.join: the argument checks, then the StringBuilder loop over the elements. */
  method JoinArray(args: seq<Value>, heap: Heap, fl: FloatOps, site: Site) returns (r: Result<Value, Fault>)
    requires IoLib.Live(args, heap)
    ensures r == JoinOn(args, heap, fl, site)
  {
    var e := RequireCount(args, 2, "str", "join", site);
    if e.Some? {
      return Err(e.value);
    }
    var sep := RequireString(args[1], site, NOT_A_STRING);
    if sep.Err? {
      return Err(sep.error);
    }
    if !args[0].ArrV? {
      return Err(Throw(site, JOIN_NOT_ARRAY));
    }
    var text := IoLib.JoinItems(heap[args[0].handle], sep.value, heap, fl);
    if text.None? {
      return Err(TooDeep);
    }
    return Ok(StrV(text.value));
  }

  /** str.join(str.split(s, sep), sep) gives s back, for every separator. */
  lemma SplitThenJoin(s: string, sep: string, heap: Heap, fl: FloatOps, site: Site)
    ensures var split := SplitOn([StrV(s), StrV(sep)], heap, site);
      && split.Ok?
      && JoinOn([split.value.0, StrV(sep)], split.value.1, fl, site) == Ok(StrV(s))
  {
    var (arr, heap') := SplitOn([StrV(s), StrV(sep)], heap, site).value;
    var ps := SplitPieces(s, sep);
    assert heap'[arr.handle] == IoLib.Strs(ps);
    IoLib.ShowAllStrs(ps, heap', fl, |heap'| + 1);
    JoinSplitPieces(s, sep);
  }

  /** For a non-empty a, str.replace(s, a, b) is str.join(str.split(s, a), b). */
  lemma ReplaceIsSplitJoin(s: string, a: string, b: string, heap: Heap, fl: FloatOps, site: Site)
    requires a != ""
    ensures var split := SplitOn([StrV(s), StrV(a)], heap, site);
      && split.Ok?
      && JoinOn([split.value.0, StrV(b)], split.value.1, fl, site) == ReplaceCall([StrV(s), StrV(a), StrV(b)], site)
  {
    var (arr, heap') := SplitOn([StrV(s), StrV(a)], heap, site).value;
    var ps := SplitPieces(s, a);
    assert heap'[arr.handle] == IoLib.Strs(ps);
    IoLib.ShowAllStrs(ps, heap', fl, |heap'| + 1);
    ReplaceIsJoinOfSplit(s, a, b);
  }
}
