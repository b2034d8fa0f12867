/**
 * The json module's functions on Dog values: json.minify, json.pretty and json.escape on
 * strings, and the builders json.arr and json.obj that render values as JSON text through
 * toJsonValue.
 */
module JsonValues {
  import opened Wrappers
  import opened JavaLang
  import opened Values
  import opened LibCommon
  import opened JsonText

  /** A string as a JSON string literal. */
  function Quote(s: string): string
  {
    "\"" + Escape(s) + "\""
  }

  /** A quoted string is a JSON string literal whose contents decode to the string. */
  lemma QuoteRoundTrip(s: string)
    ensures |Quote(s)| >= 2 && Quote(s)[0] == '"' && Quote(s)[|Quote(s)| - 1] == '"'
    ensures Unescape(Quote(s)[1..|Quote(s)| - 1]) == Some(s)
  {
    UnescapeEscape(s);
    assert Quote(s)[1..|Quote(s)| - 1] == Escape(s);
  }

  /** toJsonValue: nil, booleans and strings as JSON literals, numbers as their printable
      text ("0" if that were empty), arrays as bracketed comma-separated element texts, and
      anything else (a function) as the quoted printable. None: a StackOverflowError (an array
      that contains itself); `fuel` bounds the recursion as it does for Show. */
  function ToJson(v: Value, heap: Heap, fl: FloatOps, fuel: nat): (r: Option<string>)
    decreases fuel, 1
    ensures v.NilV? ==> r == Some("null")
    ensures v.BoolV? ==> r == Some(if v.boolVal then "true" else "false")
    ensures v.StrV? ==> r == Some(Quote(v.strVal))
    ensures (v.IntV? || v.LongV? || v.BigV?) ==> r == Some(IntToDecimal(ToBigInteger(v, fl)))
    ensures v.ArrV? && r.Some? ==> |r.value| >= 2 && r.value[0] == '[' && r.value[|r.value| - 1] == ']'
    ensures v.FnV? ==> r.Some?
  {
    match v
    case NilV => Some("null")
    case BoolV(b) => Some(if b then "true" else "false")
    case StrV(s) => Some(Quote(s))
    case ArrV(h) =>
      if fuel == 0 || h >= |heap| then None
      else
        (match ToJsonAll(heap[h], heap, fl, fuel - 1)
         case Some(parts) => Some("[" + Join(parts, ",") + "]")
         case None => None)
    case FnV(_, _, _) =>
      (match Show(v, heap, fl, fuel)
       case Some(p) => Some(Quote(p))
       case None => None)
    case _ =>
      (match Show(v, heap, fl, fuel)
       case Some(num) => Some(if num == "" then "0" else num)
       case None => None)
  }

  /** The JSON texts of a list of values, or None when one of them has none. */
  function ToJsonAll(items: seq<Value>, heap: Heap, fl: FloatOps, fuel: nat): (r: Option<seq<string>>)
    decreases fuel, |items| + 2
    ensures r.Some? ==> |r.value| == |items|
  {
    if items == [] then Some([])
    else
      match ToJsonAll(items[..|items| - 1], heap, fl, fuel)
      case None => None
      case Some(front) =>
        match ToJson(items[|items| - 1], heap, fl, fuel)
        case None => None
        case Some(last) => Some(front + [last])
  }

  /** Each element's text sits at its own position of the list. */
  lemma {:induction false} ToJsonAllAt(items: seq<Value>, heap: Heap, fl: FloatOps, fuel: nat, i: nat)
    requires i < |items| && ToJsonAll(items, heap, fl, fuel).Some?
    ensures ToJson(items[i], heap, fl, fuel) == Some(ToJsonAll(items, heap, fl, fuel).value[i])
    decreases |items|
  {
    if i < |items| - 1 {
      assert items[..|items| - 1][i] == items[i];
      ToJsonAllAt(items[..|items| - 1], heap, fl, fuel, i);
    }
  }

  /** One element without a text leaves the whole list without one. */
  lemma {:induction false} ToJsonAllPrefixNone(items: seq<Value>, k: nat, heap: Heap, fl: FloatOps, fuel: nat)
    requires k <= |items| && ToJsonAll(items[..k], heap, fl, fuel).None?
    ensures ToJsonAll(items, heap, fl, fuel).None?
    decreases |items|
  {
    if k < |items| {
      assert items[..|items| - 1][..k] == items[..k];
      ToJsonAllPrefixNone(items[..|items| - 1], k, heap, fl, fuel);
    } else {
      assert items[..k] == items;
    }
  }

  /** The text of a top-level value, with the fuel printable uses. */
  function JsonOf(v: Value, heap: Heap, fl: FloatOps): Option<string>
  {
    ToJson(v, heap, fl, |heap| + 1)
  }

  // ---- argument helpers ----

  /** The message of the json module's requireString. */
  const NOT_A_STRING := "Expected a string argument"

  /** requireInt of the json module: a number, integral as a double, whose (long) cast fits
      in an int. */
  function RequireInt(v: Value, fl: FloatOps, site: Site): (r: Result<Int32, Fault>)
    ensures !IsNumber(v) ==> r == Err(Throw(site, "Expected a number argument"))
    ensures r.Err? ==> r.error.Thrown?
    ensures r.Ok? ==> fl.isIntegral(ToDouble(v, fl)) && r.value == fl.toLong(ToDouble(v, fl))
  {
    if !IsNumber(v) then Err(Throw(site, "Expected a number argument"))
    else
      var d := ToDouble(v, fl);
      if !fl.isIntegral(d) then Err(Throw(site, "Expected an integer argument"))
      else
        var l := fl.toLong(d);
        if l < INT_MIN || l > INT_MAX then Err(Throw(site, "Integer out of range")) else Ok(l)
  }

  /** An int argument comes back as itself when the double operations are exact on it. */
  lemma RequireIntOfInt(i: Int32, fl: FloatOps, site: Site)
    requires ExactOn(fl, i)
    ensures RequireInt(IntV(i), fl, site) == Ok(i)
  {
  }

  /** A long argument is accepted exactly when it lies in the int range. */
  lemma RequireIntOfLong(l: Int64, fl: FloatOps, site: Site)
    requires ExactOn(fl, l)
    ensures RequireInt(LongV(l), fl, site).Ok? <==> INT_MIN <= l <= INT_MAX
    ensures RequireInt(LongV(l), fl, site).Ok? ==> RequireInt(LongV(l), fl, site).value == l
  {
  }

  // ---- json.minify, json.pretty, json.escape ----

  /** json.minify(text). */
  function MinifyCall(args: seq<Value>, site: Site): (r: Result<Value, Fault>)
    ensures r.Ok? <==> |args| == 1 && args[0].StrV?
    ensures r.Ok? ==> r.value == StrV(Minify(args[0].strVal))
    ensures |args| != 1 ==> r == Err(Throw(site, ArityMessage("json", "minify", 1)))
  {
    if RequireCount(args, 1, "json", "minify", site).Some? then Err(RequireCount(args, 1, "json", "minify", site).value)
    else
      match RequireString(args[0], site, NOT_A_STRING)
      case Err(f) => Err(f)
      case Ok(s) => Ok(StrV(Minify(s)))
  }

  /** json.pretty(text, indent): a negative indent counts as 0. */
  function PrettyCall(args: seq<Value>, fl: FloatOps, site: Site): (r: Result<Value, Fault>)
    ensures r.Ok? <==> |args| == 2 && args[0].StrV? && RequireInt(args[1], fl, site).Ok?
    ensures r.Ok? ==> r.value == StrV(Pretty(args[0].strVal, Max(0, RequireInt(args[1], fl, site).value)))
    ensures |args| != 2 ==> r == Err(Throw(site, ArityMessage("json", "pretty", 2)))
  {
    if RequireCount(args, 2, "json", "pretty", site).Some? then Err(RequireCount(args, 2, "json", "pretty", site).value)
    else
      match RequireString(args[0], site, NOT_A_STRING)
      case Err(f) => Err(f)
      case Ok(s) =>
        match RequireInt(args[1], fl, site)
        case Err(f) => Err(f)
        case Ok(indent) => Ok(StrV(Pretty(s, if indent < 0 then 0 else indent)))
  }

  /** json.escape(str). */
  function EscapeCall(args: seq<Value>, site: Site): (r: Result<Value, Fault>)
    ensures r.Ok? <==> |args| == 1 && args[0].StrV?
    ensures r.Ok? ==> r.value.StrV? && Unescape(r.value.strVal) == Some(args[0].strVal)
    ensures |args| != 1 ==> r == Err(Throw(site, ArityMessage("json", "escape", 1)))
  {
    if RequireCount(args, 1, "json", "escape", site).Some? then Err(RequireCount(args, 1, "json", "escape", site).value)
    else
      match RequireString(args[0], site, NOT_A_STRING)
      case Err(f) => Err(f)
      case Ok(s) => UnescapeEscape(s); Ok(StrV(Escape(s)))
  }

  // ---- json.arr ----

  /** json.arr(a, b, ...): any number of values, as a JSON array text. */
  function ArrText(args: seq<Value>, heap: Heap, fl: FloatOps): Option<string>
  {
    match ToJsonAll(args, heap, fl, |heap| + 1)
    case Some(parts) => Some("[" + Join(parts, ",") + "]")
    case None => None
  }

  /** json.arr: the StringBuilder loop over the arguments. */
  method ArrCall(args: seq<Value>, heap: Heap, fl: FloatOps) returns (r: Result<Value, Fault>)
    ensures r.Ok? <==> ArrText(args, heap, fl).Some?
    ensures r.Ok? ==> r.value == StrV(ArrText(args, heap, fl).value)
    ensures r.Err? ==> r.error == TooDeep
  {
    var sb := "[";
    var i := 0;
    ghost var parts: seq<string> := [];
    while i < |args|
      invariant 0 <= i <= |args|
      invariant ToJsonAll(args[..i], heap, fl, |heap| + 1) == Some(parts)
      invariant sb == "[" + Join(parts, ",")
    {
      if i > 0 {
        sb := sb + ",";
      }
      var t := ToJson(args[i], heap, fl, |heap| + 1);
      assert args[..i + 1][..i] == args[..i] && args[..i + 1][i] == args[i];
      if t.None? {
        ToJsonAllPrefixNone(args, i + 1, heap, fl, |heap| + 1);
        return Err(TooDeep);
      }
      JoinSnoc(parts, t.value, ",");
      sb := sb + t.value;
      parts := parts + [t.value];
      i := i + 1;
    }
    assert args[..i] == args;
    sb := sb + "]";
    return Ok(StrV(sb));
  }

  // ---- json.obj ----

  const ODD_OBJ_ARGS := "json.obj(k1,v1,k2,v2,...): expected even number of arguments"

  function KeyMessage(pair: nat): string
  {
    "json.obj: key #" + IntToDecimal(pair + 1) + " must be a string"
  }

  /** The JSON texts of the values of the pairs, in order. */
  function ValueTexts(args: seq<Value>, heap: Heap, fl: FloatOps): (t: seq<Option<string>>)
    ensures |t| == |args| / 2
    ensures forall p :: 0 <= p < |t| ==> t[p] == JsonOf(args[2 * p + 1], heap, fl)
  {
    seq(|args| / 2, p requires 0 <= p < |args| / 2 => JsonOf(args[2 * p + 1], heap, fl))
  }

  /** The `"key":value` member of pair number `p` from its key and its value's text, or why
      it fails: a key that is not a string (checked first), or a value without JSON text. */
  function Member(key: Value, text: Option<string>, p: nat, site: Site): (r: Result<string, Fault>)
    ensures !key.StrV? ==> r == Err(Throw(site, KeyMessage(p)))
    ensures r.Ok? <==> key.StrV? && text.Some?
    ensures r.Ok? ==> r.value == Quote(key.strVal) + ":" + text.value
  {
    if !key.StrV? then Err(Throw(site, KeyMessage(p)))
    else
      match text
      case None => Err(TooDeep)
      case Some(t) => Ok(Quote(key.strVal) + ":" + t)
  }

  /** The members of the first `n` pairs, or the first failure among them. */
  function ObjMembers(args: seq<Value>, texts: seq<Option<string>>, n: nat, site: Site): (r: Result<seq<string>, Fault>)
    requires 2 * n <= |args| && n <= |texts|
    ensures r.Ok? ==> |r.value| == n
  {
    if n == 0 then Ok([])
    else
      match ObjMembers(args, texts, n - 1, site)
      case Err(f) => Err(f)
      case Ok(front) =>
        match Member(args[2 * (n - 1)], texts[n - 1], n - 1, site)
        case Err(f) => Err(f)
        case Ok(m) => Ok(front + [m])
  }

  /** json.obj(k1, v1, k2, v2, ...). */
  function ObjText(args: seq<Value>, heap: Heap, fl: FloatOps, site: Site): (r: Result<string, Fault>)
    ensures |args| % 2 != 0 ==> r == Err(Throw(site, ODD_OBJ_ARGS))
  {
    if |args| % 2 != 0 then Err(Throw(site, ODD_OBJ_ARGS))
    else
      match ObjMembers(args, ValueTexts(args, heap, fl), |args| / 2, site)
      case Err(f) => Err(f)
      case Ok(members) => Ok("{" + Join(members, ",") + "}")
  }

  /** The first `n` pairs are accepted exactly when each pair's member is. */
  lemma {:induction false} ObjMembersOk(args: seq<Value>, texts: seq<Option<string>>, n: nat, site: Site)
    requires 2 * n <= |args| && n <= |texts|
    ensures ObjMembers(args, texts, n, site).Ok? <==>
      forall p :: 0 <= p < n ==> Member(args[2 * p], texts[p], p, site).Ok?
  {
    if n > 0 {
      ObjMembersOk(args, texts, n - 1, site);
      var last := Member(args[2 * (n - 1)], texts[n - 1], n - 1, site);
      assert ObjMembers(args, texts, n, site).Ok? <==> ObjMembers(args, texts, n - 1, site).Ok? && last.Ok?;
      if ObjMembers(args, texts, n, site).Ok? {
        forall p | 0 <= p < n
          ensures Member(args[2 * p], texts[p], p, site).Ok?
        {
          if p == n - 1 {
            assert Member(args[2 * p], texts[p], p, site) == last;
          }
        }
      } else if ObjMembers(args, texts, n - 1, site).Ok? {
        assert !Member(args[2 * (n - 1)], texts[n - 1], n - 1, site).Ok?;
      } else {
        var p :| 0 <= p < n - 1 && !Member(args[2 * p], texts[p], p, site).Ok?;
        assert 0 <= p < n;
      }
    }
  }

  /** The accepted members are those of the pairs, in order. */
  lemma {:induction false} ObjMembersAt(args: seq<Value>, texts: seq<Option<string>>, n: nat, p: nat, site: Site)
    requires 2 * n <= |args| && n <= |texts| && p < n && ObjMembers(args, texts, n, site).Ok?
    ensures Member(args[2 * p], texts[p], p, site).Ok?
    ensures ObjMembers(args, texts, n, site).value[p] == Member(args[2 * p], texts[p], p, site).value
  {
    if p < n - 1 {
      ObjMembersAt(args, texts, n - 1, p, site);
    }
  }

  /** A pair that fails, with all pairs before it fine, decides the failure. */
  lemma {:induction false} ObjFirstError(args: seq<Value>, texts: seq<Option<string>>, n: nat, j: nat, site: Site)
    requires 2 * n <= |args| && n <= |texts| && j < n && Member(args[2 * j], texts[j], j, site).Err?
    requires forall p :: 0 <= p < j ==> Member(args[2 * p], texts[p], p, site).Ok?
    ensures ObjMembers(args, texts, n, site) == Err(Member(args[2 * j], texts[j], j, site).error)
  {
    var e := Member(args[2 * j], texts[j], j, site).error;
    if j < n - 1 {
      ObjFirstError(args, texts, n - 1, j, site);
      assert ObjMembers(args, texts, n - 1, site) == Err(e);
    } else {
      ObjMembersOk(args, texts, j, site);
      assert ObjMembers(args, texts, n - 1, site).Ok?;
      assert Member(args[2 * (n - 1)], texts[n - 1], n - 1, site) == Err(e);
    }
  }

  /** json.obj succeeds exactly for an even number of arguments where every key is a string
      and every value has a JSON text. */
  lemma ObjTextOk(args: seq<Value>, heap: Heap, fl: FloatOps, site: Site)
    ensures ObjText(args, heap, fl, site).Ok? <==>
      |args| % 2 == 0 && forall p :: 0 <= p < |args| / 2 ==> args[2 * p].StrV? && JsonOf(args[2 * p + 1], heap, fl).Some?
  {
    if |args| % 2 == 0 {
      var texts := ValueTexts(args, heap, fl);
      ObjMembersOk(args, texts, |args| / 2, site);
    }
  }

  /** One pair of json.obj's loop: the key check, then the member text. */
  method NextMember(k: Value, v: Value, p: nat, heap: Heap, fl: FloatOps, site: Site) returns (m: Result<string, Fault>)
    ensures m == Member(k, JsonOf(v, heap, fl), p, site)
  {
    if !k.StrV? {
      return Err(Throw(site, KeyMessage(p)));
    }
    var t := JsonOf(v, heap, fl);
    if t.None? {
      return Err(TooDeep);
    }
    return Ok(Quote(k.strVal) + ":" + t.value);
  }

  /** The text of pair number `p`'s value. */
  lemma ValueTextAt(args: seq<Value>, heap: Heap, fl: FloatOps, p: nat)
    requires 2 * p + 1 < |args|
    ensures p < |ValueTexts(args, heap, fl)|
    ensures ValueTexts(args, heap, fl)[p] == JsonOf(args[2 * p + 1], heap, fl)
  {
  }

  /** One more accepted pair extends the accepted members by its member. */
  lemma ObjMembersStep(args: seq<Value>, heap: Heap, fl: FloatOps, n: nat, members: seq<string>, m: string, site: Site)
    requires 2 * n + 2 <= |args|
    requires ObjMembers(args, ValueTexts(args, heap, fl), n, site) == Ok(members)
    requires Member(args[2 * n], JsonOf(args[2 * n + 1], heap, fl), n, site) == Ok(m)
    ensures ObjMembers(args, ValueTexts(args, heap, fl), n + 1, site) == Ok(members + [m])
  {
    ValueTextAt(args, heap, fl, n);
  }

  /** A failing pair after accepted ones makes the whole object fail with its fault. */
  lemma ObjPairFails(args: seq<Value>, heap: Heap, fl: FloatOps, n: nat, members: seq<string>, f: Fault, site: Site)
    requires 2 * n + 2 <= |args|
    requires ObjMembers(args, ValueTexts(args, heap, fl), n, site) == Ok(members)
    requires Member(args[2 * n], JsonOf(args[2 * n + 1], heap, fl), n, site) == Err(f)
    requires |args| % 2 == 0
    ensures ObjText(args, heap, fl, site) == Err(f)
  {
    var texts := ValueTexts(args, heap, fl);
    ValueTextAt(args, heap, fl, n);
    ObjMembersOk(args, texts, n, site);
    ObjFirstError(args, texts, |args| / 2, n, site);
  }

  /** Every pair accepted: the object's text is its members joined by commas in braces. */
  lemma ObjAllPairs(args: seq<Value>, heap: Heap, fl: FloatOps, n: nat, members: seq<string>, site: Site)
    requires 2 * n == |args|
    requires ObjMembers(args, ValueTexts(args, heap, fl), n, site) == Ok(members)
    ensures ObjText(args, heap, fl, site) == Ok("{" + Join(members, ",") + "}")
  {
    assert n == |args| / 2;
  }

  /** One pass of json.obj's loop: the next pair's member extends the accepted ones, or its
      failure is the failure of the whole object. */
  method ObjPair(args: seq<Value>, heap: Heap, fl: FloatOps, n: nat, ghost members: seq<string>, site: Site)
    returns (m: Result<string, Fault>)
    requires |args| % 2 == 0 && 2 * n < |args|
    requires ObjMembers(args, ValueTexts(args, heap, fl), n, site) == Ok(members)
    ensures m.Ok? ==> ObjMembers(args, ValueTexts(args, heap, fl), n + 1, site) == Ok(members + [m.value])
    ensures m.Err? ==> ObjText(args, heap, fl, site) == Err(m.error)
  {
    m := NextMember(args[2 * n], args[2 * n + 1], n, heap, fl, site);
    if m.Err? {
      ObjPairFails(args, heap, fl, n, members, m.error, site);
    } else {
      ObjMembersStep(args, heap, fl, n, members, m.value, site);
    }
  }

  /** Appending one member to the text built so far, with a comma after the first. */
  method AppendMember(sb: string, first: bool, ghost members: seq<string>, m: string) returns (sb': string)
    requires sb == "{" + Join(members, ",") && (first <==> members == [])
    ensures sb' == "{" + Join(members + [m], ",")
  {
    JoinSnoc(members, m, ",");
    sb' := sb;
    if !first {
      sb' := sb' + ",";
    }
    sb' := sb' + m;
  }

  /** json.obj: the check for an even count, then the loop over the pairs. */
  method ObjCall(args: seq<Value>, heap: Heap, fl: FloatOps, site: Site) returns (r: Result<Value, Fault>)
    ensures r.Ok? <==> ObjText(args, heap, fl, site).Ok?
    ensures r.Ok? ==> r.value == StrV(ObjText(args, heap, fl, site).value)
    ensures r.Err? ==> r.error == ObjText(args, heap, fl, site).error
  {
    if |args| % 2 != 0 {
      return Err(Throw(site, ODD_OBJ_ARGS));
    }
    var text := ObjLoop(args, heap, fl, site);
    if text.Err? {
      return Err(text.error);
    }
    return Ok(StrV(text.value));
  }

  /** The loop of json.obj over an even number of arguments: the pairs in order, stopping
      at the first that fails. */
  method ObjLoop(args: seq<Value>, heap: Heap, fl: FloatOps, site: Site) returns (r: Result<string, Fault>)
    requires |args| % 2 == 0
    ensures r == ObjText(args, heap, fl, site)
  {
    ghost var texts := ValueTexts(args, heap, fl);
    var sb := "{";
    var pairIndex := 0;
    var i := 0;
    ghost var members: seq<string> := [];
    while i < |args|
      invariant i == 2 * pairIndex && i <= |args|
      invariant ObjMembers(args, texts, pairIndex, site) == Ok(members)
      invariant sb == "{" + Join(members, ",")
    {
      var m := ObjPair(args, heap, fl, pairIndex, members, site);
      if m.Err? {
        return Err(m.error);
      }
      sb := AppendMember(sb, pairIndex == 0, members, m.value);
      members := members + [m.value];
      pairIndex := pairIndex + 1;
      i := i + 2;
    }
    ObjAllPairs(args, heap, fl, pairIndex, members, site);
    return Ok(sb + "}");
  }

}
