/**
 * The array and string members of the io module: typeOf, len, split, join, push, pop, get
 * and set. Arrays live on the heap (one element list per handle), and push, pop and set
 * change the list behind a handle in place, so every value holding that handle sees the
 * change. The pure functions say what each member does to a heap; the `ArrayHeap` class
 * performs the same steps on its own `lists` field.
 */
module IoLib {
  import opened Wrappers
  import opened JavaLang
  import opened Values
  import opened LibCommon

  /** An array in first position (the only argument whose list is read) names a list on the
      heap, as every Java reference names a live ArrayList. */
  predicate Live(args: seq<Value>, heap: Heap)
  {
    |args| > 0 && args[0].ArrV? ==> args[0].handle < |heap|
  }

  // ---- argument checks ----

  /** The message of requireString. */
  const NOT_A_STRING := "Expected STRING argument"

  function RequireArray(v: Value, site: Site): (r: Result<nat, Fault>)
    ensures r.Ok? <==> v.ArrV?
    ensures r.Ok? ==> r.value == v.handle
    ensures r.Err? ==> r.error == Throw(site, "Expected ARRAY argument")
  {
    if v.ArrV? then Ok(v.handle) else Err(Throw(site, "Expected ARRAY argument"))
  }

  /** requireIntIndex: any number, then the (int) cast of its double value; a fraction is
      cut off rather than rejected. */
  function RequireIntIndex(v: Value, fl: FloatOps, site: Site): (r: Result<Int32, Fault>)
    ensures r.Ok? <==> IsNumber(v)
    ensures r.Ok? ==> r.value == fl.toInt(ToDouble(v, fl))
    ensures r.Err? ==> r.error == Throw(site, "Expected numeric index")
  {
    if IsNumber(v) then Ok(fl.toInt(ToDouble(v, fl))) else Err(Throw(site, "Expected numeric index"))
  }

  // ---- typeOf and len ----

  /** typeName: the kind's name in lower case, and "unknown" for a function. */
  function TypeName(v: Value): (r: string)
    ensures r == "unknown" <==> v.FnV?
  {
    match v
    case IntV(_) => "int"
    case LongV(_) => "long"
    case DoubleV(_) => "double"
    case BigV(_) => "bigint"
    case StrV(_) => "string"
    case BoolV(_) => "bool"
    case NilV => "nil"
    case ArrV(_) => "array"
    case FnV(_, _, _) => "unknown"
  }

  /** Apart from functions, the type name is the kind's name in lower case. */
  lemma TypeNameIsLowerKind(v: Value)
    requires !v.FnV?
    ensures TypeName(v) == ToLowerAscii(KindName(KindOf(v)))
  {
    match v
    case IntV(_) => assert KindName(KindOf(v)) == "INT"; LowerOf("INT", "int");
    case LongV(_) => assert KindName(KindOf(v)) == "LONG"; LowerOf("LONG", "long");
    case DoubleV(_) => assert KindName(KindOf(v)) == "DOUBLE"; LowerOf("DOUBLE", "double");
    case BigV(_) => assert KindName(KindOf(v)) == "BIGINT"; LowerOf("BIGINT", "bigint");
    case StrV(_) => assert KindName(KindOf(v)) == "STRING"; LowerOf("STRING", "string");
    case BoolV(_) => assert KindName(KindOf(v)) == "BOOL"; LowerOf("BOOL", "bool");
    case NilV => assert KindName(KindOf(v)) == "NIL"; LowerOf("NIL", "nil");
    case ArrV(_) => assert KindName(KindOf(v)) == "ARRAY"; LowerOf("ARRAY", "array");
  }

  /** ToLowerAscii(s) is t when t holds the lowered characters of s. */
  lemma LowerOf(s: string, t: string)
    requires |s| == |t|
    requires forall i :: 0 <= i < |s| ==> t[i] == (if 'A' <= s[i] <= 'Z' then (s[i] as int + 32) as char else s[i])
    ensures ToLowerAscii(s) == t
  {
  }

  function TypeOfCall(args: seq<Value>, site: Site): (r: Result<Value, Fault>)
    ensures r.Ok? <==> |args| == 1
    ensures r.Ok? ==> r.value == StrV(TypeName(args[0]))
    ensures r.Err? ==> r.error == Throw(site, ArityMessage("io", "typeOf", 1))
  {
    match RequireCount(args, 1, "io", "typeOf", site)
    case Some(e) => Err(e)
    case None => Ok(StrV(TypeName(args[0])))
  }

  /** io.len: a string's length or an array's size (an int, which every Java length fits). */
  function LenCall(args: seq<Value>, heap: Heap, site: Site): (r: Result<Value, Fault>)
    requires Live(args, heap)
    ensures r.Ok? <==> |args| == 1 && (args[0].StrV? || args[0].ArrV?)
    ensures r.Ok? && args[0].StrV? && |args[0].strVal| <= INT_MAX ==> r.value == IntV(|args[0].strVal|)
    ensures r.Ok? && args[0].ArrV? && |heap[args[0].handle]| <= INT_MAX ==> r.value == IntV(|heap[args[0].handle]|)
    ensures |args| == 1 && r.Err? ==> r.error == Throw(site, "io.len(x): x must be STRING or ARRAY")
  {
    match RequireCount(args, 1, "io", "len", site)
    case Some(e) => Err(e)
    case None =>
      var v := args[0];
      if v.StrV? then Ok(IntV(WrapInt(|v.strVal|)))
      else if v.ArrV? then Ok(IntV(WrapInt(|heap[v.handle]|)))
      else Err(Throw(site, "io.len(x): x must be STRING or ARRAY"))
  }

  // ---- get, push, pop and set on a heap ----

  /** io.get(arr, idx): the element, or nil (not an error) for an index out of range. */
  function GetOn(args: seq<Value>, heap: Heap, fl: FloatOps, site: Site): (r: Result<Value, Fault>)
    requires Live(args, heap)
    ensures r.Ok? <==> |args| == 2 && args[0].ArrV? && IsNumber(args[1])
    ensures r.Ok? ==> var i := fl.toInt(ToDouble(args[1], fl)); var items := heap[args[0].handle];
      (0 <= i < |items| ==> r.value == items[i]) && (!(0 <= i < |items|) ==> r.value == NilV)
  {
    match RequireCount(args, 2, "io", "get", site)
    case Some(e) => Err(e)
    case None =>
      match RequireArray(args[0], site)
      case Err(e) => Err(e)
      case Ok(h) =>
        match RequireIntIndex(args[1], fl, site)
        case Err(e) => Err(e)
        case Ok(i) => Ok(if 0 <= i < |heap[h]| then heap[h][i] else NilV)
  }

  /** io.push(arr, v): v appended to the list behind the handle; the same array comes back. */
  function PushOn(args: seq<Value>, heap: Heap, site: Site): (r: Result<(Value, Heap), Fault>)
    requires Live(args, heap)
    ensures r.Ok? <==> |args| == 2 && args[0].ArrV?
    ensures r.Ok? ==> var h := args[0].handle; var (v, heap') := r.value;
      && v == args[0]
      && |heap'| == |heap|
      && heap'[h] == heap[h] + [args[1]]
      && (forall g :: 0 <= g < |heap| && g != h ==> heap'[g] == heap[g])
  {
    match RequireCount(args, 2, "io", "push", site)
    case Some(e) => Err(e)
    case None =>
      match RequireArray(args[0], site)
      case Err(e) => Err(e)
      case Ok(h) => Ok((args[0], heap[h := heap[h] + [args[1]]]))
  }

  /** io.pop(arr): nil and no change for an empty array; otherwise the last element, removed. */
  function PopOn(args: seq<Value>, heap: Heap, site: Site): (r: Result<(Value, Heap), Fault>)
    requires Live(args, heap)
    ensures r.Ok? <==> |args| == 1 && args[0].ArrV?
    ensures r.Ok? && heap[args[0].handle] == [] ==> r.value == (NilV, heap)
    ensures r.Ok? && heap[args[0].handle] != [] ==> var h := args[0].handle; var (v, heap') := r.value;
      && |heap'| == |heap|
      && heap'[h] + [v] == heap[h]
      && (forall g :: 0 <= g < |heap| && g != h ==> heap'[g] == heap[g])
  {
    match RequireCount(args, 1, "io", "pop", site)
    case Some(e) => Err(e)
    case None =>
      match RequireArray(args[0], site)
      case Err(e) => Err(e)
      case Ok(h) =>
        var items := heap[h];
        if items == [] then Ok((NilV, heap))
        else Ok((items[|items| - 1], heap[h := items[..|items| - 1]]))
  }

  const SET_BOUNDS := "io.set(arr, idx, v): idx out of bounds"

  /** io.set(arr, idx, v): an index out of range is an error; otherwise only that slot of
      that list changes, and the same array comes back. */
  function SetOn(args: seq<Value>, heap: Heap, fl: FloatOps, site: Site): (r: Result<(Value, Heap), Fault>)
    requires Live(args, heap)
    ensures r.Ok? <==> (|args| == 3 && args[0].ArrV? && IsNumber(args[1])
                        && 0 <= fl.toInt(ToDouble(args[1], fl)) < |heap[args[0].handle]|)
    ensures |args| == 3 && args[0].ArrV? && IsNumber(args[1]) && r.Err? ==> r.error == Throw(site, SET_BOUNDS)
    ensures r.Ok? ==> var h := args[0].handle; var i := fl.toInt(ToDouble(args[1], fl)); var (v, heap') := r.value;
      && v == args[0]
      && |heap'| == |heap|
      && |heap'[h]| == |heap[h]|
      && heap'[h][i] == args[2]
      && (forall j :: 0 <= j < |heap[h]| && j != i ==> heap'[h][j] == heap[h][j])
      && (forall g :: 0 <= g < |heap| && g != h ==> heap'[g] == heap[g])
  {
    match RequireCount(args, 3, "io", "set", site)
    case Some(e) => Err(e)
    case None =>
      match RequireArray(args[0], site)
      case Err(e) => Err(e)
      case Ok(h) =>
        match RequireIntIndex(args[1], fl, site)
        case Err(e) => Err(e)
        case Ok(i) =>
          if i < 0 || i >= |heap[h]| then Err(Throw(site, SET_BOUNDS))
          else Ok((args[0], heap[h := heap[h][i := args[2]]]))
  }

  /** Pushing a value and popping it again gives the value back and restores the heap. */
  lemma PushPop(a: nat, v: Value, heap: Heap, site: Site)
    requires a < |heap|
    ensures var pushed := PushOn([ArrV(a), v], heap, site);
      pushed.Ok? && PopOn([ArrV(a)], pushed.value.1, site) == Ok((v, heap))
  {
    var heap' := PushOn([ArrV(a), v], heap, site).value.1;
    assert heap'[a][..|heap'[a]| - 1] == heap[a];
    assert heap'[a := heap[a]] == heap;
  }

  /** After a push, the new last index holds the pushed value; every other array, and every
      other holder of the same handle, sees the same lists as the heap says. */
  lemma PushThenGet(a: nat, v: Value, heap: Heap, fl: FloatOps, site: Site)
    requires a < |heap|
    requires fl.toInt(fl.ofInteger(|heap[a]|)) == |heap[a]| && |heap[a]| <= INT_MAX
    ensures var pushed := PushOn([ArrV(a), v], heap, site);
      pushed.Ok? && GetOn([ArrV(a), IntV(|heap[a]|)], pushed.value.1, fl, site) == Ok(v)
  {
  }

  /** After a successful set, get at the same index reads the stored value. */
  lemma SetThenGet(args: seq<Value>, heap: Heap, fl: FloatOps, site: Site)
    requires Live(args, heap) && SetOn(args, heap, fl, site).Ok?
    ensures GetOn(args[..2], SetOn(args, heap, fl, site).value.1, fl, site) == Ok(args[2])
  {
    assert args[..2][0] == args[0] && args[..2][1] == args[1];
  }

  // ---- split and join ----

  /** The pieces io.split produces: the whole text for an empty separator, otherwise the
      literal split that keeps trailing empty pieces. */
  function SplitPieces(text: string, sep: string): (ps: seq<string>)
    ensures |ps| >= 1
    ensures sep == "" ==> ps == [text]
  {
    if sep == "" then [text] else SplitLiteral(text, sep)
  }

  /** The string values of some texts, in order. */
  function Strs(ps: seq<string>): (vs: seq<Value>)
    ensures |vs| == |ps|
    ensures forall i :: 0 <= i < |ps| ==> vs[i] == StrV(ps[i])
  {
    seq(|ps|, i requires 0 <= i < |ps| => StrV(ps[i]))
  }

  /** io.split(text, sep): a fresh array of the pieces. */
  function SplitOn(args: seq<Value>, heap: Heap, site: Site): (r: Result<(Value, Heap), Fault>)
    ensures r.Ok? <==> |args| == 2 && args[0].StrV? && args[1].StrV?
    ensures r.Ok? ==> r.value == (ArrV(|heap|), heap + [Strs(SplitPieces(args[0].strVal, args[1].strVal))])
    ensures |args| == 2 && r.Err? ==> r.error == Throw(site, "Expected STRING argument")
  {
    match RequireCount(args, 2, "io", "split", site)
    case Some(e) => Err(e)
    case None =>
      match RequireString(args[0], site, NOT_A_STRING)
      case Err(e) => Err(e)
      case Ok(text) =>
        match RequireString(args[1], site, NOT_A_STRING)
        case Err(e) => Err(e)
        case Ok(sep) =>
          var (heap', arr) := NewArray(heap, Some(Strs(SplitPieces(text, sep))));
          Ok((arr, heap'))
  }

  /** The printables of the items separated by sep, or None when one of them overflows the
      stack. */
  function JoinText(items: seq<Value>, sep: string, heap: Heap, fl: FloatOps): Option<string>
  {
    match ShowAll(items, heap, fl, |heap| + 1)
    case Some(parts) => Some(Join(parts, sep))
    case None => None
  }

  /** The StringBuilder loop of io.join over the elements' printables. */
  method JoinItems(items: seq<Value>, sep: string, heap: Heap, fl: FloatOps) returns (r: Option<string>)
    ensures r == JoinText(items, sep, heap, fl)
  {
    var sb := "";
    var i := 0;
    ghost var parts: seq<string> := [];
    while i < |items|
      invariant 0 <= i <= |items|
      invariant ShowAll(items[..i], heap, fl, |heap| + 1) == Some(parts)
      invariant sb == Join(parts, sep)
    {
      if i > 0 {
        sb := sb + sep;
      }
      var t := Printable(items[i], heap, fl, |heap| + 1);
      assert items[..i + 1][..i] == items[..i] && items[..i + 1][i] == items[i];
      if t.None? {
        ShowAllPrefixNone(items, i + 1, heap, fl, |heap| + 1);
        return None;
      }
      JoinSnoc(parts, t.value, sep);
      sb := sb + t.value;
      parts := parts + [t.value];
      i := i + 1;
    }
    assert items[..i] == items;
    return Some(sb);
  }

  /** io.join(arr, sep): the array is checked before the separator. */
  function JoinOn(args: seq<Value>, heap: Heap, fl: FloatOps, site: Site): (r: Result<Value, Fault>)
    requires Live(args, heap)
    ensures r.Ok? <==> (|args| == 2 && args[0].ArrV? && args[1].StrV?
                        && JoinText(heap[args[0].handle], args[1].strVal, heap, fl).Some?)
    ensures r.Ok? ==> r.value == StrV(JoinText(heap[args[0].handle], args[1].strVal, heap, fl).value)
    ensures |args| == 2 && !args[0].ArrV? ==> r == Err(Throw(site, "Expected ARRAY argument"))
    ensures |args| == 2 && args[0].ArrV? && !args[1].StrV? ==> r == Err(Throw(site, "Expected STRING argument"))
  {
    match RequireCount(args, 2, "io", "join", site)
    case Some(e) => Err(e)
    case None =>
      match RequireArray(args[0], site)
      case Err(e) => Err(e)
      case Ok(h) =>
        match RequireString(args[1], site, NOT_A_STRING)
        case Err(e) => Err(e)
        case Ok(sep) =>
          match JoinText(heap[h], sep, heap, fl)
          case Some(s) => Ok(StrV(s))
          case None => Err(TooDeep)
  }

  /** String items print as themselves. */
  lemma {:induction false} ShowAllStrs(ps: seq<string>, heap: Heap, fl: FloatOps, fuel: nat)
    ensures ShowAll(Strs(ps), heap, fl, fuel) == Some(ps)
    decreases |ps|
  {
    if ps != [] {
      var front := ps[..|ps| - 1];
      assert Strs(ps)[..|ps| - 1] == Strs(front);
      ShowAllStrs(front, heap, fl, fuel);
      assert front + [ps[|ps| - 1]] == ps;
    }
  }

  /** Joining an empty array gives "". */
  lemma JoinEmpty(a: nat, sep: string, heap: Heap, fl: FloatOps, site: Site)
    requires a < |heap| && heap[a] == []
    ensures JoinOn([ArrV(a), StrV(sep)], heap, fl, site) == Ok(StrV(""))
  {
  }

  /** io.join(io.split(text, sep), sep) gives the text back, for any separator. */
  lemma SplitThenJoin(text: string, sep: string, heap: Heap, fl: FloatOps, site: Site)
    ensures var split := SplitOn([StrV(text), StrV(sep)], heap, site);
      && split.Ok?
      && JoinOn([split.value.0, StrV(sep)], split.value.1, fl, site) == Ok(StrV(text))
  {
    var (arr, heap') := SplitOn([StrV(text), StrV(sep)], heap, site).value;
    var ps := SplitPieces(text, sep);
    assert heap'[arr.handle] == Strs(ps);
    ShowAllStrs(ps, heap', fl, |heap'| + 1);
    if sep != "" {
      JoinSplit(text, sep);
    }
  }

  // ---- the arrays, changed in place ----

  /** The lists behind all array handles, as io's members change them. */
  class ArrayHeap {
    var lists: Heap

    constructor (lists: Heap)
      ensures this.lists == lists
    {
      this.lists := lists;
    }

    /** io.push: `arr.arrayVal.add(v)` on the list behind the handle. */
    method Push(args: seq<Value>, site: Site) returns (r: Result<Value, Fault>)
      requires Live(args, lists)
      modifies this
      ensures var s := PushOn(args, old(lists), site);
        (s.Ok? ==> r == Ok(s.value.0) && lists == s.value.1) && (s.Err? ==> r == Err(s.error) && lists == old(lists))
    {
      var e := RequireCount(args, 2, "io", "push", site);
      if e.Some? {
        return Err(e.value);
      }
      var a := RequireArray(args[0], site);
      if a.Err? {
        return Err(a.error);
      }
      lists := lists[a.value := lists[a.value] + [args[1]]];
      return Ok(args[0]);
    }

    /** io.pop: nil for an empty list, otherwise `remove(size - 1)`. */
    method Pop(args: seq<Value>, site: Site) returns (r: Result<Value, Fault>)
      requires Live(args, lists)
      modifies this
      ensures var s := PopOn(args, old(lists), site);
        (s.Ok? ==> r == Ok(s.value.0) && lists == s.value.1) && (s.Err? ==> r == Err(s.error) && lists == old(lists))
    {
      var e := RequireCount(args, 1, "io", "pop", site);
      if e.Some? {
        return Err(e.value);
      }
      var a := RequireArray(args[0], site);
      if a.Err? {
        return Err(a.error);
      }
      var h := a.value;
      if lists[h] == [] {
        return Ok(NilV);
      }
      var last := lists[h][|lists[h]| - 1];
      lists := lists[h := lists[h][..|lists[h]| - 1]];
      return Ok(last);
    }

    /** io.set: the bounds check, then `set(idx, v)` on the list behind the handle. */
    method Set(args: seq<Value>, fl: FloatOps, site: Site) returns (r: Result<Value, Fault>)
      requires Live(args, lists)
      modifies this
      ensures var s := SetOn(args, old(lists), fl, site);
        (s.Ok? ==> r == Ok(s.value.0) && lists == s.value.1) && (s.Err? ==> r == Err(s.error) && lists == old(lists))
    {
      var e := RequireCount(args, 3, "io", "set", site);
      if e.Some? {
        return Err(e.value);
      }
      var a := RequireArray(args[0], site);
      if a.Err? {
        return Err(a.error);
      }
      var h := a.value;
      var idx := RequireIntIndex(args[1], fl, site);
      if idx.Err? {
        return Err(idx.error);
      }
      var i := idx.value;
      if i < 0 || i >= |lists[h]| {
        return Err(Throw(site, SET_BOUNDS));
      }
      lists := lists[h := lists[h][i := args[2]]];
      return Ok(args[0]);
    }

    /** io.split: the loop that turns each piece into a string value, then a fresh array. */
    method Split(args: seq<Value>, site: Site) returns (r: Result<Value, Fault>)
      modifies this
      ensures var s := SplitOn(args, old(lists), site);
        (s.Ok? ==> r == Ok(s.value.0) && lists == s.value.1) && (s.Err? ==> r == Err(s.error) && lists == old(lists))
    {
      var e := RequireCount(args, 2, "io", "split", site);
      if e.Some? {
        return Err(e.value);
      }
      var text := RequireString(args[0], site, NOT_A_STRING);
      if text.Err? {
        return Err(text.error);
      }
      var sep := RequireString(args[1], site, NOT_A_STRING);
      if sep.Err? {
        return Err(sep.error);
      }
      var parts := SplitPieces(text.value, sep.value);
      var out: seq<Value> := [];
      var i := 0;
      while i < |parts|
        invariant 0 <= i <= |parts|
        invariant out == Strs(parts[..i])
      {
        out := out + [StrV(parts[i])];
        i := i + 1;
      }
      assert parts[..i] == parts;
      r := Ok(ArrV(|lists|));
      lists := lists + [out];
    }

    /** io.join: the argument checks, then the loop over the list behind the handle. */
    method Join(args: seq<Value>, fl: FloatOps, site: Site) returns (r: Result<Value, Fault>)
      requires Live(args, lists)
      ensures r == JoinOn(args, lists, fl, site)
    {
      var e := RequireCount(args, 2, "io", "join", site);
      if e.Some? {
        return Err(e.value);
      }
      var a := RequireArray(args[0], site);
      if a.Err? {
        return Err(a.error);
      }
      var sep := RequireString(args[1], site, NOT_A_STRING);
      if sep.Err? {
        return Err(sep.error);
      }
      var text := JoinItems(lists[a.value], sep.value, lists, fl);
      if text.None? {
        return Err(TooDeep);
      }
      return Ok(StrV(text.value));
    }
  }
}
