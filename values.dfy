/**
 * Runtime values of the Dog VM.
 *
 * Arrays are shared, mutable lists in the source; here an array value is a
 * handle into a heap of element lists, so aliasing is handle equality.
 * A function value carries its prototype together with the prototype's
 * identity (`Origin`), because functions compare by prototype identity.
 * Doubles are IEEE 754 bit patterns; the arithmetic on them is supplied by
 * a `FloatOps` record, since floating point is not part of this model.
 */
module Values {
  import opened Wrappers
  import opened JavaLang
  import opened Bytecode

  datatype Kind = INT | LONG | DOUBLE | BIGINT | STRING | BOOL | NIL | ARRAY | FUNCTION

  /** Which FunctionProto object a function value was made from: the top-level Chunk object
      it was loaded from (an identity the caller of the VM supplies), and the path of
      function-table indices from that chunk down. */
  datatype Origin = Origin(chunk: nat, path: seq<nat>)

  datatype Value =
    | IntV(intVal: Int32)
    | LongV(longVal: Int64)
    | DoubleV(bits: DoubleBits)
    | BigV(bigVal: int)
    | StrV(strVal: string)
    | BoolV(boolVal: bool)
    | NilV
    | ArrV(handle: nat)
    | FnV(proto: FunctionProto, origin: Origin, closure: map<string, Value>)

  /** The element lists of all arrays, indexed by handle. */
  type Heap = seq<seq<Value>>

  /** The double operations the VM and the compiler use, left uninterpreted. */
  datatype FloatOps = FloatOps(
    ofInteger: int -> DoubleBits,                         // (double) i, (double) l, BigInteger.doubleValue
    add: (DoubleBits, DoubleBits) -> DoubleBits,
    sub: (DoubleBits, DoubleBits) -> DoubleBits,
    mul: (DoubleBits, DoubleBits) -> DoubleBits,
    div: (DoubleBits, DoubleBits) -> DoubleBits,
    compare: (DoubleBits, DoubleBits) -> int,             // Double.compare
    toLong: DoubleBits -> Int64,                          // the (long) cast
    toInt: DoubleBits -> Int32,                           // the (int) cast
    isIntegral: DoubleBits -> bool,                       // d == Math.rint(d)
    show: DoubleBits -> string,                           // String.valueOf(d)
    parse: string -> Option<DoubleBits>)                  // Double.parseDouble; None for NumberFormatException

  /** The Java enum constant's name, as string concatenation prints it. */
  function KindName(k: Kind): string
  {
    match k
    case INT => "INT"
    case LONG => "LONG"
    case DOUBLE => "DOUBLE"
    case BIGINT => "BIGINT"
    case STRING => "STRING"
    case BOOL => "BOOL"
    case NIL => "NIL"
    case ARRAY => "ARRAY"
    case FUNCTION => "FUNCTION"
  }

  function KindOf(v: Value): Kind
  {
    match v
    case IntV(_) => INT
    case LongV(_) => LONG
    case DoubleV(_) => DOUBLE
    case BigV(_) => BIGINT
    case StrV(_) => STRING
    case BoolV(_) => BOOL
    case NilV => NIL
    case ArrV(_) => ARRAY
    case FnV(_, _, _) => FUNCTION
  }

  predicate IsNumber(v: Value)
    ensures IsNumber(v) <==> KindOf(v) in {INT, LONG, DOUBLE, BIGINT}
  {
    v.IntV? || v.LongV? || v.DoubleV? || v.BigV?
  }

  /** Value.ofBigInt: a null BigInteger becomes zero; the kind is BIGINT whatever the size. */
  function OfBigInt(b: Option<int>): (v: Value)
    ensures KindOf(v) == BIGINT && v.bigVal == b.GetOr(0)
  {
    BigV(b.GetOr(0))
  }

  /** Value.str: a null string becomes "". */
  function Str(s: Option<string>): (v: Value)
    ensures KindOf(v) == STRING && v.strVal == s.GetOr("")
  {
    StrV(s.GetOr(""))
  }

  /** Value.array: a fresh list holding the items (none for null), at a new handle. */
  function NewArray(heap: Heap, items: Option<seq<Value>>): (r: (Heap, Value))
    ensures r.1 == ArrV(|heap|) && r.0 == heap + [items.GetOr([])]
    ensures forall h :: 0 <= h < |heap| ==> r.0[h] == heap[h]
  {
    (heap + [items.GetOr([])], ArrV(|heap|))
  }

  /** Value.function: a null prototype is an IllegalArgumentException; a null closure is empty. */
  function MakeFunction(proto: Option<FunctionProto>, origin: Origin, closure: Option<map<string, Value>>): (r: Result<Value, string>)
    ensures r.Err? <==> proto.None?
    ensures r.Ok? ==> r.value.FnV? && r.value.proto == proto.value && r.value.closure == closure.GetOr(map[])
  {
    if proto.None? then Err("proto is null") else Ok(FnV(proto.value, origin, closure.GetOr(map[])))
  }

  /** Value.toDouble: numbers converted, everything else 0.0. */
  function ToDouble(v: Value, fl: FloatOps): DoubleBits
  {
    match v
    case IntV(i) => fl.ofInteger(i)
    case LongV(l) => fl.ofInteger(l)
    case DoubleV(d) => d
    case BigV(b) => fl.ofInteger(b)
    case _ => 0
  }

  /** Value.toBigInteger: exact on the integer kinds, the (long) cast for a double, 0 otherwise. */
  function ToBigInteger(v: Value, fl: FloatOps): (r: int)
    ensures v.IntV? ==> r == v.intVal
    ensures v.LongV? ==> r == v.longVal
    ensures v.BigV? ==> r == v.bigVal
    ensures v.DoubleV? ==> r == fl.toLong(v.bits)
    ensures !IsNumber(v) ==> r == 0
  {
    match v
    case IntV(i) => i
    case LongV(l) => l
    case BigV(b) => b
    case DoubleV(d) => fl.toLong(d)
    case _ => 0
  }

  /** Value.fromBigInteger: the narrowest integer kind that holds the number (null gives INT 0). */
  function FromBigInteger(b: Option<int>): (v: Value)
    ensures b.None? ==> v == IntV(0)
    ensures b.Some? ==> (v.IntV? <==> INT_MIN <= b.value <= INT_MAX)
    ensures b.Some? ==> (v.LongV? <==> (LONG_MIN <= b.value <= LONG_MAX && !(INT_MIN <= b.value <= INT_MAX)))
    ensures b.Some? ==> (v.BigV? <==> !(LONG_MIN <= b.value <= LONG_MAX))
    ensures v.IntV? || v.LongV? || v.BigV?
  {
    if b.None? then IntV(0)
    else
      var x := b.value;
      BitLengthJavaRanges(x);
      if BitLength(x) <= 31 then IntV(x)
      else if BitLength(x) <= 63 then LongV(x)
      else BigV(x)
  }

  /** Narrowing loses nothing: toBigInteger undoes fromBigInteger. */
  lemma ToFromBigInteger(b: int, fl: FloatOps)
    ensures ToBigInteger(FromBigInteger(Some(b)), fl) == b
  {
  }

  // ---- printable ----

  /** The printable text of a value. Arrays print their elements recursively; `fuel` bounds
      that recursion, and running out (only an array that contains itself can) gives None,
      as does a handle with no array behind it. */
  function Show(v: Value, heap: Heap, fl: FloatOps, fuel: nat): Option<string>
    decreases fuel, 0
  {
    match v
    case StrV(s) => Some(s)
    case BoolV(b) => Some(if b then "true" else "false")
    case NilV => Some("nil")
    case IntV(i) => Some(IntToDecimal(i))
    case LongV(l) => Some(IntToDecimal(l))
    case BigV(b) => Some(IntToDecimal(b))
    case DoubleV(d) => Some(if fl.isIntegral(d) then IntToDecimal(fl.toLong(d)) else fl.show(d))
    case ArrV(h) =>
      if fuel == 0 || h >= |heap| then None
      else
        (match ShowAll(heap[h], heap, fl, fuel - 1)
         case Some(parts) => Some("[" + Join(parts, ", ") + "]")
         case None => None)
    case FnV(p, _, _) => Some("<fn(" + Join(p.params, ",") + ")>")
  }

  /** The printable texts of a list of values, or None when one of them has none. */
  function ShowAll(items: seq<Value>, heap: Heap, fl: FloatOps, fuel: nat): (r: Option<seq<string>>)
    decreases fuel, |items| + 1
    ensures r.Some? ==> |r.value| == |items|
  {
    if items == [] then Some([])
    else
      match ShowAll(items[..|items| - 1], heap, fl, fuel)
      case None => None
      case Some(front) =>
        match Show(items[|items| - 1], heap, fl, fuel)
        case None => None
        case Some(last) => Some(front + [last])
  }

  /** One element without a printable text leaves the whole list without one. */
  lemma {:induction false} ShowAllPrefixNone(items: seq<Value>, k: nat, heap: Heap, fl: FloatOps, fuel: nat)
    requires k <= |items| && ShowAll(items[..k], heap, fl, fuel).None?
    ensures ShowAll(items, heap, fl, fuel).None?
    decreases |items|
  {
    if k < |items| {
      assert items[..|items| - 1][..k] == items[..k];
      ShowAllPrefixNone(items[..|items| - 1], k, heap, fl, fuel);
    } else {
      assert items[..k] == items;
    }
  }

  /** Value.printable, with the StringBuilder loop over an array's elements. */
  method Printable(v: Value, heap: Heap, fl: FloatOps, fuel: nat) returns (r: Option<string>)
    decreases fuel
    ensures r == Show(v, heap, fl, fuel)
  {
    if !v.ArrV? {
      return Show(v, heap, fl, fuel);
    }
    if fuel == 0 || v.handle >= |heap| {
      return None;
    }
    var items := heap[v.handle];
    var sb := "[";
    var i := 0;
    ghost var parts: seq<string> := [];
    while i < |items|
      invariant 0 <= i <= |items|
      invariant items[..i] == heap[v.handle][..i]
      invariant ShowAll(items[..i], heap, fl, fuel - 1) == Some(parts)
      invariant sb == "[" + Join(parts, ", ")
    {
      var piece := Printable(items[i], heap, fl, fuel - 1);
      assert items[..i + 1][..i] == items[..i];
      if piece.None? {
        ShowAllPrefixNone(items, i + 1, heap, fl, fuel - 1);
        return None;
      }
      JoinSnoc(parts, piece.value, ", ");
      if i > 0 {
        sb := sb + ", ";
      }
      sb := sb + piece.value;
      parts := parts + [piece.value];
      i := i + 1;
    }
    assert items[..i] == items;
    return Some(sb + "]");
  }
}
