/**
 * The value-level rules of the Dog VM: variable resolution through the
 * frame stack, closure snapshots, parameter binding, truthiness, equality
 * and the numeric operators.
 */
module VmSpec {
  import opened Wrappers
  import opened JavaLang
  import opened Values

  /** A call frame: its locals, its own copy of the callee's captured environment, and the
      operand-stack height at entry. */
  datatype Frame = Frame(locals: map<string, Value>, closure: map<string, Value>, stackBase: nat)

  // ---- variables ----

  /** loadVar: the innermost frame holding the name in its locals or, failing that, its
      closure decides; with no such frame the globals do. */
  function Lookup(frames: seq<Frame>, globals: map<string, Value>, name: string): Option<Value>
    decreases |frames|
  {
    if frames == [] then (if name in globals then Some(globals[name]) else None)
    else
      var f := frames[|frames| - 1];
      if name in f.locals then Some(f.locals[name])
      else if name in f.closure then Some(f.closure[name])
      else Lookup(frames[..|frames| - 1], globals, name)
  }

  /** The slot a store to `name` overwrites: the innermost frame that holds the name, and
      whether it is in that frame's locals (true) or its closure (false). */
  function Slot(frames: seq<Frame>, name: string): (r: Option<(nat, bool)>)
    decreases |frames|
    ensures r.Some? ==> r.value.0 < |frames|
    ensures r.Some? && r.value.1 ==> name in frames[r.value.0].locals
    ensures r.Some? && !r.value.1 ==> name !in frames[r.value.0].locals && name in frames[r.value.0].closure
  {
    if frames == [] then None
    else
      var f := frames[|frames| - 1];
      if name in f.locals then Some((|frames| - 1, true))
      else if name in f.closure then Some((|frames| - 1, false))
      else Slot(frames[..|frames| - 1], name)
  }

  /** storeVar on (frames, globals): with no frame the globals; otherwise the slot found by
      Slot, or else the innermost frame's locals. */
  function StoreResult(frames: seq<Frame>, globals: map<string, Value>, name: string, v: Value): (seq<Frame>, map<string, Value>)
  {
    if frames == [] then ([], globals[name := v])
    else
      match Slot(frames, name)
      case Some((i, true)) => (frames[i := frames[i].(locals := frames[i].locals[name := v])], globals)
      case Some((i, false)) => (frames[i := frames[i].(closure := frames[i].closure[name := v])], globals)
      case None =>
        var k := |frames| - 1;
        (frames[k := frames[k].(locals := frames[k].locals[name := v])], globals)
  }

  /** Lookup reads exactly the slot Slot finds, or the globals when there is none. */
  lemma {:induction false} LookupViaSlot(frames: seq<Frame>, globals: map<string, Value>, name: string)
    decreases |frames|
    ensures Slot(frames, name).None? ==> Lookup(frames, globals, name) == (if name in globals then Some(globals[name]) else None)
    ensures Slot(frames, name).Some? && Slot(frames, name).value.1 ==>
      Lookup(frames, globals, name) == Some(frames[Slot(frames, name).value.0].locals[name])
    ensures Slot(frames, name).Some? && !Slot(frames, name).value.1 ==>
      Lookup(frames, globals, name) == Some(frames[Slot(frames, name).value.0].closure[name])
  {
    if frames != [] {
      var f := frames[|frames| - 1];
      if name !in f.locals && name !in f.closure {
        var front := frames[..|frames| - 1];
        LookupViaSlot(front, globals, name);
        if Slot(front, name).Some? {
          assert frames[Slot(front, name).value.0] == front[Slot(front, name).value.0];
        }
      }
    }
  }

  /** Frame by frame, `a` and `b` hold `name` in the same places. */
  predicate SameHolders(a: seq<Frame>, b: seq<Frame>, name: string)
  {
    && |a| == |b|
    && (forall j :: 0 <= j < |a| ==> (name in a[j].locals <==> name in b[j].locals))
    && (forall j :: 0 <= j < |a| ==> (name in a[j].closure <==> name in b[j].closure))
  }

  /** Slot depends only on which frames hold the name, not on the values stored. */
  lemma {:induction false} SlotDependsOnMembership(a: seq<Frame>, b: seq<Frame>, name: string)
    requires SameHolders(a, b, name)
    decreases |a|
    ensures Slot(a, name) == Slot(b, name)
  {
    if a != [] {
      var n := |a| - 1;
      if name !in a[n].locals && name !in a[n].closure {
        assert SameHolders(a[..n], b[..n], name);
        SlotDependsOnMembership(a[..n], b[..n], name);
      }
    }
  }

  /** A store adds `name` at most, so any other name, and `name` itself once some frame
      holds it, is held in the same places afterwards. */
  lemma StoreKeepsHolders(frames: seq<Frame>, globals: map<string, Value>, name: string, v: Value, x: string)
    requires frames != [] && (x != name || Slot(frames, name).Some?)
    ensures SameHolders(frames, StoreResult(frames, globals, name, v).0, x)
  {
    var fs := StoreResult(frames, globals, name, v).0;
    match Slot(frames, name)
    case Some((i, true)) =>
      assert fs == frames[i := frames[i].(locals := frames[i].locals[name := v])];
    case Some((i, false)) =>
      assert fs == frames[i := frames[i].(closure := frames[i].closure[name := v])];
    case None =>
      var k := |frames| - 1;
      assert fs == frames[k := frames[k].(locals := frames[k].locals[name := v])];
  }

  /** A store is seen by the next load of the same name. */
  lemma LoadAfterStore(frames: seq<Frame>, globals: map<string, Value>, name: string, v: Value)
    ensures var (fs, gs) := StoreResult(frames, globals, name, v); Lookup(fs, gs, name) == Some(v)
  {
    var (fs, gs) := StoreResult(frames, globals, name, v);
    if frames != [] {
      if Slot(frames, name).Some? {
        StoreKeepsHolders(frames, globals, name, v, name);
        SlotDependsOnMembership(frames, fs, name);
      }
      LookupViaSlot(fs, gs, name);
    }
  }

  /** A store leaves every other name's value alone. */
  lemma StoreKeepsOtherNames(frames: seq<Frame>, globals: map<string, Value>, name: string, v: Value, other: string)
    requires other != name
    ensures var (fs, gs) := StoreResult(frames, globals, name, v); Lookup(fs, gs, other) == Lookup(frames, globals, other)
  {
    var (fs, gs) := StoreResult(frames, globals, name, v);
    if frames != [] {
      StoreKeepsHolders(frames, globals, name, v, other);
      SlotDependsOnMembership(frames, fs, other);
      LookupViaSlot(fs, gs, other);
      LookupViaSlot(frames, globals, other);
    }
  }

  /** captureEnvSnapshot: globals, then every frame's closure and locals from the outermost
      frame in, later entries overriding earlier ones. */
  function Capture(frames: seq<Frame>, globals: map<string, Value>): map<string, Value>
    decreases |frames|
  {
    if frames == [] then globals
    else
      var f := frames[|frames| - 1];
      Capture(frames[..|frames| - 1], globals) + f.closure + f.locals
  }

  /** The snapshot holds, for every name, exactly what a load of that name would see. */
  lemma {:induction false} CaptureAgreesWithLookup(frames: seq<Frame>, globals: map<string, Value>, name: string)
    decreases |frames|
    ensures name in Capture(frames, globals) <==> Lookup(frames, globals, name).Some?
    ensures name in Capture(frames, globals) ==> Capture(frames, globals)[name] == Lookup(frames, globals, name).value
  {
    if frames != [] {
      CaptureAgreesWithLookup(frames[..|frames| - 1], globals, name);
    }
  }

  // ---- calls ----

  /** The argument for parameter position i: missing arguments are nil, extras are ignored. */
  function ArgOrNil(args: seq<Value>, i: nat): Value
  {
    if i < |args| then args[i] else NilV
  }

  /** The locals of a new frame after the parameter loop of callUserFunction. */
  function Bind(params: seq<string>, args: seq<Value>): map<string, Value>
    decreases |params|
  {
    if params == [] then map[]
    else Bind(params[..|params| - 1], args)[params[|params| - 1] := ArgOrNil(args, |params| - 1)]
  }

  /** The locals a binding creates are exactly the parameter names. */
  lemma {:induction false} BindKeys(params: seq<string>, args: seq<Value>)
    decreases |params|
    ensures Bind(params, args).Keys == set p | p in params
  {
    if params != [] {
      var n := |params| - 1;
      BindKeys(params[..n], args);
      assert params == params[..n] + [params[n]];
    }
  }

  /** No later parameter repeats the name at position i. */
  predicate LastOccurrence(params: seq<string>, i: nat)
    requires i < |params|
  {
    forall j :: i < j < |params| ==> params[j] != params[i]
  }

  /** The parameter at position i, named nowhere later, is bound to the argument there. */
  lemma {:induction false} BindAt(params: seq<string>, args: seq<Value>, i: nat)
    requires i < |params| && LastOccurrence(params, i)
    decreases |params|
    ensures params[i] in Bind(params, args) && Bind(params, args)[params[i]] == ArgOrNil(args, i)
  {
    var n := |params| - 1;
    if i < n {
      var front := params[..n];
      assert front[i] == params[i];
      assert LastOccurrence(front, i) by {
        forall j | i < j < n ensures front[j] != front[i] {
          assert front[j] == params[j];
        }
      }
      BindAt(front, args, i);
      assert params[n] != params[i];
    }
  }

  /** Binding is positional: the locals are exactly the parameters, and a parameter whose name
      is not repeated later gets the argument at its own position (nil when missing). */
  lemma BindPositional(params: seq<string>, args: seq<Value>)
    ensures Bind(params, args).Keys == set p | p in params
    ensures forall i :: 0 <= i < |params| && LastOccurrence(params, i) ==>
      Bind(params, args)[params[i]] == ArgOrNil(args, i)
  {
    BindKeys(params, args);
    forall i | 0 <= i < |params| && LastOccurrence(params, i)
      ensures Bind(params, args)[params[i]] == ArgOrNil(args, i)
    {
      BindAt(params, args, i);
    }
  }

  // ---- truthiness and equality ----

  /** isTruthy: nil is false, a bool is itself, a string is true when non-empty, a number
      when non-zero (for a double: neither +0.0 nor -0.0), arrays and functions are true. */
  predicate IsTruthy(v: Value)
  {
    match v
    case NilV => false
    case BoolV(b) => b
    case StrV(s) => s != []
    case ArrV(_) => true
    case FnV(_, _, _) => true
    case DoubleV(d) => d % 0x8000_0000_0000_0000 != 0
    case IntV(i) => i != 0
    case LongV(l) => l != 0
    case BigV(b) => b != 0
  }

  /** An integer value is truthy exactly when it is not zero, whatever its width. */
  lemma TruthyIntegers(v: Value, fl: FloatOps)
    requires IsNumber(v) && !v.DoubleV?
    ensures IsTruthy(v) <==> ToBigInteger(v, fl) != 0
  {
  }

  /** isEqual. Numbers compare by value across INT, LONG and BIGINT (through Double.compare
      when a double is involved); otherwise the kinds must agree, and strings compare by
      content, bools by value, arrays by identity, functions by prototype identity. */
  predicate IsEqual(a: Value, b: Value, fl: FloatOps)
    ensures IsEqual(a, b, fl) && KindOf(a) != KindOf(b) ==> IsNumber(a) && IsNumber(b)
    ensures a.NilV? ==> (IsEqual(a, b, fl) <==> b.NilV?)
    ensures a.StrV? || a.BoolV? || a.ArrV? ==> (IsEqual(a, b, fl) <==> a == b)
    ensures a.FnV? ==> (IsEqual(a, b, fl) <==> b.FnV? && b.origin == a.origin)
    ensures IsNumber(a) && IsNumber(b) && !a.DoubleV? && !b.DoubleV? ==>
      (IsEqual(a, b, fl) <==> ToBigInteger(a, fl) == ToBigInteger(b, fl))
  {
    if a.NilV? && b.NilV? then true
    else if IsNumber(a) && IsNumber(b) then
      if a.DoubleV? || b.DoubleV? then fl.compare(ToDouble(a, fl), ToDouble(b, fl)) == 0
      else ToBigInteger(a, fl) == ToBigInteger(b, fl)
    else if KindOf(a) != KindOf(b) then false
    else
      match a
      case StrV(s) => s == b.strVal
      case BoolV(x) => x == b.boolVal
      case ArrV(h) => h == b.handle
      case FnV(_, o, _) => o == b.origin
      case _ => false
  }

  /** Equality is symmetric, given that Double.compare reports equality symmetrically. */
  lemma IsEqualSymmetric(a: Value, b: Value, fl: FloatOps)
    requires fl.compare(ToDouble(a, fl), ToDouble(b, fl)) == 0 <==> fl.compare(ToDouble(b, fl), ToDouble(a, fl)) == 0
    ensures IsEqual(a, b, fl) <==> IsEqual(b, a, fl)
  {
  }

  // ---- numbers ----

  /** The result of fromBigInteger: the narrowest of INT, LONG, BIGINT that holds it. */
  predicate Narrowest(v: Value)
  {
    || (v.IntV?)
    || (v.LongV? && !(INT_MIN <= v.longVal <= INT_MAX))
    || (v.BigV? && !(LONG_MIN <= v.bigVal <= LONG_MAX))
  }

  function NumAdd(a: Value, b: Value, fl: FloatOps): (r: Value)
    requires IsNumber(a) && IsNumber(b)
    ensures a.DoubleV? || b.DoubleV? ==> r == DoubleV(fl.add(ToDouble(a, fl), ToDouble(b, fl)))
    ensures !a.DoubleV? && !b.DoubleV? ==> Narrowest(r) && ToBigInteger(r, fl) == ToBigInteger(a, fl) + ToBigInteger(b, fl)
  {
    if a.DoubleV? || b.DoubleV? then DoubleV(fl.add(ToDouble(a, fl), ToDouble(b, fl)))
    else FromBigInteger(Some(ToBigInteger(a, fl) + ToBigInteger(b, fl)))
  }

  function NumSub(a: Value, b: Value, fl: FloatOps): (r: Value)
    requires IsNumber(a) && IsNumber(b)
    ensures a.DoubleV? || b.DoubleV? ==> r == DoubleV(fl.sub(ToDouble(a, fl), ToDouble(b, fl)))
    ensures !a.DoubleV? && !b.DoubleV? ==> Narrowest(r) && ToBigInteger(r, fl) == ToBigInteger(a, fl) - ToBigInteger(b, fl)
  {
    if a.DoubleV? || b.DoubleV? then DoubleV(fl.sub(ToDouble(a, fl), ToDouble(b, fl)))
    else FromBigInteger(Some(ToBigInteger(a, fl) - ToBigInteger(b, fl)))
  }

  function NumMul(a: Value, b: Value, fl: FloatOps): (r: Value)
    requires IsNumber(a) && IsNumber(b)
    ensures a.DoubleV? || b.DoubleV? ==> r == DoubleV(fl.mul(ToDouble(a, fl), ToDouble(b, fl)))
    ensures !a.DoubleV? && !b.DoubleV? ==> Narrowest(r) && ToBigInteger(r, fl) == ToBigInteger(a, fl) * ToBigInteger(b, fl)
  {
    if a.DoubleV? || b.DoubleV? then DoubleV(fl.mul(ToDouble(a, fl), ToDouble(b, fl)))
    else FromBigInteger(Some(ToBigInteger(a, fl) * ToBigInteger(b, fl)))
  }

  /** numCompare: Double.compare when a double is involved, else BigInteger.compareTo. */
  function NumCompare(a: Value, b: Value, fl: FloatOps): (r: int)
    requires IsNumber(a) && IsNumber(b)
    ensures a.DoubleV? || b.DoubleV? ==> r == fl.compare(ToDouble(a, fl), ToDouble(b, fl))
    ensures !a.DoubleV? && !b.DoubleV? ==>
      (r < 0 <==> ToBigInteger(a, fl) < ToBigInteger(b, fl)) && (r == 0 <==> ToBigInteger(a, fl) == ToBigInteger(b, fl))
    ensures !a.DoubleV? && !b.DoubleV? ==> -1 <= r <= 1
  {
    if a.DoubleV? || b.DoubleV? then fl.compare(ToDouble(a, fl), ToDouble(b, fl))
    else
      var x, y := ToBigInteger(a, fl), ToBigInteger(b, fl);
      if x < y then -1 else if x == y then 0 else 1
  }

  /** An integer sum that overflows int is promoted, not wrapped: 2147483647 + 1 is the LONG
      2147483648. */
  lemma AddPromotesPastInt(fl: FloatOps)
    ensures NumAdd(IntV(INT_MAX), IntV(1), fl) == LongV(INT_MAX + 1)
  {
    BitLengthJavaRanges(INT_MAX + 1);
  }
}
