/**
 * DogVM: the stack machine that runs a chunk.
 *
 * The operand stack, the globals and the frame stack are fields the
 * instruction methods update in place; arrays live in `heap`, printed lines
 * are appended to `output`, and library modules are reached through `host`.
 * Execution carries a fuel budget of instructions so that every run ends:
 * a program that would run longer ends in `OutOfFuel`.
 */
module VM {
  import opened Wrappers
  import opened JavaLang
  import opened OpCodes
  import opened Bytecode
  import opened Values
  import opened Exceptions
  import opened Registry
  import opened VmSpec

  /** How a library module call can fail: a DogException it throws itself, or any other
      RuntimeException (with its message), which the VM wraps. */
  datatype HostFailure = Thrown(error: DogError) | Crashed(message: string)

  /** DogModule.call and DogModule.getConstant. They see the arrays (io.push appends to one
      in place) and return the heap as they leave it. */
  datatype Host = Host(
    call: (DogModule, string, seq<Value>, Heap) -> Result<(Value, Heap), HostFailure>,
    getConstant: (DogModule, string, Heap) -> Result<(Value, Heap), HostFailure>)

  /** How running a chunk ends: a value (nil when the code runs off its end), a DogException,
      a JVM error that is not an exception (only a printable of a self-containing array),
      or the fuel running out. */
  datatype Outcome = Returned(value: Value) | Failed(error: DogError) | Aborted(reason: string) | OutOfFuel

  /** What one instruction does to the instruction pointer. */
  datatype Step = Next | JumpTo(target: nat) | Return(value: Value) | Fail(error: DogError) | Abort(reason: string) | Exhausted

  /** The result of a value-level operation: a value, a DogException message raised at the
      instruction, or a printable that recursed too deep. */
  datatype Eval = Done(value: Value) | Raise(message: string) | TooDeep

  function ErrAt(ins: Instruction, message: string): DogError
  {
    At(ins.line, ins.col, ins.sourceLine, message)
  }

  /** A RuntimeException caught by executeChunk and rethrown as a DogException. */
  function Crash(ins: Instruction, message: string): DogError
  {
    ErrAt(ins, "Runtime error: " + message)
  }

  function StepOf(e: Eval, ins: Instruction): Step
  {
    match e
    case Done(_) => Next
    case Raise(m) => Fail(ErrAt(ins, m))
    case TooDeep => Abort("printable recursion too deep")
  }

  // ---- instruction-level rules as functions ----

  predicate IsConstOp(op: OpCode)
  {
    op in {CONST_INT, CONST_LONG, CONST_DOUBLE, CONST_BIGINT, CONST_STR, CONST_BOOL, CONST_NIL}
  }

  /** The value a CONST_* instruction pushes; a missing payload gives the type's zero, and None
      means the CONST_BIGINT text is not a number (a NumberFormatException). */
  function ConstValue(ins: Instruction): (r: Option<Value>)
    requires IsConstOp(ins.op)
    ensures r.None? <==> ins.op == CONST_BIGINT && ParseBigInteger(ins.text.GetOr("0")).None?
    ensures ins.op == CONST_INT ==> r == Some(IntV(ins.intVal.GetOr(0)))
    ensures ins.op == CONST_STR ==> r == Some(StrV(ins.text.GetOr("")))
    ensures ins.op == CONST_BOOL ==> r == Some(BoolV(ins.boolVal == Some(true)))
  {
    match ins.op
    case CONST_INT => Some(IntV(ins.intVal.GetOr(0)))
    case CONST_LONG => Some(LongV(ins.longVal.GetOr(0)))
    case CONST_DOUBLE => Some(DoubleV(ins.doubleVal.GetOr(0)))
    case CONST_BIGINT =>
      (match ParseBigInteger(ins.text.GetOr("0"))
       case Some(b) => Some(OfBigInt(Some(b)))
       case None => None)
    case CONST_STR => Some(Str(ins.text))
    case CONST_BOOL => Some(BoolV(ins.boolVal == Some(true)))
    case CONST_NIL => Some(NilV)
  }

  /** What the instruction factories build, the VM loads back unchanged; in particular the
      decimal text the compiler stores for a big literal evaluates to that number. */
  lemma ConstantsLoadAsBuilt(n: Int32, l: Int64, x: int, s: string, b: bool, line: int, col: int, src: Option<string>)
    ensures ConstValue(ConstInt(n, line, col, src)) == Some(IntV(n))
    ensures ConstValue(ConstLong(l, line, col, src)) == Some(LongV(l))
    ensures ConstValue(ConstBigInt(Some(IntToDecimal(x)), line, col, src)) == Some(BigV(x))
    ensures ConstValue(ConstStr(Some(s), line, col, src)) == Some(StrV(s))
    ensures ConstValue(ConstBool(b, line, col, src)) == Some(BoolV(b))
    ensures ConstValue(ConstNil(line, col, src)) == Some(NilV)
  {
    DecimalRoundTrip(x);
  }

  /** requireIndexInt: a number whose double value is integral and whose (long) cast fits in
      an int. */
  function RequireIndexInt(v: Value, ins: Instruction, fl: FloatOps): (r: Result<Int32, DogError>)
    ensures !IsNumber(v) ==> r == Err(ErrAt(ins, "Array index must be a number"))
    ensures r.Ok? ==> IsNumber(v) && fl.isIntegral(ToDouble(v, fl)) && r.value == fl.toLong(ToDouble(v, fl))
  {
    if !IsNumber(v) then Err(ErrAt(ins, "Array index must be a number"))
    else
      var d := ToDouble(v, fl);
      if !fl.isIntegral(d) then Err(ErrAt(ins, "Array index must be an integer"))
      else
        var big := fl.toLong(d);
        if big < INT_MIN || big > INT_MAX then Err(ErrAt(ins, "Array index is too large"))
        else Ok(big)
  }

  /** checkJump: a target must lie in [0, size]; size itself ends the chunk. */
  function CheckJump(target: int, size: nat, ins: Instruction): (r: Option<DogError>)
    ensures r.None? <==> 0 <= target <= size
    ensures r.Some? ==> r.value.message == "Bad jump target: " + IntToDecimal(target) + " (code size=" + IntToDecimal(size) + ")"
  {
    if target < 0 || target > size then
      Some(ErrAt(ins, "Bad jump target: " + IntToDecimal(target) + " (code size=" + IntToDecimal(size) + ")"))
    else None
  }

  /** ARRAY_GET after its pops: the base must be an array and the index inside it. */
  function IndexRead(arr: Value, idxV: Value, ins: Instruction, heap: Heap, fl: FloatOps): (r: Result<Value, DogError>)
    ensures !arr.ArrV? ==> r == Err(ErrAt(ins, "Indexing works only for arrays"))
    ensures r.Ok? <==> arr.ArrV? && arr.handle < |heap| && RequireIndexInt(idxV, ins, fl).Ok?
                       && 0 <= RequireIndexInt(idxV, ins, fl).value < |heap[arr.handle]|
    ensures r.Ok? ==> r.value == heap[arr.handle][RequireIndexInt(idxV, ins, fl).value]
  {
    if !arr.ArrV? then Err(ErrAt(ins, "Indexing works only for arrays"))
    else
      match RequireIndexInt(idxV, ins, fl)
      case Err(e) => Err(e)
      case Ok(idx) =>
        if arr.handle >= |heap| then Err(Crash(ins, "dangling array handle"))
        else if idx < 0 || idx >= |heap[arr.handle]| then Err(ErrAt(ins, "Array index out of range: " + IntToDecimal(idx)))
        else Ok(heap[arr.handle][idx])
  }

  /** ARRAY_SET's checks after its pops: an array base and a non-negative integer index. */
  function IndexWrite(arr: Value, idxV: Value, ins: Instruction, heap: Heap, fl: FloatOps): (r: Result<nat, DogError>)
    ensures !arr.ArrV? ==> r == Err(ErrAt(ins, "Indexing works only for arrays"))
    ensures r.Ok? <==> arr.ArrV? && arr.handle < |heap| && RequireIndexInt(idxV, ins, fl).Ok? && RequireIndexInt(idxV, ins, fl).value >= 0
    ensures r.Ok? ==> r.value == RequireIndexInt(idxV, ins, fl).value
  {
    if !arr.ArrV? then Err(ErrAt(ins, "Indexing works only for arrays"))
    else
      match RequireIndexInt(idxV, ins, fl)
      case Err(e) => Err(e)
      case Ok(idx) =>
        if idx < 0 then Err(ErrAt(ins, "Array index out of range: " + IntToDecimal(idx)))
        else if arr.handle >= |heap| then Err(Crash(ins, "dangling array handle"))
        else Ok(idx)
  }

  /** The list after `arr[idx] = v`: grown with nil up to idx, then slot idx replaced. */
  function SetGrow(items: seq<Value>, idx: nat, v: Value): (r: seq<Value>)
    ensures |r| == Max(|items|, idx + 1)
    ensures r[idx] == v
    ensures forall k :: 0 <= k < |items| && k != idx ==> r[k] == items[k]
    ensures forall k :: |items| <= k < |r| && k != idx ==> r[k] == NilV
  {
    if idx < |items| then items[idx := v] else items + seq(idx - |items|, _ => NilV) + [v]
  }

  predicate IsBinaryOp(op: OpCode)
  {
    op in {ADD, SUB, MUL, DIV, EQ, NEQ, LT, GT, LE, GE}
  }

  /** The two-operand instructions on the popped operands a (deeper) and b (top). */
  function Binary(op: OpCode, a: Value, b: Value, heap: Heap, fl: FloatOps): (r: Eval)
    requires IsBinaryOp(op)
    ensures op == ADD && (a.StrV? || b.StrV?) ==>
      (r.TooDeep? || (r.Done? && r.value.StrV? && Some(r.value.strVal) == Concat(Show(a, heap, fl, |heap| + 1), Show(b, heap, fl, |heap| + 1))))
    ensures op in {SUB, MUL, DIV, LT, GT, LE, GE} && !(IsNumber(a) && IsNumber(b)) ==> r == Raise("Expected number")
    ensures op == ADD && !a.StrV? && !b.StrV? && !(IsNumber(a) && IsNumber(b)) ==> r == Raise("Expected number")
    ensures op == EQ ==> r == Done(BoolV(IsEqual(a, b, fl)))
    ensures op == NEQ ==> r == Done(BoolV(!IsEqual(a, b, fl)))
    ensures op in {ADD, SUB, MUL} && IsNumber(a) && IsNumber(b) && !a.DoubleV? && !b.DoubleV? && !a.StrV? ==>
      r.Done? && Narrowest(r.value)
      && ToBigInteger(r.value, fl) == (if op == ADD then ToBigInteger(a, fl) + ToBigInteger(b, fl)
                                      else if op == SUB then ToBigInteger(a, fl) - ToBigInteger(b, fl)
                                      else ToBigInteger(a, fl) * ToBigInteger(b, fl))
    ensures op in {ADD, SUB, MUL, DIV} && IsNumber(a) && IsNumber(b) && (a.DoubleV? || b.DoubleV? || op == DIV) ==>
      r.Done? && r.value.DoubleV?
    ensures op in {LT, GT, LE, GE} && IsNumber(a) && IsNumber(b) && !a.DoubleV? && !b.DoubleV? ==>
      var x, y := ToBigInteger(a, fl), ToBigInteger(b, fl);
      r == Done(BoolV(if op == LT then x < y else if op == GT then x > y else if op == LE then x <= y else x >= y))
  {
    match op
    case ADD =>
      if a.StrV? || b.StrV? then
        (match Concat(Show(a, heap, fl, |heap| + 1), Show(b, heap, fl, |heap| + 1))
         case Some(s) => Done(StrV(s))
         case None => TooDeep)
      else if !IsNumber(a) || !IsNumber(b) then Raise("Expected number")
      else Done(NumAdd(a, b, fl))
    case SUB => if !IsNumber(a) || !IsNumber(b) then Raise("Expected number") else Done(NumSub(a, b, fl))
    case MUL => if !IsNumber(a) || !IsNumber(b) then Raise("Expected number") else Done(NumMul(a, b, fl))
    case DIV =>
      if !IsNumber(a) || !IsNumber(b) then Raise("Expected number")
      else Done(DoubleV(fl.div(ToDouble(a, fl), ToDouble(b, fl))))
    case EQ => Done(BoolV(IsEqual(a, b, fl)))
    case NEQ => Done(BoolV(!IsEqual(a, b, fl)))
    case LT => if !IsNumber(a) || !IsNumber(b) then Raise("Expected number") else Done(BoolV(NumCompare(a, b, fl) < 0))
    case GT => if !IsNumber(a) || !IsNumber(b) then Raise("Expected number") else Done(BoolV(NumCompare(a, b, fl) > 0))
    case LE => if !IsNumber(a) || !IsNumber(b) then Raise("Expected number") else Done(BoolV(NumCompare(a, b, fl) <= 0))
    case GE => if !IsNumber(a) || !IsNumber(b) then Raise("Expected number") else Done(BoolV(NumCompare(a, b, fl) >= 0))
  }

  function Concat(x: Option<string>, y: Option<string>): Option<string>
  {
    if x.Some? && y.Some? then Some(x.value + y.value) else None
  }

  class DogVM {
    var stack: seq<Value>
    var globals: map<string, Value>
    var frames: seq<Frame>
    var heap: Heap
    var output: seq<string>
    const fl: FloatOps
    const host: Host

    constructor (fl: FloatOps, host: Host)
      ensures stack == [] && globals == map[] && frames == [] && heap == [] && output == []
      ensures this.fl == fl && this.host == host
    {
      stack := [];
      globals := map[];
      frames := [];
      heap := [];
      output := [];
      this.fl := fl;
      this.host := host;
    }

    /** The frame count and every frame's stack base are as on entry. */
    twostate predicate FramesKept()
      reads this
    {
      |frames| == |old(frames)| && forall i :: 0 <= i < |frames| ==> frames[i].stackBase == old(frames[i].stackBase)
    }

    // ---- the operand stack ----

    /** pop: the top value, or "Stack underflow" on an empty stack. */
    method Pop(ins: Instruction) returns (r: Result<Value, DogError>)
      modifies this
      ensures old(stack) == [] ==> r == Err(ErrAt(ins, "Stack underflow")) && stack == []
      ensures old(stack) != [] ==> r == Ok(old(stack)[|old(stack)| - 1]) && stack == old(stack)[..|old(stack)| - 1]
      ensures globals == old(globals) && frames == old(frames) && heap == old(heap) && output == old(output)
    {
      if stack == [] {
        return Err(ErrAt(ins, "Stack underflow"));
      }
      r := Ok(stack[|stack| - 1]);
      stack := stack[..|stack| - 1];
    }

    /** The argument loop of CALL_VALUE, ARRAY_NEW and CALL: n pops, each value put in front,
        so the values keep their left-to-right order. */
    method PopN(n: nat, ins: Instruction) returns (r: Result<seq<Value>, DogError>)
      modifies this
      ensures |old(stack)| >= n ==> r.Ok? && |r.value| == n && old(stack) == stack + r.value
      ensures |old(stack)| < n ==> r == Err(ErrAt(ins, "Stack underflow")) && stack == []
      ensures globals == old(globals) && frames == old(frames) && heap == old(heap) && output == old(output)
    {
      var args: seq<Value> := [];
      var i := 0;
      while i < n
        invariant 0 <= i <= n && |args| == i
        invariant old(stack) == stack + args
        invariant globals == old(globals) && frames == old(frames) && heap == old(heap) && output == old(output)
      {
        var v := Pop(ins);
        if v.Err? {
          return Err(v.error);
        }
        args := [v.value] + args;
        i := i + 1;
      }
      return Ok(args);
    }

    // ---- variables ----

    /** loadVar, proved equal to Lookup. */
    method LoadVar(name: string) returns (r: Option<Value>)
      ensures r == Lookup(frames, globals, name)
    {
      var i := |frames|;
      assert frames[..i] == frames;
      while i > 0
        invariant 0 <= i <= |frames|
        invariant Lookup(frames, globals, name) == Lookup(frames[..i], globals, name)
      {
        var f := frames[i - 1];
        assert frames[..i][..i - 1] == frames[..i - 1];
        if name in f.locals {
          return Some(f.locals[name]);
        }
        if name in f.closure {
          return Some(f.closure[name]);
        }
        i := i - 1;
      }
      return if name in globals then Some(globals[name]) else None;
    }

    /** storeVar, proved equal to Store. */
    method StoreVar(name: string, v: Value)
      modifies this
      ensures (frames, globals) == StoreResult(old(frames), old(globals), name, v)
      ensures stack == old(stack) && heap == old(heap) && output == old(output)
      ensures FramesKept()
    {
      if frames == [] {
        globals := globals[name := v];
        return;
      }
      var i := |frames|;
      assert frames[..i] == frames;
      while i > 0
        invariant 0 <= i <= |frames|
        invariant Slot(frames, name) == Slot(frames[..i], name)
      {
        var f := frames[i - 1];
        assert frames[..i][..i - 1] == frames[..i - 1];
        if name in f.locals {
          frames := frames[i - 1 := f.(locals := f.locals[name := v])];
          return;
        }
        if name in f.closure {
          frames := frames[i - 1 := f.(closure := f.closure[name := v])];
          return;
        }
        i := i - 1;
      }
      var k := |frames| - 1;
      frames := frames[k := frames[k].(locals := frames[k].locals[name := v])];
    }

    /** captureEnvSnapshot, proved equal to Capture. */
    method CaptureEnvSnapshot() returns (env: map<string, Value>)
      ensures env == Capture(frames, globals)
    {
      env := globals;
      var i := 0;
      while i < |frames|
        invariant 0 <= i <= |frames|
        invariant env == Capture(frames[..i], globals)
      {
        env := env + frames[i].closure;
        env := env + frames[i].locals;
        i := i + 1;
        assert frames[..i][..i - 1] == frames[..i - 1];
      }
      assert frames[..i] == frames;
    }

    // ---- instruction groups ----

    /** CONST_INT ... CONST_NIL: push the constant. */
    method ExecConst(ins: Instruction) returns (step: Step)
      requires IsConstOp(ins.op)
      modifies this
      ensures ConstValue(ins).Some? ==> step == Next && stack == old(stack) + [ConstValue(ins).value]
      ensures ConstValue(ins).None? ==> step == Fail(Crash(ins, "invalid BigInteger text")) && stack == old(stack)
      ensures globals == old(globals) && frames == old(frames) && heap == old(heap) && output == old(output)
      ensures !step.JumpTo? && !step.Return?
    {
      var c := ConstValue(ins);
      if c.None? {
        return Fail(Crash(ins, "invalid BigInteger text"));
      }
      stack := stack + [c.value];
      return Next;
    }

    /** CONST_FUNC: the indexed prototype as a function value closing over a snapshot of the
        variables visible now. */
    method ExecConstFunc(chunk: ChunkData, origin: Origin, ins: Instruction) returns (step: Step)
      modifies this
      ensures !(0 <= ins.funcIndex < |chunk.functions|) ==>
        step == Fail(ErrAt(ins, "Bad function index: " + IntToDecimal(ins.funcIndex))) && stack == old(stack)
      ensures 0 <= ins.funcIndex < |chunk.functions| ==>
        step == Next &&
        stack == old(stack) + [FnV(chunk.functions[ins.funcIndex], Origin(origin.chunk, origin.path + [ins.funcIndex]), Capture(frames, globals))]
      ensures globals == old(globals) && frames == old(frames) && heap == old(heap) && output == old(output)
      ensures !step.JumpTo? && !step.Return?
    {
      if ins.funcIndex < 0 || ins.funcIndex >= |chunk.functions| {
        return Fail(ErrAt(ins, "Bad function index: " + IntToDecimal(ins.funcIndex)));
      }
      var proto := chunk.functions[ins.funcIndex];
      var cap := CaptureEnvSnapshot();
      var fn := MakeFunction(Some(proto), Origin(origin.chunk, origin.path + [ins.funcIndex]), Some(cap));
      stack := stack + [fn.value];
      return Next;
    }

    /** RETURN: outside a function an error; inside, the top value (nil at the frame base),
        with the stack cut back to the frame base. */
    method ExecReturn(ins: Instruction, base: Option<nat>) returns (step: Step)
      modifies this
      ensures base.None? ==> step == Fail(ErrAt(ins, "RETURN outside of function")) && stack == old(stack)
      ensures base.Some? ==>
        step == Return(if |old(stack)| > base.value then old(stack)[|old(stack)| - 1] else NilV)
        && stack == old(stack)[..Min(base.value, |old(stack)|)]
      ensures globals == old(globals) && frames == old(frames) && heap == old(heap) && output == old(output)
    {
      if base.None? {
        return Fail(ErrAt(ins, "RETURN outside of function"));
      }
      var r := NilV;
      if |stack| > base.value {
        var top := Pop(ins);
        r := top.value;
      }
      while |stack| > base.value
        invariant |old(stack)| > base.value ==> |stack| >= base.value && stack == old(stack)[..|stack|]
        invariant |old(stack)| <= base.value ==> stack == old(stack)
        invariant globals == old(globals) && frames == old(frames) && heap == old(heap) && output == old(output)
      {
        stack := stack[..|stack| - 1];
      }
      return Return(r);
    }

    /** ARRAY_NEW n: a new array holding the n popped values in their original order. */
    method ExecArrayNew(ins: Instruction) returns (step: Step)
      modifies this
      ensures ins.argCount < 0 ==> step == Fail(ErrAt(ins, "Bad ARRAY_NEW count")) && stack == old(stack) && heap == old(heap)
      ensures 0 <= ins.argCount <= |old(stack)| ==>
        step == Next
        && heap == old(heap) + [old(stack)[|old(stack)| - ins.argCount..]]
        && stack == old(stack)[..|old(stack)| - ins.argCount] + [ArrV(|old(heap)|)]
      ensures 0 <= |old(stack)| < ins.argCount ==> step == Fail(ErrAt(ins, "Stack underflow")) && stack == [] && heap == old(heap)
      ensures globals == old(globals) && frames == old(frames) && output == old(output)
      ensures !step.JumpTo? && !step.Return?
    {
      if ins.argCount < 0 {
        return Fail(ErrAt(ins, "Bad ARRAY_NEW count"));
      }
      var items := PopN(ins.argCount, ins);
      if items.Err? {
        return Fail(items.error);
      }
      assert old(stack)[|old(stack)| - ins.argCount..] == items.value;
      var (h, arr) := NewArray(heap, Some(items.value));
      heap := h;
      stack := stack + [arr];
      return Next;
    }

    /** ARRAY_GET: pops the index, then the array, and pushes the element. */
    method ExecArrayGet(ins: Instruction) returns (step: Step)
      modifies this
      ensures |old(stack)| < 2 ==> step == Fail(ErrAt(ins, "Stack underflow")) && stack == []
      ensures |old(stack)| >= 2 ==>
        var n := |old(stack)|;
        match IndexRead(old(stack)[n - 2], old(stack)[n - 1], ins, heap, fl)
        case Ok(v) => step == Next && stack == old(stack)[..n - 2] + [v]
        case Err(e) => step == Fail(e) && stack == old(stack)[..n - 2]
      ensures globals == old(globals) && frames == old(frames) && heap == old(heap) && output == old(output)
      ensures !step.JumpTo? && !step.Return?
    {
      var idxV := Pop(ins);
      if idxV.Err? {
        return Fail(idxV.error);
      }
      var arrV := Pop(ins);
      if arrV.Err? {
        return Fail(arrV.error);
      }
      var r := IndexRead(arrV.value, idxV.value, ins, heap, fl);
      if r.Err? {
        return Fail(r.error);
      }
      stack := stack + [r.value];
      return Next;
    }

    /** ARRAY_SET: pops the value, the index and the array; grows the array with nil until the
        index is inside it, writes the slot in place and pushes the value. */
    method ExecArraySet(ins: Instruction) returns (step: Step)
      modifies this
      ensures |old(stack)| < 3 ==> step == Fail(ErrAt(ins, "Stack underflow")) && stack == [] && heap == old(heap)
      ensures |old(stack)| >= 3 ==>
        var n := |old(stack)|;
        var arr, v := old(stack)[n - 3], old(stack)[n - 1];
        match IndexWrite(arr, old(stack)[n - 2], ins, old(heap), fl)
        case Ok(idx) => step == Next && stack == old(stack)[..n - 3] + [v]
                        && heap == old(heap)[arr.handle := SetGrow(old(heap)[arr.handle], idx, v)]
        case Err(e) => step == Fail(e) && stack == old(stack)[..n - 3] && heap == old(heap)
      ensures globals == old(globals) && frames == old(frames) && output == old(output)
      ensures !step.JumpTo? && !step.Return?
    {
      var value := Pop(ins);
      if value.Err? {
        return Fail(value.error);
      }
      var idxV := Pop(ins);
      if idxV.Err? {
        return Fail(idxV.error);
      }
      var arrV := Pop(ins);
      if arrV.Err? {
        return Fail(arrV.error);
      }
      var checked := IndexWrite(arrV.value, idxV.value, ins, heap, fl);
      if checked.Err? {
        return Fail(checked.error);
      }
      var h, idx := arrV.value.handle, checked.value;
      var items := heap[h];
      while idx >= |items|
        invariant |heap[h]| <= |items| && items[..|heap[h]|] == heap[h]
        invariant forall k :: |heap[h]| <= k < |items| ==> items[k] == NilV
        invariant |items| <= Max(|heap[h]|, idx + 1)
        decreases idx - |items|
      {
        items := items + [NilV];
      }
      items := items[idx := value.value];
      assert items == SetGrow(heap[h], idx, value.value);
      heap := heap[h := items];
      stack := stack + [value.value];
      return Next;
    }

    /** ADD, SUB, MUL, DIV, EQ, NEQ, LT, GT, LE, GE: pops b, then a, and pushes Binary(a, b). */
    method ExecBinary(ins: Instruction) returns (step: Step)
      requires IsBinaryOp(ins.op)
      modifies this
      ensures |old(stack)| < 2 ==> step == Fail(ErrAt(ins, "Stack underflow")) && stack == []
      ensures |old(stack)| >= 2 ==>
        var n := |old(stack)|;
        var e := Binary(ins.op, old(stack)[n - 2], old(stack)[n - 1], heap, fl);
        step == StepOf(e, ins) && stack == old(stack)[..n - 2] + (if e.Done? then [e.value] else [])
      ensures globals == old(globals) && frames == old(frames) && heap == old(heap) && output == old(output)
      ensures !step.JumpTo? && !step.Return?
    {
      var b := Pop(ins);
      if b.Err? {
        return Fail(b.error);
      }
      var a := Pop(ins);
      if a.Err? {
        return Fail(a.error);
      }
      var e := Binary(ins.op, a.value, b.value, heap, fl);
      if e.Done? {
        stack := stack + [e.value];
      }
      return StepOf(e, ins);
    }

    /** NOT: pushes the negated truthiness of the popped value. */
    method ExecNot(ins: Instruction) returns (step: Step)
      modifies this
      ensures old(stack) == [] ==> step == Fail(ErrAt(ins, "Stack underflow")) && stack == []
      ensures old(stack) != [] ==>
        step == Next &&
        stack == old(stack)[..|old(stack)| - 1] + [BoolV(!IsTruthy(old(stack)[|old(stack)| - 1]))]
      ensures globals == old(globals) && frames == old(frames) && heap == old(heap) && output == old(output)
      ensures !step.JumpTo? && !step.Return?
    {
      var a := Pop(ins);
      if a.Err? {
        return Fail(a.error);
      }
      stack := stack + [BoolV(!IsTruthy(a.value))];
      return Next;
    }

    /** LOAD: pushes what Lookup finds, or fails with "Undefined variable". */
    method ExecLoad(ins: Instruction) returns (step: Step)
      modifies this
      ensures ins.name.None? ==> step == Fail(Crash(ins, "null variable name")) && stack == old(stack)
      ensures ins.name.Some? && Lookup(frames, globals, ins.name.value).None? ==>
        step == Fail(ErrAt(ins, "Undefined variable '" + ins.name.value + "'")) && stack == old(stack)
      ensures ins.name.Some? && Lookup(frames, globals, ins.name.value).Some? ==>
        step == Next && stack == old(stack) + [Lookup(frames, globals, ins.name.value).value]
      ensures globals == old(globals) && frames == old(frames) && heap == old(heap) && output == old(output)
      ensures !step.JumpTo? && !step.Return?
    {
      if ins.name.None? {
        return Fail(Crash(ins, "null variable name"));
      }
      var v := LoadVar(ins.name.value);
      if v.None? {
        return Fail(ErrAt(ins, "Undefined variable '" + ins.name.value + "'"));
      }
      stack := stack + [v.value];
      return Next;
    }

    /** STORE: pops a value and stores it as storeVar does. */
    method ExecStore(ins: Instruction) returns (step: Step)
      modifies this
      ensures old(stack) == [] ==> step == Fail(ErrAt(ins, "Stack underflow")) && stack == [] && frames == old(frames) && globals == old(globals)
      ensures old(stack) != [] && ins.name.None? ==> step == Fail(Crash(ins, "null variable name"))
      ensures old(stack) != [] ==> stack == old(stack)[..|old(stack)| - 1]
      ensures old(stack) != [] && ins.name.Some? ==>
        step == Next
        && (frames, globals) == StoreResult(old(frames), old(globals), ins.name.value, old(stack)[|old(stack)| - 1])
      ensures heap == old(heap) && output == old(output)
      ensures FramesKept()
      ensures !step.JumpTo? && !step.Return?
    {
      var v := Pop(ins);
      if v.Err? {
        return Fail(v.error);
      }
      if ins.name.None? {
        return Fail(Crash(ins, "null variable name"));
      }
      StoreVar(ins.name.value, v.value);
      return Next;
    }

    /** IMPORT: DogContext.importModule. */
    method ExecImport(ins: Instruction, ctx: DogContext) returns (step: Step)
      modifies ctx
      ensures ins.moduleName.None? ==>
        step == Fail(ErrAt(ins, "Unknown module 'null'. Available: io, math")) && ctx.imported == old(ctx.imported)
      ensures ins.moduleName.Some? && !ctx.registry.Exists(ins.moduleName.value) ==>
        step.Fail? && step.error.message == "Unknown module '" + ins.moduleName.value + "'. Available: io, math"
        && ctx.imported == old(ctx.imported)
      ensures ins.moduleName.Some? && ctx.registry.Exists(ins.moduleName.value) ==>
        step == Next && ctx.imported == old(ctx.imported) + {ins.moduleName.value}
      ensures !step.JumpTo? && !step.Return?
    {
      if ins.moduleName.None? {
        // the registry has no null key, so importModule(null) reports an unknown module
        return Fail(ErrAt(ins, "Unknown module 'null'. Available: io, math"));
      }
      var err := ctx.ImportModule(ins.moduleName.value, ins.line, ins.col, ins.sourceLine);
      if err.Some? {
        return Fail(err.value);
      }
      return Next;
    }

    /** CALL: the module must be imported and registered; then either its constant or a call
        with the popped arguments, whose result is pushed. */
    method ExecCall(ins: Instruction, ctx: DogContext) returns (step: Step)
      modifies this
      ensures ins.moduleName.None? ==>
        step == Fail(ErrAt(ins, "Module 'null' is not imported. Add: import null")) && stack == old(stack)
      ensures ins.moduleName.Some? && ins.moduleName.value !in ctx.imported ==>
        step == Fail(ctx.RequireImported(ins.moduleName.value, ins.line, ins.col, ins.sourceLine).value) && stack == old(stack)
      ensures ins.moduleName.Some? && ins.moduleName.value in ctx.imported && ctx.registry.Get(ins.moduleName.value).None? ==>
        step == Fail(ErrAt(ins, "Unknown module: " + ins.moduleName.value)) && stack == old(stack)
      ensures (!ins.isConst && ins.argCount < 0 && ins.moduleName.Some? && ins.moduleName.value in ctx.imported
               && ctx.registry.Get(ins.moduleName.value).Some? && ins.member.Some?) ==>
        step == Fail(ErrAt(ins, "Bad CALL argCount"))
      ensures step.Next? ==> ins.moduleName.Some? && ins.moduleName.value in ctx.imported && ctx.registry.Get(ins.moduleName.value).Some?
      ensures step.Next? && !ins.isConst ==> |stack| == |old(stack)| - ins.argCount + 1
      ensures step.Next? && ins.isConst ==> |stack| == |old(stack)| + 1
      ensures step.Next? && !ins.isConst ==>
        0 <= ins.argCount <= |old(stack)| && ins.member.Some? &&
        stack[..|stack| - 1] == old(stack)[..|old(stack)| - ins.argCount] &&
        host.call(ctx.registry.Get(ins.moduleName.value).value, ins.member.value,
                  old(stack)[|old(stack)| - ins.argCount..], old(heap)) == Ok((stack[|stack| - 1], heap))
      ensures step.Next? && ins.isConst ==>
        ins.member.Some? && stack[..|stack| - 1] == old(stack) &&
        host.getConstant(ctx.registry.Get(ins.moduleName.value).value, ins.member.value, old(heap)) == Ok((stack[|stack| - 1], heap))
      ensures !step.Next? ==> heap == old(heap)
      ensures !step.JumpTo? && !step.Return?
      ensures globals == old(globals) && frames == old(frames) && output == old(output)
    {
      if ins.moduleName.None? {
        // only names the registry holds are ever imported, so null never is
        return Fail(ErrAt(ins, "Module 'null' is not imported. Add: import null"));
      }
      var name := ins.moduleName.value;
      var notImported := ctx.RequireImported(name, ins.line, ins.col, ins.sourceLine);
      if notImported.Some? {
        return Fail(notImported.value);
      }
      var m := ctx.registry.Get(name);
      if m.None? {
        return Fail(ErrAt(ins, "Unknown module: " + name));
      }
      if ins.member.None? {
        return Fail(Crash(ins, "null member name"));
      }
      var result;
      if ins.isConst {
        result := host.getConstant(m.value, ins.member.value, heap);
      } else {
        if ins.argCount < 0 {
          return Fail(ErrAt(ins, "Bad CALL argCount"));
        }
        var args := PopN(ins.argCount, ins);
        if args.Err? {
          return Fail(args.error);
        }
        result := host.call(m.value, ins.member.value, args.value, heap);
      }
      match result
      case Err(Thrown(e)) => return Fail(e);
      case Err(Crashed(msg)) => return Fail(Crash(ins, msg));
      case Ok((v, h)) =>
        heap := h;
        stack := stack + [v];
        assert stack[..|stack| - 1] == old(stack)[..|old(stack)| - (if ins.isConst then 0 else ins.argCount)];
        return Next;
    }

    /** JUMP and JUMP_IF_FALSE: a checked jump; the conditional one pops its condition and
        jumps exactly when it is falsy. */
    method ExecJump(ins: Instruction, size: nat) returns (step: Step)
      requires ins.op == JUMP || ins.op == JUMP_IF_FALSE
      modifies this
      ensures ins.op == JUMP ==>
        stack == old(stack) &&
        step == (if CheckJump(ins.jumpTarget, size, ins).None? then JumpTo(ins.jumpTarget) else Fail(CheckJump(ins.jumpTarget, size, ins).value))
      ensures ins.op == JUMP_IF_FALSE && old(stack) == [] ==> step == Fail(ErrAt(ins, "Stack underflow"))
      ensures ins.op == JUMP_IF_FALSE && old(stack) != [] ==>
        stack == old(stack)[..|old(stack)| - 1] &&
        (IsTruthy(old(stack)[|old(stack)| - 1]) ==> step == Next) &&
        (!IsTruthy(old(stack)[|old(stack)| - 1]) ==>
          step == (if CheckJump(ins.jumpTarget, size, ins).None? then JumpTo(ins.jumpTarget) else Fail(CheckJump(ins.jumpTarget, size, ins).value)))
      ensures step.JumpTo? ==> step.target <= size
      ensures globals == old(globals) && frames == old(frames) && heap == old(heap) && output == old(output)
    {
      if ins.op == JUMP_IF_FALSE {
        var cond := Pop(ins);
        if cond.Err? {
          return Fail(cond.error);
        }
        if IsTruthy(cond.value) {
          return Next;
        }
      }
      var bad := CheckJump(ins.jumpTarget, size, ins);
      if bad.Some? {
        return Fail(bad.value);
      }
      return JumpTo(ins.jumpTarget);
    }

    /** PRINT: pops a value and appends its printable as one output line. */
    method ExecPrint(ins: Instruction) returns (step: Step)
      modifies this
      ensures old(stack) == [] ==> step == Fail(ErrAt(ins, "Stack underflow")) && output == old(output)
      ensures old(stack) != [] ==>
        stack == old(stack)[..|old(stack)| - 1] &&
        match Show(old(stack)[|old(stack)| - 1], heap, fl, |heap| + 1)
        case Some(s) => step == Next && output == old(output) + [s]
        case None => step.Abort? && output == old(output)
      ensures globals == old(globals) && frames == old(frames) && heap == old(heap)
      ensures !step.JumpTo? && !step.Return?
    {
      var v := Pop(ins);
      if v.Err? {
        return Fail(v.error);
      }
      var s := Printable(v.value, heap, fl, |heap| + 1);
      if s.None? {
        return Abort("printable recursion too deep");
      }
      output := output + [s.value];
      return Next;
    }

    // ---- calls and the dispatch loop ----

    /** CALL_VALUE n: pops n arguments (kept in order), then the callee, and calls it. */
    method ExecCallValue(ins: Instruction, ctx: DogContext, fuel: nat) returns (step: Step, fuelLeft: nat)
      modifies this, ctx
      decreases fuel, 2
      ensures ins.argCount < 0 ==> step == Fail(ErrAt(ins, "Bad CALL_VALUE argCount")) && stack == old(stack)
      ensures 0 <= ins.argCount && |old(stack)| <= ins.argCount ==> step == Fail(ErrAt(ins, "Stack underflow")) && stack == []
      ensures 0 <= ins.argCount < |old(stack)| && !old(stack)[|old(stack)| - 1 - ins.argCount].FnV? ==>
        step == Fail(ErrAt(ins, "Trying to call non-function: " + KindName(KindOf(old(stack)[|old(stack)| - 1 - ins.argCount]))))
      ensures step.Next? ==> 0 <= ins.argCount < |old(stack)| && 1 <= |stack| <= |old(stack)| - ins.argCount
      ensures FramesKept() && fuelLeft <= fuel
      ensures !step.JumpTo? && !step.Return?
    {
      if ins.argCount < 0 {
        return Fail(ErrAt(ins, "Bad CALL_VALUE argCount")), fuel;
      }
      var args := PopN(ins.argCount, ins);
      if args.Err? {
        return Fail(args.error), fuel;
      }
      var callee := Pop(ins);
      if callee.Err? {
        return Fail(callee.error), fuel;
      }
      var f := callee.value;
      if !f.FnV? {
        return Fail(ErrAt(ins, "Trying to call non-function: " + KindName(KindOf(f)))), fuel;
      }
      var out;
      out, fuelLeft := CallUserFunction(f.proto, f.origin, f.closure, args.value, ctx, fuel);
      match out
      case Returned(r) =>
        stack := stack + [r];
        step := Next;
      case Failed(e) => step := Fail(e);
      case Aborted(why) => step := Abort(why);
      case OutOfFuel => step := Exhausted;
    }

    /** callUserFunction: a new frame with a copy of the closure and the parameters bound
        positionally; the body runs; then, whether it returned or failed, the stack is left no
        deeper than at entry (cut back to it when higher) and the frame is dropped. */
    method CallUserFunction(proto: FunctionProto, origin: Origin, closure: map<string, Value>, args: seq<Value>,
                            ctx: DogContext, fuel: nat) returns (out: Outcome, fuelLeft: nat)
      modifies this, ctx
      decreases fuel, 1
      ensures FramesKept() && fuelLeft <= fuel
      ensures |stack| <= |old(stack)|
    {
      var base := |stack|;
      frames := frames + [Frame(map[], closure, base)];
      var i := 0;
      while i < |proto.params|
        invariant 0 <= i <= |proto.params|
        invariant |frames| == |old(frames)| + 1 && frames[..|frames| - 1] == old(frames)
        invariant frames[|frames| - 1] == Frame(Bind(proto.params[..i], args), closure, base)
        invariant stack == old(stack)
      {
        assert proto.params[..i + 1][..i] == proto.params[..i];
        var top := frames[|frames| - 1];
        frames := frames[|frames| - 1 := top.(locals := top.locals[proto.params[i] := ArgOrNil(args, i)])];
        i := i + 1;
      }
      ghost var entered := frames;
      out, fuelLeft := ExecuteChunk(proto.body, origin, Some(base), ctx, fuel);
      assert |frames| == |entered| && forall i :: 0 <= i < |frames| ==> frames[i].stackBase == entered[i].stackBase;
      ghost var left := frames;
      while |stack| > base
        invariant frames == left
      {
        stack := stack[..|stack| - 1];
      }
      frames := frames[..|frames| - 1];
    }

    /** executeChunk: runs the code from index 0; each instruction costs one unit of fuel. */
    method ExecuteChunk(chunk: ChunkData, origin: Origin, base: Option<nat>, ctx: DogContext, fuel: nat)
      returns (out: Outcome, fuelLeft: nat)
      modifies this, ctx
      decreases fuel, 0
      ensures FramesKept() && fuelLeft <= fuel
      ensures out.Returned? && base.None? ==> out.value == NilV
    {
      var ip := 0;
      fuelLeft := fuel;
      while ip < |chunk.code|
        invariant 0 <= ip <= |chunk.code|
        invariant fuelLeft <= fuel
        invariant FramesKept()
        decreases fuelLeft
      {
        if fuelLeft == 0 {
          return OutOfFuel, 0;
        }
        var step;
        step, fuelLeft := ExecuteInstruction(chunk, origin, chunk.code[ip], base, ctx, fuelLeft - 1);
        match step
        case Next => ip := ip + 1;
        case JumpTo(t) => ip := t;
        case Return(v) => return Returned(v), fuelLeft;
        case Fail(e) => return Failed(e), fuelLeft;
        case Abort(why) => return Aborted(why), fuelLeft;
        case Exhausted => return OutOfFuel, fuelLeft;
      }
      return Returned(NilV), fuelLeft;
    }

    /** The switch of executeChunk on one instruction: the calls and RETURN here, the module
        instructions in ExecuteModule, every other instruction in ExecuteLocal. */
    method ExecuteInstruction(chunk: ChunkData, origin: Origin, ins: Instruction, base: Option<nat>, ctx: DogContext, fuel: nat)
      returns (step: Step, fuelLeft: nat)
      modifies this, ctx
      decreases fuel, 3
      ensures FramesKept() && fuelLeft <= fuel
      ensures step.JumpTo? ==> step.target <= |chunk.code|
      ensures step.Return? ==> base.Some?
    {
      fuelLeft := fuel;
      match ins.op
      case CALL_VALUE => step, fuelLeft := ExecCallValue(ins, ctx, fuel);
      case RETURN => step := ExecReturn(ins, base);
      case IMPORT | CALL => step := ExecuteModule(ins, ctx);
      case _ => step := ExecuteLocal(chunk, origin, ins);
    }

    /** IMPORT and CALL, the instructions that go through the context's modules. */
    method ExecuteModule(ins: Instruction, ctx: DogContext) returns (step: Step)
      requires ins.op == IMPORT || ins.op == CALL
      modifies this, ctx
      ensures frames == old(frames)
      ensures !step.JumpTo? && !step.Return?
    {
      if ins.op == IMPORT {
        step := ExecImport(ins, ctx);
      } else {
        step := ExecCall(ins, ctx);
      }
    }

    /** The rest of executeChunk's switch: instructions that touch only the machine's own
        state and never return from a function. */
    method ExecuteLocal(chunk: ChunkData, origin: Origin, ins: Instruction) returns (step: Step)
      requires ins.op !in {CALL_VALUE, RETURN, IMPORT, CALL}
      modifies this
      ensures FramesKept()
      ensures step.JumpTo? ==> step.target <= |chunk.code|
      ensures !step.Return?
    {
      match ins.op
      case CONST_INT | CONST_LONG | CONST_DOUBLE | CONST_BIGINT | CONST_STR | CONST_BOOL | CONST_NIL =>
        step := ExecConst(ins);
      case CONST_FUNC => step := ExecConstFunc(chunk, origin, ins);
      case ARRAY_NEW => step := ExecArrayNew(ins);
      case ARRAY_GET => step := ExecArrayGet(ins);
      case ARRAY_SET => step := ExecArraySet(ins);
      case ADD | SUB | MUL | DIV | EQ | NEQ | LT | GT | LE | GE => step := ExecBinary(ins);
      case NOT => step := ExecNot(ins);
      case LOAD => step := ExecLoad(ins);
      case STORE => step := ExecStore(ins);
      case JUMP | JUMP_IF_FALSE => step := ExecJump(ins, |chunk.code|);
      case PRINT => step := ExecPrint(ins);
      case POP =>
        var v := Pop(ins);
        step := if v.Err? then Fail(v.error) else Next;
    }

    /** execute: runs a top-level chunk (`chunkId` names the Chunk object) outside any function. */
    method Execute(chunk: ChunkData, chunkId: nat, ctx: DogContext, fuel: nat) returns (out: Outcome)
      modifies this, ctx
      ensures FramesKept()
      ensures out.Returned? ==> out.value == NilV
    {
      var unusedFuel;
      out, unusedFuel := ExecuteChunk(chunk, Origin(chunkId, []), None, ctx, fuel);
    }
  }
}
