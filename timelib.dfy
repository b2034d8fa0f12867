/**
 * The clock-free functions of the time module: differences, minimum, maximum and clamping of
 * millisecond timestamps, adding multiples of a time unit with an overflow-checked product,
 * and the duration humanizer ("1d 2h 3m 4s 5ms"). All arithmetic is Java `long` arithmetic:
 * subtraction and addition wrap around, only the unit multiplication is checked.
 */
module TimeLib {
  import opened Wrappers
  import opened JavaLang
  import opened Values
  import opened LibCommon

  const MS_PER_DAY := 86_400_000
  const MS_PER_HOUR := 3_600_000
  const MS_PER_MINUTE := 60_000
  const MS_PER_SECOND := 1000

  // ---- humanDuration ----

  /** A non-negative duration cut into days, hours, minutes, seconds and milliseconds. */
  datatype Breakdown = Breakdown(days: nat, hours: nat, mins: nat, secs: nat, millis: nat)

  function Split(x: nat): (p: Breakdown)
    ensures p.days * MS_PER_DAY + p.hours * MS_PER_HOUR + p.mins * MS_PER_MINUTE + p.secs * MS_PER_SECOND + p.millis == x
    ensures p.hours < 24 && p.mins < 60 && p.secs < 60 && p.millis < 1000
  {
    var r1 := x % MS_PER_DAY;
    var r2 := r1 % MS_PER_HOUR;
    var r3 := r2 % MS_PER_MINUTE;
    Breakdown(x / MS_PER_DAY, r1 / MS_PER_HOUR, r2 / MS_PER_MINUTE, r3 / MS_PER_SECOND, r3 % MS_PER_SECOND)
  }

  /** One shown part of a duration: an amount of a unit, written as the amount and a suffix. */
  datatype Part = Part(amount: nat, scale: nat, suffix: string)

  function Render(p: Part): string
  {
    IntToDecimal(p.amount) + p.suffix
  }

  function RenderAll(ps: seq<Part>): (r: seq<string>)
    ensures |r| == |ps|
    ensures forall i :: 0 <= i < |ps| ==> r[i] == Render(ps[i])
  {
    if ps == [] then [] else [Render(ps[0])] + RenderAll(ps[1..])
  }

  /** The milliseconds the parts stand for. */
  function Total(ps: seq<Part>): int
  {
    if ps == [] then 0 else ps[0].amount * ps[0].scale + Total(ps[1..])
  }

  /** The parts humanDuration shows: every non-zero part among d, h, m and s in that order,
      then the milliseconds when they are non-zero or nothing else is shown. */
  function Parts(b: Breakdown): (ps: seq<Part>)
    ensures ps != []
  {
    var front := Front(b);
    front + (if b.millis != 0 || front == [] then [Part(b.millis, 1, "ms")] else [])
  }

  /** The non-zero parts among days, hours, minutes and seconds. */
  function Front(b: Breakdown): seq<Part>
  {
    Shown(Part(b.days, MS_PER_DAY, "d")) + Shown(Part(b.hours, MS_PER_HOUR, "h"))
    + Shown(Part(b.mins, MS_PER_MINUTE, "m")) + Shown(Part(b.secs, MS_PER_SECOND, "s"))
  }

  /** humanDuration as a function: "-inf" for Long.MIN_VALUE (whose negation overflows);
      otherwise a minus sign for a negative duration, then the shown parts of its magnitude
      separated by single spaces. */
  function Human(ms: Int64): string
  {
    if ms == LONG_MIN then "-inf"
    else (if ms < 0 then "-" else "") + Join(RenderAll(Parts(Split(if ms < 0 then -ms else ms))), " ")
  }

  lemma {:induction false} TotalAppend(a: seq<Part>, b: seq<Part>)
    ensures Total(a + b) == Total(a) + Total(b)
  {
    if a != [] {
      assert (a + b)[0] == a[0];
      assert (a + b)[1..] == a[1..] + b;
      TotalAppend(a[1..], b);
    } else {
      assert a + b == b;
    }
  }

  /** The shown parts add up to the duration: leaving out zero parts loses nothing. */
  lemma PartsTotal(x: nat)
    ensures Total(Parts(Split(x))) == x
  {
    var b := Split(x);
    var d := Shown(Part(b.days, MS_PER_DAY, "d"));
    var h := Shown(Part(b.hours, MS_PER_HOUR, "h"));
    var m := Shown(Part(b.mins, MS_PER_MINUTE, "m"));
    var s := Shown(Part(b.secs, MS_PER_SECOND, "s"));
    var front := d + h + m + s;
    var last := if b.millis != 0 || front == [] then [Part(b.millis, 1, "ms")] else [];
    assert Parts(b) == front + last;
    TotalAppend(d, h);
    TotalAppend(d + h, m);
    TotalAppend(d + h + m, s);
    TotalAppend(front, last);
    ShownTotal(Part(b.days, MS_PER_DAY, "d"));
    ShownTotal(Part(b.hours, MS_PER_HOUR, "h"));
    ShownTotal(Part(b.mins, MS_PER_MINUTE, "m"));
    ShownTotal(Part(b.secs, MS_PER_SECOND, "s"));
    assert Total(last) == b.millis;
  }

  /** A part as it appears among the shown parts: left out when its amount is zero. */
  function Shown(p: Part): seq<Part>
  {
    if p.amount != 0 then [p] else []
  }

  /** Leaving out a zero part does not change the total. */
  lemma ShownTotal(p: Part)
    ensures Total(Shown(p)) == p.amount * p.scale
  {
  }

  /** The parts of a zero breakdown render as "0ms". */
  lemma ZeroText(b: Breakdown)
    requires b == Breakdown(0, 0, 0, 0, 0)
    ensures Join(RenderAll(Parts(b)), " ") == "0ms"
  {
    assert Parts(b) == [Part(0, 1, "ms")];
    assert DigitChar(0) == '0';
    assert IntToDecimal(0) == "0";
    assert "0" + "ms" == "0ms";
    assert Render(Part(0, 1, "ms")) == "0ms";
    assert RenderAll([Part(0, 1, "ms")]) == ["0ms"];
  }

  /** A zero duration is "0ms"; Long.MIN_VALUE is "-inf". */
  lemma HumanEdges()
    ensures Human(0) == "0ms"
    ensures Human(LONG_MIN) == "-inf"
  {
    ZeroText(Split(0));
  }

  /** The milliseconds are shown exactly when they are non-zero or no other part is. */
  lemma MillisShown(x: nat)
    ensures var ps := Parts(Split(x));
      (ps[|ps| - 1].suffix == "ms") <==> (Split(x).millis != 0 || x < MS_PER_SECOND)
  {
    var b := Split(x);
    assert x < MS_PER_SECOND <==> (b.days == 0 && b.hours == 0 && b.mins == 0 && b.secs == 0);
  }

  /** The text starts with '-' exactly for a negative duration ("-0ms" never comes out). */
  lemma HumanSign(ms: Int64)
    ensures |Human(ms)| > 0
    ensures Human(ms)[0] == '-' <==> ms < 0
  {
    if ms != LONG_MIN {
      var x := if ms < 0 then -ms else ms;
      var ps := Parts(Split(x));
      var rs := RenderAll(ps);
      var j := Join(rs, " ");
      assert rs[0] == IntToDecimal(ps[0].amount) + ps[0].suffix;
      assert IsDigit(rs[0][0]);
      assert |rs| == 1 || j == rs[0] + " " + Join(rs[1..], " ");
      assert j[0] == rs[0][0];
      assert ((if ms < 0 then "-" else "") + j)[0] == if ms < 0 then '-' else j[0];
    }
  }

  /** For a negative duration the text is "-" followed by the text of its magnitude. */
  lemma HumanNegative(ms: Int64)
    requires LONG_MIN < ms < 0
    ensures Human(ms) == "-" + Human(-ms)
  {
    var t := Join(RenderAll(Parts(Split(-ms))), " ");
    assert Human(ms) == "-" + t;
    assert Human(-ms) == "" + t;
    assert "" + t == t;
  }

  /** humanDuration: the "-inf" case, the sign, and the magnitude cut into units by repeated
      division and remainder; the text itself is built by HumanText. */
  method HumanDuration(ms: Int64) returns (r: string)
    ensures r == Human(ms)
  {
    var neg := ms < 0;
    var x := ms;
    if x == LONG_MIN {
      return "-inf";
    }
    if neg {
      x := -x;
    }
    var days := x / MS_PER_DAY;
    x := x % MS_PER_DAY;
    var hours := x / MS_PER_HOUR;
    x := x % MS_PER_HOUR;
    var mins := x / MS_PER_MINUTE;
    x := x % MS_PER_MINUTE;
    var secs := x / MS_PER_SECOND;
    x := x % MS_PER_SECOND;
    var millis := x;
    assert Split(if ms < 0 then -ms else ms) == Breakdown(days, hours, mins, secs, millis);
    r := HumanText(neg, Breakdown(days, hours, mins, secs, millis));
  }

  /** The StringBuilder half of humanDuration: the `parts` counter, a separating space before
      every part but the first, and the early return for a zero duration. */
  method HumanText(neg: bool, b: Breakdown) returns (r: string)
    ensures r == (if neg then "-" else "") + Join(RenderAll(Parts(b)), " ")
  {
    var sign := if neg then "-" else "";
    var sb := sign;
    var parts := 0;
    ghost var shown: seq<Part> := [];
    ghost var d, h, m, s := Shown(Part(b.days, MS_PER_DAY, "d")), Shown(Part(b.hours, MS_PER_HOUR, "h")),
      Shown(Part(b.mins, MS_PER_MINUTE, "m")), Shown(Part(b.secs, MS_PER_SECOND, "s"));
    sb, parts, shown := AppendPart(sb, sign, parts, shown, Part(b.days, MS_PER_DAY, "d"));
    assert shown == d;
    sb, parts, shown := AppendPart(sb, sign, parts, shown, Part(b.hours, MS_PER_HOUR, "h"));
    assert shown == d + h;
    sb, parts, shown := AppendPart(sb, sign, parts, shown, Part(b.mins, MS_PER_MINUTE, "m"));
    assert shown == d + h + m;
    sb, parts, shown := AppendPart(sb, sign, parts, shown, Part(b.secs, MS_PER_SECOND, "s"));
    assert shown == Front(b);
    r := FinishText(neg, b, sb, parts, shown);
  }

  /** The end of humanDuration once days to seconds are appended: "0ms" (with its sign) when
      nothing was shown and the milliseconds are zero, otherwise the milliseconds appended
      when they are non-zero or nothing else was shown. */
  method FinishText(neg: bool, b: Breakdown, sb: string, parts: nat, ghost front: seq<Part>) returns (r: string)
    requires front == Front(b)
    requires sb == (if neg then "-" else "") + Join(RenderAll(front), " ") && parts == |front|
    ensures r == (if neg then "-" else "") + Join(RenderAll(Parts(b)), " ")
  {
    var sign := if neg then "-" else "";
    if parts == 0 && b.millis == 0 {
      assert b == Breakdown(0, 0, 0, 0, 0);
      ZeroText(b);
      return if neg then "-0ms" else "0ms";
    }
    r := sb;
    if b.millis != 0 || parts == 0 {
      var parts'; ghost var shown;
      r, parts', shown := AppendPart(sb, sign, parts, front, Part(b.millis, 1, "ms"));
      assert Parts(b) == front + [Part(b.millis, 1, "ms")];
    } else {
      assert Parts(b) == front + [];
      assert front + [] == front;
    }
  }

  /** One `if (amount != 0) { if (parts > 0) sb.append(' '); sb.append(amount).append(suffix);
      parts++; }` step of humanDuration (for the milliseconds, the caller decides instead). */
  method AppendPart(sb: string, sign: string, parts: nat, ghost shown: seq<Part>, p: Part)
    returns (sb': string, parts': nat, ghost shown': seq<Part>)
    requires sb == sign + Join(RenderAll(shown), " ") && parts == |shown|
    ensures sb' == sign + Join(RenderAll(shown'), " ") && parts' == |shown'|
    ensures shown' == shown + (if p.suffix == "ms" then [p] else Shown(p))
  {
    sb', parts', shown' := sb, parts, shown;
    if p.amount != 0 || p.suffix == "ms" {
      if parts > 0 {
        sb' := sb' + " ";
      }
      sb' := sb' + IntToDecimal(p.amount) + p.suffix;
      shown' := shown + [p];
      parts' := parts + 1;
      ShownSnoc(sign, shown, p);
    }
  }

  /** The text of one more shown part: a space unless it is the first, then the part. */
  lemma ShownSnoc(sign: string, shown: seq<Part>, p: Part)
    ensures sign + Join(RenderAll(shown + [p]), " ")
      == sign + Join(RenderAll(shown), " ") + (if |shown| > 0 then " " else "") + IntToDecimal(p.amount) + p.suffix
  {
    JoinShownSnoc(shown, p);
    Assoc5(sign, Join(RenderAll(shown), " "), if |shown| > 0 then " " else "", IntToDecimal(p.amount), p.suffix);
  }

  lemma JoinShownSnoc(shown: seq<Part>, p: Part)
    ensures Join(RenderAll(shown + [p]), " ")
      == Join(RenderAll(shown), " ") + (if |shown| > 0 then " " else "") + (IntToDecimal(p.amount) + p.suffix)
  {
    RenderAllSnoc(shown, p);
    JoinSnoc(RenderAll(shown), Render(p), " ");
    if |shown| == 0 {
      assert Join(RenderAll(shown), " ") + "" == "";
    }
  }

  lemma Assoc5(a: string, b: string, c: string, d: string, e: string)
    ensures a + ((b + c) + (d + e)) == a + b + c + d + e
  {
  }

  lemma RenderAllSnoc(ps: seq<Part>, p: Part)
    ensures RenderAll(ps + [p]) == RenderAll(ps) + [Render(p)]
  {
  }

  // ---- clamp, diff, min, max ----

  /** The value of x clamped to the range between lo and hi, whichever order they come in. */
  function ClampOf(x: Int64, lo: Int64, hi: Int64): (r: Int64)
    ensures Min(lo, hi) <= r <= Max(lo, hi)
    ensures Min(lo, hi) <= x <= Max(lo, hi) ==> r == x
    ensures x < Min(lo, hi) ==> r == Min(lo, hi)
    ensures x > Max(lo, hi) ==> r == Max(lo, hi)
  {
    if x < Min(lo, hi) then Min(lo, hi) else if x > Max(lo, hi) then Max(lo, hi) else x
  }

  /** The `clamp` case: swap the bounds when lo > hi, then raise x to lo and lower it to hi. */
  method Clamp(x: Int64, lo: Int64, hi: Int64) returns (r: Int64)
    ensures r == ClampOf(x, lo, hi)
  {
    var lo', hi' := lo, hi;
    if lo' > hi' {
      var t := lo';
      lo' := hi';
      hi' := t;
    }
    r := x;
    if r < lo' {
      r := lo';
    }
    if r > hi' {
      r := hi';
    }
  }

  /** Math.multiplyExact for the unit multiplication: the exact product, or the overflow error. */
  function SafeMul(a: Int64, b: Int64, site: Site): (r: Result<Int64, Fault>)
    ensures r.Ok? <==> LONG_MIN <= a * b <= LONG_MAX
    ensures r.Ok? ==> r.value == a * b
    ensures r.Err? ==> r.error == Throw(site, "time: overflow in multiplication")
  {
    if LONG_MIN <= a * b <= LONG_MAX then Ok(a * b) else Err(Throw(site, "time: overflow in multiplication"))
  }

  // ---- arguments ----

  /** requireLong: a number, integral as a double, not below Long.MIN_VALUE or above
      Long.MAX_VALUE as doubles; then the (long) cast. The double comparisons go through
      Double.compare, which agrees with `<` here because NaN is already rejected as not integral. */
  function RequireLong(v: Value, fl: FloatOps, site: Site): (r: Result<Int64, Fault>)
    ensures !IsNumber(v) ==> r == Err(Throw(site, "Expected a number argument"))
    ensures r.Err? ==> r.error.Thrown?
    ensures r.Ok? ==> fl.isIntegral(ToDouble(v, fl)) && r.value == fl.toLong(ToDouble(v, fl))
  {
    if !IsNumber(v) then Err(Throw(site, "Expected a number argument"))
    else
      var d := ToDouble(v, fl);
      if !fl.isIntegral(d) then Err(Throw(site, "Expected an integer number"))
      else if fl.compare(d, fl.ofInteger(LONG_MIN)) < 0 || fl.compare(d, fl.ofInteger(LONG_MAX)) > 0 then
        Err(Throw(site, "Number out of long range"))
      else Ok(fl.toLong(d))
  }

  /** The double operations are exact and ordered on `n`: (double) n is integral, casts back
      to n and lies within the long bounds. */
  predicate LongExact(fl: FloatOps, n: Int64)
  {
    ExactOn(fl, n)
    && fl.compare(fl.ofInteger(n), fl.ofInteger(LONG_MIN)) >= 0
    && fl.compare(fl.ofInteger(n), fl.ofInteger(LONG_MAX)) <= 0
  }

  /** An int or long argument comes back as itself. */
  lemma RequireLongOfInteger(v: Value, fl: FloatOps, site: Site)
    requires (v.IntV? && LongExact(fl, v.intVal)) || (v.LongV? && LongExact(fl, v.longVal))
    ensures RequireLong(v, fl, site) == Ok(ToBigInteger(v, fl))
  {
  }

  /** requireLong on every argument, left to right, stopping at the first failure. */
  function RequireLongs(args: seq<Value>, fl: FloatOps, site: Site): (r: Result<seq<Int64>, Fault>)
    ensures r.Ok? ==> |r.value| == |args|
    ensures r.Ok? ==> forall i :: 0 <= i < |args| ==> RequireLong(args[i], fl, site) == Ok(r.value[i])
    decreases |args|
  {
    if args == [] then Ok([])
    else
      match RequireLong(args[0], fl, site)
      case Err(f) => Err(f)
      case Ok(x) =>
        match RequireLongs(args[1..], fl, site)
        case Err(f) => Err(f)
        case Ok(xs) => Ok([x] + xs)
  }

  // ---- the clock-free members of the time module ----

  datatype TimeFn = Diff | MaxFn | MinFn | ClampFn | AddMillis | AddSeconds | AddMinutes | AddHours | AddDays | HumanFn | HumanDiff

  function Name(f: TimeFn): string
  {
    match f
    case Diff => "diff"
    case MaxFn => "max"
    case MinFn => "min"
    case ClampFn => "clamp"
    case AddMillis => "addMillis"
    case AddSeconds => "addSeconds"
    case AddMinutes => "addMinutes"
    case AddHours => "addHours"
    case AddDays => "addDays"
    case HumanFn => "human"
    case HumanDiff => "humanDiff"
  }

  function Arity(f: TimeFn): nat
  {
    match f
    case HumanFn => 1
    case ClampFn => 3
    case _ => 2
  }

  /** The unit the add* members multiply their count by. */
  function Scale(f: TimeFn): Int64
  {
    match f
    case AddSeconds => MS_PER_SECOND
    case AddMinutes => MS_PER_MINUTE
    case AddHours => MS_PER_HOUR
    case AddDays => MS_PER_DAY
    case _ => 1
  }

  /** What a member computes from its long arguments. */
  function Apply(f: TimeFn, xs: seq<Int64>, site: Site): Result<Value, Fault>
    requires |xs| == Arity(f)
  {
    match f
    case Diff => Ok(LongV(WrapLong(xs[1] as int - xs[0] as int)))
    case MaxFn => Ok(LongV(if xs[0] < xs[1] then xs[1] else xs[0]))
    case MinFn => Ok(LongV(if xs[0] < xs[1] then xs[0] else xs[1]))
    case ClampFn => Ok(LongV(ClampOf(xs[0], xs[1], xs[2])))
    case AddMillis => Ok(LongV(WrapLong(xs[0] as int + xs[1] as int)))
    case HumanFn => Ok(StrV(Human(xs[0])))
    case HumanDiff => Ok(StrV(Human(WrapLong(xs[1] as int - xs[0] as int))))
    case _ =>
      match SafeMul(xs[1], Scale(f), site)
      case Err(e) => Err(e)
      case Ok(p) => Ok(LongV(WrapLong(xs[0] + p)))
  }

  /** TimeModule.call for the clock-free members: the argument count, then the longs, then the
      member's own computation. */
  function Call(f: TimeFn, args: seq<Value>, fl: FloatOps, site: Site): (r: Result<Value, Fault>)
    ensures |args| != Arity(f) ==> r == Err(Throw(site, ArityMessage("time", Name(f), Arity(f))))
    ensures r.Ok? ==> RequireLongs(args, fl, site).Ok?
  {
    match RequireCount(args, Arity(f), "time", Name(f), site)
    case Some(e) => Err(e)
    case None =>
      match RequireLongs(args, fl, site)
      case Err(e) => Err(e)
      case Ok(xs) => Apply(f, xs, site)
  }

  /** addSeconds/Minutes/Hours/Days fail exactly when count * unit leaves the long range;
      otherwise the result is base + count * unit, wrapped. */
  lemma AddUnits(f: TimeFn, base: Int64, n: Int64, site: Site)
    requires f.AddSeconds? || f.AddMinutes? || f.AddHours? || f.AddDays?
    ensures Apply(f, [base, n], site).Ok? <==> LONG_MIN <= n * Scale(f) <= LONG_MAX
    ensures Apply(f, [base, n], site).Ok? ==> Apply(f, [base, n], site).value == LongV(WrapLong(base + n * Scale(f)))
  {
  }

  /** diff is b - a whenever that fits in a long. */
  lemma DiffIsDifference(a: Int64, b: Int64, site: Site)
    requires LONG_MIN <= b as int - a as int <= LONG_MAX
    ensures Apply(Diff, [a, b], site) == Ok(LongV(b - a))
  {
  }

  /** humanDiff renders b - a whenever that fits in a long. */
  lemma HumanDiffRendersDifference(a: Int64, b: Int64, site: Site)
    requires LONG_MIN <= b as int - a as int <= LONG_MAX
    ensures Apply(HumanDiff, [a, b], site) == Ok(StrV(Human(b - a)))
  {
  }

  /** max and min give the larger and the smaller of the two inputs. */
  lemma MaxMin(a: Int64, b: Int64, site: Site)
    ensures var m := Apply(MaxFn, [a, b], site).value.longVal; m >= a && m >= b && (m == a || m == b)
    ensures var m := Apply(MinFn, [a, b], site).value.longVal; m <= a && m <= b && (m == a || m == b)
  {
  }
}
