/**
 * What the library modules (io, time, str, json) share: the place a call is made from, the
 * ways a module function can fail, and the argument-count check each module repeats.
 */
module LibCommon {
  import opened Wrappers
  import opened JavaLang
  import opened Exceptions
  import opened Values

  /** The line, column and source line a module function reports its errors at. */
  datatype Site = Site(line: int, col: int, fullLine: Option<string>)

  /** How a module function ends without a value: a DogException it throws, or a
      StackOverflowError from printing an array that contains itself. */
  datatype Fault = Thrown(error: DogError) | TooDeep

  /** DogException.at(line, col, fullLine, msg). */
  function Throw(site: Site, msg: string): (f: Fault)
    ensures f.Thrown? && f.error.message == msg
    ensures f.error.line == site.line && f.error.sourceLine == site.fullLine
  {
    Thrown(At(site.line, site.col, site.fullLine, msg))
  }

  /** The message of every module's requireCount: "<module>.<fn>(...) expects <n> argument(s)". */
  function ArityMessage(moduleName: string, fn: string, n: nat): string
  {
    moduleName + "." + fn + "(...) expects " + IntToDecimal(n) + " argument(s)"
  }

  /** requireCount: fails exactly when the argument count is not `n`. */
  function RequireCount(args: seq<Value>, n: nat, moduleName: string, fn: string, site: Site): (r: Option<Fault>)
    ensures r.None? <==> |args| == n
    ensures r.Some? ==> r.value == Throw(site, ArityMessage(moduleName, fn, n))
  {
    if |args| != n then Some(Throw(site, ArityMessage(moduleName, fn, n))) else None
  }

  /** requireString, which each module writes with its own message: strings give their text,
      anything else fails with the message. */
  function RequireString(v: Value, site: Site, msg: string): (r: Result<string, Fault>)
    ensures r.Ok? <==> v.StrV?
    ensures r.Ok? ==> r.value == v.strVal
    ensures r.Err? ==> r.error == Throw(site, msg)
  {
    if v.StrV? then Ok(v.strVal) else Err(Throw(site, msg))
  }

  /** The printable text of a value as Value.printable computes it: the fuel |heap| + 1 is
      enough for every array that does not contain itself, and None stands for the stack
      overflow of one that does. */
  function Printed(v: Value, heap: Heap, fl: FloatOps): Option<string>
  {
    Show(v, heap, fl, |heap| + 1)
  }

  /** The double operations are exact on `n`: (double) n is integral and casts back to n. */
  predicate ExactOn(fl: FloatOps, n: int)
  {
    fl.isIntegral(fl.ofInteger(n)) && fl.toLong(fl.ofInteger(n)) == n
  }
}
