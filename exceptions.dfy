/** DogException: the diagnostic every compile-time and run-time error of Dog carries. */
module Exceptions {
  import opened Wrappers
  import opened JavaLang

  datatype DogError = DogError(line: int, column: int, sourceLine: Option<string>, message: string)

  /** The constructor: the column is clamped to at least 1, everything else is kept. */
  function NewDogError(line: int, column: int, sourceLine: Option<string>, message: string): (e: DogError)
    ensures e.column >= 1 && e.column >= column
    ensures column >= 1 ==> e.column == column
    ensures column < 1 ==> e.column == 1
    ensures e.line == line && e.sourceLine == sourceLine && e.message == message
  {
    DogError(line, Max(1, column), sourceLine, message)
  }

  /** DogException.at: the same as the constructor. */
  function At(line: int, column: int, sourceLine: Option<string>, message: string): (e: DogError)
    ensures e == NewDogError(line, column, sourceLine, message)
    ensures e.column >= 1
  {
    NewDogError(line, column, sourceLine, message)
  }

  /** The first line of the log form of an error. */
  function LogHeader(e: DogError): string
  {
    "DogException at line " + IntToDecimal(e.line) + ", col " + IntToDecimal(e.column) + ": " + e.message
  }

  /** formatForLog: the header, then a "Source: " line exactly when a source line is known.
      `lineSeparator` is System.lineSeparator(). */
  function FormatForLog(e: DogError, lineSeparator: string): (r: string)
    ensures StartsWith(r, LogHeader(e))
    ensures e.sourceLine.None? ==> r == LogHeader(e)
    ensures e.sourceLine.Some? ==> EndsWith(r, lineSeparator + "Source: " + e.sourceLine.value)
    ensures e.sourceLine.Some? <==> |r| > |LogHeader(e)|
  {
    var head := LogHeader(e);
    if e.sourceLine.Some? then head + lineSeparator + "Source: " + e.sourceLine.value else head
  }
}
