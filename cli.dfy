/**
 * The command-line entry point's helpers: how the arguments pick a mode, the default output
 * name of a compilation, the argument echo, the caret under an error column, and the
 * context every program runs against.
 */
module Cli {
  import opened Wrappers
  import opened JavaLang
  import opened Registry
  import Console

  // ---- joinArgs ----

  /** joinArgs: the arguments with one space between neighbours; no array gives "". */
  method JoinArgs(args: Option<seq<string>>) returns (r: string)
    ensures args.None? ==> r == ""
    ensures args.Some? ==> r == Join(args.value, " ")
  {
    if args.None? {
      return "";
    }
    var a := args.value;
    r := "";
    var i := 0;
    while i < |a|
      invariant 0 <= i <= |a|
      invariant r == Join(a[..i], " ")
    {
      JoinSnoc(a[..i], a[i], " ");
      assert a[..i + 1] == a[..i] + [a[i]];
      if i > 0 {
        r := r + " ";
      }
      r := r + a[i];
      i := i + 1;
    }
    assert a[..i] == a;
  }

  /** Text with no whitespace and no quote: the console's scan passes it through unchanged. */
  predicate Plain(w: string)
  {
    forall k :: 0 <= k < |w| ==> w[k] != '"' && !IsWhitespace(w[k])
  }

  /** An argument the console would read back as one token: non-empty and plain. */
  predicate Word(w: string)
  {
    w != [] && Plain(w)
  }

  predicate Words(args: seq<string>)
  {
    forall k :: 0 <= k < |args| ==> Word(args[k])
  }

  /** Joined arguments that are plain words tokenize back into the same arguments. */
  lemma JoinArgsTokenize(args: seq<string>)
    requires args != [] && Words(args)
    ensures Console.Tokens(Join(args, " ")) == args
  {
    var line := Join(args, " ");
    var front, last := args[..|args| - 1], args[|args| - 1];
    SplitLast(args);
    assert Console.Scan(line) == Console.Scanner(front, last, false) by {
      ScanJoin(args);
    }
    assert |last| > 0 by {
      assert Word(args[|args| - 1]);
    }
    TokensOfScan(line);
  }

  lemma SplitLast(args: seq<string>)
    requires args != []
    ensures args[..|args| - 1] + [args[|args| - 1]] == args
  {
  }

  /** With a current token left over, the tokens are the finished ones and that token. */
  lemma TokensOfScan(line: string)
    requires |Console.Scan(line).cur| > 0
    ensures Console.Tokens(line) == Console.Scan(line).out + [Console.Scan(line).cur]
  {
  }

  /** All words but the last are words, and the last one is too. */
  lemma WordsFront(args: seq<string>)
    requires |args| > 1 && Words(args)
    ensures Words(args[..|args| - 1]) && Word(args[|args| - 1])
  {
    var front := args[..|args| - 1];
    forall k | 0 <= k < |front|
      ensures Word(front[k])
    {
      assert front[k] == args[k];
    }
  }

  /** Scanning joined words: every word but the last is finished, the last is current. */
  lemma {:induction false} ScanJoin(args: seq<string>)
    requires args != [] && Words(args)
    ensures Console.Scan(Join(args, " ")) == Console.Scanner(args[..|args| - 1], args[|args| - 1], false)
    decreases |args|
  {
    var n := |args|;
    if n == 1 {
      assert Plain(args[0]) by {
        assert Word(args[0]);
      }
      ScanWord("", args[0]);
      assert "" + args[0] == args[0];
    } else {
      var front, last := args[..n - 1], args[n - 1];
      WordsFront(args);
      ScanJoin(front);
      SplitLast(args);
      ScanJoinStep(front, last);
    }
  }

  /** One more word after joined words: the previous current token is finished and the new
      word is current. */
  lemma ScanJoinStep(front: seq<string>, last: string)
    requires front != [] && Word(front[|front| - 1]) && Plain(last)
    requires Console.Scan(Join(front, " ")) == Console.Scanner(front[..|front| - 1], front[|front| - 1], false)
    ensures Console.Scan(Join(front + [last], " ")) == Console.Scanner(front, last, false)
  {
    var t := Join(front, " ") + " ";
    FinishWord(Join(front, " "), front);
    ScanWord(t, last);
    JoinSnoc(front, last, " ");
    assert "" + last == last;
  }

  /** A space after a current token finishes it. */
  lemma FinishWord(s: string, words: seq<string>)
    requires words != [] && |words[|words| - 1]| > 0
    requires Console.Scan(s) == Console.Scanner(words[..|words| - 1], words[|words| - 1], false)
    ensures Console.Scan(s + " ") == Console.Scanner(words, "", false)
  {
    ScanSnoc(s, ' ');
    SplitLast(words);
  }

  lemma ScanSnoc(s: string, c: char)
    ensures Console.Scan(s + [c]) == Console.Feed(Console.Scan(s), c)
  {
    assert (s + [c])[..|s|] == s;
  }

  /** Scanning plain text outside quotes only extends the current token. */
  lemma {:induction false} ScanWord(s: string, w: string)
    requires !Console.Scan(s).inQuotes && Plain(w)
    ensures Console.Scan(s + w) == Console.Scan(s).(cur := Console.Scan(s).cur + w)
    decreases |w|
  {
    if w == [] {
      assert s + w == s;
      assert Console.Scan(s).cur + w == Console.Scan(s).cur;
    } else {
      var front, c := w[..|w| - 1], w[|w| - 1];
      PlainFront(w);
      ScanWord(s, front);
      ScanPlainChar(s + front, c);
      SnocSplit(s, w);
      SnocSplit(Console.Scan(s).cur, w);
    }
  }

  lemma PlainFront(w: string)
    requires w != [] && Plain(w)
    ensures Plain(w[..|w| - 1]) && w[|w| - 1] != '"' && !IsWhitespace(w[|w| - 1])
  {
    var front := w[..|w| - 1];
    forall k | 0 <= k < |front|
      ensures front[k] != '"' && !IsWhitespace(front[k])
    {
      assert front[k] == w[k];
    }
  }

  lemma SnocSplit(x: string, w: string)
    requires w != []
    ensures x + w == (x + w[..|w| - 1]) + [w[|w| - 1]]
  {
  }

  /** A plain char outside quotes is appended to the current token. */
  lemma ScanPlainChar(s: string, c: char)
    requires !Console.Scan(s).inQuotes && c != '"' && !IsWhitespace(c)
    ensures Console.Scan(s + [c]) == Console.Scan(s).(cur := Console.Scan(s).cur + [c])
  {
    ScanSnoc(s, c);
  }

  // ---- isCompileFlag, defaultDogcName and the mode chosen by the arguments ----

  /** isCompileFlag: -c, --compile or compile (no argument is not a flag). */
  predicate IsCompileFlag(s: Option<string>)
  {
    s.Some? && (s.value == "-c" || s.value == "--compile" || s.value == "compile")
  }

  /** defaultDogcName: a name ending in ".dog" in any letter case has those four letters
      replaced by ".dogc"; any other name gets ".dogc" appended; no name gives "out.dogc". */
  function DefaultDogcName(src: Option<string>): (r: string)
    ensures src.None? ==> r == "out.dogc"
    ensures src.Some? ==> exists n :: StemCut(src.value, n) && r == src.value[..n] + ".dogc"
    ensures src.Some? && !EndsWith(ToLowerAscii(src.value), ".dog") ==> r == src.value + ".dogc"
    ensures src.Some? && EndsWith(ToLowerAscii(src.value), ".dog") ==>
      |src.value| >= 4 && r == src.value[..|src.value| - 4] + ".dogc"
  {
    if src.None? then "out.dogc"
    else
      var s := src.value;
      var lower := ToLowerAscii(s);
      if EndsWith(lower, ".dog") then
        s[..|s| - 4] + ".dogc"
      else
        assert s[..|s|] == s;
        s + ".dogc"
  }

  /** Where defaultDogcName cuts a name: at its end, or before a final ".dog" in any case. */
  predicate StemCut(s: string, n: int)
  {
    0 <= n <= |s| && (n == |s| || (n == |s| - 4 && EndsWith(ToLowerAscii(s), ".dog")))
  }

  /** What the command line asks for. */
  datatype Mode =
    | StartConsole
    | ShowUsage
    | CompileTo(src: string, out: string)
    | RunSource(file: string)
    | RunBytecode(file: string)
    | BadExtension

  /** main's dispatch: no arguments start the console; a compile flag needs a source and takes
      an optional output name; otherwise the first argument's extension (in any letter case)
      picks the source runner or the bytecode runner. */
  function Route(args: seq<string>): (m: Mode)
    ensures m.CompileTo? ==> |args| >= 2 && IsCompileFlag(Some(args[0])) && m.src == args[1]
    ensures m.StartConsole? <==> args == []
  {
    if args == [] then StartConsole
    else if IsCompileFlag(Some(args[0])) then
      if |args| < 2 then ShowUsage
      else CompileTo(args[1], if |args| >= 3 then args[2] else DefaultDogcName(Some(args[1])))
    else if EndsWith(ToLowerAscii(args[0]), ".dog") then RunSource(args[0])
    else if EndsWith(ToLowerAscii(args[0]), ".dogc") then RunBytecode(args[0])
    else BadExtension
  }

  /** Compiling with the default output name and then running that output takes the
      bytecode path. */
  lemma CompileThenRun(flag: string, src: string)
    requires IsCompileFlag(Some(flag))
    ensures Route([flag, src]) == CompileTo(src, DefaultDogcName(Some(src)))
    ensures Route([DefaultDogcName(Some(src))]) == RunBytecode(DefaultDogcName(Some(src)))
  {
    RouteCompile(flag, src);
    var out := DefaultDogcName(Some(src));
    var n :| StemCut(src, n) && out == src[..n] + ".dogc";
    LowerDogc(src[..n]);
    RouteBytecode(out);
  }

  lemma RouteCompile(flag: string, src: string)
    requires IsCompileFlag(Some(flag))
    ensures Route([flag, src]) == CompileTo(src, DefaultDogcName(Some(src)))
  {
    var args := [flag, src];
    assert args[0] == flag && args[1] == src && |args| == 2;
  }

  lemma RouteBytecode(f: string)
    requires !IsCompileFlag(Some(f))
    requires EndsWith(ToLowerAscii(f), ".dogc") && !EndsWith(ToLowerAscii(f), ".dog")
    ensures Route([f]) == RunBytecode(f)
  {
    assert [f][0] == f;
  }

  /** A name ending in ".dogc" lower-cases to one ending in ".dogc", hence not in ".dog", and
      is no compile flag. */
  lemma LowerDogc(stem: string)
    ensures EndsWith(ToLowerAscii(stem + ".dogc"), ".dogc")
    ensures !EndsWith(ToLowerAscii(stem + ".dogc"), ".dog")
    ensures !IsCompileFlag(Some(stem + ".dogc"))
  {
    var out := stem + ".dogc";
    var lower := ToLowerAscii(out);
    var n := |stem|;
    assert out[n] == '.' && out[n + 1] == 'd' && out[n + 2] == 'o' && out[n + 3] == 'g' && out[n + 4] == 'c';
    assert lower[n..] == ".dogc";
    assert lower[|lower| - 1] == 'c';
    assert out[|out| - 1] == 'c' && out[|out| - 2] == 'g';
  }

  // ---- printDogError's caret ----

  /** The caret line: (max(1, col) - 1) spaces and a caret, so the caret stands in column col
      (counting from 1) whenever col >= 1. */
  method CaretLine(col: int) returns (r: string)
    ensures |r| == Max(1, col)
    ensures r[|r| - 1] == '^'
    ensures forall k :: 0 <= k < |r| - 1 ==> r[k] == ' '
    ensures col >= 1 ==> r[col - 1] == '^'
  {
    var c := Max(1, col);
    r := "";
    var i := 1;
    while i < c
      invariant 1 <= i <= c
      invariant |r| == i - 1
      invariant forall k :: 0 <= k < |r| ==> r[k] == ' '
    {
      r := r + " ";
      i := i + 1;
    }
    r := r + "^";
  }

  // ---- newContext ----

  /** The modules every program can import, by the name each reports. */
  const STANDARD_MODULES: map<string, DogModule> := map[
    "io" := DogModule("io", IoImpl),
    "math" := DogModule("math", MathImpl),
    "time" := DogModule("time", TimeImpl),
    "string" := DogModule("string", StringImpl),
    "rand" := DogModule("rand", RandomImpl),
    "sys" := DogModule("sys", SystemImpl),
    "json" := DogModule("json", JsonImpl)]

  /** newContext: a fresh registry holding the seven library modules and nothing imported. */
  method NewContext() returns (ctx: DogContext)
    ensures fresh(ctx) && fresh(ctx.registry)
    ensures ctx.registry.modules == STANDARD_MODULES
    ensures ctx.imported == {}
  {
    var reg := new ModuleRegistry();
    reg.Register(DogModule("io", IoImpl));
    reg.Register(DogModule("math", MathImpl));
    reg.Register(DogModule("time", TimeImpl));
    reg.Register(DogModule("string", StringImpl));
    reg.Register(DogModule("rand", RandomImpl));
    reg.Register(DogModule("sys", SystemImpl));
    reg.Register(DogModule("json", JsonImpl));
    ctx := new DogContext(reg);
  }

  /** Each standard module is registered under the name it reports, and exactly the seven
      names are known. */
  lemma StandardModulesNamed()
    ensures forall name :: name in STANDARD_MODULES ==> STANDARD_MODULES[name].name == name
    ensures STANDARD_MODULES.Keys == {"io", "math", "time", "string", "rand", "sys", "json"}
    ensures |STANDARD_MODULES.Keys| == 7
  {
  }
}
