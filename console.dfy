/**
 * The text helpers of the interactive console: the command-line tokenizer, the project-name
 * check, the command aliases, the prompt, the task-history window and the line editor's
 * buffer commands. Console output is returned as lines instead of being printed.
 */
module Console {
  import opened Wrappers
  import opened JavaLang

  // ---- tokenize ----

  /** The tokenizer's state after a prefix of the line: the finished tokens, the token being
      built, and whether a quote is open. */
  datatype Scanner = Scanner(out: seq<string>, cur: string, inQuotes: bool)

  /** One character: a quote toggles quoting and is dropped; whitespace outside quotes ends
      the current token (if any) and is dropped; anything else joins the current token. */
  function Feed(st: Scanner, c: char): Scanner
  {
    if c == '"' then st.(inQuotes := !st.inQuotes)
    else if !st.inQuotes && IsWhitespace(c) then
      (if |st.cur| > 0 then Scanner(st.out + [st.cur], "", st.inQuotes) else st)
    else st.(cur := st.cur + [c])
  }

  function Scan(s: string): Scanner
  {
    if s == [] then Scanner([], "", false) else Feed(Scan(s[..|s| - 1]), s[|s| - 1])
  }

  /** tokenize: the tokens of the whole line, or [":"] when there are none. */
  function Tokens(line: string): (r: seq<string>)
    ensures r != []
  {
    var st := Scan(line);
    var all := st.out + (if |st.cur| > 0 then [st.cur] else []);
    if all == [] then [":"] else all
  }

  /** tokenize: the loop with `inQuotes` and the StringBuilder `cur`. */
  method Tokenize(line: string) returns (out: seq<string>)
    ensures out == Tokens(line)
  {
    out := [];
    var cur := "";
    var inQuotes := false;
    var i := 0;
    while i < |line|
      invariant 0 <= i <= |line|
      invariant Scanner(out, cur, inQuotes) == Scan(line[..i])
    {
      var c := line[i];
      assert line[..i + 1][..i] == line[..i];
      if c == '"' {
        inQuotes := !inQuotes;
      } else if !inQuotes && IsWhitespace(c) {
        if |cur| > 0 {
          out := out + [cur];
          cur := "";
        }
      } else {
        cur := cur + [c];
      }
      i := i + 1;
    }
    assert line[..i] == line;
    if |cur| > 0 {
      out := out + [cur];
    }
    if out == [] {
      out := [":"];
    }
  }

  /** Whether an odd number of quotes has been seen. */
  predicate OddQuotes(s: string)
  {
    multiset(s)['"'] % 2 == 1
  }

  /** The characters that end up in tokens: every character except the quotes and the
      whitespace outside quotes. */
  function Kept(s: string): string
  {
    if s == [] then []
    else
      var front := s[..|s| - 1];
      var c := s[|s| - 1];
      Kept(front) + (if c == '"' || (!OddQuotes(front) && IsWhitespace(c)) then [] else [c])
  }

  /** All tokens glued together. */
  function Concat(ts: seq<string>): string
  {
    if ts == [] then [] else Concat(ts[..|ts| - 1]) + ts[|ts| - 1]
  }

  lemma ConcatSnoc(ts: seq<string>, t: string)
    ensures Concat(ts + [t]) == Concat(ts) + t
  {
    assert (ts + [t])[..|ts|] == ts;
  }

  predicate CleanToken(t: string)
  {
    |t| > 0 && '"' !in t
  }

  /** What the scan keeps after `s`: clean finished tokens, a current token without quotes,
      the quote state given by the number of quotes, and exactly the kept characters. */
  predicate ScanOk(s: string, st: Scanner)
  {
    && (forall k :: 0 <= k < |st.out| ==> CleanToken(st.out[k]))
    && '"' !in st.cur
    && (st.inQuotes <==> OddQuotes(s))
    && Concat(st.out) + st.cur == Kept(s)
  }

  lemma {:induction false} ScanFacts(s: string)
    ensures ScanOk(s, Scan(s))
    decreases |s|
  {
    if s != [] {
      var front := s[..|s| - 1];
      var c := s[|s| - 1];
      assert s == front + [c];
      ScanFacts(front);
      FeedStep(front, c, Scan(front));
    }
  }

  lemma FeedStep(front: string, c: char, st: Scanner)
    requires ScanOk(front, st)
    ensures ScanOk(front + [c], Feed(st, c))
  {
    var s := front + [c];
    QuoteCount(front, c);
    assert s[..|s| - 1] == front;
    assert Kept(s) == Kept(front) + (if c == '"' || (!OddQuotes(front) && IsWhitespace(c)) then [] else [c]);
    if c != '"' && !st.inQuotes && IsWhitespace(c) && |st.cur| > 0 {
      ConcatSnoc(st.out, st.cur);
      assert Concat(st.out + [st.cur]) + "" == Kept(s);
    }
    if c != '"' && !(!st.inQuotes && IsWhitespace(c)) {
      assert Concat(st.out) + (st.cur + [c]) == (Concat(st.out) + st.cur) + [c];
    }
  }

  lemma QuoteCount(front: string, c: char)
    ensures OddQuotes(front + [c]) <==> (OddQuotes(front) != (c == '"'))
  {
    assert multiset(front + [c]) == multiset(front) + multiset{c};
  }

  /** Tokens are non-empty and hold no quote; glued together they give the kept characters
      (quotes removed, whitespace inside quotes kept, whitespace outside quotes removed);
      and [":"] comes out exactly when nothing is kept, or the line itself keeps ":". */
  lemma TokensFacts(line: string)
    ensures forall k :: 0 <= k < |Tokens(line)| ==> CleanToken(Tokens(line)[k])
    ensures Kept(line) != "" ==> Concat(Tokens(line)) == Kept(line)
    ensures Kept(line) == "" ==> Tokens(line) == [":"]
  {
    ScanFacts(line);
    var st := Scan(line);
    if |st.cur| > 0 {
      ConcatSnoc(st.out, st.cur);
    } else {
      assert st.out + [] == st.out;
    }
    var all := st.out + (if |st.cur| > 0 then [st.cur] else []);
    if all != [] {
      ConcatHead(all);
      assert |all[0]| > 0;
    }
  }

  /** The glued tokens are at least as long as the first one. */
  lemma {:induction false} ConcatHead(ts: seq<string>)
    requires ts != []
    ensures |Concat(ts)| >= |ts[0]|
  {
    if |ts| > 1 {
      ConcatHead(ts[..|ts| - 1]);
    }
  }

  // ---- sanitizeProjectName ----

  /** sanitizeProjectName: the trimmed name, or the IllegalArgumentException message. */
  function SanitizeProjectName(name: Option<string>): (r: Result<string, string>)
    ensures name.None? ==> r == Err("Project name is null")
    ensures name.Some? && IsBlank(name.value) ==> r == Err("Project name is empty")
    ensures r.Ok? ==> name.Some? && r.value == Trim(name.value) && r.value != ""
    ensures r.Ok? ==> CleanProjectName(r.value)
    ensures name.Some? && !IsBlank(name.value) ==> (r.Ok? <==> CleanProjectName(Trim(name.value)))
    ensures name.Some? && !IsBlank(name.value) && !CleanProjectName(Trim(name.value)) ==>
      r == Err("Bad project name: " + Trim(name.value))
  {
    if name.None? then Err("Project name is null")
    else
      var s := Trim(name.value);
      TrimEmptyIffBlank(name.value);
      if s == "" then Err("Project name is empty")
      else if IndexOf(s, "/") != -1 || IndexOf(s, "\\") != -1 || IndexOf(s, ":") != -1 || IndexOf(s, "..") != -1 then
        assert !CleanProjectName(s) by {
          if IndexOf(s, "/") != -1 {
            CharOccurrence(s, '/');
          } else if IndexOf(s, "\\") != -1 {
            CharOccurrence(s, '\\');
          } else if IndexOf(s, ":") != -1 {
            CharOccurrence(s, ':');
          } else {
            var k := IndexOf(s, "..");
            assert s[k..k + 2] == "..";
            assert s[k] == '.' && s[k + 1] == '.';
          }
        }
        Err("Bad project name: " + s)
      else
        CharOccurrence(s, '/');
        CharOccurrence(s, '\\');
        CharOccurrence(s, ':');
        assert NoDotDot(s) by {
          forall i | 0 <= i < |s| - 1 && s[i] == '.'
            ensures s[i + 1] != '.'
          {
            if s[i + 1] == '.' {
              assert s[i..i + 2] == "..";
              IndexOfFromIsFirst(s, "..", 0, i);
            }
          }
        }
        Ok(s)
  }

  /** A name sanitizeProjectName lets through: no path separator, no drive colon, no "..". */
  predicate CleanProjectName(s: string)
  {
    '/' !in s && '\\' !in s && ':' !in s && NoDotDot(s)
  }

  /** No two dots in a row. */
  predicate NoDotDot(s: string)
  {
    forall i :: 0 <= i < |s| - 1 && s[i] == '.' ==> s[i + 1] != '.'
  }

  /** indexOf finds a one-char string exactly when the char occurs. */
  lemma CharOccurrence(s: string, c: char)
    ensures IndexOf(s, [c]) == -1 <==> c !in s
  {
    if c in s {
      var i :| 0 <= i < |s| && s[i] == c;
      assert s[i..i + 1] == [c];
      IndexOfFromIsFirst(s, [c], 0, i);
    }
    if IndexOf(s, [c]) != -1 {
      var k := IndexOf(s, [c]);
      assert s[k..k + 1] == [c];
      assert s[k] == c;
    }
  }

  /** A trimmed string is its own trim. */
  lemma TrimTwice(s: string)
    ensures Trim(Trim(s)) == Trim(s)
  {
    var u := TrimStart(s);
    var t := Trim(s);
    TrimStartIsSuffix(s);
    TrimEndIsPrefix(u);
    if t != [] {
      assert t[0] == u[0];
      assert TrimStart(t) == t;
      assert TrimEnd(t) == t;
    }
  }

  /** An accepted name is accepted again unchanged. */
  lemma SanitizeIdempotent(name: string)
    requires SanitizeProjectName(Some(name)).Ok?
    ensures SanitizeProjectName(Some(SanitizeProjectName(Some(name)).value)) == SanitizeProjectName(Some(name))
  {
    var s := SanitizeProjectName(Some(name)).value;
    TrimTwice(name);
    TrimEmptyIffBlank(s);
  }

  // ---- handleCommand aliases ----

  /** handleCommand's alias step: a first token that lower-cases to :h, :q or :r becomes
      :help, :exit or :run; every other token is kept as it is. */
  function Normalize(args: seq<string>): (r: seq<string>)
    ensures |r| == |args| && (args != [] ==> r[1..] == args[1..])
  {
    if args == [] then args
    else
      var cmd0 := ToLowerAscii(args[0]);
      if cmd0 == ":h" then [":help"] + args[1..]
      else if cmd0 == ":q" then [":exit"] + args[1..]
      else if cmd0 == ":r" then [":run"] + args[1..]
      else args
  }

  /** Exactly the six spellings :h, :H, :q, :Q, :r and :R are rewritten. */
  lemma NormalizeRewrites(a: string, rest: seq<string>)
    ensures Normalize([a] + rest)[0] != a <==> a in [":h", ":H", ":q", ":Q", ":r", ":R"]
  {
    var l := ToLowerAscii(a);
    if l == ":h" || l == ":q" || l == ":r" {
      assert |a| == 2 && a[0] == ':';
      assert a == [a[0], a[1]];
    }
    if a in [":h", ":H", ":q", ":Q", ":r", ":R"] {
      assert l == [l[0], l[1]];
    }
  }

  /** Normalizing twice changes nothing more. */
  lemma NormalizeIdempotent(args: seq<string>)
    ensures Normalize(Normalize(args)) == Normalize(args)
  {
    if args != [] && Normalize(args) != args {
      var r := Normalize(args);
      assert r[0] in [":help", ":exit", ":run"];
      assert |ToLowerAscii(r[0])| > 2;
    }
  }

  // ---- prompt ----

  /** prompt: "dog[" + (project + "/" when a project is open) + folder + ("*" when the
      history has unsaved changes) + "]> ". */
  function Prompt(project: Option<string>, folder: string, dirty: bool): (r: string)
    ensures |r| == 7 + |folder| + (if project.Some? then |project.value| + 1 else 0) + (if dirty then 1 else 0)
  {
    var mid := if project.Some? then project.value + "/" else "";
    var star := if dirty then "*" else "";
    "dog[" + mid + folder + star + "]> "
  }

  /** The prompt opens with "dog[" and the project (when open), and closes with the folder,
      a star when there are unsaved changes, and "]> ". */
  lemma PromptParts(project: Option<string>, folder: string, dirty: bool)
    ensures var r := Prompt(project, folder, dirty);
      && StartsWith(r, "dog[") && EndsWith(r, "]> ")
      && (project.Some? ==> StartsWith(r, "dog[" + project.value + "/"))
      && (dirty ==> EndsWith(r, folder + "*]> "))
      && (!dirty ==> EndsWith(r, folder + "]> "))
  {
    var mid := if project.Some? then project.value + "/" else "";
    var star := if dirty then "*" else "";
    var r := Prompt(project, folder, dirty);
    assert StartsWith(r, "dog[") && StartsWith(r, "dog[" + mid) && EndsWith(r, "]> ") && EndsWith(r, folder + star + "]> ") by {
      assert r == "dog[" + mid + folder + star + "]> ";
      FramedParts("dog[", mid, folder, star, "]> ");
    }
    if project.Some? {
      assert "dog[" + mid == "dog[" + project.value + "/";
    }
    if dirty {
      assert folder + star + "]> " == folder + "*]> " by {
        assert "*" + "]> " == "*]> ";
      }
    } else {
      assert folder + star == folder;
    }
  }

  /** A text framed by an opening and a closing part starts with the opening followed by its
      first piece and ends with its last two pieces followed by the closing. */
  lemma FramedParts(opening: string, a: string, b: string, c: string, closing: string)
    ensures var r := opening + a + b + c + closing;
      && StartsWith(r, opening) && StartsWith(r, opening + a)
      && EndsWith(r, closing) && EndsWith(r, b + c + closing)
  {
    var r := opening + a + b + c + closing;
    assert r == opening + (a + b + c + closing) by {
      assert r == opening + a + (b + c + closing);
    }
    ConcatEnds(opening, a + b + c + closing);
    assert r == (opening + a) + (b + c + closing);
    ConcatEnds(opening + a, b + c + closing);
    ConcatEnds(opening + a + b + c, closing);
  }

  // ---- printTaskHistory ----

  const HISTORY_WINDOW := 200

  /** The entries the listing shows: the last min(200, size) of them. */
  function Window(tasks: seq<string>): (w: seq<string>)
    ensures |w| == Min(HISTORY_WINDOW, |tasks|)
    ensures forall k :: 0 <= k < |w| ==> w[k] == tasks[|tasks| - |w| + k]
  {
    tasks[Max(0, |tasks| - HISTORY_WINDOW)..]
  }

  /** printTaskHistory as the lines it prints. */
  function HistoryLines(tasks: seq<string>): seq<string>
  {
    if tasks == [] then ["(no tasks yet)"]
    else ["---- Task History ----"] + Window(tasks) + ["----------------------"]
  }

  /** printTaskHistory: the loop from max(0, size - 200) to the end. */
  method PrintTaskHistory(tasks: seq<string>) returns (lines: seq<string>)
    ensures lines == HistoryLines(tasks)
  {
    if tasks == [] {
      return ["(no tasks yet)"];
    }
    lines := ["---- Task History ----"];
    var start := Max(0, |tasks| - HISTORY_WINDOW);
    var i := start;
    while i < |tasks|
      invariant start <= i <= |tasks|
      invariant lines == ["---- Task History ----"] + tasks[start..i]
    {
      lines := lines + [tasks[i]];
      i := i + 1;
    }
    lines := lines + ["----------------------"];
  }

  // ---- the line editor ----

  /** How one input line leaves the editor: still editing, saving the buffer, or cancelled. */
  datatype EditEnd = Editing | Save | Cancel

  /** The words of t.split("\\s+") for a trimmed t: the maximal runs of non-space chars. */
  function Words(s: string): (ws: seq<string>)
    decreases |s|
  {
    var rest := DropSpaces(s);
    if rest == [] then []
    else
      var w := TakeWord(rest);
      [w] + Words(rest[|w|..])
  }

  function DropSpaces(s: string): (r: string)
    ensures |r| <= |s|
    ensures r == [] || !IsRegexSpace(r[0])
    ensures r == s[|s| - |r|..]
  {
    if s != [] && IsRegexSpace(s[0]) then DropSpaces(s[1..]) else s
  }

  function TakeWord(s: string): (w: string)
    requires s != [] && !IsRegexSpace(s[0])
    ensures 0 < |w| <= |s| && w == s[..|w|]
    ensures forall k :: 0 <= k < |w| ==> !IsRegexSpace(w[k])
    ensures |w| < |s| ==> IsRegexSpace(s[|w|])
    decreases |s|
  {
    if |s| > 1 && !IsRegexSpace(s[1]) then [s[0]] + TakeWord(s[1..]) else [s[0]]
  }

  /** `:del N`: the second word parsed as an int; the line N (1-based) is removed when
      1 <= N <= size, and otherwise nothing changes. Any command starting with ":del" gets
      here, so ":delete 2" removes line 2 as well. */
  function DelOn(buffer: seq<string>, t: string): (b: seq<string>)
    ensures b == buffer || |b| == |buffer| - 1
  {
    var parts := Words(t);
    if |parts| < 2 then buffer
    else
      match ParseInt(parts[1])
      case None => buffer
      case Some(n) => if n < 1 || n > |buffer| then buffer else buffer[..n - 1] + buffer[n..]
  }

  /** One input line of editFile (None is end of input): the buffer afterwards and how the
      editor goes on. Commands are recognised on the trimmed line; an appended line is kept
      untrimmed. */
  function EditOn(buffer: seq<string>, line: Option<string>): (r: (seq<string>, EditEnd))
    ensures r.1 != Editing ==> r.0 == buffer
  {
    if line.None? then (buffer, Cancel)
    else
      var t := Trim(line.value);
      if t == ":q" then (buffer, Cancel)
      else if t == ":back" || t == ":undo" then (if buffer == [] then buffer else buffer[..|buffer| - 1], Editing)
      else if t == ":show" then (buffer, Editing)
      else if StartsWith(t, ":del") then (DelOn(buffer, t), Editing)
      else if t == ":wq" then (buffer, Save)
      else (buffer + [line.value], Editing)
  }

  /** A line that is none of the editor's commands. */
  predicate PlainLine(line: string)
  {
    var t := Trim(line);
    t != ":q" && t != ":back" && t != ":undo" && t != ":show" && !StartsWith(t, ":del") && t != ":wq"
  }

  /** :back and :undo step back over the last appended line. */
  lemma AppendThenBack(buffer: seq<string>, line: string, back: string)
    requires PlainLine(line) && (back == ":back" || back == ":undo")
    ensures EditOn(EditOn(buffer, Some(line)).0, Some(back)) == (buffer, Editing)
  {
    TrimNoop(back);
    assert (buffer + [line])[..|buffer|] == buffer;
  }

  /** `:del N` removes exactly line N when 1 <= N <= size, and changes nothing for any
      other int N. */
  lemma DelLine(buffer: seq<string>, n: Int32)
    ensures EditOn(buffer, Some(":del " + IntToDecimal(n)))
      == (if 1 <= n <= |buffer| then buffer[..n - 1] + buffer[n..] else buffer, Editing)
  {
    DelText(n);
    DelCommand(buffer, ":del " + IntToDecimal(n), n);
  }

  /** The command text ":del N" is trimmed, starts with ":del" and has N as its second word. */
  lemma DelText(n: Int32)
    ensures var t := ":del " + IntToDecimal(n);
      Trim(t) == t && StartsWith(t, ":del") && |Words(t)| >= 2 && ParseInt(Words(t)[1]) == Some(n)
  {
    var num := IntToDecimal(n);
    assert ":del " + num == ":del" + " " + num;
    assert Trim(":del" + " " + num) == ":del" + " " + num && StartsWith(":del" + " " + num, ":del")
      && Words(":del" + " " + num) == [":del", num] by {
      NumeralIsAWord(n);
      DelIsAWord();
      CommandText(":del", num);
    }
    assert ParseInt(num) == Some(n) by {
      DecimalRoundTrip(n);
    }
  }

  /** A command word, a space and an argument word: trimmed already, starting with the
      command, and split into exactly those two words. */
  lemma CommandText(w: string, num: string)
    requires w != [] && w[0] > ' ' && forall k :: 0 <= k < |w| ==> !IsRegexSpace(w[k])
    requires num != [] && num[|num| - 1] > ' ' && forall k :: 0 <= k < |num| ==> !IsRegexSpace(num[k])
    ensures Trim(w + " " + num) == w + " " + num
    ensures StartsWith(w + " " + num, w)
    ensures Words(w + " " + num) == [w, num]
  {
    var t := w + " " + num;
    assert t[0] == w[0] && t[|t| - 1] == num[|num| - 1];
    TrimNoop(t);
    assert t[..|w|] == w;
    WordsOfPair(w, num);
  }

  lemma DelCommand(buffer: seq<string>, t: string, n: Int32)
    requires Trim(t) == t && StartsWith(t, ":del")
    requires |Words(t)| >= 2 && ParseInt(Words(t)[1]) == Some(n)
    ensures EditOn(buffer, Some(t)) == (if 1 <= n <= |buffer| then buffer[..n - 1] + buffer[n..] else buffer, Editing)
  {
    DelOnParsed(buffer, t, n);
    EditOnDel(buffer, t);
  }

  lemma DelOnParsed(buffer: seq<string>, t: string, n: Int32)
    requires |Words(t)| >= 2 && ParseInt(Words(t)[1]) == Some(n)
    ensures DelOn(buffer, t) == if 1 <= n <= |buffer| then buffer[..n - 1] + buffer[n..] else buffer
  {
  }

  /** A trimmed line starting with ":del" is the delete command. */
  lemma EditOnDel(buffer: seq<string>, t: string)
    requires Trim(t) == t && StartsWith(t, ":del")
    ensures EditOn(buffer, Some(t)) == (DelOn(buffer, t), Editing)
  {
    assert t[..4] == ":del";
    assert t[1] == 'd';
    assert ":back"[1] == 'b' && ":undo"[1] == 'u' && ":show"[1] == 's';
  }

  /** Two words with one space between them split into those two words. */
  lemma WordsOfPair(w: string, num: string)
    requires w != [] && forall k :: 0 <= k < |w| ==> !IsRegexSpace(w[k])
    requires num != [] && forall k :: 0 <= k < |num| ==> !IsRegexSpace(num[k])
    ensures Words(w + " " + num) == [w, num]
  {
    var rest := " " + num;
    assert w + " " + num == w + rest;
    WordThenRest(w, rest);
    WordsOfSpaced(num);
  }

  /** A word followed by a space: the word, then the words of the rest. */
  lemma WordThenRest(w: string, rest: string)
    requires w != [] && forall k :: 0 <= k < |w| ==> !IsRegexSpace(w[k])
    requires rest != [] && IsRegexSpace(rest[0])
    ensures Words(w + rest) == [w] + Words(rest)
  {
    var t := w + rest;
    TakeWordOf(w, rest);
    assert DropSpaces(t) == t;
    assert t[|w|..] == rest;
  }

  lemma DelIsAWord()
    ensures ":del"[0] > ' ' && forall k :: 0 <= k < |":del"| ==> !IsRegexSpace(":del"[k])
  {
    var w := ":del";
    assert w == [':', 'd', 'e', 'l'];
  }

  lemma WordsOfSpaced(num: string)
    requires num != [] && forall k :: 0 <= k < |num| ==> !IsRegexSpace(num[k])
    ensures Words(" " + num) == [num]
  {
    assert Words(" " + num) == Words(num) by {
      DropLeadingSpace(num);
    }
    WordsOfWord(num);
  }

  lemma DropLeadingSpace(num: string)
    requires num != [] && !IsRegexSpace(num[0])
    ensures DropSpaces(" " + num) == num && DropSpaces(num) == num
  {
    assert (" " + num)[1..] == num;
  }

  /** A single word is its own list of words. */
  lemma WordsOfWord(num: string)
    requires num != [] && forall k :: 0 <= k < |num| ==> !IsRegexSpace(num[k])
    ensures Words(num) == [num]
  {
    TakeWordOf(num, []);
    assert num + [] == num;
    assert num[|num|..] == [];
  }

  /** The decimal text of an int holds no space and does not end in one. */
  lemma NumeralIsAWord(n: int)
    ensures var num := IntToDecimal(n);
      num != [] && !IsRegexSpace(num[0]) && num[|num| - 1] > ' '
      && forall k :: 0 <= k < |num| ==> !IsRegexSpace(num[k])
  {
    var d := NatToDecimal(if n < 0 then -n else n);
    assert IsDigit(d[|d| - 1]);
    if n < 0 {
      assert IntToDecimal(n) == "-" + d;
    }
  }

  /** A string with no blank at either end is its own trim. */
  lemma TrimNoop(s: string)
    requires s != [] && s[0] > ' ' && s[|s| - 1] > ' '
    ensures Trim(s) == s
  {
  }

  /** A run of non-space chars followed by a space or the end is taken whole. */
  lemma {:induction false} TakeWordOf(w: string, rest: string)
    requires w != [] && forall k :: 0 <= k < |w| ==> !IsRegexSpace(w[k])
    requires rest == [] || IsRegexSpace(rest[0])
    ensures TakeWord(w + rest) == w
    decreases |w|
  {
    var s := w + rest;
    if |w| > 1 {
      assert s[1..] == w[1..] + rest;
      TakeWordOf(w[1..], rest);
      assert [w[0]] + w[1..] == w;
    }
  }

  /** The edit buffer of editFile: the lines typed so far, changed by each input line. */
  class EditBuffer {
    var lines: seq<string>

    /** The buffer starts as the file's existing lines. */
    constructor (original: seq<string>)
      ensures lines == original
    {
      lines := original;
    }

    /** One round of the editFile loop. */
    method Feed(line: Option<string>) returns (e: EditEnd)
      modifies this
      ensures (lines, e) == EditOn(old(lines), line)
    {
      if line.None? {
        return Cancel;
      }
      var t := Trim(line.value);
      if t == ":q" {
        return Cancel;
      }
      if t == ":back" || t == ":undo" {
        if lines != [] {
          lines := lines[..|lines| - 1];
        }
        return Editing;
      }
      if t == ":show" {
        return Editing;
      }
      if StartsWith(t, ":del") {
        lines := DelOn(lines, t);
        return Editing;
      }
      if t == ":wq" {
        return Save;
      }
      lines := lines + [line.value];
      return Editing;
    }
  }

  /** editFile over a whole input: the lines saved by :wq, or None when the session is
      cancelled (by :q or the end of the input). */
  function Session(buffer: seq<string>, input: seq<string>): Option<seq<string>>
    decreases |input|
  {
    var line := if input == [] then None else Some(input[0]);
    var (buffer', how) := EditOn(buffer, line);
    if how == Save then Some(buffer')
    else if how == Cancel then None
    else Session(buffer', input[1..])
  }

  /** editFile: the loop reading lines into the buffer until :wq, :q or the end of input. */
  method EditFile(original: seq<string>, input: seq<string>) returns (saved: Option<seq<string>>)
    ensures saved == Session(original, input)
  {
    var buffer := new EditBuffer(original);
    var i := 0;
    while true
      invariant 0 <= i <= |input|
      invariant Session(buffer.lines, input[i..]) == Session(original, input)
      decreases |input| - i
    {
      var line := if i < |input| then Some(input[i]) else None;
      assert input[i..] == [] <==> i == |input|;
      assert i < |input| ==> input[i..][0] == input[i] && input[i..][1..] == input[i + 1..];
      var how := buffer.Feed(line);
      if how == Save {
        return Some(buffer.lines);
      }
      if how == Cancel {
        return None;
      }
      i := i + 1;
    }
  }

  /** Typing plain lines and then :wq saves the original lines followed by the typed ones. */
  lemma {:induction false} PlainLinesSaved(buffer: seq<string>, typed: seq<string>)
    requires forall k :: 0 <= k < |typed| ==> PlainLine(typed[k])
    ensures Session(buffer, typed + [":wq"]) == Some(buffer + typed)
    decreases |typed|
  {
    var input := typed + [":wq"];
    if typed == [] {
      assert input == [":wq"];
      TrimNoop(":wq");
      assert buffer + typed == buffer;
      assert EditOn(buffer, Some(":wq")) == (buffer, Save);
      assert !StartsWith(":wq", ":del");
    } else {
      assert input[0] == typed[0] && input[1..] == typed[1..] + [":wq"];
      PlainLinesSaved(buffer + [typed[0]], typed[1..]);
      assert buffer + [typed[0]] + typed[1..] == buffer + typed;
    }
  }
}
