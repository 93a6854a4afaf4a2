/**
 The Windows command line: build_command_line prints an argument vector, and the rules of
 "Parsing C command-line arguments" (Microsoft C language reference) read it back.
 */
module CommandLine {

  predicate Blank(c: char) { c == ' ' || c == '\t' }

  predicate HasBlank(w: string) { exists i :: 0 <= i < |w| && Blank(w[i]) }

  function Rep(n: nat): (r: string)
    ensures |r| == n && forall i :: 0 <= i < n ==> r[i] == '\\'
  {
    seq(n, _ => '\\')
  }

  // ---- The parser of the language reference ----

  /** Leading backslashes. */
  function Slashes(s: string): (n: nat)
    ensures n <= |s| && s[..n] == Rep(n) && (n < |s| ==> s[n] != '\\')
  {
    if s == [] || s[0] != '\\' then 0 else 1 + Slashes(s[1..])
  }

  /** The program name: quotes toggle, a blank outside quotes ends it, backslashes are ordinary. */
  function ParseProgram(s: string, quoted: bool): (string, string) {
    if s == [] then ([], [])
    else if s[0] == '"' then ParseProgram(s[1..], !quoted)
    else if !quoted && Blank(s[0]) then ([], s)
    else var (w, rest) := ParseProgram(s[1..], quoted); ([s[0]] + w, rest)
  }

  /**
   One further argument and what follows it. Before a quote, 2N backslashes stand for N and leave
   the quote a delimiter, 2N + 1 stand for N and a literal quote; a doubled quote inside quotes is
   a literal one. Backslashes not before a quote are ordinary.
   */
  function ParseArg(s: string, quoted: bool): (r: (string, string))
    ensures |r.1| <= |s|
    decreases |s|
  {
    var n := Slashes(s);
    var t := s[n..];
    if t == [] then (Rep(n), [])
    else if t[0] == '"' then
      if n % 2 == 1 then
        var (w, rest) := ParseArg(t[1..], quoted); (Rep(n / 2) + "\"" + w, rest)
      else if quoted && |t| > 1 && t[1] == '"' then
        var (w, rest) := ParseArg(t[2..], quoted); (Rep(n / 2) + "\"" + w, rest)
      else
        var (w, rest) := ParseArg(t[1..], !quoted); (Rep(n / 2) + w, rest)
    else if !quoted && Blank(t[0]) then (Rep(n), t)
    else var (w, rest) := ParseArg(t[1..], quoted); (Rep(n) + [t[0]] + w, rest)
  }

  function SkipBlanks(s: string): (r: string)
    ensures |r| <= |s|
  {
    if s != [] && Blank(s[0]) then SkipBlanks(s[1..]) else s
  }

  lemma ArgAdvances(s: string)
    requires s != [] && !Blank(s[0])
    ensures |ParseArg(s, false).1| < |s|
  {
  }

  function ParseArgs(s: string): seq<string>
    decreases |s|
  {
    var t := SkipBlanks(s);
    if t == [] || Blank(t[0]) then []
    else
      ArgAdvances(t);
      var (w, rest) := ParseArg(t, false);
      [w] + ParseArgs(rest)
  }

  function Parse(s: string): seq<string> {
    var (program, rest) := ParseProgram(s, false);
    [program] + ParseArgs(rest)
  }

  // ---- The printer ----

  predicate NeedsQuoting(w: string) { w == [] || HasBlank(w) }

  /** The characters of a further argument, `n` backslashes of it still held back. */
  function Escaped(w: string, n: nat, quoting: bool): string {
    if w == [] then Rep(if quoting then 2 * n else n)
    else if w[0] == '\\' then Escaped(w[1..], n + 1, quoting)
    else Rep(if w[0] == '"' then 2 * n + 1 else n) + [w[0]] + Escaped(w[1..], 0, quoting)
  }

  function Quote(w: string): string { if NeedsQuoting(w) then "\"" else "" }

  function PrintArg(w: string): string { Quote(w) + Escaped(w, 0, NeedsQuoting(w)) + Quote(w) }

  function PrintProgram(w: string): string { Quote(w) + w + Quote(w) }

  function PrintArgs(ws: seq<string>): string {
    if ws == [] then "" else " " + PrintArg(ws[0]) + PrintArgs(ws[1..])
  }

  function Print(argv: seq<string>): string {
    if argv == [] then "" else PrintProgram(argv[0]) + PrintArgs(argv[1..])
  }

  // ---- Parsing undoes printing ----

  lemma {:induction false} SlashesOf(n: nat, t: string)
    requires t == [] || t[0] != '\\'
    ensures Slashes(Rep(n) + t) == n && (Rep(n) + t)[n..] == t
  {
    if n > 0 {
      SlashesOf(n - 1, t);
      assert (Rep(n) + t)[1..] == Rep(n - 1) + t;
    }
  }

  /** What follows the characters of an argument. */
  function Ended(quoting: bool, tail: string): string { if quoting then "\"" + tail else tail }

  predicate EndsArg(tail: string) { tail == [] || Blank(tail[0]) }

  lemma ReadsLiteralQuote(n: nat, rest: string, quoted: bool)
    ensures var (w, tail) := ParseArg(rest, quoted);
      ParseArg(Rep(2 * n + 1) + ("\"" + rest), quoted) == (Rep(n) + "\"" + w, tail)
  {
    var t := "\"" + rest;
    SlashesOf(2 * n + 1, t);
    assert t[0] == '"' && t[1..] == rest;
    assert (2 * n + 1) % 2 == 1 && (2 * n + 1) / 2 == n;
  }

  lemma ReadsPlain(n: nat, c: char, rest: string, quoted: bool)
    requires c != '\\' && c != '"' && (quoted || !Blank(c))
    ensures var (w, tail) := ParseArg(rest, quoted);
      ParseArg(Rep(n) + ([c] + rest), quoted) == (Rep(n) + [c] + w, tail)
  {
    SlashesOf(n, [c] + rest);
    assert ([c] + rest)[1..] == rest;
  }

  lemma ReadsEnd(n: nat, tail: string)
    requires EndsArg(tail)
    ensures ParseArg(Rep(n) + tail, false) == (Rep(n), tail)
  {
    SlashesOf(n, tail);
  }

  lemma ReadsClosingQuote(n: nat, tail: string)
    requires EndsArg(tail)
    ensures ParseArg(Rep(2 * n) + ("\"" + tail), true) == (Rep(n), tail)
  {
    SlashesOf(2 * n, "\"" + tail);
    assert ("\"" + tail)[1..] == tail;
    ReadsEnd(0, tail);
    assert Rep(0) + tail == tail;
    assert Rep(n) + Rep(0) == Rep(n);
  }

  lemma TailHasNoBlank(w: string)
    requires w != [] && !HasBlank(w)
    ensures !HasBlank(w[1..]) && !Blank(w[0])
  {
    assert forall i :: 0 <= i < |w[1..]| ==> w[1..][i] == w[i + 1];
  }

  /** One argument: whatever is held back and still to come is read as it was. */
  lemma {:induction false} EscapedIsReadBack(w: string, n: nat, quoting: bool, tail: string)
    requires EndsArg(tail) && (!quoting ==> !HasBlank(w))
    ensures ParseArg(Escaped(w, n, quoting) + Ended(quoting, tail), quoting) == (Rep(n) + w, tail)
    decreases |w|
  {
    if w == [] {
      assert Rep(n) + w == Rep(n);
      if quoting { ReadsClosingQuote(n, tail); } else { ReadsEnd(n, tail); }
    } else {
      if !quoting { TailHasNoBlank(w); }
      if w[0] == '\\' {
        EscapedIsReadBack(w[1..], n + 1, quoting, tail);
        assert Rep(n + 1) + w[1..] == Rep(n) + w;
      } else {
        EscapedIsReadBack(w[1..], 0, quoting, tail);
        CharacterIsReadBack(w, n, quoting, Ended(quoting, tail), tail);
      }
    }
  }

  lemma EscapedSplit(w: string, n: nat, quoting: bool, end: string)
    requires w != [] && w[0] != '\\'
    ensures Escaped(w, n, quoting) + end ==
            Rep(if w[0] == '"' then 2 * n + 1 else n) + ([w[0]] + (Escaped(w[1..], 0, quoting) + end))
    ensures Rep(0) + w[1..] == w[1..] && Rep(n) + [w[0]] + w[1..] == Rep(n) + w
  {
    Regroup(Rep(if w[0] == '"' then 2 * n + 1 else n), [w[0]], Escaped(w[1..], 0, quoting), end);
    assert w == [w[0]] + w[1..];
    Regroup(Rep(n), [w[0]], w[1..], []);
  }

  lemma Regroup(a: string, b: string, c: string, d: string)
    ensures a + b + c + d == a + (b + (c + d))
    ensures a + b + c == a + (b + c)
  {
  }

  lemma CharacterIsReadBack(w: string, n: nat, quoting: bool, end: string, tail: string)
    requires w != [] && w[0] != '\\' && (quoting || !Blank(w[0]))
    requires ParseArg(Escaped(w[1..], 0, quoting) + end, quoting) == (Rep(0) + w[1..], tail)
    ensures ParseArg(Escaped(w, n, quoting) + end, quoting) == (Rep(n) + w, tail)
  {
    var rest := Escaped(w[1..], 0, quoting) + end;
    EscapedSplit(w, n, quoting, end);
    if w[0] == '"' {
      ReadsLiteralQuote(n, rest, quoting);
    } else {
      ReadsPlain(n, w[0], rest, quoting);
    }
  }

  lemma ReadsOpeningQuote(s: string)
    requires |s| > 0
    ensures ParseArg("\"" + s, false) == ParseArg(s, true)
  {
    var t := "\"" + s;
    assert Slashes(t) == 0;
    assert t[0..] == t && t[1..] == s;
    var (w, rest) := ParseArg(s, true);
    assert Rep(0) + w == w;
  }

  lemma PrintArgSplit(w: string, tail: string)
    ensures var s := Escaped(w, 0, NeedsQuoting(w)) + Ended(NeedsQuoting(w), tail);
      PrintArg(w) + tail == if NeedsQuoting(w) then "\"" + s else s
    ensures Rep(0) + w == w
  {
    if NeedsQuoting(w) {
      Regroup("\"", Escaped(w, 0, true), "\"", tail);
    }
  }

  lemma PrintedArgIsReadBack(w: string, tail: string)
    requires EndsArg(tail)
    ensures ParseArg(PrintArg(w) + tail, false) == (w, tail)
  {
    var q := NeedsQuoting(w);
    EscapedIsReadBack(w, 0, q, tail);
    PrintArgSplit(w, tail);
    if q {
      ReadsOpeningQuote(Escaped(w, 0, q) + Ended(q, tail));
    }
  }

  lemma PrintedArgStarts(w: string)
    ensures PrintArg(w) != [] && !Blank(PrintArg(w)[0])
  {
    if !NeedsQuoting(w) {
      EscapedStart(w, 0);
      assert PrintArg(w) == Escaped(w, 0, false);
    }
  }

  /** An unquoted argument starts with neither a blank nor nothing. */
  lemma {:induction false} EscapedStart(w: string, n: nat)
    requires !HasBlank(w) && (w != [] || n > 0)
    ensures Escaped(w, n, false) != [] && !Blank(Escaped(w, n, false)[0])
    decreases |w|
  {
    if w != [] {
      TailHasNoBlank(w);
      if w[0] == '\\' {
        EscapedStart(w[1..], n + 1);
      }
    }
  }

  lemma PrintArgsEndArg(ws: seq<string>)
    ensures EndsArg(PrintArgs(ws))
  {
  }

  /** One argument behind a blank, and what follows it. */
  lemma ArgsStep(s: string, w: string, tail: string)
    requires s != [] && !Blank(s[0]) && ParseArg(s, false) == (w, tail)
    ensures ParseArgs(" " + s) == [w] + ParseArgs(tail)
  {
    assert (" " + s)[1..] == s;
    assert SkipBlanks(s) == s;
    assert SkipBlanks(" " + s) == s;
  }

  lemma {:induction false} ArgsAreReadBack(ws: seq<string>)
    ensures ParseArgs(PrintArgs(ws)) == ws
    decreases |ws|
  {
    if ws != [] {
      var tail := PrintArgs(ws[1..]);
      PrintArgsEndArg(ws[1..]);
      PrintedArgIsReadBack(ws[0], tail);
      PrintedArgStarts(ws[0]);
      ArgsStep(PrintArg(ws[0]) + tail, ws[0], tail);
      Regroup(" ", PrintArg(ws[0]), tail, "");
      ArgsAreReadBack(ws[1..]);
      assert ws == [ws[0]] + ws[1..];
    }
  }

  /** The program name: read back exactly up to its quotes, which are all taken as delimiters. */
  lemma {:induction false} ProgramIsReadBack(w: string, quoted: bool, tail: string)
    requires EndsArg(tail) && '"' !in w && (!quoted ==> !HasBlank(w))
    ensures ParseProgram(w + Ended(quoted, tail), quoted) == (w, tail)
    decreases |w|
  {
    var end := Ended(quoted, tail);
    if w == [] {
      assert w + end == end;
      if quoted {
        assert end[1..] == tail;
      }
      assert ParseProgram(tail, false) == ([], tail);
    } else {
      if !quoted { TailHasNoBlank(w); }
      ProgramIsReadBack(w[1..], quoted, tail);
      assert (w + end)[1..] == w[1..] + end;
      assert w == [w[0]] + w[1..];
    }
  }

  lemma {:induction false} ProgramHasNoQuote(s: string, quoted: bool)
    ensures '"' !in ParseProgram(s, quoted).0
    decreases |s|
  {
    if s != [] {
      ProgramHasNoQuote(s[1..], if s[0] == '"' then !quoted else quoted);
    }
  }

  /**
   Command-line inverse: parsing the printed line returns the original vector if and only if the
   program name holds no double quote. Every further argument may hold anything.
   */
  lemma ParseUndoesPrint(argv: seq<string>)
    requires argv != []
    ensures Parse(Print(argv)) == argv <==> '"' !in argv[0]
  {
    var w, tail := argv[0], PrintArgs(argv[1..]);
    ProgramHasNoQuote(Print(argv), false);
    assert Parse(Print(argv))[0] == ParseProgram(Print(argv), false).0;
    if '"' !in w {
      PrintArgsEndArg(argv[1..]);
      PrintedProgramIsReadBack(w, tail);
      ArgsAreReadBack(argv[1..]);
      assert argv == [w] + argv[1..];
    }
  }

  lemma PrintProgramSplit(w: string, tail: string)
    ensures var s := w + Ended(NeedsQuoting(w), tail);
      PrintProgram(w) + tail == if NeedsQuoting(w) then "\"" + s else s
  {
    if NeedsQuoting(w) {
      Regroup("\"", w, "\"", tail);
    }
  }

  lemma ProgramOpeningQuote(s: string)
    ensures ParseProgram("\"" + s, false) == ParseProgram(s, true)
  {
    assert ("\"" + s)[1..] == s;
  }

  lemma PrintedProgramIsReadBack(w: string, tail: string)
    requires EndsArg(tail) && '"' !in w
    ensures ParseProgram(PrintProgram(w) + tail, false) == (w, tail)
  {
    ProgramIsReadBack(w, NeedsQuoting(w), tail);
    PrintProgramSplit(w, tail);
    if NeedsQuoting(w) {
      ProgramOpeningQuote(w + Ended(true, tail));
    }
  }

  // ---- build_command_line ----

  lemma Join(a: string, b: string, c: string, d: string)
    ensures a + (b + c + d) == a + b + c + d
  {
  }

  lemma {:induction false} PrintArgsAppend(ws: seq<string>, w: string)
    ensures PrintArgs(ws + [w]) == PrintArgs(ws) + " " + PrintArg(w)
    decreases |ws|
  {
    if ws == [] {
      assert ws + [w] == [w] && [w][1..] == [];
      Regroup(" ", PrintArg(w), "", "");
    } else {
      var head := " " + PrintArg(ws[0]);
      PrintArgsAppend(ws[1..], w);
      assert (ws + [w])[0] == ws[0] && (ws + [w])[1..] == ws[1..] + [w];
      Join(head, PrintArgs(ws[1..]), " ", PrintArg(w));
    }
  }

  /** The loop over the characters of one further argument. */
  method AppendEscaped(cmdline: string, ws: string, needsQuoting: bool) returns (r: string)
    ensures r == cmdline + Escaped(ws, 0, needsQuoting)
  {
    r := cmdline;
    var backslashes := 0;
    for i := 0 to |ws|
      invariant r + Escaped(ws[i..], backslashes, needsQuoting) == cmdline + Escaped(ws, 0, needsQuoting)
    {
      var c := ws[i];
      assert ws[i..][1..] == ws[i + 1..];
      if c == '\\' {
        backslashes := backslashes + 1;
        continue;
      }
      r := r + Rep(if c == '"' then 2 * backslashes + 1 else backslashes);
      r := r + [c];
      backslashes := 0;
    }
    r := r + Rep(if needsQuoting then 2 * backslashes else backslashes);
  }

  /** One round of the printer: the program name as it is, a further argument escaped, both quoted at need. */
  method AppendArgument(cmdline: string, ws: string, isProgram: bool) returns (r: string)
    ensures r == cmdline + if isProgram then PrintProgram(ws) else PrintArg(ws)
  {
    var needsQuoting := NeedsQuoting(ws);
    ghost var body := if isProgram then ws else Escaped(ws, 0, needsQuoting);
    r := cmdline;
    if needsQuoting {
      r := r + "\"";
    }
    assert r == cmdline + Quote(ws);
    if isProgram {
      r := r + ws;
    } else {
      r := AppendEscaped(r, ws, needsQuoting);
    }
    assert r == cmdline + Quote(ws) + body;
    ghost var unclosed := r;
    if needsQuoting {
      r := r + "\"";
    }
    assert r == unclosed + Quote(ws);
    Wrap(cmdline, Quote(ws), body);
  }

  lemma Wrap(before: string, quote: string, body: string)
    ensures before + quote + body + quote == before + (quote + body + quote)
  {
  }

  /** The whole printer, and what it is for. */
  method BuildCommandLine(argv: seq<string>) returns (cmdline: string)
    ensures cmdline == Print(argv)
    ensures argv != [] ==> (Parse(cmdline) == argv <==> '"' !in argv[0])
  {
    cmdline := "";
    var first := true;
    for k := 0 to |argv|
      invariant first == (k == 0)
      invariant cmdline == Print(argv[..k])
    {
      PrintPrefix(argv, k);
      if !first {
        cmdline := cmdline + " ";
      }
      first := false;
      cmdline := AppendArgument(cmdline, argv[k], k == 0);
    }
    assert argv[..|argv|] == argv;
    if argv != [] {
      ParseUndoesPrint(argv);
    }
  }

  lemma PrintPrefix(argv: seq<string>, k: nat)
    requires k < |argv|
    ensures Print(argv[..k + 1]) ==
            if k == 0 then Print(argv[..k]) + PrintProgram(argv[k]) else Print(argv[..k]) + " " + PrintArg(argv[k])
  {
    PrintAppend(argv[..k], argv[k]);
    assert argv[..k + 1] == argv[..k] + [argv[k]];
    assert k == 0 ==> Print(argv[..k]) + PrintProgram(argv[k]) == PrintProgram(argv[k]);
  }

  lemma PrintAppend(ws: seq<string>, w: string)
    ensures Print(ws + [w]) == if ws == [] then PrintProgram(w) else Print(ws) + " " + PrintArg(w)
  {
    if ws == [] {
      assert ([] + [w])[1..] == [];
    } else {
      PrintArgsAppend(ws[1..], w);
      assert (ws + [w])[1..] == ws[1..] + [w];
      Regroup(PrintProgram(ws[0]), PrintArgs(ws[1..]), " ", PrintArg(w));
      Regroup(PrintArgs(ws[1..]), " ", PrintArg(w), "");
    }
  }
}
