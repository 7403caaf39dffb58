/** Shell printing (`syncShellQuote`, `syncShellCommand`) against an independent
    reader: the token recognition and quoting rules of IEEE Std 1003.1-2017,
    Shell Command Language, sections 2.2.1-2.2.3 and 2.3. */
module Shell {
  import opened GoStrings

  // ---------------------------------------------------------------- printer

  /** `strings.ReplaceAll(value, "'", ...)`: close the quote, print the
      apostrophe between double quotes, reopen. */
  function EscapeQuotes(value: string): string {
    if value == "" then ""
    else (if value[0] == '\'' then "'\"'\"'" else [value[0]]) + EscapeQuotes(value[1..])
  }

  function Quote(value: string): string {
    "'" + EscapeQuotes(value) + "'"
  }

  /** What `strings.Join` makes of the quoted arguments. */
  function CommandLine(args: seq<string>): string {
    if |args| == 0 then ""
    else if |args| == 1 then Quote(args[0])
    else Quote(args[0]) + " " + CommandLine(args[1..])
  }

  // ----------------------------------------------------------------- reader

  datatype Mode = Plain | Single | Double

  /** Characters that end or change an unquoted word: operators, expansions,
      globs, comments and tildes. A line using one is outside this reader. */
  predicate Special(c: char) {
    c in "|&;<>()$`#*?[~"
  }

  function Text(word: Option<string>): string {
    match word
    case None => ""
    case Some(w) => w
  }

  function Emit(word: Option<string>): seq<string> {
    match word
    case None => []
    case Some(w) => [w]
  }

  /** Reads the words of the first command line of `s` and what follows its
      newline. `word` is the word under construction; `None` as a result means
      an unclosed quote or a construct outside plain words. */
  function Scan(s: string, mode: Mode, word: Option<string>): Option<(seq<string>, string)>
    decreases |s|
  {
    if s == "" then
      if mode.Plain? then Some((Emit(word), "")) else None
    else
      match mode
      case Single =>
        if s[0] == '\'' then Scan(s[1..], Plain, Some(Text(word)))
        else Scan(s[1..], Single, Some(Text(word) + [s[0]]))
      case Double =>
        if s[0] == '"' then Scan(s[1..], Plain, Some(Text(word)))
        else if s[0] == '$' || s[0] == '`' then None
        else if s[0] == '\\' && |s| > 1 && s[1] == '\n' then Scan(s[2..], Double, word)
        else if s[0] == '\\' && |s| > 1 && s[1] in "$`\"\\" then
          Scan(s[2..], Double, Some(Text(word) + [s[1]]))
        else Scan(s[1..], Double, Some(Text(word) + [s[0]]))
      case Plain =>
        if s[0] == '\'' then Scan(s[1..], Single, Some(Text(word)))
        else if s[0] == '"' then Scan(s[1..], Double, Some(Text(word)))
        else if s[0] == '\\' then
          if |s| == 1 then None
          else if s[1] == '\n' then Scan(s[2..], Plain, word)
          else Scan(s[2..], Plain, Some(Text(word) + [s[1]]))
        else if s[0] == ' ' || s[0] == '\t' then
          match Scan(s[1..], Plain, None)
          case None => None
          case Some((words, rest)) => Some((Emit(word) + words, rest))
        else if s[0] == '\n' then Some((Emit(word), s[1..]))
        else if Special(s[0]) then None
        else Scan(s[1..], Plain, Some(Text(word) + [s[0]]))
  }

  /** The words of the first line of a script and the rest of the script. */
  function FirstLine(s: string): Option<(seq<string>, string)> {
    Scan(s, Plain, None)
  }

  // ------------------------------------------------------------- round trip

  /** One character of quoted text. */
  lemma ScanEscapedOne(c: char, more: string, word: string)
    ensures var one := if c == '\'' then "'\"'\"'" else [c];
      Scan(one + more, Single, Some(word)) == Scan(more, Single, Some(word + [c]))
  {
    if c == '\'' {
      ScanApostrophe(more, word);
    } else {
      assert ([c] + more)[1..] == more;
    }
  }

  /** Inside single quotes the escaped text reads back as the text itself. */
  lemma {:induction false} ScanEscaped(value: string, rest: string, word: string)
    ensures Scan(EscapeQuotes(value) + "'" + rest, Single, Some(word))
         == Scan(rest, Plain, Some(word + value))
    decreases |value|
  {
    if value == "" {
      assert EscapeQuotes(value) + "'" + rest == "'" + rest;
      assert ("'" + rest)[1..] == rest;
      assert word + value == word;
    } else {
      var one := if value[0] == '\'' then "'\"'\"'" else [value[0]];
      var more := EscapeQuotes(value[1..]) + "'" + rest;
      assert EscapeQuotes(value) + "'" + rest == one + more;
      ScanEscapedOne(value[0], more, word);
      ScanEscaped(value[1..], rest, word + [value[0]]);
      assert word + [value[0]] + value[1..] == word + value;
    }
  }

  /** The five-character escape stands for one apostrophe. */
  lemma ScanApostrophe(more: string, word: string)
    ensures Scan("'\"'\"'" + more, Single, Some(word)) == Scan(more, Single, Some(word + "'"))
  {
    var s0 := "'\"'\"'" + more;
    var s1, s2, s3, s4 := s0[1..], s0[2..], s0[3..], s0[4..];
    assert s0[0] == '\'' && s1[0] == '"' && s2[0] == '\'' && s3[0] == '"' && s4[0] == '\'';
    assert s1[1..] == s2 && s2[1..] == s3 && s3[1..] == s4 && s4[1..] == more;
    assert Scan(s0, Single, Some(word)) == Scan(s1, Plain, Some(word)) == Scan(s2, Double, Some(word));
    assert word + ['\''] == word + "'";
    assert Scan(s2, Double, Some(word)) == Scan(s3, Double, Some(word + "'"));
    assert Scan(s3, Double, Some(word + "'")) == Scan(s4, Plain, Some(word + "'"));
  }

  /** A quoted value continues the word it stands in with exactly its text. */
  lemma ScanQuoted(value: string, rest: string, word: Option<string>)
    ensures Scan(Quote(value) + rest, Plain, word) == Scan(rest, Plain, Some(Text(word) + value))
  {
    var s := Quote(value) + rest;
    assert s[1..] == EscapeQuotes(value) + "'" + rest;
    ScanEscaped(value, rest, Text(word));
  }

  /** Reading a printed command gives back the argument list, whatever the
      arguments contain. */
  lemma {:induction false} CommandRoundTrip(args: seq<string>)
    ensures Scan(CommandLine(args), Plain, None) == Some((args, ""))
  {
    if |args| == 1 {
      ScanQuoted(args[0], "", None);
      assert Quote(args[0]) + "" == CommandLine(args);
      assert Text(None) + args[0] == args[0];
      assert [args[0]] == args;
    } else if |args| > 1 {
      var rest := " " + CommandLine(args[1..]);
      assert CommandLine(args) == Quote(args[0]) + rest;
      ScanQuoted(args[0], rest, None);
      assert Text(None) + args[0] == args[0];
      assert rest[1..] == CommandLine(args[1..]);
      CommandRoundTrip(args[1..]);
      assert [args[0]] + args[1..] == args;
    }
  }

  /** Two argument lists print alike only if they are equal. */
  lemma CommandInjective(a: seq<string>, b: seq<string>)
    requires CommandLine(a) == CommandLine(b)
    ensures a == b
  {
    CommandRoundTrip(a);
    CommandRoundTrip(b);
  }

  // ---------------------------------------------------------- nested quoting

  const BASH := "/bin/bash -lc "

  /** The command sent to a remote host: a script as the one quoted argument of
      a login shell, the script itself beginning with a quoted assignment. */
  function RemoteCommand(variable: string, value: string, body: string): string {
    BASH + Quote(AssignScript(variable, value, body))
  }

  function AssignScript(variable: string, value: string, body: string): string {
    variable + "=" + Quote(value) + "\n" + body
  }

  predicate PlainWord(s: string) {
    forall i :: 0 <= i < |s| ==> s[i] !in "'\"\\ \t\n" && !Special(s[i])
  }

  lemma ScanOnePlain(c: char, rest: string, word: Option<string>)
    requires c !in "'\"\\ \t\n" && !Special(c)
    ensures Scan([c] + rest, Plain, word) == Scan(rest, Plain, Some(Text(word) + [c]))
  {
    assert ([c] + rest)[1..] == rest;
  }

  lemma {:induction false} ScanPlain(w: string, rest: string, word: Option<string>)
    requires PlainWord(w) && w != ""
    ensures Scan(w + rest, Plain, word) == Scan(rest, Plain, Some(Text(word) + w))
    decreases |w|
  {
    assert w + rest == [w[0]] + (w[1..] + rest);
    ScanOnePlain(w[0], w[1..] + rest, word);
    if |w| == 1 {
      assert w[1..] + rest == rest;
      assert [w[0]] == w;
    } else {
      ScanPlain(w[1..], rest, Some(Text(word) + [w[0]]));
      assert Text(word) + [w[0]] + w[1..] == Text(word) + w;
    }
  }

  /** A plain word before a blank is the first word of the line. */
  lemma ScanWord(w: string, rest: string)
    requires PlainWord(w) && w != ""
    requires Scan(rest, Plain, None).Some?
    ensures var tail := Scan(rest, Plain, None).value;
            Scan(w + (" " + rest), Plain, None) == Some(([w] + tail.0, tail.1))
  {
    ScanPlain(w, " " + rest, None);
    assert Text(None) + w == w;
    assert (" " + rest)[1..] == rest;
  }

  /** Two plain words before a line that reads as words. */
  lemma ScanTwoWords(v: string, w: string, rest: string, words: seq<string>)
    requires PlainWord(v) && v != "" && PlainWord(w) && w != ""
    requires Scan(rest, Plain, None) == Some((words, ""))
    ensures Scan(v + (" " + (w + (" " + rest))), Plain, None) == Some(([v, w] + words, ""))
  {
    ScanWord(w, rest);
    ScanWord(v, w + (" " + rest));
    assert [v] + ([w] + words) == [v, w] + words;
  }

  /** The outer shell hands the script over untouched. */
  lemma OuterShell(script: string)
    ensures FirstLine(BASH + Quote(script)) == Some((["/bin/bash", "-lc", script], ""))
  {
    var q := Quote(script);
    CommandRoundTrip([script]);
    ScanTwoWords("/bin/bash", "-lc", q, [script]);
    assert ["/bin/bash", "-lc"] + [script] == ["/bin/bash", "-lc", script];
    BashPrefix(q);
  }

  lemma BashPrefix(q: string)
    ensures BASH + q == "/bin/bash" + (" " + ("-lc" + (" " + q)))
  {
    assert BASH == "/bin/bash" + (" " + ("-lc" + " "));
  }

  /** The inner shell sees the assignment with the value intact, then the body. */
  lemma InnerShell(variable: string, value: string, body: string)
    requires PlainWord(variable)
    ensures FirstLine(AssignScript(variable, value, body)) == Some(([variable + "=" + value], body))
  {
    var rest := "\n" + body;
    var name := variable + "=";
    assert AssignScript(variable, value, body) == name + (Quote(value) + rest);
    ScanPlain(name, Quote(value) + rest, None);
    ScanQuoted(value, rest, Some(Text(None) + name));
    assert Text(None) + name == name;
    assert rest[1..] == body;
  }

  /** A path quoted into a script quoted into a remote command comes back
      unchanged after the two shells have each read their part. */
  lemma NestedRoundTrip(variable: string, value: string, body: string)
    requires PlainWord(variable)
    ensures var outer := FirstLine(RemoteCommand(variable, value, body));
            && outer.Some? && |outer.value.0| == 3
            && outer.value.0[..2] == ["/bin/bash", "-lc"]
            && FirstLine(outer.value.0[2]) == Some(([variable + "=" + value], body))
  {
    OuterShell(AssignScript(variable, value, body));
    InnerShell(variable, value, body);
  }

  // ----------------------------------------------------- the printing method

  /** `syncShellCommand`: quote every argument into a slice, then join it. */
  method ShellCommand(args: seq<string>) returns (line: string)
    ensures line == CommandLine(args)
    ensures Scan(line, Plain, None) == Some((args, ""))
  {
    var quoted: seq<string> := [];
    for i := 0 to |args|
      invariant |quoted| == i
      invariant forall k :: 0 <= k < i ==> quoted[k] == Quote(args[k])
    {
      quoted := quoted + [Quote(args[i])];
    }
    line := Join(quoted, ' ');
    JoinQuoted(args, quoted);
    CommandRoundTrip(args);
  }

  lemma {:induction false} JoinQuoted(args: seq<string>, quoted: seq<string>)
    requires |quoted| == |args|
    requires forall k :: 0 <= k < |args| ==> quoted[k] == Quote(args[k])
    ensures Join(quoted, ' ') == CommandLine(args)
  {
    if |args| > 1 {
      JoinQuoted(args[1..], quoted[1..]);
      assert quoted[0] + [' '] + Join(quoted[1..], ' ') == Quote(args[0]) + " " + CommandLine(args[1..]);
    }
  }
}
