/** Quoting an argument list for the shell (`shell_join` in `src/desktop_entry.rs`), against the shell's own rules for
    quoting and splitting words: sections 2.2.1, 2.2.2 and 2.3 of the Shell Command Language volume of POSIX.1-2017. */
module Shell {
  import opened Wrappers
  import opened DesktopEntry
  import opened ExecTheorems

  // ---- the shell's reading of a line ----

  /** Characters that, unquoted, would end a word, expand or start a different kind of quoting. */
  predicate IsSpecial(c: char) {
    IsReserved(c) || c == '[' || c == '!' || c == '{' || c == '}' || c == '\r'
  }

  /** Reads one word: a backslash preserves the next character (and, before a newline, vanishes with it), single quotes
      preserve everything between them. Anything else special is outside these sections and yields None. */
  function ReadWord(s: string): (r: Option<(string, string)>)
    ensures r.Some? ==> |r.value.1| <= |s| && (r.value.1 == "" || r.value.1[0] == ' ')
    ensures r.Some? && s != "" && s[0] != ' ' ==> |r.value.1| < |s|
    decreases |s|
  {
    if s == "" || s[0] == ' ' then Some(("", s))
    else if s[0] == '\\' then
      if |s| == 1 then None
      else
        var rest := ReadWord(s[2..]);
        if rest.None? then None
        else if s[1] == '\n' then rest
        else Some(([s[1]] + rest.value.0, rest.value.1))
    else if s[0] == '\'' then ReadSingleQuoted(s[1..])
    else if IsSpecial(s[0]) then None
    else
      var rest := ReadWord(s[1..]);
      if rest.None? then None else Some(([s[0]] + rest.value.0, rest.value.1))
  }

  function ReadSingleQuoted(s: string): (r: Option<(string, string)>)
    ensures r.Some? ==> |r.value.1| < |s| && (r.value.1 == "" || r.value.1[0] == ' ')
    decreases |s|
  {
    if s == "" then None
    else if s[0] == '\'' then ReadWord(s[1..])
    else
      var rest := ReadSingleQuoted(s[1..]);
      if rest.None? then None else Some(([s[0]] + rest.value.0, rest.value.1))
  }

  function Words(s: string): Option<seq<string>>
    decreases |s|
  {
    if s == "" then Some([])
    else if s[0] == ' ' then Words(s[1..])
    else
      var word := ReadWord(s);
      if word.None? then None
      else
        var rest := Words(word.value.1);
        if rest.None? then None else Some([word.value.0] + rest.value)
  }

  // ---- the quoter ----

  function ShellEscape(argument: string): string {
    if argument == "" then ""
    else (if argument[0] == '\'' then "'\\''" else [argument[0]]) + ShellEscape(argument[1..])
  }

  function ShellQuote(argument: string): string {
    "'" + ShellEscape(argument) + "'"
  }

  function ShellJoin(arguments: seq<string>): string {
    if arguments == [] then ""
    else if |arguments| == 1 then ShellQuote(arguments[0])
    else ShellQuote(arguments[0]) + " " + ShellJoin(arguments[1..])
  }

  lemma {:induction false} ShellEscapeAppend(a: string, c: char)
    ensures ShellEscape(a + [c]) == ShellEscape(a) + (if c == '\'' then "'\\''" else [c])
  {
    if a == "" {
      assert a + [c] == [c];
    } else {
      ShellEscapeAppend(a[1..], c);
      assert (a + [c])[1..] == a[1..] + [c];
    }
  }

  lemma {:induction false} ShellJoinAppend(arguments: seq<string>, last: string)
    requires arguments != []
    ensures ShellJoin(arguments + [last]) == ShellJoin(arguments) + " " + ShellQuote(last)
  {
    var all := arguments + [last];
    assert all[0] == arguments[0] && all[1..] == arguments[1..] + [last];
    if |arguments| == 1 {
      assert all[1..] == [last];
    } else {
      ShellJoinAppend(arguments[1..], last);
      var first := ShellQuote(arguments[0]) + " ";
      assert first + (ShellJoin(arguments[1..]) + " " + ShellQuote(last))
          == first + ShellJoin(arguments[1..]) + " " + ShellQuote(last);
    }
  }

  /** `shell_join`: each argument is quoted character by character, and the quoted arguments are joined. */
  method ComputeShellJoin(arguments: seq<string>) returns (line: string)
    ensures line == ShellJoin(arguments)
  {
    line := "";
    for i := 0 to |arguments|
      invariant line == ShellJoin(arguments[..i])
    {
      var argument := arguments[i];
      var quoted := "'";
      for j := 0 to |argument|
        invariant quoted == "'" + ShellEscape(argument[..j])
      {
        ShellEscapeAppend(argument[..j], argument[j]);
        assert argument[..j + 1] == argument[..j] + [argument[j]];
        if argument[j] == '\'' {
          quoted := quoted + "'\\''";
        } else {
          quoted := quoted + [argument[j]];
        }
      }
      assert argument[..|argument|] == argument;
      quoted := quoted + "'";
      assert arguments[..i + 1] == arguments[..i] + [argument];
      if i == 0 {
        line := quoted;
      } else {
        ShellJoinAppend(arguments[..i], argument);
        line := line + " " + quoted;
      }
    }
    assert arguments[..|arguments|] == arguments;
  }

  // ---- nothing is lost or reinterpreted ----

  /** Closing the quoting for a protected quote and opening it again. */
  lemma ReadProtectedQuote(tail: string, v: string, rest: string)
    requires ReadSingleQuoted(tail) == Some((v, rest))
    ensures ReadSingleQuoted("'\\''" + tail) == Some(("'" + v, rest))
  {
    var s := "'\\''" + tail;
    assert s[1..] == "\\''" + tail && ("\\''" + tail)[2..] == "'" + tail && ("'" + tail)[1..] == tail;
    assert ReadWord("'" + tail) == ReadSingleQuoted(tail);
    assert ReadWord("\\''" + tail) == Some(("'" + v, rest));
  }

  /** Inside single quotes an escaped argument reads back as itself: each quote in it closes the quoting, is read as a
      protected quote, and opens it again. */
  lemma {:induction false} ReadEscaped(argument: string, rest: string)
    requires rest == "" || rest[0] == ' '
    ensures ReadSingleQuoted(ShellEscape(argument) + "'" + rest) == Some((argument, rest))
  {
    var s := ShellEscape(argument) + "'" + rest;
    if argument == "" {
      assert s == "'" + rest && s[1..] == rest;
    } else {
      ReadEscaped(argument[1..], rest);
      var tail := ShellEscape(argument[1..]) + "'" + rest;
      assert [argument[0]] + argument[1..] == argument;
      if argument[0] == '\'' {
        assert s == "'\\''" + tail;
        ReadProtectedQuote(tail, argument[1..], rest);
      } else {
        assert s == [argument[0]] + tail && s[1..] == tail;
      }
    }
  }

  lemma ReadQuoted(argument: string, rest: string)
    requires rest == "" || rest[0] == ' '
    ensures ReadWord(ShellQuote(argument) + rest) == Some((argument, rest))
  {
    ReadEscaped(argument, rest);
    assert (ShellQuote(argument) + rest)[1..] == ShellEscape(argument) + "'" + rest;
  }

  lemma QuotedWord(argument: string, rest: string)
    requires rest == "" || rest[0] == ' '
    ensures Words(ShellQuote(argument) + rest) ==
            if Words(rest).None? then None else Some([argument] + Words(rest).value)
  {
    ReadQuoted(argument, rest);
    assert (ShellQuote(argument) + rest)[0] == '\'';
  }

  /** Splitting the joined line gives back exactly the arguments: empty ones, ones with spaces, quotes, newlines and
      metacharacters included. */
  lemma {:induction false} SplitInvertsJoin(arguments: seq<string>)
    ensures Words(ShellJoin(arguments)) == Some(arguments)
    decreases |arguments|
  {
    if |arguments| == 1 {
      QuotedWord(arguments[0], "");
      assert ShellQuote(arguments[0]) + "" == ShellQuote(arguments[0]);
      assert Words("") == Some([]) && [arguments[0]] + [] == arguments;
    } else if arguments != [] {
      var rest := " " + ShellJoin(arguments[1..]);
      SplitInvertsJoin(arguments[1..]);
      assert rest[1..] == ShellJoin(arguments[1..]);
      assert ShellJoin(arguments) == ShellQuote(arguments[0]) + rest;
      QuotedWord(arguments[0], rest);
      assert [arguments[0]] + arguments[1..] == arguments;
    }
  }

  /** What `Exec` says is what the shell runs: for any accepted Exec value, the words of the joined command are the parsed
      arguments; and every argument list that can be an Exec value survives both conversions. */
  lemma ExecSurvivesTheShell(exec: string, ctx: Context)
    requires ParseExec(exec, ctx).Ok?
    ensures Words(ShellJoin(ParseExec(exec, ctx).value)) == Some(ParseExec(exec, ctx).value)
  {
    SplitInvertsJoin(ParseExec(exec, ctx).value);
  }

  lemma PrintedArgumentsReachTheShell(arguments: seq<string>, ctx: Context)
    requires forall a | a in arguments :: IsPlain(a)
    requires arguments != [] && arguments[0] != "" && '=' !in arguments[0]
    ensures var parsed := ParseExec(Print(arguments), ctx);
            parsed.Ok? && Words(ShellJoin(parsed.value)) == Some(arguments)
  {
    ParseInvertsPrint(arguments, ctx);
    SplitInvertsJoin(arguments);
  }

  /** Joining is injective, so no two argument lists can be confused by the shell. */
  lemma JoinIsInjective(a: seq<string>, b: seq<string>)
    requires ShellJoin(a) == ShellJoin(b)
    ensures a == b
  {
    SplitInvertsJoin(a);
    SplitInvertsJoin(b);
  }
}
