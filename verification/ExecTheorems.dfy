/** What `Exec` parsing accepts and what it yields. */
module ExecTheorems {
  import opened Wrappers
  import opened DesktopEntry

  // ---- printing ----

  function Escape(v: string): string {
    if v == "" then "" else (if NeedsEscape(v[0]) then ['\\', v[0]] else [v[0]]) + Escape(v[1..])
  }

  function Quote(v: string): string {
    "\"" + Escape(v) + "\""
  }

  function DoublePercent(a: string): string {
    if a == "" then "" else (if a[0] == '%' then "%%" else [a[0]]) + DoublePercent(a[1..])
  }

  function Spaces(n: nat): string {
    if n == 0 then "" else " " + Spaces(n - 1)
  }

  function Spell(t: Argument): string {
    if t.quoted then Quote(t.value) else t.value
  }

  predicate Spellable(t: Argument) {
    t.quoted || (t.value != "" && forall i | 0 <= i < |t.value| :: t.value[i] != ' ' && !IsReserved(t.value[i]))
  }

  /** The tokens written one after another, each after the given number of spaces, and spaces at the end. */
  function Layout(gaps: seq<nat>, tokens: seq<Argument>): string
    requires |gaps| == |tokens| + 1
  {
    if tokens == [] then Spaces(gaps[0]) else Spaces(gaps[0]) + Spell(tokens[0]) + Layout(gaps[1..], tokens[1..])
  }

  ghost predicate WellSpaced(gaps: seq<nat>, tokens: seq<Argument>) {
    && |gaps| == |tokens| + 1
    && (forall i | 0 < i < |tokens| :: gaps[i] > 0)
    && (forall i | 0 <= i < |tokens| :: Spellable(tokens[i]))
  }

  // ---- the tokenizer accepts exactly the layouts ----

  lemma {:induction false} UnquoteEscape(v: string, rest: string)
    ensures Unquote(Escape(v) + "\"" + rest) == Ok((v, rest))
  {
    var s := Escape(v) + "\"" + rest;
    if v == "" {
      assert s == "\"" + rest && s[1..] == rest;
    } else {
      UnquoteEscape(v[1..], rest);
      var tail := Escape(v[1..]) + "\"" + rest;
      if NeedsEscape(v[0]) {
        assert s == ['\\', v[0]] + tail && s[2..] == tail;
      } else {
        assert s == [v[0]] + tail && s[1..] == tail;
      }
      assert [v[0]] + v[1..] == v;
    }
  }

  lemma {:induction false} UnquoteIsEscaped(s: string)
    requires Unquote(s).Ok?
    ensures s == Escape(Unquote(s).value.0) + "\"" + Unquote(s).value.1
  {
    var (v, rest) := Unquote(s).value;
    if s[0] == '"' {
      assert s == "\"" + s[1..];
    } else if s[0] == '\\' {
      UnquoteIsEscaped(s[2..]);
      assert v[1..] == Unquote(s[2..]).value.0;
      assert Escape(v) == ['\\', v[0]] + Escape(v[1..]);
      assert s == ['\\', v[0]] + s[2..];
    } else {
      UnquoteIsEscaped(s[1..]);
      assert v[1..] == Unquote(s[1..]).value.0;
      assert Escape(v) == [v[0]] + Escape(v[1..]);
      assert s == [v[0]] + s[1..];
    }
  }

  lemma {:induction false} BareOf(v: string, rest: string)
    requires forall i | 0 <= i < |v| :: v[i] != ' ' && !IsReserved(v[i])
    requires rest == "" || rest[0] == ' '
    ensures Bare(v + rest) == Ok((v, rest))
  {
    if v == "" {
      assert v + rest == rest;
    } else {
      var s := v + rest;
      assert s[0] == v[0] && s[1..] == v[1..] + rest;
      BareOf(v[1..], rest);
      assert Bare(s) == Ok(([v[0]] + v[1..], rest));
      assert [v[0]] + v[1..] == v;
    }
  }

  lemma {:induction false} BareIsPlain(s: string)
    requires Bare(s).Ok?
    ensures forall i | 0 <= i < |Bare(s).value.0| :: Bare(s).value.0[i] != ' ' && !IsReserved(Bare(s).value.0[i])
  {
    if s != "" && s[0] != ' ' {
      BareIsPlain(s[1..]);
      assert Bare(s).value.0 == [s[0]] + Bare(s[1..]).value.0;
    }
  }

  lemma {:induction false} TokensSkipSpaces(n: nat, s: string)
    ensures Tokens(Spaces(n) + s) == Tokens(s)
  {
    if n == 0 {
      assert Spaces(0) + s == s;
    } else {
      TokensSkipSpaces(n - 1, s);
      assert (Spaces(n) + s)[1..] == Spaces(n - 1) + s;
    }
  }

  lemma QuotedToken(v: string, rest: string)
    requires rest == "" || rest[0] == ' '
    ensures Tokens(Quote(v) + rest) == Prepend(Argument(v, true), Tokens(rest))
  {
    UnquoteEscape(v, rest);
    assert (Quote(v) + rest)[1..] == Escape(v) + "\"" + rest;
  }

  lemma BareToken(v: string, rest: string)
    requires Spellable(Argument(v, false))
    requires rest == "" || rest[0] == ' '
    ensures Tokens(v + rest) == Prepend(Argument(v, false), Tokens(rest))
  {
    BareOf(v, rest);
    assert (v + rest)[0] == v[0];
  }

  lemma {:induction false} TokensOfLayout(gaps: seq<nat>, tokens: seq<Argument>)
    requires WellSpaced(gaps, tokens)
    ensures Tokens(Layout(gaps, tokens)) == Ok(tokens)
    decreases |tokens|
  {
    if tokens == [] {
      assert Spaces(gaps[0]) + "" == Spaces(gaps[0]);
      TokensSkipSpaces(gaps[0], "");
    } else {
      var t, rest := tokens[0], Layout(gaps[1..], tokens[1..]);
      TokensOfLayout(gaps[1..], tokens[1..]);
      assert rest == "" || rest[0] == ' ';
      var s := Spell(t) + rest;
      assert Spaces(gaps[0]) + Spell(t) + rest == Spaces(gaps[0]) + s;
      TokensSkipSpaces(gaps[0], s);
      if t.quoted {
        QuotedToken(t.value, rest);
      } else {
        BareToken(t.value, rest);
      }
      assert [t] + tokens[1..] == tokens;
    }
  }

  /** What follows a token starts with a space, so the next gap is not empty. */
  lemma LayoutStartsWithSpace(gaps: seq<nat>, tokens: seq<Argument>)
    requires WellSpaced(gaps, tokens) && tokens != []
    requires Layout(gaps, tokens) == "" || Layout(gaps, tokens)[0] == ' '
    ensures gaps[0] > 0
  {
  }

  lemma WiderGap(gaps: seq<nat>, tokens: seq<Argument>) returns (wider: seq<nat>)
    requires WellSpaced(gaps, tokens)
    ensures WellSpaced(wider, tokens) && Layout(wider, tokens) == " " + Layout(gaps, tokens)
  {
    wider := gaps[0 := gaps[0] + 1];
    assert wider[1..] == gaps[1..];
    var before, after := Spaces(gaps[0]), Spaces(wider[0]);
    assert after == " " + before;
    if tokens != [] {
      SameWithSpace(before, Spell(tokens[0]), Layout(gaps[1..], tokens[1..]));
    }
  }

  lemma SameWithSpace(before: string, spell: string, rest: string)
    ensures " " + before + spell + rest == " " + (before + spell + rest)
  {
  }

  lemma OneMoreToken(gaps: seq<nat>, t: Argument, tokens: seq<Argument>) returns (more: seq<nat>)
    requires WellSpaced(gaps, tokens) && Spellable(t)
    requires Layout(gaps, tokens) == "" || Layout(gaps, tokens)[0] == ' '
    ensures WellSpaced(more, [t] + tokens) && Layout(more, [t] + tokens) == Spell(t) + Layout(gaps, tokens)
  {
    more := [0] + gaps;
    assert more[1..] == gaps && ([t] + tokens)[1..] == tokens;
    assert Spaces(0) + Spell(t) == Spell(t);
    if tokens != [] {
      LayoutStartsWithSpace(gaps, tokens);
    }
  }

  /** The first token of a text that starts with one, and what is left of the text. */
  lemma FirstToken(s: string) returns (t: Argument, rest: string)
    requires Tokens(s).Ok? && s != "" && s[0] != ' '
    ensures Spellable(t) && s == Spell(t) + rest && (rest == "" || rest[0] == ' ') && |rest| < |s|
    ensures Tokens(rest).Ok? && Tokens(s).value == [t] + Tokens(rest).value
  {
    if s[0] == '"' {
      UnquoteIsEscaped(s[1..]);
      assert s == "\"" + s[1..];
      t, rest := Argument(Unquote(s[1..]).value.0, true), Unquote(s[1..]).value.1;
    } else {
      BareIsPlain(s);
      t, rest := Argument(Bare(s).value.0, false), Bare(s).value.1;
    }
  }

  lemma {:induction false} LayoutOfTokens(s: string) returns (gaps: seq<nat>)
    requires Tokens(s).Ok?
    ensures WellSpaced(gaps, Tokens(s).value) && s == Layout(gaps, Tokens(s).value)
    decreases |s|
  {
    if s == "" {
      gaps := [0];
    } else if s[0] == ' ' {
      gaps := LayoutOfTokens(s[1..]);
      gaps := WiderGap(gaps, Tokens(s[1..]).value);
      assert s == " " + s[1..];
    } else {
      var t, rest := FirstToken(s);
      gaps := LayoutOfTokens(rest);
      gaps := OneMoreToken(gaps, t, Tokens(rest).value);
    }
  }

  /** The tokenizer recognizes exactly the layouts: it yields some tokens precisely for the texts that spell them, each
      quoted in whole with exactly the required escapes or free of reserved characters, with spaces between. */
  lemma TokenizerAcceptsExactlyLayouts(s: string, tokens: seq<Argument>)
    ensures Tokens(s) == Ok(tokens) <==> exists gaps :: WellSpaced(gaps, tokens) && s == Layout(gaps, tokens)
  {
    if Tokens(s) == Ok(tokens) {
      var gaps := LayoutOfTokens(s);
    }
    if gaps :| WellSpaced(gaps, tokens) && s == Layout(gaps, tokens) {
      TokensOfLayout(gaps, tokens);
    }
  }

  // ---- percent signs ----

  /** Inside quotes the only accepted percent signs are doubled ones. */
  lemma {:induction false} QuotedExpansionUndoublesPercent(v: string, a: string)
    ensures ExpandQuoted(v) == Ok(a) <==> v == DoublePercent(a)
  {
    if a != "" {
      assert a == [a[0]] + a[1..];
    }
    if v == "" {
      assert a != "" ==> DoublePercent(a) != "";
    } else if v[0] != '%' {
      assert v == [v[0]] + v[1..];
      if a != "" && a[0] == v[0] {
        QuotedExpansionUndoublesPercent(v[1..], a[1..]);
        assert DoublePercent(a) == [v[0]] + DoublePercent(a[1..]);
      }
    } else if |v| > 1 && v[1] == '%' {
      assert v == "%%" + v[2..];
      if a != "" && a[0] == '%' {
        QuotedExpansionUndoublesPercent(v[2..], a[1..]);
        assert DoublePercent(a) == "%%" + DoublePercent(a[1..]);
      }
    } else {
      assert a != "" && a[0] == '%' ==> DoublePercent(a)[1] == '%';
    }
  }

  // ---- round trip ----

  /** The canonical spelling of an argument list. */
  function Print(arguments: seq<string>): string {
    if arguments == [] then ""
    else if |arguments| == 1 then Quote(DoublePercent(arguments[0]))
    else Quote(DoublePercent(arguments[0])) + " " + Print(arguments[1..])
  }

  function Quoted(arguments: seq<string>): seq<Argument> {
    if arguments == [] then [] else [Argument(DoublePercent(arguments[0]), true)] + Quoted(arguments[1..])
  }

  lemma {:induction false} TokensOfPrint(arguments: seq<string>)
    ensures Tokens(Print(arguments)) == Ok(Quoted(arguments))
    decreases |arguments|
  {
    if arguments != [] {
      var v := DoublePercent(arguments[0]);
      TokensOfPrint(arguments[1..]);
      if |arguments| == 1 {
        assert Quote(v) + "" == Quote(v);
        QuotedToken(v, "");
      } else {
        var rest := " " + Print(arguments[1..]);
        assert rest[1..] == Print(arguments[1..]);
        assert Quote(v) + " " + Print(arguments[1..]) == Quote(v) + rest;
        QuotedToken(v, rest);
      }
    }
  }

  lemma {:induction false} ExpandQuotedAll(arguments: seq<string>, seen: bool, ctx: Context)
    ensures ExpandAll(Quoted(arguments), seen, ctx) == Ok(arguments)
    decreases |arguments|
  {
    if arguments != [] {
      QuotedExpansionUndoublesPercent(DoublePercent(arguments[0]), arguments[0]);
      ExpandQuotedAll(arguments[1..], seen, ctx);
      assert Quoted(arguments)[1..] == Quoted(arguments[1..]);
      assert [arguments[0]] + arguments[1..] == arguments;
    }
  }

  predicate IsPlain(s: string) {
    IsAscii(s) && '\0' !in s
  }

  lemma PlainConcat(a: string, b: string)
    ensures IsPlain(a + b) <==> IsPlain(a) && IsPlain(b)
  {
    assert forall i | 0 <= i < |a| :: a[i] == (a + b)[i];
    assert forall i | 0 <= i < |b| :: b[i] == (a + b)[|a| + i];
  }

  lemma {:induction false} EscapeIsPlain(v: string)
    requires IsPlain(v)
    ensures IsPlain(Escape(v))
  {
    if v != "" {
      EscapeIsPlain(v[1..]);
      PlainConcat(if NeedsEscape(v[0]) then ['\\', v[0]] else [v[0]], Escape(v[1..]));
    }
  }

  lemma {:induction false} DoublePercentIsPlain(a: string)
    requires IsPlain(a)
    ensures IsPlain(DoublePercent(a))
  {
    if a != "" {
      DoublePercentIsPlain(a[1..]);
      PlainConcat(if a[0] == '%' then "%%" else [a[0]], DoublePercent(a[1..]));
    }
  }

  lemma {:induction false} PrintIsPlain(arguments: seq<string>)
    requires forall a | a in arguments :: IsPlain(a)
    ensures IsPlain(Print(arguments))
    decreases |arguments|
  {
    if arguments != [] {
      var v := DoublePercent(arguments[0]);
      DoublePercentIsPlain(arguments[0]);
      EscapeIsPlain(v);
      PlainConcat("\"", Escape(v));
      PlainConcat("\"" + Escape(v), "\"");
      PrintIsPlain(arguments[1..]);
      PlainConcat(Quote(v), " ");
      PlainConcat(Quote(v) + " ", Print(arguments[1..]));
    }
  }

  /** Parsing a printed argument list gives the list back, whatever the session's name, icon and file are. */
  lemma ParseInvertsPrint(arguments: seq<string>, ctx: Context)
    requires forall a | a in arguments :: IsPlain(a)
    requires arguments != [] && arguments[0] != "" && '=' !in arguments[0]
    ensures ParseExec(Print(arguments), ctx) == Ok(arguments)
  {
    PrintIsPlain(arguments);
    TokensOfPrint(arguments);
    ExpandQuotedAll(arguments, false, ctx);
  }

  /** The conditions are not only sufficient: printing any other list is refused. */
  lemma PrintedListsParseExactlyWhenExecutable(arguments: seq<string>, ctx: Context)
    requires forall a | a in arguments :: IsPlain(a)
    ensures ParseExec(Print(arguments), ctx).Ok? <==> arguments != [] && arguments[0] != "" && '=' !in arguments[0]
  {
    PrintIsPlain(arguments);
    TokensOfPrint(arguments);
    ExpandQuotedAll(arguments, false, ctx);
  }

  // ---- file codes ----

  /** The occurrences of %f, %F, %u and %U, counted over whole percent pairs. */
  function FileCodes(v: string): nat {
    if |v| < 2 then 0
    else if v[0] != '%' then FileCodes(v[1..])
    else (if IsFileCode(v[1]) then 1 else 0) + FileCodes(v[2..])
  }

  function OwnFileCodes(t: Argument): nat {
    if t.quoted then 0 else FileCodes(t.value)
  }

  function UnquotedFileCodes(tokens: seq<Argument>): nat {
    if tokens == [] then 0
    else OwnFileCodes(tokens[0]) + UnquotedFileCodes(tokens[1..])
  }

  /** A file code seen earlier changes nothing but to forbid another one. */
  lemma {:induction false} BareFileCodes(v: string, whole: bool, ctx: Context)
    ensures var first := ExpandBare(v, whole, false, ctx);
            && (first.Ok? ==> FileCodes(v) <= 1 && first.value.1 == (FileCodes(v) == 1))
            && (ExpandBare(v, whole, true, ctx).Ok? <==> first.Ok? && FileCodes(v) == 0)
            && (ExpandBare(v, whole, true, ctx).Ok? ==> ExpandBare(v, whole, true, ctx) == Ok((first.value.0, true)))
    decreases |v|
  {
    if v != "" {
      if v[0] != '%' {
        BareFileCodes(v[1..], whole, ctx);
      } else if |v| > 1 {
        BareFileCodes(v[2..], whole, ctx);
      }
    }
  }

  /** The same for one token. */
  lemma FileCodesOfToken(t: Argument, seen: bool, ctx: Context)
    ensures var first := ExpandToken(t, seen, ctx);
            && (first.Ok? <==> ExpandToken(t, false, ctx).Ok? && (seen ==> OwnFileCodes(t) == 0))
            && (first.Ok? ==> OwnFileCodes(t) <= 1 && first.value.1 == (seen || OwnFileCodes(t) == 1))
  {
    if t.quoted {
    } else if t.value == "%i" {
      assert FileCodes(t.value) == FileCodes(t.value[2..]) == 0;
    } else {
      BareFileCodes(t.value, |t.value| == 2, ctx);
    }
  }

  lemma {:induction false} FileCodesOverTokens(tokens: seq<Argument>, seen: bool, ctx: Context)
    ensures ExpandAll(tokens, seen, ctx).Ok? <==>
            && (forall t | t in tokens :: ExpandToken(t, false, ctx).Ok?)
            && UnquotedFileCodes(tokens) + (if seen then 1 else 0) <= 1
    decreases |tokens|
  {
    if tokens != [] {
      var t, rest := tokens[0], tokens[1..];
      assert tokens == [t] + rest;
      FileCodesOfToken(t, seen, ctx);
      var first := ExpandToken(t, seen, ctx);
      if first.Ok? {
        FileCodesOverTokens(rest, first.value.1, ctx);
      }
    }
  }

  /** Expansion succeeds exactly when every token expands on its own and there is at most one file code in all. */
  lemma AtMostOneFileCode(tokens: seq<Argument>, ctx: Context)
    ensures ExpandAll(tokens, false, ctx).Ok? <==>
            (forall t | t in tokens :: ExpandToken(t, false, ctx).Ok?) && UnquotedFileCodes(tokens) <= 1
  {
    FileCodesOverTokens(tokens, false, ctx);
  }

  /** So an Exec value that is accepted asks at most once for files. */
  lemma AcceptedExecHasOneFileCode(exec: string, ctx: Context)
    requires ParseExec(exec, ctx).Ok?
    ensures Tokens(exec).Ok? && UnquotedFileCodes(Tokens(exec).value) <= 1
    ensures forall t | t in Tokens(exec).value :: ExpandToken(t, false, ctx).Ok?
  {
    AtMostOneFileCode(Tokens(exec).value, ctx);
  }
}
