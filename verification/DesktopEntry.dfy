/** The Desktop Entry `Exec` value: splitting, unquoting and field codes (`src/desktop_entry.rs`), after the section
    "The Exec key" of the freedesktop.org Desktop Entry Specification. */
module DesktopEntry {
  import opened Wrappers

  datatype Argument = Argument(value: string, quoted: bool)

  datatype ExecError =
    | NotAscii | NulByte
    | IncompleteEscape | InvalidEscape | UnescapedReserved | UnmatchedQuote | NotQuotedInWhole | ReservedOutsideQuotes
    | LiteralPercent | QuotedFieldCode | SecondFileCode | IncompleteArgumentCode | UnknownFieldCode
    | NoExecutable | EmptyExecutable | EqualsInExecutable

  // ---- character classes ----

  predicate IsReserved(c: char) {
    || c == '\t' || c == '\n' || c == '"' || c == '\'' || c == '\\' || c == '>' || c == '<' || c == '~' || c == '|'
    || c == '&' || c == ';' || c == '$' || c == '*' || c == '?' || c == '#' || c == '(' || c == ')' || c == '`'
  }

  /** The characters that a backslash must protect inside double quotes. */
  predicate NeedsEscape(c: char) {
    c == '"' || c == '`' || c == '$' || c == '\\'
  }

  predicate IsAlphabetic(c: char) {
    'a' <= c <= 'z' || 'A' <= c <= 'Z'
  }

  // ---- tokenizing ----

  /** The value of a quoted argument whose opening quote has been read, and what follows its closing quote. */
  function Unquote(s: string): (r: Result<(string, string), ExecError>)
    ensures r.Ok? ==> |r.value.1| < |s|
  {
    if s == "" then Err(UnmatchedQuote)
    else if s[0] == '"' then Ok(("", s[1..]))
    else if s[0] == '\\' then
      if |s| == 1 then Err(IncompleteEscape)
      else if !NeedsEscape(s[1]) then Err(InvalidEscape)
      else
        Extend([s[1]], Unquote(s[2..]))
    else if s[0] == '$' || s[0] == '`' then Err(UnescapedReserved)
    else
      Extend([s[0]], Unquote(s[1..]))
  }

  /** The leading unquoted argument, up to a space. */
  function Bare(s: string): (r: Result<(string, string), ExecError>)
    ensures r.Ok? ==> s == r.value.0 + r.value.1 && (r.value.1 == "" || r.value.1[0] == ' ')
  {
    if s == "" || s[0] == ' ' then Ok(("", s))
    else if IsReserved(s[0]) then Err(ReservedOutsideQuotes)
    else
      Extend([s[0]], Bare(s[1..]))
  }

  function Tokens(s: string): Result<seq<Argument>, ExecError>
    decreases |s|
  {
    if s == "" then Ok([])
    else if s[0] == ' ' then Tokens(s[1..])
    else if s[0] == '"' then
      var r := Unquote(s[1..]);
      if r.Err? then Err(r.error)
      else if r.value.1 != "" && r.value.1[0] != ' ' then Err(NotQuotedInWhole)
      else Prepend(Argument(r.value.0, true), Tokens(r.value.1))
    else
      var r := Bare(s);
      if r.Err? then Err(r.error)
      else Prepend(Argument(r.value.0, false), Tokens(r.value.1))
  }

  function Prepend<T>(x: T, r: Result<seq<T>, ExecError>): Result<seq<T>, ExecError> {
    if r.Err? then r else Ok([x] + r.value)
  }

  // ---- field codes ----

  function ExpandQuoted(v: string): Result<string, ExecError> {
    if v == "" then Ok("")
    else if v[0] != '%' then
      Appended([v[0]], ExpandQuoted(v[1..]))
    else if |v| == 1 then Err(LiteralPercent)
    else if v[1] == '%' then
      Appended("%", ExpandQuoted(v[2..]))
    else if IsAlphabetic(v[1]) then Err(QuotedFieldCode)
    else Err(LiteralPercent)
  }

  datatype Context = Context(name: string, icon: Option<string>, desktopFile: string)

  predicate IsFileCode(c: char) { c == 'f' || c == 'F' || c == 'u' || c == 'U' }

  predicate IsDeprecated(c: char) { c == 'd' || c == 'D' || c == 'n' || c == 'N' || c == 'v' || c == 'm' }

  /** Expands one unquoted argument; `whole` says that it consists of a single field code, `seen` that a file code came
      before. The second component says whether one has been seen since. */
  function ExpandBare(v: string, whole: bool, seen: bool, ctx: Context): Result<(string, bool), ExecError> {
    if v == "" then Ok(("", seen))
    else if v[0] != '%' then Emit([v[0]], ExpandBare(v[1..], whole, seen, ctx))
    else if |v| == 1 then Err(LiteralPercent)
    else
      var rest := v[2..];
      match v[1]
      case '%' => Emit("%", ExpandBare(rest, whole, seen, ctx))
      case 'f' => if seen then Err(SecondFileCode) else ExpandBare(rest, whole, true, ctx)
      case 'u' => if seen then Err(SecondFileCode) else ExpandBare(rest, whole, true, ctx)
      case 'F' =>
        if seen then Err(SecondFileCode) else if !whole then Err(IncompleteArgumentCode) else ExpandBare(rest, whole, true, ctx)
      case 'U' =>
        if seen then Err(SecondFileCode) else if !whole then Err(IncompleteArgumentCode) else ExpandBare(rest, whole, true, ctx)
      case 'i' => Err(IncompleteArgumentCode)
      case 'c' => Emit(ctx.name, ExpandBare(rest, whole, seen, ctx))
      case 'k' => Emit(ctx.desktopFile, ExpandBare(rest, whole, seen, ctx))
      case code =>
        if IsDeprecated(code) then ExpandBare(rest, whole, seen, ctx)
        else if IsAlphabetic(code) then Err(UnknownFieldCode)
        else Err(LiteralPercent)
  }

  function Emit(prefix: string, r: Result<(string, bool), ExecError>): Result<(string, bool), ExecError> {
    if r.Err? then r else Ok((prefix + r.value.0, r.value.1))
  }

  /** What one token adds to the argument list, and whether a file code has been seen after it. */
  function ExpandToken(t: Argument, seen: bool, ctx: Context): Result<(seq<string>, bool), ExecError> {
    if t.quoted then
      var r := ExpandQuoted(t.value);
      if r.Err? then Err(r.error) else Ok(([r.value], seen))
    else if t.value == "%i" then
      Ok((if ctx.icon.Some? && ctx.icon.value != "" then ["--icon", ctx.icon.value] else [], seen))
    else
      var r := ExpandBare(t.value, |t.value| == 2, seen, ctx);
      if r.Err? then Err(r.error) else Ok((if r.value.0 == "" then [] else [r.value.0], r.value.1))
  }

  function ExpandAll(tokens: seq<Argument>, seen: bool, ctx: Context): Result<seq<string>, ExecError> {
    if tokens == [] then Ok([])
    else
      var first := ExpandToken(tokens[0], seen, ctx);
      if first.Err? then Err(first.error)
      else
        Prefixed(first.value.0, ExpandAll(tokens[1..], first.value.1, ctx))
  }

  predicate IsAscii(s: string) {
    forall i | 0 <= i < |s| :: s[i] < '\U{80}'
  }

  function CheckExecutable(arguments: seq<string>): Result<seq<string>, ExecError> {
    if arguments == [] then Err(NoExecutable)
    else if arguments[0] == "" then Err(EmptyExecutable)
    else if '=' in arguments[0] then Err(EqualsInExecutable)
    else Ok(arguments)
  }

  function ParseExec(exec: string, ctx: Context): Result<seq<string>, ExecError> {
    if !IsAscii(exec) then Err(NotAscii)
    else if '\0' in exec then Err(NulByte)
    else
      var tokens := Tokens(exec);
      if tokens.Err? then Err(tokens.error)
      else
        var expanded := ExpandAll(tokens.value, false, ctx);
        if expanded.Err? then expanded else CheckExecutable(expanded.value)
  }

  // ---- the code: buffers filled while an index advances ----

  method Tokenize(exec: string) returns (r: Result<seq<Argument>, ExecError>)
    ensures r == Tokens(exec)
  {
    var arguments: seq<Argument> := [];
    var index := 0;
    while index < |exec|
      invariant index <= |exec|
      invariant Tokens(exec) == Prefixed(arguments, Tokens(exec[index..]))
    {
      index := SkipSpaces(exec, index);
      if index == |exec| {
        break;
      }
      var value, after, quoted := Ok(""), index, exec[index] == '"';
      if quoted {
        value, after := TokenizeQuoted(exec, index);
        assert exec[index..][1..] == exec[index + 1..];
        if value.Ok? && after < |exec| && exec[after] != ' ' {
          value := Err(NotQuotedInWhole);
        }
      } else {
        value, after := TokenizeBare(exec, index);
      }
      if value.Err? {
        return Err(value.error);
      }
      PrefixedAppend(arguments, Argument(value.value, quoted), Tokens(exec[after..]));
      arguments := arguments + [Argument(value.value, quoted)];
      index := after;
    }
    assert exec[index..] == "";
    return Ok(arguments);
  }

  method SkipSpaces(exec: string, from: nat) returns (index: nat)
    requires from <= |exec|
    ensures from <= index <= |exec| && (index < |exec| ==> exec[index] != ' ')
    ensures Tokens(exec[from..]) == Tokens(exec[index..])
  {
    index := from;
    while index < |exec| && exec[index] == ' '
      invariant from <= index <= |exec|
      invariant Tokens(exec[from..]) == Tokens(exec[index..])
    {
      assert exec[index..][1..] == exec[index + 1..];
      index := index + 1;
    }
  }

  lemma BareAdvances(exec: string, start: nat, index: nat)
    requires start <= index < |exec| && exec[index] != ' ' && !IsReserved(exec[index])
    ensures Extend(exec[start..index], Bare(exec[index..])) == Extend(exec[start..index + 1], Bare(exec[index + 1..]))
  {
    var here := exec[index..];
    assert here[1..] == exec[index + 1..] && here[0] == exec[index];
    assert exec[start..index + 1] == exec[start..index] + [exec[index]];
    ExtendAppend(exec[start..index], exec[index], Bare(exec[index + 1..]));
  }

  lemma BareEnds(s: string)
    requires s == "" || s[0] == ' ' || IsReserved(s[0])
    ensures Bare(s) == if s == "" || s[0] == ' ' then Ok(("", s)) else Err(ReservedOutsideQuotes)
  {
  }

  method TokenizeBare(exec: string, start: nat) returns (r: Result<string, ExecError>, index: nat)
    requires start < |exec| && exec[start] != ' '
    ensures r.Err? ==> Bare(exec[start..]) == Err(r.error)
    ensures r.Ok? ==> start < index <= |exec| && Bare(exec[start..]) == Ok((r.value, exec[index..]))
  {
    ghost var whole := Bare(exec[start..]);
    index := start;
    while index < |exec| && exec[index] != ' '
      invariant start <= index <= |exec|
      invariant whole == Extend(exec[start..index], Bare(exec[index..]))
    {
      if IsReserved(exec[index]) {
        BareEnds(exec[index..]);
        return Err(ReservedOutsideQuotes), index;
      }
      BareAdvances(exec, start, index);
      index := index + 1;
    }
    BareEnds(exec[index..]);
    return Ok(exec[start..index]), index;
  }

  method TokenizeQuoted(exec: string, open: nat) returns (r: Result<string, ExecError>, after: nat)
    requires open < |exec| && exec[open] == '"'
    ensures r.Err? ==> Unquote(exec[open + 1..]) == Err(r.error)
    ensures r.Ok? ==> open < after <= |exec| && Unquote(exec[open + 1..]) == Ok((r.value, exec[after..]))
  {
    var index := open + 1;
    var value := "";
    while index < |exec|
      invariant open < index <= |exec|
      invariant Unquote(exec[open + 1..]) == Extend(value, Unquote(exec[index..]))
    {
      var here := exec[index..];
      if exec[index] == '"' {
        assert here[1..] == exec[index + 1..];
        return Ok(value), index + 1;
      } else if exec[index] == '\\' {
        if index + 1 == |exec| {
          return Err(IncompleteEscape), index;
        }
        if !NeedsEscape(exec[index + 1]) {
          return Err(InvalidEscape), index;
        }
        assert here[2..] == exec[index + 2..] && here[1] == exec[index + 1];
        ExtendAppend(value, exec[index + 1], Unquote(exec[index + 2..]));
        value := value + [exec[index + 1]];
        index := index + 2;
      } else if exec[index] == '$' || exec[index] == '`' {
        return Err(UnescapedReserved), index;
      } else {
        assert here[1..] == exec[index + 1..];
        ExtendAppend(value, exec[index], Unquote(exec[index + 1..]));
        value := value + [exec[index]];
        index := index + 1;
      }
    }
    assert exec[index..] == "";
    return Err(UnmatchedQuote), index;
  }

  function Extend(prefix: string, r: Result<(string, string), ExecError>): (e: Result<(string, string), ExecError>)
    ensures prefix == "" ==> e == r
    ensures r.Ok? && r.value.0 == "" ==> e == Ok((prefix, r.value.1))
  {
    if r.Err? then r
    else
      assert prefix == "" ==> prefix + r.value.0 == r.value.0;
      assert r.value.0 == "" ==> prefix + r.value.0 == prefix;
      Ok((prefix + r.value.0, r.value.1))
  }

  lemma ExtendAppend(prefix: string, c: char, r: Result<(string, string), ExecError>)
    ensures Extend(prefix, Extend([c], r)) == Extend(prefix + [c], r)
  {
    if r.Ok? {
      assert prefix + ([c] + r.value.0) == (prefix + [c]) + r.value.0;
    }
  }

  function Prefixed<T>(prefix: seq<T>, r: Result<seq<T>, ExecError>): (e: Result<seq<T>, ExecError>)
    ensures prefix == [] ==> e == r
    ensures r == Ok([]) ==> e == Ok(prefix)
  {
    if r.Err? then r
    else
      assert prefix == [] ==> prefix + r.value == r.value;
      assert r.value == [] ==> prefix + r.value == prefix;
      Ok(prefix + r.value)
  }

  lemma PrefixedAppend<T>(prefix: seq<T>, x: T, r: Result<seq<T>, ExecError>)
    ensures Prefixed(prefix, Prepend(x, r)) == Prefixed(prefix + [x], r)
  {
    if r.Ok? {
      assert prefix + ([x] + r.value) == (prefix + [x]) + r.value;
    }
  }

  function Appended(output: string, r: Result<string, ExecError>): (e: Result<string, ExecError>)
    ensures output == "" ==> e == r
    ensures r == Ok("") ==> e == Ok(output)
  {
    if r.Err? then r
    else
      assert output == "" ==> output + r.value == r.value;
      assert r.value == "" ==> output + r.value == output;
      Ok(output + r.value)
  }

  lemma AppendedAppend(output: string, c: char, r: Result<string, ExecError>)
    ensures Appended(output, Appended([c], r)) == Appended(output + [c], r)
  {
    if r.Ok? {
      assert output + ([c] + r.value) == (output + [c]) + r.value;
    }
  }

  method ExpandQuotedPercent(value: string) returns (r: Result<string, ExecError>)
    ensures r == ExpandQuoted(value)
  {
    var output, index := "", 0;
    while index < |value|
      invariant index <= |value|
      invariant ExpandQuoted(value) == Appended(output, ExpandQuoted(value[index..]))
    {
      var here := value[index..];
      assert here[1..] == value[index + 1..];
      if value[index] != '%' {
        AppendedAppend(output, value[index], ExpandQuoted(value[index + 1..]));
        output := output + [value[index]];
        index := index + 1;
      } else if index + 1 < |value| && value[index + 1] == '%' {
        assert here[2..] == value[index + 2..] && here[1] == '%';
        AppendedAppend(output, '%', ExpandQuoted(value[index + 2..]));
        output := output + "%";
        index := index + 2;
      } else if index + 1 < |value| && IsAlphabetic(value[index + 1]) {
        return Err(QuotedFieldCode);
      } else {
        return Err(LiteralPercent);
      }
    }
    assert value[index..] == "";
    return Ok(output);
  }

  lemma EmitEmit(output: string, piece: string, r: Result<(string, bool), ExecError>)
    ensures Emit(output, Emit(piece, r)) == Emit(output + piece, r)
    ensures Emit("", r) == r
    ensures Emit(output, r) == if r.Ok? && r.value.0 == "" then Ok((output, r.value.1)) else Emit(output, r)
  {
    if r.Ok? {
      assert output + (piece + r.value.0) == (output + piece) + r.value.0;
      assert "" + r.value.0 == r.value.0;
      assert r.value.0 == "" ==> output + r.value.0 == output;
    }
  }

  /** The inner loop of `parse_exec`, expanding the field codes of one unquoted argument. */
  method ExpandFieldCodes(value: string, seenBefore: bool, ctx: Context) returns (r: Result<(string, bool), ExecError>)
    ensures r == ExpandBare(value, |value| == 2, seenBefore, ctx)
  {
    var output, index, seen := "", 0, seenBefore;
    EmitEmit("", "", ExpandBare(value, |value| == 2, seen, ctx));
    assert value[0..] == value;
    while index < |value|
      invariant index <= |value|
      invariant ExpandBare(value, |value| == 2, seenBefore, ctx) ==
                Emit(output, ExpandBare(value[index..], |value| == 2, seen, ctx))
    {
      var here := value[index..];
      assert here[1..] == value[index + 1..];
      var piece := "";
      if value[index] != '%' {
        piece := [value[index]];
        index := index + 1;
      } else {
        if index + 1 == |value| {
          return Err(LiteralPercent);
        }
        assert here[2..] == value[index + 2..] && here[1] == value[index + 1];
        var code := value[index + 1];
        index := index + 2;
        if code == '%' {
          piece := "%";
        } else if IsFileCode(code) {
          if seen {
            return Err(SecondFileCode);
          }
          seen := true;
          if (code == 'F' || code == 'U') && |value| != 2 {
            return Err(IncompleteArgumentCode);
          }
        } else if code == 'i' {
          return Err(IncompleteArgumentCode);
        } else if code == 'c' {
          piece := ctx.name;
        } else if code == 'k' {
          piece := ctx.desktopFile;
        } else if !IsDeprecated(code) {
          return Err(if IsAlphabetic(code) then UnknownFieldCode else LiteralPercent);
        }
      }
      EmitEmit(output, piece, ExpandBare(value[index..], |value| == 2, seen, ctx));
      EmitEmit(output, "", ExpandBare(value[index..], |value| == 2, seen, ctx));
      output := output + piece;
    }
    assert value[index..] == "";
    EmitEmit(output, "", Ok(("", seen)));
    return Ok((output, seen));
  }

  method ComputeParseExec(exec: string, ctx: Context) returns (r: Result<seq<string>, ExecError>)
    ensures r == ParseExec(exec, ctx)
  {
    if !IsAscii(exec) {
      return Err(NotAscii);
    }
    if '\0' in exec {
      return Err(NulByte);
    }
    var tokens := Tokenize(exec);
    if tokens.Err? {
      return Err(tokens.error);
    }
    var fileCodeSeen := false;
    var expanded: seq<string> := [];
    for i := 0 to |tokens.value|
      invariant ExpandAll(tokens.value, false, ctx) == Prefixed(expanded, ExpandAll(tokens.value[i..], fileCodeSeen, ctx))
    {
      var argument := tokens.value[i];
      var more: seq<string> := [];
      ghost var seenBefore := fileCodeSeen;
      assert tokens.value[i..][0] == argument && tokens.value[i..][1..] == tokens.value[i + 1..];
      if argument.quoted {
        var value := ExpandQuotedPercent(argument.value);
        if value.Err? {
          return Err(value.error);
        }
        more := [value.value];
      } else if argument.value == "%i" {
        if ctx.icon.Some? && ctx.icon.value != "" {
          more := ["--icon", ctx.icon.value];
        }
      } else {
        var output := ExpandFieldCodes(argument.value, fileCodeSeen, ctx);
        if output.Err? {
          return Err(output.error);
        }
        fileCodeSeen := output.value.1;
        if output.value.0 != "" {
          more := [output.value.0];
        }
      }
      assert ExpandToken(argument, seenBefore, ctx) == Ok((more, fileCodeSeen));
      PrefixedJoin(expanded, more, ExpandAll(tokens.value[i + 1..], fileCodeSeen, ctx));
      expanded := expanded + more;
    }
    assert tokens.value[|tokens.value|..] == [];
    return CheckExecutable(expanded);
  }

  lemma PrefixedJoin<T>(prefix: seq<T>, more: seq<T>, r: Result<seq<T>, ExecError>)
    ensures Prefixed(prefix, Prefixed(more, r)) == Prefixed(prefix + more, r)
  {
    if r.Ok? {
      assert prefix + (more + r.value) == (prefix + more) + r.value;
    }
  }
}
