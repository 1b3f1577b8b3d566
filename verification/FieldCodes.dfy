/** What the arguments of an Exec value stand for, said without the parser: a bare argument is spelled in pieces, a quoted
    one with doubled percent signs (the section "The Exec key" of the Desktop Entry Specification). */
module FieldCodes {
  import opened Wrappers
  import opened DesktopEntry
  import opened ExecTheorems

  /** What a bare argument is spelled with. */
  datatype Piece =
    | Literal(c: char) | Percent
    | NameCode | DesktopFileCode
    | ForFiles(code: char)    // replaced by files, of which the greeter never has any
    | Deprecated(code: char)
  {
    predicate WellFormed() {
      match this
      case Literal(c) => c != '%'
      case ForFiles(code) => code in "fFuU"
      case Deprecated(code) => code in "dDnNvm"
      case _ => true
    }

    function Spelling(): string {
      match this
      case Literal(c) => [c]
      case Percent => "%%"
      case NameCode => "%c"
      case DesktopFileCode => "%k"
      case ForFiles(code) => ['%', code]
      case Deprecated(code) => ['%', code]
    }

    function Meaning(ctx: Context): string {
      match this
      case Literal(c) => [c]
      case Percent => "%"
      case NameCode => ctx.name
      case DesktopFileCode => ctx.desktopFile
      case ForFiles(_) => ""
      case Deprecated(_) => ""
    }

    /** %F and %U must be an argument of their own. */
    predicate StandsAlone() {
      ForFiles? && (code == 'F' || code == 'U')
    }
  }

  function Spelled(pieces: seq<Piece>): string {
    if pieces == [] then "" else pieces[0].Spelling() + Spelled(pieces[1..])
  }

  function Meant(pieces: seq<Piece>, ctx: Context): string {
    if pieces == [] then "" else pieces[0].Meaning(ctx) + Meant(pieces[1..], ctx)
  }

  function FileCodesIn(pieces: seq<Piece>): nat {
    if pieces == [] then 0 else (if pieces[0].ForFiles? then 1 else 0) + FileCodesIn(pieces[1..])
  }

  ghost predicate Acceptable(pieces: seq<Piece>, whole: bool) {
    && (forall p | p in pieces :: p.WellFormed())
    && (forall p | p in pieces :: p.StandsAlone() ==> whole)
    && FileCodesIn(pieces) <= 1
  }

  // ---- one bare argument ----

  /** How the expansion goes on after a piece. */
  lemma ExpandPiece(p: Piece, v: string, whole: bool, seen: bool, ctx: Context)
    requires p.WellFormed() && (p.StandsAlone() ==> whole) && !(p.ForFiles? && seen)
    ensures ExpandBare(p.Spelling() + v, whole, seen, ctx) ==
            Emit(p.Meaning(ctx), ExpandBare(v, whole, seen || p.ForFiles?, ctx))
  {
    var s := p.Spelling() + v;
    if p.Literal? {
      assert s[0] == p.c && s[1..] == v;
    } else {
      assert s[0] == '%' && s[1] == p.Spelling()[1] && s[2..] == v;
      ExpandCode(p, s, whole, seen, ctx);
    }
  }

  lemma ExpandCode(p: Piece, s: string, whole: bool, seen: bool, ctx: Context)
    requires p.WellFormed() && !p.Literal? && (p.StandsAlone() ==> whole) && !(p.ForFiles? && seen)
    requires |s| > 1 && s[0] == '%' && s[1] == p.Spelling()[1]
    ensures ExpandBare(s, whole, seen, ctx) == Emit(p.Meaning(ctx), ExpandBare(s[2..], whole, seen || p.ForFiles?, ctx))
  {
    EmitEmit("", "", ExpandBare(s[2..], whole, seen || p.ForFiles?, ctx));
  }

  lemma {:induction false} PiecesExpand(pieces: seq<Piece>, whole: bool, seen: bool, ctx: Context)
    requires Acceptable(pieces, whole) && (seen ==> FileCodesIn(pieces) == 0)
    ensures ExpandBare(Spelled(pieces), whole, seen, ctx) == Ok((Meant(pieces, ctx), seen || FileCodesIn(pieces) == 1))
    decreases |pieces|
  {
    if pieces != [] {
      var p, rest := pieces[0], pieces[1..];
      assert p in pieces && FileCodesIn(pieces) == (if p.ForFiles? then 1 else 0) + FileCodesIn(rest);
      PiecesExpand(rest, whole, seen || p.ForFiles?, ctx);
      ExpandPiece(p, Spelled(rest), whole, seen, ctx);
    }
  }

  /** The piece that an accepted text starts with. */
  lemma FirstPiece(v: string, whole: bool, seen: bool, ctx: Context) returns (p: Piece, rest: string)
    requires v != "" && ExpandBare(v, whole, seen, ctx).Ok?
    ensures p.WellFormed() && (p.StandsAlone() ==> whole) && !(p.ForFiles? && seen)
    ensures v == p.Spelling() + rest && |rest| < |v|
    ensures ExpandBare(rest, whole, seen || p.ForFiles?, ctx).Ok?
  {
    if v[0] != '%' {
      p, rest := Literal(v[0]), v[1..];
    } else {
      rest := v[2..];
      p := match v[1]
           case '%' => Percent
           case 'c' => NameCode
           case 'k' => DesktopFileCode
           case code => if IsFileCode(code) then ForFiles(code) else Deprecated(code);
      assert v == ['%', v[1]] + rest;
    }
  }

  lemma {:induction false} PiecesOf(v: string, whole: bool, seen: bool, ctx: Context) returns (pieces: seq<Piece>)
    requires ExpandBare(v, whole, seen, ctx).Ok?
    ensures Acceptable(pieces, whole) && v == Spelled(pieces) && (seen ==> FileCodesIn(pieces) == 0)
    decreases |v|
  {
    if v == "" {
      pieces := [];
    } else {
      var p, rest := FirstPiece(v, whole, seen, ctx);
      var more := PiecesOf(rest, whole, seen || p.ForFiles?, ctx);
      pieces := [p] + more;
      assert pieces[0] == p && pieces[1..] == more;
    }
  }

  /** An argument outside quotes is accepted exactly if it is spelled in such pieces, with one file code at most, and then
      stands for what the pieces stand for one after another. */
  lemma BareArgumentIsItsPieces(v: string, ctx: Context, output: string, seen: bool)
    ensures ExpandBare(v, |v| == 2, false, ctx) == Ok((output, seen)) <==>
            exists pieces :: && Acceptable(pieces, |v| == 2) && v == Spelled(pieces)
                             && output == Meant(pieces, ctx) && seen == (FileCodesIn(pieces) == 1)
  {
    if ExpandBare(v, |v| == 2, false, ctx) == Ok((output, seen)) {
      var pieces := PiecesOf(v, |v| == 2, false, ctx);
      PiecesExpand(pieces, |v| == 2, false, ctx);
    }
    if pieces :| Acceptable(pieces, |v| == 2) && v == Spelled(pieces)
                 && output == Meant(pieces, ctx) && seen == (FileCodesIn(pieces) == 1) {
      PiecesExpand(pieces, |v| == 2, false, ctx);
    }
  }

  // ---- a whole Exec value ----

  /** An argument as it is written, the arguments it contributes, and how many file codes it has. */
  datatype Reading = Reading(token: Argument, arguments: seq<string>, fileCodes: nat)

  function UnlessEmpty(s: string): seq<string> {
    if s == "" then [] else [s]
  }

  function IconArguments(ctx: Context): seq<string> {
    if ctx.icon.Some? && ctx.icon.value != "" then ["--icon", ctx.icon.value] else []
  }

  ghost predicate IsReading(r: Reading, ctx: Context) {
    if r.token.quoted then |r.arguments| == 1 && r.token.value == DoublePercent(r.arguments[0]) && r.fileCodes == 0
    else if r.token.value == "%i" then r.arguments == IconArguments(ctx) && r.fileCodes == 0
    else
      exists pieces :: && Acceptable(pieces, |r.token.value| == 2) && r.token.value == Spelled(pieces)
                       && r.arguments == UnlessEmpty(Meant(pieces, ctx)) && r.fileCodes == FileCodesIn(pieces)
  }

  function Written(readings: seq<Reading>): (tokens: seq<Argument>)
    ensures |tokens| == |readings|
  {
    if readings == [] then [] else [readings[0].token] + Written(readings[1..])
  }

  function ArgumentsOf(readings: seq<Reading>): seq<string> {
    if readings == [] then [] else readings[0].arguments + ArgumentsOf(readings[1..])
  }

  function FileCodesAmong(readings: seq<Reading>): nat {
    if readings == [] then 0 else readings[0].fileCodes + FileCodesAmong(readings[1..])
  }

  lemma ReadingExpands(r: Reading, seen: bool, ctx: Context)
    requires IsReading(r, ctx) && (seen ==> r.fileCodes == 0)
    ensures r.fileCodes <= 1 && ExpandToken(r.token, seen, ctx) == Ok((r.arguments, seen || r.fileCodes == 1))
  {
    var t := r.token;
    if t.quoted {
      QuotedExpansionUndoublesPercent(t.value, r.arguments[0]);
      assert r.arguments == [r.arguments[0]];
    } else if t.value != "%i" {
      var pieces :| && Acceptable(pieces, |t.value| == 2) && t.value == Spelled(pieces)
                    && r.arguments == UnlessEmpty(Meant(pieces, ctx)) && r.fileCodes == FileCodesIn(pieces);
      PiecesExpandToken(t, pieces, seen, ctx);
    }
  }

  lemma PiecesExpandToken(t: Argument, pieces: seq<Piece>, seen: bool, ctx: Context)
    requires !t.quoted && t.value != "%i" && Acceptable(pieces, |t.value| == 2) && t.value == Spelled(pieces)
    requires seen ==> FileCodesIn(pieces) == 0
    ensures ExpandToken(t, seen, ctx) == Ok((UnlessEmpty(Meant(pieces, ctx)), seen || FileCodesIn(pieces) == 1))
  {
    PiecesExpand(pieces, |t.value| == 2, seen, ctx);
  }

  lemma ReadingOfToken(t: Argument, seen: bool, ctx: Context) returns (r: Reading)
    requires ExpandToken(t, seen, ctx).Ok?
    ensures IsReading(r, ctx) && r.token == t && (seen ==> r.fileCodes == 0)
    ensures ExpandToken(t, seen, ctx).value == (r.arguments, seen || r.fileCodes == 1)
  {
    var arguments := ExpandToken(t, seen, ctx).value.0;
    if t.quoted {
      QuotedExpansionUndoublesPercent(t.value, arguments[0]);
      r := Reading(t, arguments, 0);
    } else if t.value == "%i" {
      r := Reading(t, arguments, 0);
    } else {
      var pieces := PiecesOf(t.value, |t.value| == 2, seen, ctx);
      PiecesExpandToken(t, pieces, seen, ctx);
      r := Reading(t, arguments, FileCodesIn(pieces));
    }
  }

  lemma {:induction false} ReadingsExpand(readings: seq<Reading>, seen: bool, ctx: Context)
    requires forall r | r in readings :: IsReading(r, ctx)
    requires FileCodesAmong(readings) + (if seen then 1 else 0) <= 1
    ensures ExpandAll(Written(readings), seen, ctx) == Ok(ArgumentsOf(readings))
    decreases |readings|
  {
    if readings != [] {
      var r, rest := readings[0], readings[1..];
      assert r in readings && readings == [r] + rest;
      ReadingExpands(r, seen, ctx);
      ReadingsExpand(rest, seen || r.fileCodes == 1, ctx);
      assert Written(readings)[0] == r.token && Written(readings)[1..] == Written(rest);
    }
  }

  /** One more reading in front. */
  lemma AddReading(r: Reading, readings: seq<Reading>) returns (more: seq<Reading>)
    ensures more == [r] + readings && Written(more) == [r.token] + Written(readings)
    ensures ArgumentsOf(more) == r.arguments + ArgumentsOf(readings)
    ensures FileCodesAmong(more) == r.fileCodes + FileCodesAmong(readings)
  {
    more := [r] + readings;
    assert more[1..] == readings;
  }

  lemma {:induction false} ReadingsOfTokens(tokens: seq<Argument>, seen: bool, ctx: Context) returns (readings: seq<Reading>)
    requires ExpandAll(tokens, seen, ctx).Ok?
    ensures forall r | r in readings :: IsReading(r, ctx)
    ensures Written(readings) == tokens && FileCodesAmong(readings) + (if seen then 1 else 0) <= 1
    decreases |tokens|
  {
    if tokens == [] {
      readings := [];
    } else {
      var r := ReadingOfToken(tokens[0], seen, ctx);
      ReadingExpands(r, seen, ctx);
      readings := ReadingsOfTokens(tokens[1..], seen || r.fileCodes == 1, ctx);
      readings := AddReading(r, readings);
      assert tokens == [tokens[0]] + tokens[1..];
    }
  }

  ghost predicate Reads(exec: string, gaps: seq<nat>, readings: seq<Reading>, ctx: Context) {
    && (forall r | r in readings :: IsReading(r, ctx))
    && WellSpaced(gaps, Written(readings)) && exec == Layout(gaps, Written(readings))
    && FileCodesAmong(readings) <= 1
  }

  predicate IsExecutable(arguments: seq<string>) {
    arguments != [] && arguments[0] != "" && '=' !in arguments[0]
  }

  /** Main result: an Exec value parses to some arguments exactly if it can be read as spaced arguments that stand for them,
      with one file code at most, and the first of them can be executed. */
  lemma ExecIsItsReading(exec: string, ctx: Context, arguments: seq<string>)
    ensures ParseExec(exec, ctx) == Ok(arguments) <==>
            && IsPlain(exec) && IsExecutable(arguments)
            && exists gaps, readings :: Reads(exec, gaps, readings, ctx) && arguments == ArgumentsOf(readings)
  {
    if ParseExec(exec, ctx) == Ok(arguments) {
      var tokens := Tokens(exec).value;
      var gaps := LayoutOfTokens(exec);
      var readings := ReadingsOfTokens(tokens, false, ctx);
      ReadingsExpand(readings, false, ctx);
      assert Reads(exec, gaps, readings, ctx);
    }
    if exists gaps, readings :: Reads(exec, gaps, readings, ctx) && arguments == ArgumentsOf(readings) {
      var gaps, readings :| Reads(exec, gaps, readings, ctx) && arguments == ArgumentsOf(readings);
      TokensOfLayout(gaps, Written(readings));
      ReadingsExpand(readings, false, ctx);
    }
  }

  // ---- plain words ----

  predicate IsPlainWord(word: string) {
    && word != "" && IsPlain(word)
    && forall i | 0 <= i < |word| :: word[i] != ' ' && word[i] != '%' && !IsReserved(word[i])
  }

  function Spaced(words: seq<string>): string {
    if words == [] then "" else if |words| == 1 then words[0] else words[0] + " " + Spaced(words[1..])
  }

  function Literals(word: string): (pieces: seq<Piece>)
    ensures |pieces| == |word| && forall i | 0 <= i < |word| :: pieces[i] == Literal(word[i])
  {
    seq(|word|, i requires 0 <= i < |word| => Literal(word[i]))
  }

  lemma {:induction false} LiteralsMeanThemselves(word: string, ctx: Context)
    ensures Spelled(Literals(word)) == word && Meant(Literals(word), ctx) == word && FileCodesIn(Literals(word)) == 0
  {
    if word != "" {
      assert Literals(word)[1..] == Literals(word[1..]);
      LiteralsMeanThemselves(word[1..], ctx);
      assert [word[0]] + word[1..] == word;
    }
  }

  lemma ReadingOfWord(word: string, ctx: Context) returns (r: Reading)
    requires IsPlainWord(word)
    ensures IsReading(r, ctx) && r == Reading(Argument(word, false), [word], 0) && Spellable(r.token)
  {
    r := Reading(Argument(word, false), [word], 0);
    LiteralsMeanThemselves(word, ctx);
    assert Acceptable(Literals(word), |word| == 2);
    assert "%i"[0] == '%' && word[0] != '%';
  }

  lemma OneMoreWord(word: string, rest: seq<string>, ctx: Context, gaps: seq<nat>, readings: seq<Reading>)
    returns (g: seq<nat>, more: seq<Reading>)
    requires IsPlainWord(word) && Reads(Spaced(rest), gaps, readings, ctx) && ArgumentsOf(readings) == rest
    requires FileCodesAmong(readings) == 0
    ensures Reads(Spaced([word] + rest), g, more, ctx) && ArgumentsOf(more) == [word] + rest && FileCodesAmong(more) == 0
  {
    var r := ReadingOfWord(word, ctx);
    g := gaps;
    if rest != [] {
      g := WiderGap(gaps, Written(readings));
    }
    g := OneMoreToken(g, r.token, Written(readings));
    more := AddReading(r, readings);
    SpacedOfOneMore(word, rest);
  }

  lemma SpacedOfOneMore(word: string, rest: seq<string>)
    ensures Spaced([word] + rest) == word + if rest == [] then "" else " " + Spaced(rest)
  {
    assert ([word] + rest)[1..] == rest;
    if rest == [] {
      assert word + "" == word;
    } else {
      assert word + " " + Spaced(rest) == word + (" " + Spaced(rest));
    }
  }

  lemma {:induction false} ReadingOfWords(words: seq<string>, ctx: Context) returns (gaps: seq<nat>, readings: seq<Reading>)
    requires forall w | w in words :: IsPlainWord(w)
    ensures Reads(Spaced(words), gaps, readings, ctx) && ArgumentsOf(readings) == words && FileCodesAmong(readings) == 0
    decreases |words|
  {
    if words == [] {
      gaps, readings := [0], [];
    } else {
      assert words == [words[0]] + words[1..];
      gaps, readings := ReadingOfWords(words[1..], ctx);
      gaps, readings := OneMoreWord(words[0], words[1..], ctx, gaps, readings);
    }
  }

  lemma {:induction false} SpacedIsPlain(words: seq<string>)
    requires forall w | w in words :: IsPlainWord(w)
    ensures IsPlain(Spaced(words))
    decreases |words|
  {
    if words != [] {
      assert words[0] in words;
      SpacedIsPlain(words[1..]);
      PlainConcat(words[0], " ");
      PlainConcat(words[0] + " ", Spaced(words[1..]));
    }
  }

  /** In particular words without anything special, separated by spaces, are the arguments. */
  lemma PlainWordsAreTheArguments(words: seq<string>, ctx: Context)
    requires (forall w | w in words :: IsPlainWord(w)) && IsExecutable(words)
    ensures ParseExec(Spaced(words), ctx) == Ok(words)
  {
    var gaps, readings := ReadingOfWords(words, ctx);
    SpacedIsPlain(words);
    ExecIsItsReading(Spaced(words), ctx, words);
  }
}
