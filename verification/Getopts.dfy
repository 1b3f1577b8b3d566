/** The strict parse that follows recovery (`parse_options_ignoring_invalid` in `src/greeter.rs`): what the getopts library
    makes of a command line, errors included, and that it can reject nothing that was recovered. */
module Getopts {
  import opened Wrappers
  import opened CliOptions
  import opened CliTheorems
  import Text

  /** A name of one byte is looked up as a short option, even after two dashes. */
  function Lookup(schema: Schema, name: string): (r: Option<nat>)
    ensures r.Some? ==> r.value < |schema|
  {
    if Text.Utf8Length(name) == 1 then ByShort(schema, name[0]) else ByLong(schema, name)
  }

  /** A required value is whatever comes next; an optional one must not look like an option. */
  function NextValue(option: nat, argument: OptionArgument, next: Option<string>): Option<(Occurrence, bool)> {
    match argument
    case NoArgument => Some((Occurrence(option, None), false))
    case RequiredArgument => if next.Some? then Some((Occurrence(option, next), true)) else None
    case OptionalArgument =>
      if next.Some? && !IsOption(next.value) then Some((Occurrence(option, next), true))
      else Some((Occurrence(option, None), false))
  }

  function StrictLong(schema: Schema, text: string, next: Option<string>): Option<(Occurrence, bool)>
    requires |text| >= 2
  {
    var (name, attached) := SplitOnce(text[2..]);
    var i := Lookup(schema, name);
    if i.None? then None
    else
      match (schema[i.value].argument, attached)
      case (NoArgument, Some(_)) => None
      case (OptionalArgument, _) => Some((Occurrence(i.value, attached), false))
      case (_, Some(_)) => Some((Occurrence(i.value, attached), false))
      case (argument, None) => NextValue(i.value, argument, next)
  }

  function StrictCluster(schema: Schema, cluster: string, next: Option<string>): Option<(seq<Occurrence>, bool)> {
    if cluster == "" then Some(([], false))
    else
      var i := ByShort(schema, cluster[0]);
      if i.None? then None
      else if schema[i.value].argument.NoArgument? then
        var rest := StrictCluster(schema, cluster[1..], next);
        if rest.None? then None else Some(([Occurrence(i.value, None)] + rest.value.0, rest.value.1))
      else if |cluster| > 1 then Some(([Occurrence(i.value, Some(cluster[1..]))], false))
      else
        var r := NextValue(i.value, schema[i.value].argument, next);
        if r.None? then None else Some(([r.value.0], r.value.1))
  }

  /** What one argument gives, and whether it takes the next one. */
  function StrictOption(schema: Schema, text: string, next: Option<string>): Option<(seq<Occurrence>, bool)>
    requires IsOption(text)
  {
    if "--" <= text then
      var r := StrictLong(schema, text, next);
      if r.None? then None else Some(([r.value.0], r.value.1))
    else StrictCluster(schema, text[1..], next)
  }

  /** The options found, in order, or nothing at the first error; other arguments are set aside. */
  function StrictScan(schema: Schema, args: seq<string>): Option<seq<Occurrence>>
    decreases |args|
  {
    if args == [] then Some([])
    else
      var text, next := args[0], if |args| > 1 then Some(args[1]) else None;
      if !IsOption(text) then StrictScan(schema, args[1..])
      else if text == "--" then Some([])
      else
        var found := StrictOption(schema, text, next);
        if found.None? then None
        else
          var rest := StrictScan(schema, args[if found.value.1 && |args| > 1 then 2 else 1..]);
          if rest.None? then None else Some(found.value.0 + rest.value)
  }

  /** The whole parse: an option that may not repeat is an error if it does. */
  ghost function StrictParse(schema: Schema, args: seq<string>): Option<seq<Occurrence>> {
    var found := StrictScan(schema, args);
    if found.Some? && NoRepeats(schema, found.value) then found else None
  }

  /** The library does not let a schema give an option a long name of one byte. */
  ghost predicate LongNamesAreLong(schema: Schema) {
    forall i | 0 <= i < |schema| && schema[i].long.Some? :: Text.Utf8Length(schema[i].long.value) > 1
  }

  lemma StrictRenderedLong(schema: Schema, o: Occurrence, next: Option<string>)
    requires WellNamed(schema) && LongNamesAreLong(schema) && Legal(schema, o) && schema[o.option].long.Some?
    ensures var text := Normalized(schema[o.option], o.value);
            IsOption(text) && text != "--" && "--" <= text && StrictLong(schema, text, next) == Some((o, false))
  {
    var text := Normalized(schema[o.option], o.value);
    var long := schema[o.option].long.value;
    var tail := long + if o.value.Some? then "=" + o.value.value else "";
    assert text == "--" + tail && text[2..] == tail && tail != "";
    SplitLong(long, o.value);
    LongNameFindsOption(schema, o.option);
  }

  lemma StrictRenderedFlag(schema: Schema, o: Occurrence, next: Option<string>)
    requires WellNamed(schema) && Legal(schema, o) && schema[o.option].long.None? && schema[o.option].argument.NoArgument?
    ensures var text := Normalized(schema[o.option], o.value);
            IsOption(text) && !("--" <= text) && StrictCluster(schema, text[1..], next) == Some(([o], false))
  {
    var short := schema[o.option].short.value;
    var text := Normalized(schema[o.option], o.value);
    assert text == ['-', short] && text[1..] == [short] && text[1..][1..] == "";
    assert short != '-' && text[1] == short;
    ShortNameFindsOption(schema, o.option);
    assert StrictCluster(schema, "", next) == Some(([], false));
    assert [o] + [] == [o];
  }

  lemma {:induction false} StrictScanOfRender(schema: Schema, kept: seq<Occurrence>)
    requires WellNamed(schema) && ValuesHaveLongNames(schema) && LongNamesAreLong(schema)
    requires forall o | o in kept :: o.option < |schema| && Legal(schema, o)
    ensures StrictScan(schema, Render(schema, kept)) == Some(kept)
    decreases |kept|
  {
    if kept != [] {
      var o, args := kept[0], Render(schema, kept);
      assert o in kept;
      assert args[0] == Normalized(schema[o.option], o.value) && args[1..] == Render(schema, kept[1..]);
      StrictScanOfRender(schema, kept[1..]);
      var next := if |args| > 1 then Some(args[1]) else None;
      if schema[o.option].long.Some? {
        StrictRenderedLong(schema, o, next);
      } else {
        StrictRenderedFlag(schema, o, next);
      }
      assert [o] + kept[1..] == kept;
    }
  }

  /** For every command line the strict parse accepts what was recovered and finds exactly the occurrences that were kept, so
      the branch that ignores all options is never taken. */
  lemma StrictParseAcceptsRecovered(schema: Schema, args: seq<Token>)
    requires WellNamed(schema) && ValuesHaveLongNames(schema) && LongNamesAreLong(schema)
    ensures var kept := Recover(schema, args).kept;
            && (forall o | o in kept :: o.option < |schema|)
            && StrictParse(schema, Render(schema, kept)) == Some(kept)
  {
    var kept := Recover(schema, args).kept;
    RecoveredIsLegal(schema, args);
    forall k | 0 <= k < |schema| && !schema[k].repeatable
      ensures |Of(k, kept)| <= 1
    {
      FirstOccurrenceWins(schema, args, k);
    }
    StrictScanOfRender(schema, kept);
  }

  // ---- recovery and the strict parse agree ----

  /** Recovery does not look for short options after two dashes. */
  predicate NamesShortOption(text: string) {
    "--" <= text && Text.Utf8Length(SplitOnce(text[2..]).0) == 1
  }

  /** Nothing but options: no argument besides them, none after `--`, no short option after two dashes and no detached value
      that looks like an option. */
  predicate OnlyOptions(schema: Schema, args: seq<string>)
    decreases |args|
  {
    args == [] ||
    var text, next := args[0], if |args| > 1 then Some(args[1]) else None;
    && IsOption(text) && !NamesShortOption(text)
    && if text == "--" then |args| == 1
       else
         var found := StrictOption(schema, text, next);
         found.Some? ==>
           && (found.value.1 && next.Some? ==> !IsOption(next.value))
           && OnlyOptions(schema, args[if found.value.1 && next.Some? then 2 else 1..])
  }

  function AsToken(next: Option<string>): Option<Token> {
    if next.Some? then Some(Decoded(next.value)) else None
  }

  function ScanOption(schema: Schema, text: string, next: Option<Token>): (seq<Item>, bool)
    requires IsOption(text)
  {
    if "--" <= text then ([ScanLong(schema, text, next).0], ScanLong(schema, text, next).1)
    else ScanCluster(schema, text, text[1..], next)
  }

  /** Two parses of one argument agree if neither finds fault with it. */
  ghost predicate Agree(schema: Schema, scanned: (seq<Item>, bool), strict: Option<(seq<Occurrence>, bool)>,
                        next: Option<string>)
  {
    && (AllFound(schema, scanned.0) <==> strict.Some? && (strict.value.1 && next.Some? ==> !IsOption(next.value)))
    && (AllFound(schema, scanned.0) ==>
          Candidates(scanned.0) == strict.value.0 && scanned.1 == strict.value.1 && (scanned.1 ==> next.Some?))
  }

  lemma LongOptionsAgree(schema: Schema, text: string, next: Option<string>)
    requires LongNamesAreLong(schema) && IsOption(text) && "--" <= text && !NamesShortOption(text)
    ensures Agree(schema, ScanOption(schema, text, AsToken(next)), StrictOption(schema, text, next), next)
  {
    var (item, _) := ScanLong(schema, text, AsToken(next));
    assert Candidates([item]) == (if item.Found? then [item.occurrence] else []) + Candidates([item][1..]);
  }

  lemma {:induction false} ClustersAgree(schema: Schema, text: string, cluster: string, next: Option<string>)
    ensures Agree(schema, ScanCluster(schema, text, cluster, AsToken(next)), StrictCluster(schema, cluster, next), next)
  {
    if cluster != "" {
      var i := ByShort(schema, cluster[0]);
      var items := ScanCluster(schema, text, cluster, AsToken(next)).0;
      if i.None? {
        assert items[0] in items;
      } else if schema[i.value].argument.NoArgument? {
        ClustersAgree(schema, text, cluster[1..], next);
        var rest := ScanCluster(schema, text, cluster[1..], AsToken(next)).0;
        assert items == [items[0]] + rest && items[1..] == rest;
      } else {
        assert items == [items[0]] && items[1..] == [] && items[0] in items;
      }
    }
  }

  lemma OptionsAgree(schema: Schema, text: string, next: Option<string>)
    requires LongNamesAreLong(schema) && IsOption(text) && !NamesShortOption(text)
    ensures Agree(schema, ScanOption(schema, text, AsToken(next)), StrictOption(schema, text, next), next)
  {
    if "--" <= text {
      LongOptionsAgree(schema, text, next);
    } else {
      ClustersAgree(schema, text, text[1..], next);
    }
  }

  lemma {:induction false} CandidatesOfSum(a: seq<Item>, b: seq<Item>)
    ensures Candidates(a + b) == Candidates(a) + Candidates(b)
  {
    if a == [] {
      assert a + b == b;
    } else {
      assert (a + b)[0] == a[0] && (a + b)[1..] == a[1..] + b;
      CandidatesOfSum(a[1..], b);
      var head := if a[0].Found? then [a[0].occurrence] else [];
      assert head + (Candidates(a[1..]) + Candidates(b)) == (head + Candidates(a[1..])) + Candidates(b);
    }
  }

  lemma FoundInSum(schema: Schema, a: seq<Item>, b: seq<Item>)
    ensures AllFound(schema, a + b) <==> AllFound(schema, a) && AllFound(schema, b)
  {
    assert forall item | item in a :: item in a + b;
    assert forall item | item in b :: item in a + b;
  }

  /** Scanning goes through the options one by one. */
  lemma ScanFirstOption(schema: Schema, args: seq<Token>)
    requires args != [] && args[0].Decoded? && IsOption(args[0].text) && args[0].text != "--"
    ensures var next := if |args| > 1 then Some(args[1]) else None;
            var (items, consumed) := ScanOption(schema, args[0].text, next);
            Scan(schema, args, false) == items + Scan(schema, args[if consumed && |args| > 1 then 2 else 1..], false)
  {
  }

  lemma NothingGoesAfterTheEnd(schema: Schema, args: seq<Token>)
    requires args != []
    ensures !AllFound(schema, Scan(schema, args, true))
  {
    assert !Scan(schema, args, true)[0].Found?;
  }

  lemma TokensFrom(texts: seq<string>, n: nat)
    requires n <= |texts|
    ensures |Tokens(texts)| == |texts| && Tokens(texts)[n..] == Tokens(texts[n..])
    ensures forall i | 0 <= i < |texts| :: Tokens(texts)[i] == Decoded(texts[i])
  {
    if texts != [] {
      TokensFrom(texts[1..], if n == 0 then 0 else n - 1);
      assert Tokens(texts) == [Decoded(texts[0])] + Tokens(texts[1..]);
    }
  }

  lemma {:induction false} ScansAgree(schema: Schema, texts: seq<string>)
    requires LongNamesAreLong(schema)
    ensures AllFound(schema, Scan(schema, Tokens(texts), false)) <==>
            StrictScan(schema, texts).Some? && OnlyOptions(schema, texts)
    ensures AllFound(schema, Scan(schema, Tokens(texts), false)) ==>
              Candidates(Scan(schema, Tokens(texts), false)) == StrictScan(schema, texts).value
    decreases |texts|
  {
    if texts != [] {
      var text, next := texts[0], if |texts| > 1 then Some(texts[1]) else None;
      TokensFrom(texts, 1);
      if !IsOption(text) {
        assert !Scan(schema, Tokens(texts), false)[0].Found?;
      } else if text == "--" {
        EndOfOptionsAgrees(schema, texts);
      } else if NamesShortOption(text) {
        ShortAfterDashesIsUnknown(schema, text, AsToken(next));
        ScanFirstOption(schema, Tokens(texts));
        assert !Scan(schema, Tokens(texts), false)[0].Found?;
      } else {
        OptionsAgree(schema, text, next);
        var (items, consumed) := ScanOption(schema, text, AsToken(next));
        var n := if consumed && |texts| > 1 then 2 else 1;
        TokensFrom(texts, n);
        ScanFirstOption(schema, Tokens(texts));
        var rest := Scan(schema, Tokens(texts[n..]), false);
        FoundInSum(schema, items, rest);
        CandidatesOfSum(items, rest);
        ScansAgree(schema, texts[n..]);
      }
    }
  }

  lemma EndOfOptionsAgrees(schema: Schema, texts: seq<string>)
    requires texts != [] && texts[0] == "--"
    ensures AllFound(schema, Scan(schema, Tokens(texts), false)) <==>
            StrictScan(schema, texts).Some? && OnlyOptions(schema, texts)
    ensures AllFound(schema, Scan(schema, Tokens(texts), false)) ==>
              Candidates(Scan(schema, Tokens(texts), false)) == StrictScan(schema, texts).value
  {
    TokensFrom(texts, 1);
    assert Text.Utf8Length(SplitOnce("--"[2..]).0) == 0;
    if |texts| > 1 {
      NothingGoesAfterTheEnd(schema, Tokens(texts[1..]));
    }
  }

  /** The strict parse takes `--c` for the short option `c`; recovery knows no such long option. */
  lemma ShortAfterDashesIsUnknown(schema: Schema, text: string, next: Option<Token>)
    requires LongNamesAreLong(schema) && NamesShortOption(text)
    ensures ScanLong(schema, text, next) == (Warn(Unknown(SplitOnce(text[2..]).0, text)), false)
  {
  }

  // ---- silence ----

  lemma {:induction false} WarningsGrow(schema: Schema, r: Recovery, items: seq<Item>)
    ensures r.warnings <= AbsorbAll(schema, r, items).warnings
    decreases |items|
  {
    if items != [] {
      WarningsGrow(schema, Absorb(schema, r, items[0]), items[1..]);
    }
  }

  /** Absorbing without a warning means that everything was found and kept. */
  lemma {:induction false} SilenceKeepsAll(schema: Schema, r: Recovery, items: seq<Item>)
    requires LegalItems(schema, items) && AbsorbAll(schema, r, items).warnings == r.warnings
    ensures AllFound(schema, items) && AbsorbAll(schema, r, items).kept == r.kept + Candidates(items)
    decreases |items|
  {
    if items == [] {
      assert r.kept + [] == r.kept;
    } else {
      var first, rest := items[0], items[1..];
      var r1 := Absorb(schema, r, first);
      WarningsGrow(schema, r1, rest);
      assert items == [first] + rest && forall i | 0 <= i < |rest| :: rest[i] == items[i + 1];
      SilenceKeepsAll(schema, r1, rest);
      assert r.kept + Candidates(items) == (r.kept + [first.occurrence]) + Candidates(rest);
    }
  }

  lemma {:induction false} SilenceMeansDecoded(schema: Schema, args: seq<Token>) returns (texts: seq<string>)
    requires AllFound(schema, Scan(schema, args, false))
    ensures args == Tokens(texts)
    decreases |args|
  {
    if args == [] {
      texts := [];
    } else if args[0].Undecodable? || !IsOption(args[0].text) {
      assert !Scan(schema, args, false)[0].Found?;
    } else if args[0].text == "--" {
      if |args| > 1 {
        NothingGoesAfterTheEnd(schema, args[1..]);
      }
      texts := ["--"];
      assert args == [args[0]];
    } else {
      texts := SilenceMeansDecodedOption(schema, args);
    }
  }

  lemma SilenceMeansDecodedOption(schema: Schema, args: seq<Token>) returns (texts: seq<string>)
    requires args != [] && args[0].Decoded? && IsOption(args[0].text) && args[0].text != "--"
    requires AllFound(schema, Scan(schema, args, false))
    ensures args == Tokens(texts)
    decreases |args|, 0
  {
    var next := if |args| > 1 then Some(args[1]) else None;
    var (items, consumed) := ScanOption(schema, args[0].text, next);
    var n := if consumed && |args| > 1 then 2 else 1;
    ScanFirstOption(schema, args);
    FoundInSum(schema, items, Scan(schema, args[n..], false));
    texts := SilenceMeansDecoded(schema, args[n..]);
    if n == 2 {
      ConsumedIsDecoded(schema, args[0].text, args[1]);
      texts := [args[0].text, args[1].text] + texts;
    } else {
      texts := [args[0].text] + texts;
    }
  }

  lemma ConsumedIsDecoded(schema: Schema, text: string, next: Token)
    requires IsOption(text) && ScanOption(schema, text, Some(next)).1
    requires AllFound(schema, ScanOption(schema, text, Some(next)).0)
    ensures next.Decoded?
  {
    if "--" <= text {
      var item := ScanLong(schema, text, Some(next)).0;
      assert item in [item];
    } else if next.Undecodable? {
      ClusterRefusesUndecodable(schema, text, text[1..]);
    }
  }

  lemma {:induction false} ClusterRefusesUndecodable(schema: Schema, text: string, cluster: string)
    requires ScanCluster(schema, text, cluster, Some(Undecodable)).1
    ensures !AllFound(schema, ScanCluster(schema, text, cluster, Some(Undecodable)).0)
  {
    var items := ScanCluster(schema, text, cluster, Some(Undecodable)).0;
    var i := ByShort(schema, cluster[0]);
    if i.Some? && !schema[i.value].argument.NoArgument? {
      assert !items[0].Found?;
    } else {
      ClusterRefusesUndecodable(schema, text, cluster[1..]);
      FoundInSum(schema, [items[0]], ScanCluster(schema, text, cluster[1..], Some(Undecodable)).0);
    }
  }

  /** Whether a command line is one that both parses take as it is. */
  ghost predicate IsClean(schema: Schema, args: seq<Token>, texts: seq<string>) {
    args == Tokens(texts) && OnlyOptions(schema, texts) && StrictParse(schema, texts).Some?
  }

  lemma CleanIsKept(schema: Schema, args: seq<Token>, texts: seq<string>)
    requires LongNamesAreLong(schema) && IsClean(schema, args, texts)
    ensures Recover(schema, args).warnings == [] && Recover(schema, args).kept == StrictParse(schema, texts).value
  {
    ScansAgree(schema, texts);
    AbsorbDistinct(schema, NOTHING_RECOVERED, Scan(schema, args, false));
    assert [] + Candidates(Scan(schema, args, false)) == Candidates(Scan(schema, args, false));
  }

  /** Main result: recovery is silent for exactly the command lines that the strict parse accepts and that hold nothing but
      options, and then keeps exactly the occurrences that the strict parse finds: long, attached, detached or clustered. */
  lemma RecoveryAgreesWithStrictParse(schema: Schema, args: seq<Token>)
    requires LongNamesAreLong(schema)
    ensures Recover(schema, args).warnings == [] <==> exists texts :: IsClean(schema, args, texts)
    ensures forall texts | IsClean(schema, args, texts) :: Recover(schema, args).kept == StrictParse(schema, texts).value
  {
    forall texts | IsClean(schema, args, texts)
      ensures Recover(schema, args).warnings == [] && Recover(schema, args).kept == StrictParse(schema, texts).value
    {
      CleanIsKept(schema, args, texts);
    }
    if Recover(schema, args).warnings == [] {
      var items := Scan(schema, args, false);
      ScanIsLegal(schema, args, false);
      SilenceKeepsAll(schema, NOTHING_RECOVERED, items);
      assert [] + Candidates(items) == Candidates(items);
      forall k | 0 <= k < |schema| && !schema[k].repeatable
        ensures |Of(k, Candidates(items))| <= 1
      {
        FirstOccurrenceWins(schema, args, k);
      }
      var texts := SilenceMeansDecoded(schema, args);
      ScansAgree(schema, texts);
      assert IsClean(schema, args, texts);
    }
  }

  lemma OneOccurrence(schema: Schema, o: Occurrence)
    ensures NoRepeats(schema, [o]) && [o] + [] == [o]
  {
    forall k | 0 <= k < |schema|
      ensures |Of(k, [o])| <= 1
    {
      assert [o][1..] == [];
    }
  }

  /** Why short options after two dashes are left out: the strict parse would accept them, recovery drops them. */
  lemma ShortOptionAfterDashesIsDropped(schema: Schema, i: nat, name: char, value: string)
    requires WellNamed(schema) && LongNamesAreLong(schema) && i < |schema|
    requires schema[i].short == Some(name) && name != '=' && name < '\U{80}' && schema[i].argument.RequiredArgument?
    ensures var text := "--" + [name] + "=" + value;
            && StrictParse(schema, [text]) == Some([Occurrence(i, Some(value))])
            && Recover(schema, [Decoded(text)]).kept == []
            && Recover(schema, [Decoded(text)]).warnings == [Unknown([name], text)]
  {
    var text := "--" + [name] + "=" + value;
    assert text[2..] == [name] + ("=" + value);
    SplitLong([name], Some(value));
    assert Text.Utf8Length([name]) == 1 + Text.Utf8Length([name][1..]) == 1;
    ShortNameFindsOption(schema, i);
    assert [text][1..] == [];
    assert StrictLong(schema, text, None) == Some((Occurrence(i, Some(value)), false));
    OneOccurrence(schema, Occurrence(i, Some(value)));
    assert StrictScan(schema, [text]) == Some([Occurrence(i, Some(value))] + []);
    ShortAfterDashesIsUnknown(schema, text, None);
    var item := Warn(Unknown([name], text));
    assert Scan(schema, [Decoded(text)], false) == [item] + Scan(schema, [Decoded(text)][1..], false) == [item];
    assert AbsorbAll(schema, NOTHING_RECOVERED, [item]) == AbsorbAll(schema, Absorb(schema, NOTHING_RECOVERED, item), []);
  }
}
