/** Recovered options are a normal form. */
module CliTheorems {
  import opened Wrappers
  import opened CliOptions

  /** Names are present, distinct and usable on a command line. */
  ghost predicate WellNamed(schema: Schema) {
    && (forall i | 0 <= i < |schema| ::
          && (schema[i].short.Some? || schema[i].long.Some?)
          && (schema[i].long.None? ==> schema[i].short != Some('-'))
          && (schema[i].long.Some? ==> schema[i].long.value != "" && '=' !in schema[i].long.value))
    && (forall i, j | 0 <= i < j < |schema| && schema[i].long.Some? :: schema[i].long != schema[j].long)
    && (forall i, j | 0 <= i < j < |schema| && schema[i].short.Some? :: schema[i].short != schema[j].short)
  }

  /** Every option that takes a value has a long name. */
  ghost predicate ValuesHaveLongNames(schema: Schema) {
    forall i | 0 <= i < |schema| && !schema[i].argument.NoArgument? :: schema[i].long.Some?
  }

  predicate Legal(schema: Schema, o: Occurrence) {
    && o.option < |schema|
    && (schema[o.option].argument.NoArgument? ==> o.value.None?)
    && (schema[o.option].argument.RequiredArgument? ==> o.value.Some?)
  }

  ghost predicate LegalItems(schema: Schema, items: seq<Item>) {
    forall i | 0 <= i < |items| && items[i].Found? :: Legal(schema, items[i].occurrence)
  }

  /** The occurrences of one option, in order. */
  function Of(option: nat, list: seq<Occurrence>): seq<Occurrence> {
    if list == [] then []
    else (if list[0].option == option then [list[0]] else []) + Of(option, list[1..])
  }

  /** What scanning found, duplicates included. */
  function Candidates(items: seq<Item>): seq<Occurrence> {
    if items == [] then []
    else (if items[0].Found? then [items[0].occurrence] else []) + Candidates(items[1..])
  }

  function AtMostFirst(list: seq<Occurrence>): seq<Occurrence> {
    if list == [] then [] else [list[0]]
  }

  // ---- only legal occurrences are found ----

  lemma {:induction false} ClusterIsLegal(schema: Schema, text: string, cluster: string, next: Option<Token>)
    ensures LegalItems(schema, ScanCluster(schema, text, cluster, next).0)
  {
    if cluster != "" {
      var i := ByShort(schema, cluster[0]);
      if i.None? || schema[i.value].argument.NoArgument? {
        ClusterIsLegal(schema, text, cluster[1..], next);
      }
    }
  }

  lemma LegalConcat(schema: Schema, a: seq<Item>, b: seq<Item>)
    requires LegalItems(schema, a) && LegalItems(schema, b)
    ensures LegalItems(schema, a + b)
  {
  }

  lemma {:induction false} ScanIsLegal(schema: Schema, args: seq<Token>, ended: bool)
    ensures LegalItems(schema, Scan(schema, args, ended))
    decreases |args|
  {
    if args == [] {
    } else if args[0].Undecodable? {
      ScanIsLegal(schema, args[1..], ended);
      LegalConcat(schema, [Warn(InvalidUtf8)], Scan(schema, args[1..], ended));
    } else {
      var text := args[0].text;
      var next := if |args| > 1 then Some(args[1]) else None;
      if ended || text == "--" || !("--" <= text || IsOption(text)) {
        ScanIsLegal(schema, args[1..], ended || text == "--");
        if text != "--" || ended {
          LegalConcat(schema, [Warn(Positional(text))], Scan(schema, args[1..], ended));
        }
      } else {
        var (items, consumed) := if "--" <= text
                                 then ([ScanLong(schema, text, next).0], ScanLong(schema, text, next).1)
                                 else ScanCluster(schema, text, text[1..], next);
        if !("--" <= text) {
          ClusterIsLegal(schema, text, text[1..], next);
        }
        var rest := args[if consumed && |args| > 1 then 2 else 1..];
        ScanIsLegal(schema, rest, false);
        LegalConcat(schema, items, Scan(schema, rest, false));
      }
    }
  }

  // ---- looking options up by name ----

  lemma LongNameFindsOption(schema: Schema, i: nat)
    requires WellNamed(schema) && i < |schema| && schema[i].long.Some?
    ensures ByLong(schema, schema[i].long.value) == Some(i)
  {
    var r := ByLong(schema, schema[i].long.value);
    assert r.Some?;
    assert r.value <= i;
  }

  lemma ShortNameFindsOption(schema: Schema, i: nat)
    requires WellNamed(schema) && i < |schema| && schema[i].short.Some?
    ensures ByShort(schema, schema[i].short.value) == Some(i)
  {
    var r := ByShort(schema, schema[i].short.value);
    assert r.Some?;
    assert r.value <= i;
  }

  // ---- a malformed occurrence is dropped, and nothing else ----

  /** Why a long option cannot be kept, if it cannot; `next` is the argument after it. */
  ghost predicate Malformed(schema: Schema, text: string, next: Option<Token>, why: Warning)
    requires "--" <= text
  {
    var (name, attached) := SplitOnce(text[2..]);
    match why
    case Unknown(n, spelling) =>
      n == name && spelling == text && forall i | 0 <= i < |schema| :: schema[i].long != Some(name)
    case UnexpectedValue(n, spelling) =>
      && n == name && spelling == text && attached.Some?
      && exists i | 0 <= i < |schema| :: schema[i].long == Some(name) && schema[i].argument.NoArgument?
    case MissingValue(n, spelling) =>
      && n == name && spelling == text && attached.None?
      && (next.Some? ==> next.value.Decoded? && IsOption(next.value.text))
      && exists i | 0 <= i < |schema| :: schema[i].long == Some(name) && schema[i].argument.RequiredArgument?
    case _ => false
  }

  /** A malformed long option costs one warning, and scanning goes on right after it. */
  lemma MalformedIsDropped(schema: Schema, text: string, rest: seq<Token>, why: Warning)
    requires WellNamed(schema) && "--" <= text && text != "--"
    requires Malformed(schema, text, if rest == [] then None else Some(rest[0]), why)
    ensures Scan(schema, [Decoded(text)] + rest, false) == [Warn(why)] + Scan(schema, rest, false)
  {
    var args := [Decoded(text)] + rest;
    assert args[1..] == rest && (rest != [] ==> args[1] == rest[0]);
    var (name, attached) := SplitOnce(text[2..]);
    if !why.Unknown? {
      var i :| 0 <= i < |schema| && schema[i].long == Some(name)
               && (why.UnexpectedValue? ==> schema[i].argument.NoArgument?)
               && (why.MissingValue? ==> schema[i].argument.RequiredArgument?);
      LongNameFindsOption(schema, i);
    }
  }

  /** An argument that is no option costs one warning; after `--` nothing is an option. */
  lemma PositionalIsDropped(schema: Schema, text: string, rest: seq<Token>, ended: bool)
    requires ended || !IsOption(text)
    ensures Scan(schema, [Decoded(text)] + rest, ended) == [Warn(Positional(text))] + Scan(schema, rest, ended)
    ensures Scan(schema, [Decoded("--")] + rest, false) == Scan(schema, rest, true)
  {
    assert ([Decoded(text)] + rest)[1..] == rest && ([Decoded("--")] + rest)[1..] == rest;
    if !ended {
      assert text != "--" && !("--" <= text);
    }
  }

  // ---- the first of each option is kept ----

  lemma {:induction false} OfAppend(option: nat, list: seq<Occurrence>, o: Occurrence)
    ensures Of(option, list + [o]) == Of(option, list) + if o.option == option then [o] else []
  {
    if list == [] {
      assert list + [o] == [o];
    } else {
      assert (list + [o])[1..] == list[1..] + [o];
      OfAppend(option, list[1..], o);
      var head := if list[0].option == option then [list[0]] else [];
      var tail := if o.option == option then [o] else [];
      assert head + (Of(option, list[1..]) + tail) == (head + Of(option, list[1..])) + tail;
    }
  }

  ghost predicate Tracks(r: Recovery) {
    forall k: nat :: k in r.seen <==> Of(k, r.kept) != []
  }

  lemma AbsorbOne(schema: Schema, r: Recovery, item: Item)
    requires Tracks(r)
    ensures Tracks(Absorb(schema, r, item))
  {
    var r' := Absorb(schema, r, item);
    if item.Found? && r'.kept != r.kept {
      forall k: nat
        ensures k in r'.seen <==> Of(k, r'.kept) != []
      {
        OfAppend(k, r.kept, item.occurrence);
      }
    }
  }

  /** The occurrence of the given option that an item is, if any. */
  function Match(option: nat, item: Item): seq<Occurrence> {
    if item.Found? && item.occurrence.option == option then [item.occurrence] else []
  }

  lemma CandidatesOfFirst(items: seq<Item>, option: nat)
    requires items != []
    ensures Of(option, Candidates(items)) == Match(option, items[0]) + Of(option, Candidates(items[1..]))
  {
    if items[0].Found? {
      assert Candidates(items)[1..] == Candidates(items[1..]);
    } else {
      assert Candidates(items) == Candidates(items[1..]);
    }
  }

  lemma KeptOfFirst(schema: Schema, r: Recovery, item: Item, option: nat)
    requires Tracks(r) && option < |schema|
    ensures Of(option, Absorb(schema, r, item).kept) ==
            if schema[option].repeatable || Of(option, r.kept) == [] then Of(option, r.kept) + Match(option, item)
            else Of(option, r.kept)
  {
    if item.Found? {
      OfAppend(option, r.kept, item.occurrence);
    }
  }

  lemma {:induction false} KeptOfOption(schema: Schema, r: Recovery, items: seq<Item>, option: nat)
    requires Tracks(r) && option < |schema|
    ensures Of(option, AbsorbAll(schema, r, items).kept) ==
            Selected(schema[option].repeatable, Of(option, r.kept), Of(option, Candidates(items)))
    decreases |items|
  {
    if items != [] {
      AbsorbOne(schema, r, items[0]);
      KeptOfOption(schema, Absorb(schema, r, items[0]), items[1..], option);
      KeptOfFirst(schema, r, items[0], option);
      CandidatesOfFirst(items, option);
      SelectedStep(schema[option].repeatable, Of(option, r.kept), Match(option, items[0]), Of(option, Candidates(items[1..])));
    }
  }

  /** What is kept of one option, given what was kept before and what is found from here on. */
  function Selected(repeatable: bool, before: seq<Occurrence>, found: seq<Occurrence>): (r: seq<Occurrence>)
    ensures found == [] ==> r == before
  {
    if repeatable then before + found
    else if before == [] then AtMostFirst(found)
    else before
  }

  lemma SelectedStep(repeatable: bool, before: seq<Occurrence>, next: seq<Occurrence>, rest: seq<Occurrence>)
    requires |next| <= 1
    ensures Selected(repeatable, if repeatable || before == [] then before + next else before, rest) ==
            Selected(repeatable, before, next + rest)
  {
    assert before + (next + rest) == (before + next) + rest;
    assert next == [] ==> next + rest == rest && before + next == before;
  }

  /** Of each option the recovered list holds every occurrence if it may repeat, and otherwise the first one found. */
  lemma FirstOccurrenceWins(schema: Schema, args: seq<Token>, option: nat)
    requires option < |schema|
    ensures var found := Of(option, Candidates(Scan(schema, args, false)));
            Of(option, Recover(schema, args).kept) == if schema[option].repeatable then found else AtMostFirst(found)
  {
    KeptOfOption(schema, NOTHING_RECOVERED, Scan(schema, args, false), option);
    var found := Of(option, Candidates(Scan(schema, args, false)));
    assert Of(option, []) == [] && [] + found == found;
  }

  lemma {:induction false} KeptIsLegal(schema: Schema, r: Recovery, items: seq<Item>)
    requires LegalItems(schema, items) && forall o | o in r.kept :: Legal(schema, o)
    ensures forall o | o in AbsorbAll(schema, r, items).kept :: Legal(schema, o)
    decreases |items|
  {
    if items != [] {
      assert items[0].Found? ==> Legal(schema, items[0].occurrence);
      assert forall i | 0 <= i < |items[1..]| :: items[1..][i] == items[i + 1];
      KeptIsLegal(schema, Absorb(schema, r, items[0]), items[1..]);
    }
  }

  /** Only known options with the right number of values are kept, whatever the command line was. */
  lemma RecoveredIsLegal(schema: Schema, args: seq<Token>)
    ensures forall o | o in Recover(schema, args).kept :: Legal(schema, o)
  {
    ScanIsLegal(schema, args, false);
    KeptIsLegal(schema, NOTHING_RECOVERED, Scan(schema, args, false));
  }

  // ---- the recovered command line reads back as itself ----

  function Tokens(texts: seq<string>): seq<Token> {
    if texts == [] then [] else [Decoded(texts[0])] + Tokens(texts[1..])
  }

  function Rendered(schema: Schema, kept: seq<Occurrence>): seq<Token>
    requires forall o | o in kept :: o.option < |schema|
  {
    Tokens(Render(schema, kept))
  }

  /** The items that re-scanning finds: each occurrence, spelled as it was rendered. */
  function Respelled(schema: Schema, kept: seq<Occurrence>): seq<Item>
    requires forall o | o in kept :: o.option < |schema|
  {
    if kept == [] then []
    else [Found(kept[0], Normalized(schema[kept[0].option], kept[0].value))] + Respelled(schema, kept[1..])
  }

  lemma {:induction false} SplitLong(name: string, value: Option<string>)
    requires '=' !in name
    ensures SplitOnce(name + if value.Some? then "=" + value.value else "") == (name, value)
  {
    var s := name + if value.Some? then "=" + value.value else "";
    if name == "" {
      assert value.Some? ==> s[1..] == value.value;
    } else {
      SplitLong(name[1..], value);
      assert s[1..] == name[1..] + if value.Some? then "=" + value.value else "";
      assert [name[0]] + name[1..] == name;
    }
  }

  lemma ScanRenderedLong(schema: Schema, o: Occurrence, rest: seq<Token>)
    requires WellNamed(schema) && Legal(schema, o) && schema[o.option].long.Some?
    ensures var text := Normalized(schema[o.option], o.value);
            Scan(schema, [Decoded(text)] + rest, false) == [Found(o, text)] + Scan(schema, rest, false)
  {
    var text := Normalized(schema[o.option], o.value);
    var long := schema[o.option].long.value;
    var tail := long + if o.value.Some? then "=" + o.value.value else "";
    assert text == "--" + tail && text[2..] == tail && tail != "";
    SplitLong(long, o.value);
    LongNameFindsOption(schema, o.option);
    assert ([Decoded(text)] + rest)[1..] == rest;
    assert text != "--";
  }

  lemma ScanRenderedFlag(schema: Schema, o: Occurrence, rest: seq<Token>)
    requires WellNamed(schema) && Legal(schema, o) && schema[o.option].long.None? && schema[o.option].argument.NoArgument?
    ensures var text := Normalized(schema[o.option], o.value);
            Scan(schema, [Decoded(text)] + rest, false) == [Found(o, text)] + Scan(schema, rest, false)
  {
    var short := schema[o.option].short.value;
    var text := Normalized(schema[o.option], o.value);
    assert text == ['-', short] && text[1..] == [short] && text[1..][1..] == "";
    ShortNameFindsOption(schema, o.option);
    assert ([Decoded(text)] + rest)[1..] == rest;
    var next := if |[Decoded(text)] + rest| > 1 then Some(([Decoded(text)] + rest)[1]) else None;
    assert ScanCluster(schema, text, [short], next) == ([Found(o, text)] + [], false);
    assert [Found(o, text)] + [] == [Found(o, text)];
  }

  lemma {:induction false} ScanRendered(schema: Schema, kept: seq<Occurrence>)
    requires WellNamed(schema) && ValuesHaveLongNames(schema)
    requires forall o | o in kept :: o.option < |schema| && Legal(schema, o)
    ensures Scan(schema, Rendered(schema, kept), false) == Respelled(schema, kept)
  {
    if kept != [] {
      var o := kept[0];
      assert o in kept;
      ScanRendered(schema, kept[1..]);
      var text := Normalized(schema[o.option], o.value);
      assert Rendered(schema, kept) == [Decoded(text)] + Rendered(schema, kept[1..]) by {
        assert Render(schema, kept)[1..] == Render(schema, kept[1..]);
      }
      if schema[o.option].long.Some? {
        ScanRenderedLong(schema, o, Rendered(schema, kept[1..]));
      } else {
        ScanRenderedFlag(schema, o, Rendered(schema, kept[1..]));
      }
    }
  }

  ghost predicate NoRepeats(schema: Schema, kept: seq<Occurrence>) {
    forall k | 0 <= k < |schema| && !schema[k].repeatable :: |Of(k, kept)| <= 1
  }

  lemma AbsorbFresh(schema: Schema, r: Recovery, o: Occurrence, spelling: string)
    requires o.option < |schema| && (schema[o.option].repeatable || o.option !in r.seen)
    ensures Absorb(schema, r, Found(o, spelling)) == r.(seen := r.seen + {o.option}, kept := r.kept + [o])
  {
  }

  ghost predicate Unseen(schema: Schema, seen: set<nat>, kept: seq<Occurrence>) {
    forall k | 0 <= k < |schema| && !schema[k].repeatable && k in seen :: Of(k, kept) == []
  }

  lemma NoRepeatsOfRest(schema: Schema, seen: set<nat>, kept: seq<Occurrence>)
    requires kept != [] && kept[0].option < |schema| && NoRepeats(schema, kept) && Unseen(schema, seen, kept)
    ensures schema[kept[0].option].repeatable || kept[0].option !in seen
    ensures NoRepeats(schema, kept[1..]) && Unseen(schema, seen + {kept[0].option}, kept[1..])
  {
    var o := kept[0];
    assert Of(o.option, kept) == [o] + Of(o.option, kept[1..]);
    forall k: nat | k < |schema| && !schema[k].repeatable
      ensures |Of(k, kept[1..])| <= 1
      ensures k in seen + {o.option} ==> Of(k, kept[1..]) == []
    {
      assert |Of(k, kept)| <= 1 && (k in seen ==> Of(k, kept) == []);
      if k != o.option {
        assert Of(k, kept) == [] + Of(k, kept[1..]) == Of(k, kept[1..]);
      }
    }
  }

  ghost predicate AllFound(schema: Schema, items: seq<Item>) {
    forall item | item in items :: item.Found? && item.occurrence.option < |schema|
  }

  /** Absorbing occurrences that do not repeat keeps them all and warns of nothing. */
  lemma {:induction false} AbsorbDistinct(schema: Schema, r: Recovery, items: seq<Item>)
    requires AllFound(schema, items)
    requires NoRepeats(schema, Candidates(items)) && Unseen(schema, r.seen, Candidates(items))
    ensures AbsorbAll(schema, r, items).kept == r.kept + Candidates(items)
    ensures AbsorbAll(schema, r, items).warnings == r.warnings
    decreases |items|
  {
    if items == [] {
      assert r.kept + [] == r.kept;
    } else {
      var o, rest := items[0].occurrence, items[1..];
      assert items[0] in items && items == [items[0]] + rest;
      assert Candidates(items) == [o] + Candidates(rest) && Candidates(items)[1..] == Candidates(rest);
      NoRepeatsOfRest(schema, r.seen, Candidates(items));
      AbsorbFresh(schema, r, o, items[0].spelling);
      AbsorbDistinct(schema, Absorb(schema, r, items[0]), rest);
      assert r.kept + Candidates(items) == (r.kept + [o]) + Candidates(rest);
    }
  }

  lemma {:induction false} RespelledIsFound(schema: Schema, kept: seq<Occurrence>)
    requires forall o | o in kept :: o.option < |schema|
    ensures AllFound(schema, Respelled(schema, kept)) && Candidates(Respelled(schema, kept)) == kept
  {
    if kept != [] {
      RespelledIsFound(schema, kept[1..]);
      assert kept[0] in kept && Respelled(schema, kept)[1..] == Respelled(schema, kept[1..]);
    }
  }

  /** Recovering what was recovered changes nothing and warns of nothing, so the strict parse that follows has nothing to
      reject: for every command line, and every schema whose value options have long names. */
  lemma RecoveryIsAFixpoint(schema: Schema, args: seq<Token>)
    requires WellNamed(schema) && ValuesHaveLongNames(schema)
    ensures var kept := Recover(schema, args).kept;
            && (forall o | o in kept :: o.option < |schema|)
            && Recover(schema, Rendered(schema, kept)).kept == kept
            && Recover(schema, Rendered(schema, kept)).warnings == []
  {
    var kept := Recover(schema, args).kept;
    RecoveredIsLegal(schema, args);
    forall k | 0 <= k < |schema| && !schema[k].repeatable
      ensures |Of(k, kept)| <= 1
    {
      FirstOccurrenceWins(schema, args, k);
    }
    ScanRendered(schema, kept);
    RespelledIsFound(schema, kept);
    AbsorbDistinct(schema, NOTHING_RECOVERED, Respelled(schema, kept));
    assert [] + kept == kept;
  }

  ghost predicate IsNormalForm(schema: Schema) {
    forall args: seq<Token> ::
      && (forall o | o in Recover(schema, args).kept :: o.option < |schema|)
      && Recover(schema, Rendered(schema, Recover(schema, args).kept)).kept == Recover(schema, args).kept
  }

  /** An option that takes a value but has only a short name is rendered in a spelling that reads back differently. */
  lemma ShortValueOptionIsNotStable(schema: Schema, i: nat)
    requires WellNamed(schema) && i < |schema| && schema[i].long.None? && !schema[i].argument.NoArgument?
    ensures var args := [Decoded(['-', schema[i].short.value, 'x'])];
            && Recover(schema, args).kept == [Occurrence(i, Some("x"))]
            && Recover(schema, Rendered(schema, [Occurrence(i, Some("x"))])).kept == [Occurrence(i, Some("=x"))]
  {
    var short := schema[i].short.value;
    ShortNameFindsOption(schema, i);
    ClusterOfOne(schema, i, "x");
    ClusterOfOne(schema, i, "=x");
    var o := Occurrence(i, Some("x"));
    assert Normalized(schema[i], Some("x")) == ['-', short] + "=x";
    assert Render(schema, [o]) == [Normalized(schema[i], Some("x"))] + [];
    assert ['-', short, 'x'] == ['-', short] + "x";
    assert Tokens([Normalized(schema[i], Some("x"))]) == [Decoded(['-', short] + "=x")];
  }

  lemma ClusterOfOne(schema: Schema, i: nat, value: string)
    requires WellNamed(schema) && i < |schema| && schema[i].long.None? && !schema[i].argument.NoArgument? && value != ""
    ensures Recover(schema, [Decoded(['-', schema[i].short.value] + value)]).kept == [Occurrence(i, Some(value))]
  {
    var short := schema[i].short.value;
    var text := ['-', short] + value;
    ShortNameFindsOption(schema, i);
    assert text[1..] == [short] + value && text[1..][1..] == value;
    var item := Found(Occurrence(i, Some(value)), text);
    assert ScanCluster(schema, text, text[1..], None) == ([item], false);
    assert Scan(schema, [Decoded(text)][1..], false) == [];
    assert Scan(schema, [Decoded(text)], false) == [item] + [] == [item];
    assert AbsorbAll(schema, NOTHING_RECOVERED, [item]) == AbsorbAll(schema, Absorb(schema, NOTHING_RECOVERED, item), [item][1..]);
  }

  /** So the condition is exact: recovery is a normal form for precisely the schemas whose value options have long names. */
  lemma NormalFormExactlyWhenValuesHaveLongNames(schema: Schema)
    requires WellNamed(schema)
    ensures IsNormalForm(schema) <==> ValuesHaveLongNames(schema)
  {
    if ValuesHaveLongNames(schema) {
      forall args: seq<Token>
        ensures forall o | o in Recover(schema, args).kept :: o.option < |schema|
        ensures Recover(schema, Rendered(schema, Recover(schema, args).kept)).kept == Recover(schema, args).kept
      {
        RecoveryIsAFixpoint(schema, args);
      }
    } else {
      var i :| 0 <= i < |schema| && !schema[i].argument.NoArgument? && schema[i].long.None?;
      ShortValueOptionIsNotStable(schema, i);
    }
  }
}
