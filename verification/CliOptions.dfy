/** Tolerant recovery of command-line options (`recover_options` in `src/greeter.rs`): a malformed occurrence is dropped
    with a warning, and what is kept is spelled in one canonical way. */
module CliOptions {
  import opened Wrappers

  datatype OptionArgument = NoArgument | RequiredArgument | OptionalArgument

  datatype Specification = Specification(
    short: Option<char>,
    long: Option<string>,
    argument: OptionArgument,
    repeatable: bool)

  type Schema = seq<Specification>

  /** A command-line argument, which need not be valid UTF-8. */
  datatype Token = Decoded(text: string) | Undecodable

  datatype Occurrence = Occurrence(option: nat, value: Option<string>)

  datatype Warning =
    | InvalidUtf8
    | Positional(argument: string)
    | Unknown(name: string, spelling: string)
    | UnexpectedValue(name: string, spelling: string)
    | MissingValue(name: string, spelling: string)
    | InvalidValue(name: string, spelling: string)
    | Duplicate(option: nat, spelling: string)

  /** What scanning finds, before duplicates are dropped. */
  datatype Item = Warn(warning: Warning) | Found(occurrence: Occurrence, spelling: string)

  // ---- looking options up ----

  function ByLong(schema: Schema, name: string): (r: Option<nat>)
    ensures r.Some? ==> r.value < |schema| && schema[r.value].long == Some(name)
    ensures r.None? ==> forall i | 0 <= i < |schema| :: schema[i].long != Some(name)
    ensures r.Some? ==> forall i | 0 <= i < r.value :: schema[i].long != Some(name)
  {
    FindLong(schema, name, 0)
  }

  function FindLong(schema: Schema, name: string, from: nat): (r: Option<nat>)
    requires from <= |schema|
    requires forall i | 0 <= i < from :: schema[i].long != Some(name)
    ensures r.Some? ==> r.value < |schema| && schema[r.value].long == Some(name)
    ensures r.None? ==> forall i | 0 <= i < |schema| :: schema[i].long != Some(name)
    ensures r.Some? ==> forall i | 0 <= i < r.value :: schema[i].long != Some(name)
    decreases |schema| - from
  {
    if from == |schema| then None
    else if schema[from].long == Some(name) then Some(from)
    else FindLong(schema, name, from + 1)
  }

  function ByShort(schema: Schema, name: char): (r: Option<nat>)
    ensures r.Some? ==> r.value < |schema| && schema[r.value].short == Some(name)
    ensures r.None? ==> forall i | 0 <= i < |schema| :: schema[i].short != Some(name)
    ensures r.Some? ==> forall i | 0 <= i < r.value :: schema[i].short != Some(name)
  {
    FindShort(schema, name, 0)
  }

  function FindShort(schema: Schema, name: char, from: nat): (r: Option<nat>)
    requires from <= |schema|
    requires forall i | 0 <= i < from :: schema[i].short != Some(name)
    ensures r.Some? ==> r.value < |schema| && schema[r.value].short == Some(name)
    ensures r.None? ==> forall i | 0 <= i < |schema| :: schema[i].short != Some(name)
    ensures r.Some? ==> forall i | 0 <= i < r.value :: schema[i].short != Some(name)
    decreases |schema| - from
  {
    if from == |schema| then None
    else if schema[from].short == Some(name) then Some(from)
    else FindShort(schema, name, from + 1)
  }

  // ---- scanning ----

  predicate IsOption(argument: string) {
    |argument| > 1 && argument[0] == '-'
  }

  /** `split_once('=')` */
  function SplitOnce(s: string): (string, Option<string>) {
    if s == "" then ("", None)
    else if s[0] == '=' then ("", Some(s[1..]))
    else
      var (name, value) := SplitOnce(s[1..]);
      ([s[0]] + name, value)
  }

  /** The value a detached-value option takes from the next argument: whether it takes one, and what it then finds. */
  function DetachedValue(option: nat, argument: OptionArgument, name: string, spelling: string, next: Option<Token>):
    (Item, bool)
  {
    match next
    case Some(Decoded(value)) =>
      if !IsOption(value) then (Found(Occurrence(option, Some(value)), spelling), true)
      else if argument.OptionalArgument? then (Found(Occurrence(option, None), spelling), false)
      else (Warn(MissingValue(name, spelling)), false)
    case Some(Undecodable) => (Warn(InvalidValue(name, spelling)), true)
    case None =>
      if argument.OptionalArgument? then (Found(Occurrence(option, None), spelling), false)
      else (Warn(MissingValue(name, spelling)), false)
  }

  function ScanLong(schema: Schema, text: string, next: Option<Token>): (Item, bool)
    requires |text| >= 2
  {
    var (name, attached) := SplitOnce(text[2..]);
    var i := ByLong(schema, name);
    if i.None? then (Warn(Unknown(name, text)), false)
    else
      match schema[i.value].argument
      case NoArgument =>
        if attached.Some? then (Warn(UnexpectedValue(name, text)), false)
        else (Found(Occurrence(i.value, None), text), false)
      case OptionalArgument => (Found(Occurrence(i.value, attached), text), false)
      case RequiredArgument =>
        if attached.Some? then (Found(Occurrence(i.value, attached), text), false)
        else DetachedValue(i.value, RequiredArgument, name, text, next)
  }

  /** The rest of a cluster of short options; `text` is the whole argument. */
  function ScanCluster(schema: Schema, text: string, cluster: string, next: Option<Token>): (seq<Item>, bool) {
    if cluster == "" then ([], false)
    else
      var i := ByShort(schema, cluster[0]);
      if i.None? then
        var (items, consumed) := ScanCluster(schema, text, cluster[1..], next);
        ([Warn(Unknown([cluster[0]], ['-', cluster[0]]))] + items, consumed)
      else if schema[i.value].argument.NoArgument? then
        var (items, consumed) := ScanCluster(schema, text, cluster[1..], next);
        ([Found(Occurrence(i.value, None), ['-', cluster[0]])] + items, consumed)
      else if |cluster| > 1 then ([Found(Occurrence(i.value, Some(cluster[1..])), text)], false)
      else
        var (item, consumed) := DetachedValue(i.value, schema[i.value].argument, [cluster[0]], text, next);
        ([item], consumed)
  }

  function Scan(schema: Schema, args: seq<Token>, ended: bool): seq<Item>
    decreases |args|
  {
    if args == [] then []
    else if args[0].Undecodable? then [Warn(InvalidUtf8)] + Scan(schema, args[1..], ended)
    else
      var text := args[0].text;
      if ended then [Warn(Positional(text))] + Scan(schema, args[1..], true)
      else if text == "--" then Scan(schema, args[1..], true)
      else
        var next := if |args| > 1 then Some(args[1]) else None;
        if "--" <= text then
          var (item, consumed) := ScanLong(schema, text, next);
          [item] + Scan(schema, args[if consumed && |args| > 1 then 2 else 1..], false)
        else if IsOption(text) then
          var (items, consumed) := ScanCluster(schema, text, text[1..], next);
          items + Scan(schema, args[if consumed && |args| > 1 then 2 else 1..], false)
        else [Warn(Positional(text))] + Scan(schema, args[1..], false)
  }

  // ---- keeping the first of each option that may not repeat ----

  datatype Recovery = Recovery(seen: set<nat>, kept: seq<Occurrence>, warnings: seq<Warning>)

  function Absorb(schema: Schema, r: Recovery, item: Item): Recovery {
    match item
    case Warn(warning) => r.(warnings := r.warnings + [warning])
    case Found(occurrence, spelling) =>
      if occurrence.option < |schema| && !schema[occurrence.option].repeatable && occurrence.option in r.seen
      then r.(warnings := r.warnings + [Duplicate(occurrence.option, spelling)])
      else r.(seen := r.seen + {occurrence.option}, kept := r.kept + [occurrence])
  }

  function AbsorbAll(schema: Schema, r: Recovery, items: seq<Item>): Recovery
    decreases |items|
  {
    if items == [] then r else AbsorbAll(schema, Absorb(schema, r, items[0]), items[1..])
  }

  const NOTHING_RECOVERED := Recovery({}, [], [])

  /** `recover_options` */
  function Recover(schema: Schema, args: seq<Token>): Recovery {
    AbsorbAll(schema, NOTHING_RECOVERED, Scan(schema, args, false))
  }

  // ---- canonical spelling ----

  function Normalized(s: Specification, value: Option<string>): string {
    var name := if s.long.Some? then "--" + s.long.value
                else if s.short.Some? then ['-', s.short.value]
                else "";
    if value.Some? then name + "=" + value.value else name
  }

  function Render(schema: Schema, kept: seq<Occurrence>): seq<string>
    requires forall o | o in kept :: o.option < |schema|
  {
    if kept == [] then []
    else [Normalized(schema[kept[0].option], kept[0].value)] + Render(schema, kept[1..])
  }

  lemma {:induction false} RenderAppend(schema: Schema, kept: seq<Occurrence>, o: Occurrence)
    requires o.option < |schema| && forall k | k in kept :: k.option < |schema|
    ensures Render(schema, kept + [o]) == Render(schema, kept) + [Normalized(schema[o.option], o.value)]
  {
    if kept == [] {
      assert kept + [o] == [o];
    } else {
      assert (kept + [o])[1..] == kept[1..] + [o];
      RenderAppend(schema, kept[1..], o);
    }
  }

  // ---- the code: one scan, filling buffers as it goes ----

  /** The buffers that `recover_options` fills. */
  class Buffers {
    const schema: Schema
    const seen: array<bool>
    var recovered: seq<string>
    var warnings: seq<Warning>
    ghost var kept: seq<Occurrence>

    ghost predicate Valid()
      reads this, seen
    {
      && seen.Length == |schema|
      && (forall o | o in kept :: o.option < |schema|)
      && recovered == Render(schema, kept)
    }

    ghost function View(): Recovery
      reads this, seen
    {
      Recovery((set i | 0 <= i < seen.Length && seen[i]), kept, warnings)
    }

    constructor (schema: Schema)
      ensures this.schema == schema && Valid() && fresh(seen) && View() == NOTHING_RECOVERED
    {
      this.schema := schema;
      seen := new bool[|schema|](_ => false);
      recovered, warnings, kept := [], [], [];
    }

    method Warn(w: Warning)
      requires Valid()
      modifies this
      ensures Valid() && View() == Absorb(schema, old(View()), Item.Warn(w))
    {
      warnings := warnings + [w];
    }

    /** `retain_option` */
    method RetainOption(option: nat, value: Option<string>, spelling: string)
      requires Valid() && option < |schema|
      modifies this, seen
      ensures Valid() && View() == Absorb(schema, old(View()), Found(Occurrence(option, value), spelling))
    {
      if !schema[option].repeatable && seen[option] {
        Warn(Duplicate(option, spelling));
        return;
      }
      seen[option] := true;
      RenderAppend(schema, kept, Occurrence(option, value));
      recovered := recovered + [Normalized(schema[option], value)];
      kept := kept + [Occurrence(option, value)];
    }

    method Take(item: Item)
      requires Valid() && (item.Found? ==> item.occurrence.option < |schema|)
      modifies this, seen
      ensures Valid() && View() == Absorb(schema, old(View()), item)
    {
      match item {
        case Warn(w) => Warn(w);
        case Found(o, spelling) => RetainOption(o.option, o.value, spelling);
      }
    }

    /** The loop over the characters of a cluster. */
    /** The short option at `offset` takes a value: what is left of the cluster, or the next argument. */
    method RecoverValue(text: string, offset: nat, option: nat, next: Option<Token>) returns (consumed: bool)
      requires Valid() && offset < |text| && ByShort(schema, text[offset]) == Some(option)
      requires !schema[option].argument.NoArgument?
      modifies this, seen
      ensures Valid()
      ensures var scanned := ScanCluster(schema, text, text[offset..], next);
              View() == AbsorbAll(schema, old(View()), scanned.0) && consumed == scanned.1
    {
      var rest := text[offset + 1..];
      assert text[offset..][0] == text[offset] && text[offset..][1..] == rest;
      ghost var items := ScanCluster(schema, text, text[offset..], next).0;
      assert |items| == 1 && items[1..] == [];
      if rest != "" {
        RetainOption(option, Some(rest), text);
        return false;
      }
      var item, taken := DetachedValue(option, schema[option].argument, [text[offset]], text, next).0,
                         DetachedValue(option, schema[option].argument, [text[offset]], text, next).1;
      Take(item);
      return taken;
    }

    method RecoverCluster(text: string, next: Option<Token>) returns (consumed: bool)
      requires Valid() && |text| > 1
      modifies this, seen
      ensures Valid()
      ensures var scanned := ScanCluster(schema, text, text[1..], next);
              View() == AbsorbAll(schema, old(View()), scanned.0) && consumed == scanned.1
    {
      var offset := 1;
      while offset < |text|
        invariant 1 <= offset <= |text| && Valid()
        invariant AbsorbAll(schema, old(View()), ScanCluster(schema, text, text[1..], next).0) ==
                  AbsorbAll(schema, View(), ScanCluster(schema, text, text[offset..], next).0)
        invariant ScanCluster(schema, text, text[1..], next).1 == ScanCluster(schema, text, text[offset..], next).1
      {
        var short := text[offset];
        ghost var cluster := text[offset..];
        assert cluster[0] == short && cluster[1..] == text[offset + 1..];
        ghost var items := ScanCluster(schema, text, cluster, next).0;
        ghost var rest := ScanCluster(schema, text, text[offset + 1..], next).0;
        var i := ByShort(schema, short);
        if i.None? {
          assert items[1..] == rest;
          Warn(Unknown([short], ['-', short]));
        } else if schema[i.value].argument.NoArgument? {
          assert items[1..] == rest;
          RetainOption(i.value, None, ['-', short]);
        } else {
          consumed := RecoverValue(text, offset, i.value, next);
          return;
        }
        offset := offset + 1;
      }
      assert text[offset..] == "";
      return false;
    }

    /** One turn of the main loop: reads the argument at `index`, and its value if it takes the next argument. */
    method RecoverArgument(args: seq<Token>, index: nat, ended: bool) returns (next: nat, endedNow: bool)
      requires Valid() && index < |args|
      modifies this, seen
      ensures Valid() && index < next <= |args|
      ensures AbsorbAll(schema, old(View()), Scan(schema, args[index..], ended)) ==
              AbsorbAll(schema, View(), Scan(schema, args[next..], endedNow))
    {
      next, endedNow := index + 1, ended;
      ghost var items := Scan(schema, args[index..], ended);
      assert args[index..][1..] == args[index + 1..];
      if args[index].Undecodable? {
        assert items[1..] == Scan(schema, args[next..], ended);
        Warn(InvalidUtf8);
        return;
      }
      var text := args[index].text;
      if ended || (text != "--" && !("--" <= text) && !IsOption(text)) {
        assert items[1..] == Scan(schema, args[next..], ended);
        Warn(Positional(text));
      } else if text == "--" {
        endedNow := true;
      } else {
        next := RecoverOption(args, index);
      }
    }

    method RecoverOption(args: seq<Token>, index: nat) returns (next: nat)
      requires Valid() && index < |args| && args[index].Decoded? && args[index].text != "--"
      requires "--" <= args[index].text || IsOption(args[index].text)
      modifies this, seen
      ensures Valid() && index < next <= |args|
      ensures AbsorbAll(schema, old(View()), Scan(schema, args[index..], false)) ==
              AbsorbAll(schema, View(), Scan(schema, args[next..], false))
    {
      var text := args[index].text;
      var following := if index + 1 < |args| then Some(args[index + 1]) else None;
      ghost var here := args[index..];
      assert |here| > 1 ==> here[1] == args[index + 1] && here[2..] == args[index + 2..];
      assert here[1..] == args[index + 1..];
      ghost var before := View();
      ghost var items: seq<Item>;
      var consumed: bool;
      if "--" <= text {
        var scanned := ScanLong(schema, text, following);
        Take(scanned.0);
        items, consumed := [scanned.0], scanned.1;
        assert items[1..] == [];
      } else {
        items := ScanCluster(schema, text, text[1..], following).0;
        consumed := RecoverCluster(text, following);
      }
      next := if consumed && index + 1 < |args| then index + 2 else index + 1;
      AbsorbJoined(schema, before, items, Scan(schema, args[next..], false));
    }
  }

  lemma {:induction false} AbsorbJoined(schema: Schema, r: Recovery, a: seq<Item>, b: seq<Item>)
    ensures AbsorbAll(schema, r, a + b) == AbsorbAll(schema, AbsorbAll(schema, r, a), b)
    decreases |a|
  {
    if a == [] {
      assert a + b == b;
    } else {
      assert (a + b)[1..] == a[1..] + b;
      AbsorbJoined(schema, Absorb(schema, r, a[0]), a[1..], b);
    }
  }

  method RecoverOptions(schema: Schema, args: seq<Token>) returns (recovered: seq<string>, warnings: seq<Warning>)
    ensures warnings == Recover(schema, args).warnings
    ensures forall o | o in Recover(schema, args).kept :: o.option < |schema|
    ensures recovered == Render(schema, Recover(schema, args).kept)
  {
    var out := new Buffers(schema);
    var index := 0;
    var ended := false;
    while index < |args|
      invariant index <= |args| && out.schema == schema && out.Valid() && fresh(out) && fresh(out.seen)
      invariant Recover(schema, args) == AbsorbAll(schema, out.View(), Scan(schema, args[index..], ended))
      decreases |args| - index
    {
      index, ended := out.RecoverArgument(args, index, ended);
    }
    assert args[index..] == [];
    recovered, warnings := out.recovered, out.warnings;
  }
}
