/** Layered configuration (`src/config.rs`): the system file, an explicit file and the command line, applied in order. */
module Config {
  import opened Wrappers

  const DEFAULT_MIN_UID := 1000
  const DEFAULT_MAX_UID := 60000

  /** The fields that a layer overwrites independently of all others, theme colors included: name to value. */
  type Fields = map<string, string>

  // Fields that constrain each other are kept in groups.
  datatype Identity = Identity(issue: bool, greeting: Option<string>)
  datatype UidRange = UidRange(min: Option<nat>, max: Option<nat>, defaults: (nat, nat))
  datatype Remembering = Remembering(username: bool, session: bool, userSession: bool)
  datatype Keys = Keys(command: nat, sessions: nat, power: nat)

  datatype Settings = Settings(fields: Fields, identity: Identity, uids: UidRange, remember: Remembering, keys: Keys)

  /** A layer sets some fields; a field that may be cleared has an optional value of its own. */
  datatype Layer = Layer(
    fields: Fields,
    issue: Option<bool>,
    greeting: Option<Option<string>>,
    minUid: Option<Option<nat>>,
    maxUid: Option<Option<nat>>,
    remember: Option<bool>,
    rememberSession: Option<bool>,
    rememberUserSession: Option<bool>,
    kbCommand: Option<nat>,
    kbSessions: Option<nat>,
    kbPower: Option<nat>)

  datatype Warning = IdentityConflict | UidRangeReversed | SessionsConflict | UsernameNeeded | DuplicateKeys

  /** `effective_uid_range` */
  function EffectiveUidRange(u: UidRange): (nat, nat) {
    (u.min.GetOr(u.defaults.0), u.max.GetOr(u.defaults.1))
  }

  // ---- one layer, group by group ----

  predicate IdentityClash(l: Layer) {
    l.issue == Some(true) && l.greeting.Some? && l.greeting.value.Some?
  }

  function ApplyIdentity(d: Identity, l: Layer): Identity {
    var shown := l.issue.GetOr(d.issue);
    var kept := if l.issue == Some(true) then None else d.greeting;
    if l.greeting.None? then Identity(shown, kept) else Identity(shown && l.greeting.value.None?, l.greeting.value)
  }

  function ProposedUids(u: UidRange, l: Layer): UidRange {
    u.(min := l.minUid.GetOr(u.min), max := l.maxUid.GetOr(u.max))
  }

  predicate UidClash(u: UidRange, l: Layer) {
    var (min, max) := EffectiveUidRange(ProposedUids(u, l));
    min > max
  }

  function ApplyUids(u: UidRange, l: Layer): UidRange {
    if UidClash(u, l) then u else ProposedUids(u, l)
  }

  predicate SessionClash(m: Remembering, l: Layer) {
    l.rememberSession.GetOr(m.session) && l.rememberUserSession.GetOr(m.userSession)
  }

  /** Whether user sessions are remembered after the layer while nothing remembers the user. */
  predicate LacksUsername(m: Remembering, l: Layer) {
    && (if SessionClash(m, l) then m.userSession else l.rememberUserSession.GetOr(m.userSession))
    && !l.remember.GetOr(m.username)
  }

  function ApplyRemember(m: Remembering, l: Layer): Remembering {
    var username := l.remember.GetOr(m.username) || LacksUsername(m, l);
    if SessionClash(m, l) then m.(username := username)
    else Remembering(username, l.rememberSession.GetOr(m.session), l.rememberUserSession.GetOr(m.userSession))
  }

  function ProposedKeys(k: Keys, l: Layer): Keys {
    Keys(l.kbCommand.GetOr(k.command), l.kbSessions.GetOr(k.sessions), l.kbPower.GetOr(k.power))
  }

  predicate Distinct(k: Keys) {
    k.command != k.sessions && k.command != k.power && k.sessions != k.power
  }

  predicate KeyClash(k: Keys, l: Layer) {
    (l.kbCommand.Some? || l.kbSessions.Some? || l.kbPower.Some?) && !Distinct(ProposedKeys(k, l))
  }

  function ApplyKeys(k: Keys, l: Layer): Keys {
    if KeyClash(k, l) then k else ProposedKeys(k, l)
  }

  /** `apply_layer` */
  function Apply(s: Settings, l: Layer): Settings {
    Settings(s.fields + l.fields, ApplyIdentity(s.identity, l), ApplyUids(s.uids, l), ApplyRemember(s.remember, l),
             ApplyKeys(s.keys, l))
  }

  function When(b: bool, w: Warning): seq<Warning> {
    if b then [w] else []
  }

  function RememberWarnings(m: Remembering, l: Layer): seq<Warning> {
    When(SessionClash(m, l), SessionsConflict) + When(LacksUsername(m, l), UsernameNeeded)
  }

  function Warnings(s: Settings, l: Layer): seq<Warning> {
    When(IdentityClash(l), IdentityConflict) + When(UidClash(s.uids, l), UidRangeReversed)
    + RememberWarnings(s.remember, l) + When(KeyClash(s.keys, l), DuplicateKeys)
  }

  function ApplyAll(s: Settings, layers: seq<Layer>): Settings
    decreases |layers|
  {
    if layers == [] then s else ApplyAll(Apply(s, layers[0]), layers[1..])
  }

  // ---- the settings the source updates in place ----

  class SettingsCell {
    var fields: Fields
    var issue: bool
    var greeting: Option<string>
    var minUid: Option<nat>
    var maxUid: Option<nat>
    const uidDefaults: (nat, nat)
    var remember: bool
    var rememberSession: bool
    var rememberUserSession: bool
    var kbCommand: nat
    var kbSessions: nat
    var kbPower: nat

    ghost function View(): Settings
      reads this
    {
      Settings(fields, Identity(issue, greeting), UidRange(minUid, maxUid, uidDefaults),
               Remembering(remember, rememberSession, rememberUserSession), Keys(kbCommand, kbSessions, kbPower))
    }

    constructor (s: Settings)
      ensures View() == s
    {
      fields, issue, greeting := s.fields, s.identity.issue, s.identity.greeting;
      minUid, maxUid, uidDefaults := s.uids.min, s.uids.max, s.uids.defaults;
      remember, rememberSession, rememberUserSession := s.remember.username, s.remember.session, s.remember.userSession;
      kbCommand, kbSessions, kbPower := s.keys.command, s.keys.sessions, s.keys.power;
    }

    method ApplyIdentityFields(l: Layer) returns (warnings: seq<Warning>)
      modifies this`issue, this`greeting
      ensures Identity(issue, greeting) == ApplyIdentity(old(Identity(issue, greeting)), l)
      ensures warnings == When(IdentityClash(l), IdentityConflict)
    {
      warnings := [];
      if l.issue == Some(true) && l.greeting.Some? && l.greeting.value.Some? {
        warnings := [IdentityConflict];
      }
      if l.issue == Some(true) {
        greeting := None;
      }
      if l.issue.Some? {
        issue := l.issue.value;
      }
      if l.greeting.Some? {
        if l.greeting.value.Some? {
          issue := false;
        }
        greeting := l.greeting.value;
      }
    }

    method ApplyUidFields(l: Layer) returns (warnings: seq<Warning>)
      modifies this`minUid, this`maxUid
      ensures UidRange(minUid, maxUid, uidDefaults) == ApplyUids(old(UidRange(minUid, maxUid, uidDefaults)), l)
      ensures warnings == When(UidClash(old(UidRange(minUid, maxUid, uidDefaults)), l), UidRangeReversed)
    {
      var proposedMin, proposedMax := l.minUid.GetOr(minUid), l.maxUid.GetOr(maxUid);
      if proposedMin.GetOr(uidDefaults.0) > proposedMax.GetOr(uidDefaults.1) {
        return [UidRangeReversed];
      }
      minUid, maxUid := proposedMin, proposedMax;
      return [];
    }

    method ApplyRememberFields(l: Layer) returns (warnings: seq<Warning>)
      modifies this`remember, this`rememberSession, this`rememberUserSession
      ensures Remembering(remember, rememberSession, rememberUserSession) ==
              ApplyRemember(old(Remembering(remember, rememberSession, rememberUserSession)), l)
      ensures warnings == RememberWarnings(old(Remembering(remember, rememberSession, rememberUserSession)), l)
    {
      warnings := [];
      remember := l.remember.GetOr(remember);
      var proposedSession := l.rememberSession.GetOr(rememberSession);
      var proposedUserSession := l.rememberUserSession.GetOr(rememberUserSession);
      if proposedSession && proposedUserSession {
        warnings := warnings + [SessionsConflict];
      } else {
        rememberSession, rememberUserSession := proposedSession, proposedUserSession;
      }
      if rememberUserSession && !remember {
        warnings := warnings + [UsernameNeeded];
        remember := true;
      }
    }

    method ApplyKeyFields(l: Layer) returns (warnings: seq<Warning>)
      modifies this`kbCommand, this`kbSessions, this`kbPower
      ensures Keys(kbCommand, kbSessions, kbPower) == ApplyKeys(old(Keys(kbCommand, kbSessions, kbPower)), l)
      ensures warnings == When(KeyClash(old(Keys(kbCommand, kbSessions, kbPower)), l), DuplicateKeys)
    {
      if l.kbCommand.Some? || l.kbSessions.Some? || l.kbPower.Some? {
        var command, sessions, power := l.kbCommand.GetOr(kbCommand), l.kbSessions.GetOr(kbSessions),
                                        l.kbPower.GetOr(kbPower);
        if command == sessions || command == power || sessions == power {
          return [DuplicateKeys];
        }
        kbCommand, kbSessions, kbPower := command, sessions, power;
      }
      return [];
    }

    /** `apply_layer`: everything a layer does, and exactly the warnings it earns, in order. */
    method ApplyLayer(l: Layer) returns (warnings: seq<Warning>)
      modifies this
      ensures View() == Apply(old(View()), l)
      ensures warnings == Warnings(old(View()), l)
    {
      fields := fields + l.fields;
      var identity := ApplyIdentityFields(l);
      var uids := ApplyUidFields(l);
      var remembering := ApplyRememberFields(l);
      var keys := ApplyKeyFields(l);
      warnings := identity + uids + remembering + keys;
    }
  }

  // ---- UID defaults from login.defs ----

  function DigitsValue(s: string): Option<nat> {
    if s == "" then Some(0)
    else
      var last := s[|s| - 1];
      var rest := DigitsValue(s[..|s| - 1]);
      if rest.Some? && '0' <= last <= '9' then Some(rest.value * 10 + (last - '0') as nat) else None
  }

  /** `str::parse::<u32>` */
  function ParseU32(s: string): Option<nat> {
    var digits := if s != "" && s[0] == '+' then s[1..] else s;
    if digits == "" then None
    else
      var v := DigitsValue(digits);
      if v.Some? && v.value < 0x1_0000_0000 then v else None
  }

  /** The value of the last line that gives the named field a number; lines are split at white space. */
  function LastNumber(lines: seq<seq<string>>, name: string): Option<nat> {
    if lines == [] then None
    else
      var line := lines[|lines| - 1];
      if |line| >= 2 && line[0] == name && ParseU32(line[1]).Some? then ParseU32(line[1])
      else LastNumber(lines[..|lines| - 1], name)
  }

  /** A range of numbers is taken as it is given, with defaults for what is not, unless it is reversed. */
  lemma RangeIsTakenAsGiven(lines: seq<seq<string>>)
    ensures var min := LastNumber(lines, "UID_MIN").GetOr(DEFAULT_MIN_UID);
            var max := LastNumber(lines, "UID_MAX").GetOr(DEFAULT_MAX_UID);
            && (min <= max ==> UidDefaults(lines) == (min, max))
            && (min > max ==> UidDefaults(lines) == (1000, 60000))
  {
  }

  /** The line gives the field a number. */
  predicate Gives(line: seq<string>, name: string) {
    |line| >= 2 && line[0] == name && ParseU32(line[1]).Some?
  }

  lemma {:induction false} NoNumberIsGiven(lines: seq<seq<string>>, name: string)
    ensures LastNumber(lines, name).None? <==> forall i | 0 <= i < |lines| :: !Gives(lines[i], name)
  {
    if lines != [] {
      NoNumberIsGiven(lines[..|lines| - 1], name);
      assert Gives(lines[|lines| - 1], name) ==> LastNumber(lines, name) == ParseU32(lines[|lines| - 1][1]);
    }
  }

  /** The last line that gives the field a number counts. */
  lemma {:induction false} LastNumberIsLast(lines: seq<seq<string>>, name: string, i: nat)
    requires i < |lines| && Gives(lines[i], name) && forall j | i < j < |lines| :: !Gives(lines[j], name)
    ensures LastNumber(lines, name) == ParseU32(lines[i][1])
  {
    if i < |lines| - 1 {
      assert !Gives(lines[|lines| - 1], name);
      LastNumberIsLast(lines[..|lines| - 1], name, i);
    } else {
      assert Gives(lines[|lines| - 1], name);
    }
  }

  // ---- numbers ----

  function Decimal(n: nat): string {
    if n < 10 then [Digit(n)] else Decimal(n / 10) + [Digit(n % 10)]
  }

  function Digit(n: nat): (c: char)
    requires n < 10
    ensures '0' <= c <= '9' && (c - '0') as nat == n
  {
    '0' + n as char
  }

  lemma {:induction false} DigitsOfDecimal(n: nat)
    ensures DigitsValue(Decimal(n)) == Some(n) && Decimal(n) != "" && Decimal(n)[0] != '+'
  {
    var s := Decimal(n);
    if n < 10 {
      assert s[..0] == "" && DigitsValue("") == Some(0);
    } else {
      DigitsOfDecimal(n / 10);
      assert s[..|s| - 1] == Decimal(n / 10) && s[|s| - 1] == Digit(n % 10);
    }
  }

  /** Numbers are read as they are written, as far as 32 bits go. */
  lemma NumbersAreReadAsWritten(n: nat)
    ensures ParseU32(Decimal(n)) == if n < 0x1_0000_0000 then Some(n) else None
    ensures ParseU32("+" + Decimal(n)) == ParseU32(Decimal(n))
  {
    DigitsOfDecimal(n);
    assert ("+" + Decimal(n))[1..] == Decimal(n);
  }

  function UidDefaults(lines: seq<seq<string>>): (nat, nat) {
    var min, max := LastNumber(lines, "UID_MIN").GetOr(DEFAULT_MIN_UID), LastNumber(lines, "UID_MAX").GetOr(DEFAULT_MAX_UID);
    if min <= max then (min, max) else (DEFAULT_MIN_UID, DEFAULT_MAX_UID)
  }

  /** `read_uid_defaults`, for a readable file. */
  method ReadUidDefaults(lines: seq<seq<string>>) returns (r: (nat, nat))
    ensures r == UidDefaults(lines)
    ensures r.0 <= r.1
  {
    var min: Option<nat>, max: Option<nat> := None, None;
    for i := 0 to |lines|
      invariant min == LastNumber(lines[..i], "UID_MIN") && max == LastNumber(lines[..i], "UID_MAX")
    {
      var line := lines[i];
      assert lines[..i + 1][..i] == lines[..i];
      assert "UID_MIN" != "UID_MAX" by {
        assert "UID_MIN"[5] != "UID_MAX"[5];
      }
      if |line| >= 2 && line[0] == "UID_MIN" {
        var value := ParseU32(line[1]);
        if value.Some? {
          min := value;
        }
      } else if |line| >= 2 && line[0] == "UID_MAX" {
        var value := ParseU32(line[1]);
        if value.Some? {
          max := value;
        }
      }
    }
    assert lines[..|lines|] == lines;
    var candidate := (min.GetOr(DEFAULT_MIN_UID), max.GetOr(DEFAULT_MAX_UID));
    return if candidate.0 <= candidate.1 then candidate else (DEFAULT_MIN_UID, DEFAULT_MAX_UID);
  }

  // ---- what every stack of layers guarantees ----

  predicate Sound(s: Settings) {
    && Distinct(s.keys)
    && EffectiveUidRange(s.uids).0 <= EffectiveUidRange(s.uids).1
    && !(s.remember.session && s.remember.userSession)
    && (s.remember.userSession ==> s.remember.username)
    && !(s.identity.issue && s.identity.greeting.Some?)
  }

  function Defaults(fields: Fields, uidDefaults: (nat, nat)): Settings {
    Settings(fields, Identity(false, None), UidRange(None, None, uidDefaults), Remembering(false, false, false),
             Keys(2, 3, 12))
  }

  /** Whatever the layers say, alone or against each other, the settings stay sound. */
  lemma {:induction false} EveryStackIsSound(s: Settings, layers: seq<Layer>)
    requires Sound(s)
    ensures Sound(ApplyAll(s, layers))
    decreases |layers|
  {
    if layers != [] {
      EveryStackIsSound(Apply(s, layers[0]), layers[1..]);
    }
  }

  /** Settings loaded from defaults, any UID defaults file and any stack of layers are sound. */
  lemma LoadedSettingsAreSound(fields: Fields, lines: seq<seq<string>>, layers: seq<Layer>)
    ensures Sound(ApplyAll(Defaults(fields, UidDefaults(lines)), layers))
  {
    EveryStackIsSound(Defaults(fields, UidDefaults(lines)), layers);
  }

  /** The value of a field in the topmost layer that sets it. */
  function Topmost(layers: seq<Layer>, name: string): Option<string> {
    if layers == [] then None
    else
      var top := layers[|layers| - 1];
      if name in top.fields then Some(top.fields[name]) else Topmost(layers[..|layers| - 1], name)
  }

  lemma {:induction false} TopmostFromBelow(l: Layer, layers: seq<Layer>, name: string)
    ensures Topmost([l] + layers, name) ==
            if Topmost(layers, name).Some? then Topmost(layers, name)
            else if name in l.fields then Some(l.fields[name]) else None
    decreases |layers|
  {
    var all := [l] + layers;
    if layers == [] {
      assert all == [l] && Topmost(all[..0], name) == None;
    } else {
      assert all[..|all| - 1] == [l] + layers[..|layers| - 1];
      TopmostFromBelow(l, layers[..|layers| - 1], name);
    }
  }

  /** An ungrouped field ends up as the topmost layer that sets it says, and as it was if none does. */
  lemma {:induction false} TopmostLayerWins(s: Settings, layers: seq<Layer>, name: string)
    ensures var fields := ApplyAll(s, layers).fields;
            match Topmost(layers, name)
            case Some(value) => name in fields && fields[name] == value
            case None => (name in fields <==> name in s.fields) && (name in fields ==> fields[name] == s.fields[name])
    decreases |layers|
  {
    if layers != [] {
      TopmostLayerWins(Apply(s, layers[0]), layers[1..], name);
      TopmostFromBelow(layers[0], layers[1..], name);
      assert layers == [layers[0]] + layers[1..];
    }
  }

  /** A layer's value takes the place of the one before, if it has one. */
  predicate Takes<T(==)>(layer: Option<T>, before: T, after: T) {
    match layer
    case Some(value) => after == value
    case None => after == before
  }

  /** Keys are taken all three or none: none exactly if two of them would be the same, which is what the warning says. */
  lemma KeysAreAllOrNothing(s: Settings, l: Layer, command: nat, sessions: nat, power: nat)
    requires Sound(s)
    requires Takes(l.kbCommand, s.keys.command, command)
    requires Takes(l.kbSessions, s.keys.sessions, sessions) && Takes(l.kbPower, s.keys.power, power)
    ensures DuplicateKeys in Warnings(s, l) <==> command == sessions || command == power || sessions == power
    ensures Apply(s, l).keys == if DuplicateKeys in Warnings(s, l) then s.keys else Keys(command, sessions, power)
  {
    WarningsAreExact(s, l);
  }

  /** The bounds of the UID range are taken both or neither: neither exactly if the range, with defaults for what is not set,
      would be reversed. */
  lemma UidsAreAllOrNothing(s: Settings, l: Layer, min: Option<nat>, max: Option<nat>)
    requires Takes(l.minUid, s.uids.min, min) && Takes(l.maxUid, s.uids.max, max)
    ensures var low := if min.Some? then min.value else s.uids.defaults.0;
            var high := if max.Some? then max.value else s.uids.defaults.1;
            && (UidRangeReversed in Warnings(s, l) <==> low > high)
            && Apply(s, l).uids == if low > high then s.uids else UidRange(min, max, s.uids.defaults)
  {
    WarningsAreExact(s, l);
  }

  /** The two ways of remembering sessions are taken together, unless both would be on; remembering sessions of users turns
      remembering users on. */
  lemma RememberingIsAllOrNothing(s: Settings, l: Layer, username: bool, session: bool, userSession: bool)
    requires Takes(l.remember, s.remember.username, username)
    requires Takes(l.rememberSession, s.remember.session, session)
    requires Takes(l.rememberUserSession, s.remember.userSession, userSession)
    ensures var t, w := Apply(s, l).remember, Warnings(s, l);
            && (SessionsConflict in w <==> session && userSession)
            && t.session == (if session && userSession then s.remember.session else session)
            && t.userSession == (if session && userSession then s.remember.userSession else userSession)
            && (UsernameNeeded in w <==> t.userSession && !username)
            && t.username == (username || t.userSession)
  {
    WarningsAreExact(s, l);
  }

  /** The issue and a greeting exclude each other: a layer that sets one removes the other, and the greeting prevails, with a
      warning, if it sets both. */
  lemma GreetingPrevails(s: Settings, l: Layer)
    requires Sound(s)
    ensures var t := Apply(s, l).identity;
            && (IdentityConflict in Warnings(s, l) <==>
                l.issue == Some(true) && l.greeting.Some? && l.greeting.value.Some?)
            && (l.greeting.Some? && l.greeting.value.Some? ==> t == Identity(false, l.greeting.value))
            && (l.greeting == Some(None) ==> t.greeting == None && Takes(l.issue, s.identity.issue, t.issue))
            && (l.greeting == None && l.issue == Some(true) ==> t == Identity(true, None))
            && (l.greeting == None && l.issue == Some(false) ==> t == Identity(false, s.identity.greeting))
            && (l.greeting == None && l.issue == None ==> t == s.identity)
  {
    WarningsAreExact(s, l);
  }

  lemma WarningsAreExact(s: Settings, l: Layer)
    ensures var w := Warnings(s, l);
            && (IdentityConflict in w <==> IdentityClash(l))
            && (UidRangeReversed in w <==> UidClash(s.uids, l))
            && (SessionsConflict in w <==> SessionClash(s.remember, l))
            && (UsernameNeeded in w <==> LacksUsername(s.remember, l))
            && (DuplicateKeys in w <==> KeyClash(s.keys, l))
  {
    var a, b, c, d := When(IdentityClash(l), IdentityConflict), When(UidClash(s.uids, l), UidRangeReversed),
      RememberWarnings(s.remember, l), When(KeyClash(s.keys, l), DuplicateKeys);
    forall w: Warning
      ensures w in Warnings(s, l) <==> w in a || w in b || w in c || w in d
    {
      InSum(a, b, w);
      InSum(a + b, c, w);
      InSum(a + b + c, d, w);
    }
  }

  lemma InSum<T>(a: seq<T>, b: seq<T>, x: T)
    ensures x in a + b <==> x in a || x in b
  {
  }

  /** Applying a layer twice is applying it once: loading a file a second time under another name changes nothing. */
  lemma LayersAreIdempotent(s: Settings, l: Layer)
    ensures Apply(Apply(s, l), l) == Apply(s, l)
  {
    assert (s.fields + l.fields) + l.fields == s.fields + l.fields;
    assert ApplyIdentity(ApplyIdentity(s.identity, l), l) == ApplyIdentity(s.identity, l);
    assert ApplyUids(ApplyUids(s.uids, l), l) == ApplyUids(s.uids, l);
    assert ApplyRemember(ApplyRemember(s.remember, l), l) == ApplyRemember(s.remember, l);
    assert ApplyKeys(ApplyKeys(s.keys, l), l) == ApplyKeys(s.keys, l);
  }

  /** The layers in the order in which they are applied; an explicit file that is the system file is skipped, even if the
      system file gave no layer. */
  function Stack(system: Option<Layer>, explicit: Option<Layer>, sameFile: bool, commandLine: Layer): seq<Layer> {
    (if system.Some? then [system.value] else [])
    + (if explicit.Some? && !sameFile then [explicit.value] else [])
    + [commandLine]
  }

  lemma {:induction false} StackInOrder(s: Settings, a: seq<Layer>, b: seq<Layer>)
    ensures ApplyAll(s, a + b) == ApplyAll(ApplyAll(s, a), b)
    decreases |a|
  {
    if a == [] {
      assert a + b == b;
    } else {
      assert (a + b)[1..] == a[1..] + b;
      StackInOrder(Apply(s, a[0]), a[1..], b);
    }
  }

  /** The value of an ungrouped field: the command line prevails over the explicit file, and that over the system file. */
  lemma CommandLinePrevails(defaults: Settings, system: Option<Layer>, explicit: Option<Layer>, commandLine: Layer,
                            name: string)
    ensures var fields := ApplyAll(defaults, Stack(system, explicit, false, commandLine)).fields;
            && (name in commandLine.fields ==> name in fields && fields[name] == commandLine.fields[name])
            && (name !in commandLine.fields && explicit.Some? && name in explicit.value.fields ==>
                  name in fields && fields[name] == explicit.value.fields[name])
            && (name !in commandLine.fields && (explicit.Some? ==> name !in explicit.value.fields)
                && system.Some? && name in system.value.fields ==>
                  (name in fields && fields[name] == system.value.fields[name]))
  {
    var first := if system.Some? then [system.value] else [];
    var second := if explicit.Some? then [explicit.value] else [];
    StackInOrder(defaults, first + second, [commandLine]);
    StackInOrder(defaults, first, second);
    OneLayer(defaults, system);
    OneLayer(ApplyAll(defaults, first), explicit);
    OneLayer(ApplyAll(defaults, first + second), Some(commandLine));
  }

  lemma OneLayer(s: Settings, l: Option<Layer>)
    ensures ApplyAll(s, if l.Some? then [l.value] else []).fields == if l.Some? then s.fields + l.value.fields else s.fields
  {
    if l.Some? {
      assert [l.value][1..] == [];
    }
  }

  /** `load_paths_core`, with the layers of the files that could be read. */
  method LoadPaths(defaults: Settings, system: Option<Layer>, explicit: Option<Layer>, sameFile: bool, commandLine: Layer)
    returns (settings: SettingsCell)
    ensures settings.View() == ApplyAll(defaults, Stack(system, explicit, sameFile, commandLine))
  {
    settings := new SettingsCell(defaults);
    ghost var below: seq<Layer> := [];
    if system.Some? {
      var _ := settings.ApplyLayer(system.value);
      below := [system.value];
    }
    assert settings.View() == ApplyAll(defaults, below);
    if explicit.Some? && !sameFile {
      var _ := settings.ApplyLayer(explicit.value);
      StackInOrder(defaults, below, [explicit.value]);
      below := below + [explicit.value];
    }
    assert settings.View() == ApplyAll(defaults, below);
    var _ := settings.ApplyLayer(commandLine);
    StackInOrder(defaults, below, [commandLine]);
    assert below + [commandLine] == Stack(system, explicit, sameFile, commandLine);
  }

  /** Skipping an explicit file that is the system file is harmless: reading it again would give the same settings. */
  lemma SkippingAnAliasIsHarmless(s: Settings, file: Option<Layer>, commandLine: Layer)
    ensures ApplyAll(s, Stack(file, file, false, commandLine)) == ApplyAll(s, Stack(file, file, true, commandLine))
  {
    if file.Some? {
      var layer := file.value;
      LayersAreIdempotent(s, layer);
      assert [layer, layer, commandLine][1..] == [layer, commandLine];
      assert [layer, commandLine][1..] == [commandLine];
      assert Stack(file, file, false, commandLine) == [layer, layer, commandLine];
      assert Stack(file, file, true, commandLine) == [layer, commandLine];
    }
  }
}
