/** What a login leaves behind: which slots of the remembered state it changes, and that the next start offers it again. */
module LoginTheorems {
  import opened Wrappers
  import opened Sessions
  import opened CacheState
  import opened GreeterState
  import opened Replies
  import opened Protocol
  import opened ProtocolHistory
  import opened FineProtocol
  import opened FineSafety
  import opened FineTheorems
  import opened FineExactness

  // ---- one login ----

  /** Commands may be remembered only with the editor. */
  predicate MayStore(policy: CachePolicy, entry: RememberedSelection) {
    policy.allowCommandEditor || entry.DesktopEntry?
  }

  /** The login used what the entry stands for, and it may be remembered. */
  predicate Used(pending: PendingSession, policy: CachePolicy, entry: RememberedSelection) {
    && MayStore(policy, entry)
    && (pending.selection == CachedDesktop(entry)
        || (entry.CommandEntry? && pending.selection == CachedCommand(entry.command)))
  }

  function UserSlot(s: Remembered, user: string): Option<RememberedSelection> {
    if user in s.userSelections then Some(s.userSelections[user]) else None
  }

  /** Slot by slot: a slot that the policy remembers holds what was used, and is empty if that was nothing to remember; any
      other slot is what it was, but for commands that may not be stored. */
  ghost predicate LoginMeans(pending: PendingSession, policy: CachePolicy, before: Remembered, after: Remembered) {
    && after.lastUser == (if policy.rememberUsername then Some(RememberedUser(pending.username, pending.displayName))
                          else before.lastUser)
    && (forall entry ::
          after.globalSelection == Some(entry) <==>
          if policy.rememberSession then Used(pending, policy, entry)
          else before.globalSelection == Some(entry) && MayStore(policy, entry))
    && (forall user, entry ::
          UserSlot(after, user) == Some(entry) <==>
          if policy.rememberUserSession && user == pending.username then Used(pending, policy, entry)
          else UserSlot(before, user) == Some(entry) && MayStore(policy, entry))
  }

  lemma UpdateMeans(pending: PendingSession, policy: CachePolicy, before: Remembered)
    ensures LoginMeans(pending, policy, before, Applied(before, BuildUpdate(pending, policy)))
  {
    var after := Applied(before, BuildUpdate(pending, policy));
    forall user, entry
      ensures UserSlot(after, user) == Some(entry) <==>
              if policy.rememberUserSession && user == pending.username then Used(pending, policy, entry)
              else UserSlot(before, user) == Some(entry) && MayStore(policy, entry)
    {
    }
  }

  /** What is captured is the greeter's user, the listed session or the typed command it would launch, and its settings. */
  lemma CaptureMeans(g: State)
    ensures var pending, policy := Capture(g), CurrentPolicy(g);
            && pending.username == g.username.value && pending.displayName == g.username.mask
            && (forall entry ::
                  pending.selection == CachedDesktop(entry) <==>
                  g.source.FromSession? && g.source.index < |g.sessions.options|
                  && SelectionOf(g.sessions.options[g.source.index]) == Some(entry))
            && (forall command ::
                  pending.selection == CachedCommand(command) <==>
                  g.source == FreeCommand(command) && g.settings.allowCommandEditor)
            && policy.rememberUsername == g.settings.remember
            && policy.rememberSession == g.settings.rememberSession
            && policy.rememberUserSession == g.settings.rememberUserSession
            && policy.allowCommandEditor == g.settings.allowCommandEditor
  {
  }

  // ---- every committed login ----

  lemma {:induction false} LastCaptureAt(log: Log) returns (j: nat)
    requires LastCapture(log).Some?
    ensures j < |log| && log[j] == Captured(LastCapture(log).value.0, LastCapture(log).value.1)
    ensures forall k | j < k < |log| :: !log[k].Captured?
    decreases |log|
  {
    if log[|log| - 1].Captured? {
      j := |log| - 1;
    } else {
      j := LastCaptureAt(log[..|log| - 1]);
    }
  }

  /** The update committed at this point of the history does to any stored state what the latest capture says. */
  ghost predicate CommitsCapture(log: Log, i: nat, j: nat) {
    && j < i < |log| && log[i].Committed? && log[j].Captured?
    && (forall k | j < k < i :: !log[k].Captured?)
    && forall before :: LoginMeans(log[j].pending, log[j].policy, before, Applied(before, log[i].update))
  }

  lemma SoundCommitMeans(log: Log, i: nat) returns (j: nat)
    requires CommitsAreSound(log) && i < |log| && log[i].Committed?
    ensures CommitsCapture(log, i, j)
  {
    assert CommitIsSound(log[..i], log[i].update);
    j := LastCaptureAt(log[..i]);
    forall before
      ensures LoginMeans(log[j].pending, log[j].policy, before, Applied(before, log[i].update))
    {
      UpdateMeans(log[j].pending, log[j].policy, before);
    }
  }

  /** Main result: in every run of the code without dangerous races, every committed update changes any stored state slot by
      slot as the policy says that was captured, with the user and session, when the session start was queued. */
  lemma CommittedLoginsMeanWhatWasCaptured(settings: Settings, users: seq<User>, sessions: seq<Session>,
                                           powers: seq<Power>, cache: Remembered, steps: seq<Step>, i: nat)
    requires IsFineRun(FineProgram(settings, users, sessions, powers, cache), steps)
    requires IsPeaceful(FineProgram(settings, users, sessions, powers, cache), steps)
    requires var log := FineAfter(FineProgram(settings, users, sessions, powers, cache), steps).w.log;
             i < |log| && log[i].Committed?
    ensures exists j ::
              CommitsCapture(FineAfter(FineProgram(settings, users, sessions, powers, cache), steps).w.log, i, j)
  {
    var f := FineProgram(settings, users, sessions, powers, cache);
    ProgramStartsSafe(settings, users, sessions, powers, cache);
    PeacefulRunStaysSteady(f, steps);
    SteadyIsSafe(FineAfter(f, steps));
    var j := SoundCommitMeans(FineAfter(f, steps).w.log, i);
  }

  // ---- the next start ----

  /** The launch source is one that can be found again: a typed command, the configured one, or the first session that is
      remembered by its entry. */
  ghost predicate CanBeFoundAgain(g: State) {
    match g.source
    case NoSource => false
    case FreeCommand(_) => g.settings.allowCommandEditor
    case DefaultCommand(command, _) => g.settings.command == Some(command)
    case FromSession(i) =>
      && i < |g.sessions.options| && SelectionOf(g.sessions.options[i]).Some?
      && forall j | 0 <= j < i :: SelectionOf(g.sessions.options[j]) != SelectionOf(g.sessions.options[i])
  }

  function RememberedAfterLogin(g: State, before: Remembered): Remembered {
    Applied(before, BuildUpdate(Capture(g), CurrentPolicy(g)))
  }

  /** The entry that the login stored, if its source is one to store. */
  function EntryOf(g: State): Option<RememberedSelection> {
    match g.source
    case FreeCommand(command) => Some(CommandEntry(command))
    case FromSession(i) => if i < |g.sessions.options| then SelectionOf(g.sessions.options[i]) else None
    case _ => None
  }

  lemma LoginStoresItsEntry(g: State, before: Remembered)
    requires CanBeFoundAgain(g)
    ensures var s := RememberedAfterLogin(g, before);
            && (g.settings.remember ==> s.lastUser == Some(RememberedUser(g.username.value, g.username.mask)))
            && (g.settings.rememberSession ==> s.globalSelection == EntryOf(g))
            && (g.settings.rememberUserSession ==> UserSlot(s, g.username.value) == EntryOf(g))
  {
  }

  /** Restoring the entry of a source that can be found again finds it, from whatever fallback. */
  lemma EntryIsFoundAgain(g: State, h: State)
    requires CanBeFoundAgain(g) && EntryOf(g).Some?
    requires h.sessions.options == g.sessions.options && h.settings == g.settings
    ensures RestoreCachedSelection(h, EntryOf(g).value).source == g.source
  {
  }

  /** Normalization leaves a usable source and a user name alone. */
  lemma NormalizingKeepsSource(g: State)
    requires g.username.value != "" && !g.source.NoSource?
    requires g.source.FromSession? ==> g.source.index < |g.sessions.options|
    ensures Normalize(g).source == g.source && Normalize(g).username == g.username
    ensures Normalize(g).settings == g.settings && Normalize(g).sessions.options == g.sessions.options
  {
  }

  /** Restoring the entry once or twice leads back to its source. */
  lemma RestoredSource(g: State, h: State, mine: bool, global: bool) returns (r: State)
    requires CanBeFoundAgain(g) && (mine || global)
    requires h.sessions.options == g.sessions.options && h.settings == g.settings
    ensures r == RestoreIfAny(RestoreIfAny(h, if mine then EntryOf(g) else None), if global then EntryOf(g) else None)
    ensures r.source == if EntryOf(g).Some? then g.source else h.source
    ensures r.sessions.options == g.sessions.options && r.settings == g.settings && r.username == h.username
  {
    var first := RestoreIfAny(h, if mine then EntryOf(g) else None);
    if EntryOf(g).Some? {
      EntryIsFoundAgain(g, h);
      EntryIsFoundAgain(g, first);
    }
    r := RestoreIfAny(first, if global then EntryOf(g) else None);
  }

  lemma SameSourceLaunchesTheSame(g: State, h: State)
    requires h.settings == g.settings && h.sessions.options == g.sessions.options
    requires h.source == g.source
             || (h.source.DefaultCommand? && g.source.DefaultCommand? && h.source.command == g.source.command)
    ensures LaunchCommand(h) == LaunchCommand(g)
  {
  }

  /** Main result: what was launched at the last login is what the next start offers, for the same user; with sessions
      remembered globally or for each user, the same settings and the same sessions. */
  lemma LoginIsOfferedAgain(g: State, before: Remembered, users: seq<User>, powers: seq<Power>)
    requires CanBeFoundAgain(g) && g.username.value != ""
    requires g.settings.remember && (g.settings.rememberSession || g.settings.rememberUserSession)
    ensures var next := Startup(g.settings, users, g.sessions.options, powers, RememberedAfterLogin(g, before));
            && next.username == g.username && LaunchCommand(next) == LaunchCommand(g)
            && (g.source.DefaultCommand? || next.source == g.source)
  {
    LoginStoresItsEntry(g, before);
    var s := RememberedAfterLogin(g, before);
    var filled := FillUser(Fresh(g.settings, users, g.sessions.options, powers, s));
    var restored := RestoredSource(g, filled, g.settings.rememberUserSession, g.settings.rememberSession);
    NormalizingKeepsSource(restored);
    SameSourceLaunchesTheSame(g, Normalize(restored));
  }
}
