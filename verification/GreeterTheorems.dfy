/** What is launched, what a reload takes over and what a reply does, said without the functions that compute it. */
module GreeterTheorems {
  import opened Wrappers
  import opened Sessions
  import opened CacheState
  import opened GreeterState
  import opened Keyboard
  import opened Replies
  import Text

  // ---- what is launched ----

  function UnlessBlank(command: string): Option<string> {
    if Text.IsBlank(command) then None else Some(command)
  }

  /** The command that is launched is the one behind the source, unless it is blank or a typed one without the editor. */
  lemma LaunchedIsTheSource(g: State, command: string)
    ensures LaunchCommand(g) == Some(command) <==>
            && !Text.IsBlank(command)
            && ((g.source == FreeCommand(command) && g.settings.allowCommandEditor)
                || (exists environment :: g.source == DefaultCommand(command, environment))
                || (exists i | 0 <= i < |g.sessions.options| ::
                      g.source == FromSession(i) && g.sessions.options[i].command == command))
  {
    if g.source.DefaultCommand? && g.source.command == command {
      assert g.source == DefaultCommand(command, g.source.environment);
    }
  }

  /** What is offered when nothing is remembered: the configured command, else the first session, else nothing. */
  function Offered(settings: Settings, sessions: seq<Session>): Option<string> {
    match settings.command
    case Some(command) => UnlessBlank(command)
    case None => if sessions == [] then None else UnlessBlank(sessions[0].command)
  }

  lemma StartOffersTheConfiguredCommand(settings: Settings, users: seq<User>, sessions: seq<Session>, powers: seq<Power>,
                                        cache: Remembered)
    requires settings.remember ==> cache.lastUser.None?
    requires settings.rememberSession ==> cache.globalSelection.None?
    ensures LaunchCommand(Startup(settings, users, sessions, powers, cache)) == Offered(settings, sessions)
  {
  }

  /** The user who is known by the name, with the full name of the first entry, if any. */
  predicate IsKnownAs(users: seq<User>, username: string, named: Masked) {
    && named.value == username
    && (named.mask.Some? ==> exists i | 0 <= i < |users| :: users[i].username == username && users[i].name == named.mask)
    && (forall i | 0 <= i < |users| && users[i].username == username ::
          (forall j | 0 <= j < i :: users[j].username != username) ==> users[i].name == named.mask)
  }

  /** Start-up shows the lists it was given, users only where they can be chosen or completed, and fills in the user: the
      last one if that is remembered, else the configured one, else the only one that can be chosen. */
  lemma StartFillsInTheUser(settings: Settings, users: seq<User>, sessions: seq<Session>, powers: seq<Power>,
                            cache: Remembered)
    ensures var g := Startup(settings, users, sessions, powers, cache);
            var listed := if settings.userMenu || settings.userAutocomplete then users else [];
            && g.settings == settings && g.cache == cache && g.mode.UsernameMode? && g.buffer == ""
            && g.users.options == listed && g.sessions.options == sessions && g.powers.options == powers
            && if settings.remember && cache.lastUser.Some? && cache.lastUser.value.username != "" then
                 g.username == Masked(cache.lastUser.value.username, cache.lastUser.value.displayName)
               else if settings.remember && cache.lastUser.Some? then true
               else if settings.defaultUser.Some? && settings.defaultUser.value != "" then
                 IsKnownAs(listed, settings.defaultUser.value, g.username)
               else if settings.userMenu && |users| == 1 then g.username == Masked(users[0].username, users[0].name)
               else g.username == Masked("", None)
  {
    var g0 := Fresh(settings, users, sessions, powers, cache);
    FillingInKnows(g0, settings.defaultUser);
    var g := FillUser(g0);
    RestoringKeepsTheUser(g, OwnEntry(g));
    var mine := RestoreIfAny(g, OwnEntry(g));
    RestoringKeepsTheUser(mine, GlobalEntry(g));
    NormalizingKeepsTheRest(RestoreIfAny(mine, GlobalEntry(g)));
  }

  lemma RestoringKeepsTheUser(g: State, entry: Option<RememberedSelection>)
    ensures var h := RestoreIfAny(g, entry);
            h == g.(source := h.source, sessions := h.sessions) && h.sessions.options == g.sessions.options
  {
  }

  lemma NormalizingKeepsTheRest(g: State)
    requires g.mode.UsernameMode? && g.auth.Idle?
    ensures var h := Normalize(g);
            && h.settings == g.settings && h.cache == g.cache && h.mode == g.mode && h.buffer == g.buffer
            && h.users.options == g.users.options && h.sessions.options == g.sessions.options
            && h.powers.options == g.powers.options
            && h.username == if g.username.value == "" && g.settings.userMenu && |g.users.options| == 1
                             then Masked(g.users.options[0].username, g.users.options[0].name) else g.username
  {
  }

  lemma FillingInKnows(g: State, username: Option<string>)
    ensures username.Some? && username.value != "" ==> IsKnownAs(g.users.options, username.value, PrefillUser(g, username).username)
    ensures username.None? || username.value == "" ==> PrefillUser(g, username) == g
  {
    if username.Some? && username.value != "" {
      var i := UserPosition(g.users.options, username.value);
      if i.Some? {
        assert g.users.options[i.value].username == username.value;
      }
    }
  }

  // ---- reloads ----

  /** The greeter before normalization. */
  lemma BeforeNormalization(g: State, plan: ReloadPlan) returns (h: State)
    requires Consistent(g)
    ensures ApplyReload(g, plan) == Normalize(h) && h.settings == plan.settings
    ensures h.users == ReloadUsers(g, plan.users).users && h.powers == ReloadPowers(g, plan.powers).powers
    ensures h.sessions.options == plan.sessions.GetOr(g.sessions.options)
    ensures plan.sessions.Some? && g.sessions.HasSelection() ==>
              h.sessions.selected == Relocated(plan.sessions.value, g.sessions.options[g.sessions.selected].Id()).GetOr(0)
    ensures h.cache == if g.settings.allowCommandEditor && !plan.settings.allowCommandEditor then WithoutCommands(g.cache)
                       else g.cache
  {
    ReloadStages(g, plan);
    var g1 := ReloadUsers(g.(settings := plan.settings), plan.users);
    var g2 := ReloadDefaultUser(g1, g.settings);
    var g3 := ReloadEditor(g2, g.settings.allowCommandEditor);
    h := ReloadPowers(ReloadCommand(ReloadSessions(g3, plan.sessions), g.settings), plan.powers);
  }

  lemma NormalizingKeepsLists(g: State)
    ensures var h := Normalize(g);
            && h.settings == g.settings && h.cache == g.cache
            && h.users == g.users.Clamped() && h.sessions == g.sessions.Clamped() && h.powers == g.powers.Clamped()
  {
  }

  /** A reload takes over the settings and every list that was discovered anew. */
  lemma ReloadTakesOver(g: State, plan: ReloadPlan)
    requires Consistent(g)
    ensures var h := ApplyReload(g, plan);
            && h.settings == plan.settings
            && h.users.options == plan.users.GetOr(g.users.options)
            && h.sessions.options == plan.sessions.GetOr(g.sessions.options)
            && h.powers.options == plan.powers.GetOr(g.powers.options)
            && h.cache == if g.settings.allowCommandEditor && !plan.settings.allowCommandEditor then WithoutCommands(g.cache)
                          else g.cache
  {
    var h := BeforeNormalization(g, plan);
    NormalizingKeepsLists(h);
  }

  /** The user highlighted in the menu stays highlighted, wherever it is listed now. */
  lemma ReloadKeepsHighlightedUser(g: State, plan: ReloadPlan, i: nat)
    requires Consistent(g) && plan.users.Some? && g.users.HasSelection() && i < |plan.users.value|
    requires plan.users.value[i].username == g.users.options[g.users.selected].username
    requires forall j | 0 <= j < i :: plan.users.value[j].username != plan.users.value[i].username
    ensures ApplyReload(g, plan).users.selected == i
  {
    var h := BeforeNormalization(g, plan);
    NormalizingKeepsLists(h);
  }

  /** So does the power option, */
  lemma ReloadKeepsHighlightedPower(g: State, plan: ReloadPlan, i: nat)
    requires Consistent(g) && plan.powers.Some? && g.powers.HasSelection() && i < |plan.powers.value|
    requires plan.powers.value[i].action == g.powers.options[g.powers.selected].action
    requires forall j | 0 <= j < i :: plan.powers.value[j].action != plan.powers.value[i].action
    ensures ApplyReload(g, plan).powers.selected == i
  {
    var h := BeforeNormalization(g, plan);
    NormalizingKeepsLists(h);
  }

  /** and the session, known by its identity. */
  lemma ReloadKeepsHighlightedSession(g: State, plan: ReloadPlan, i: nat)
    requires Consistent(g) && plan.sessions.Some? && g.sessions.HasSelection() && i < |plan.sessions.value|
    requires plan.sessions.value[i].Id().Some?
    requires plan.sessions.value[i].Id() == g.sessions.options[g.sessions.selected].Id()
    requires forall j | 0 <= j < i :: plan.sessions.value[j].Id() != plan.sessions.value[i].Id()
    ensures ApplyReload(g, plan).sessions.selected == i
  {
    var h := BeforeNormalization(g, plan);
    NormalizingKeepsLists(h);
  }

  /** The launch source before normalization. */
  lemma ReloadedSource(g: State, plan: ReloadPlan) returns (h: State)
    requires Consistent(g)
    ensures ApplyReload(g, plan) == Normalize(h) && h.settings == plan.settings
    ensures h.sessions.options == plan.sessions.GetOr(g.sessions.options)
    ensures var before, s := g.settings, plan.settings;
            && (s.command != before.command && s.command.Some? ==>
                  h.source == DefaultCommand(s.command.value, ConfiguredEnvironment(s)))
            && (g.source.DefaultCommand? && s.command == before.command ==>
                  h.source == DefaultCommand(g.source.command, if s.environment == before.environment then g.source.environment
                                                               else ConfiguredEnvironment(s)))
            && (g.source.DefaultCommand? && s.command != before.command && s.command.None? ==>
                  h.source == FallbackSource(h.sessions.options, s))
            && (g.source.FreeCommand? && (s.command == before.command || s.command.None?) ==>
                  h.source == if s.allowCommandEditor then g.source else FallbackSource(h.sessions.options, s))
  {
    ReloadStages(g, plan);
    var g1 := ReloadUsers(g.(settings := plan.settings), plan.users);
    var g2 := ReloadDefaultUser(g1, g.settings);
    var g3 := ReloadEditor(g2, g.settings.allowCommandEditor);
    h := ReloadPowers(ReloadCommand(ReloadSessions(g3, plan.sessions), g.settings), plan.powers);
  }

  lemma NormalizingKeepsCommands(g: State)
    ensures Normalize(g).settings == g.settings && Normalize(g).sessions.options == g.sessions.options
    ensures g.source.DefaultCommand? || g.source.FreeCommand? ==> Normalize(g).source == g.source
    ensures g.source == FallbackSource(g.sessions.options, g.settings) ==> Normalize(g).source == g.source
  {
  }

  /** A command configured anew is launched from now on; one taken out of the configuration no longer is; a typed one stays
      as long as the editor is allowed. */
  lemma ReloadChangesWhatIsLaunched(g: State, plan: ReloadPlan)
    requires Consistent(g)
    ensures var h, before, s := ApplyReload(g, plan), g.settings, plan.settings;
            && (s.command.Some? && s.command != before.command ==> LaunchCommand(h) == UnlessBlank(s.command.value))
            && (s.command.None? && before.command.Some? && g.source.DefaultCommand? ==>
                  LaunchCommand(h) == Offered(s, h.sessions.options))
            && (s.command == before.command && g.source.DefaultCommand? ==> LaunchCommand(h) == LaunchCommand(g))
            && (s.command == before.command && g.source.FreeCommand? ==>
                  LaunchCommand(h) == if s.allowCommandEditor then LaunchCommand(g) else Offered(s, h.sessions.options))
  {
    var h := ReloadedSource(g, plan);
    NormalizingKeepsCommands(h);
  }

  /** Something is offered whenever there is something to offer. */
  lemma ReloadFindsASource(g: State, plan: ReloadPlan)
    requires Consistent(g) && ApplyReload(g, plan).source.NoSource?
    ensures plan.settings.command.None? && ApplyReload(g, plan).sessions.options == []
  {
    var h := BeforeNormalization(g, plan);
    NormalizingFindsASource(h);
  }

  lemma NormalizingFindsASource(g: State)
    ensures Normalize(g).source.NoSource? ==> g.settings.command.None? && Normalize(g).sessions.options == []
  {
  }

  /** A menu that has nothing to show any more is left for the mode it was opened from, or for the field in use; one that
      has stays open. */
  lemma ReloadLeavesEmptyMenus(g: State, plan: ReloadPlan)
    requires Consistent(g) && IsPopup(g.mode)
    ensures var h := ApplyReload(g, plan);
            var back := if g.previousMode == UsernameMode || g.previousMode == PasswordMode || g.previousMode == ActionMode
                        then g.previousMode else if g.auth.AwaitingInput? then PasswordMode else UsernameMode;
            match g.mode
            case UsersMode =>
              h.mode == if plan.settings.userMenu && plan.users.GetOr(g.users.options) != [] then UsersMode else back
            case SessionsMode => h.mode == if plan.sessions.GetOr(g.sessions.options) != [] then SessionsMode else back
            case PowerMode => h.mode == if plan.powers.GetOr(g.powers.options) != [] then PowerMode else back
            case _ => h.mode == if plan.settings.allowCommandEditor then CommandMode else g.previousMode
  {
    var h := ModeBeforeNormalization(g, plan);
    NormalizingLeavesEmptyMenus(h);
  }

  lemma ModeBeforeNormalization(g: State, plan: ReloadPlan) returns (h: State)
    requires Consistent(g)
    ensures ApplyReload(g, plan) == Normalize(h) && h.settings == plan.settings && h.auth == g.auth
    ensures h.previousMode == g.previousMode
    ensures h.mode == if g.mode == CommandMode && !plan.settings.allowCommandEditor then g.previousMode else g.mode
    ensures h.users.options == plan.users.GetOr(g.users.options)
    ensures h.sessions.options == plan.sessions.GetOr(g.sessions.options)
    ensures h.powers.options == plan.powers.GetOr(g.powers.options)
  {
    ReloadStages(g, plan);
    var g1 := ReloadUsers(g.(settings := plan.settings), plan.users);
    var g2 := ReloadDefaultUser(g1, g.settings);
    var g3 := ReloadEditor(g2, g.settings.allowCommandEditor);
    h := ReloadPowers(ReloadCommand(ReloadSessions(g3, plan.sessions), g.settings), plan.powers);
  }

  lemma NormalizingLeavesEmptyMenus(g: State)
    ensures var h := Normalize(g);
            var back := if g.previousMode == UsernameMode || g.previousMode == PasswordMode || g.previousMode == ActionMode
                        then g.previousMode else if g.auth.AwaitingInput? then PasswordMode else UsernameMode;
            match g.mode
            case UsersMode => h.mode == if g.settings.userMenu && g.users.options != [] then UsersMode else back
            case SessionsMode => h.mode == if g.sessions.options != [] then SessionsMode else back
            case PowerMode => h.mode == if g.powers.options != [] then PowerMode else back
            case CommandMode => h.mode == if g.settings.allowCommandEditor then CommandMode else back
            case _ => h.mode == g.mode
  {
  }

  /** A reload that brings nothing new changes nothing, unless the only listed user has to be filled in. */
  lemma ReloadOfNothingIsNothing(g: State)
    requires Consistent(g) && !g.source.NoSource? && (g.username.value != "" || |g.users.options| != 1)
    ensures ApplyReload(g, ReloadPlan(g.settings, None, None, None)) == g
  {
    assert ClampMenus(g) == g;
  }

  /** A default user configured anew is filled in only where no name has been entered and no attempt is under way. */
  lemma DefaultUserIsFilledIn(g: State, plan: ReloadPlan)
    requires Consistent(g)
    ensures var h, user := ApplyReload(g, plan), plan.settings.defaultUser;
            && (g.username.value != "" ==> h.username == g.username)
            && (!(g.mode.UsernameMode? && g.auth.Idle?) && !IsPopup(g.mode) ==> h.username == g.username)
            && (g.username.value == "" && g.mode.UsernameMode? && g.auth.Idle? ==>
                  user != g.settings.defaultUser && user.Some? && user.value != "" ==> h.username.value == user.value)
  {
  }

  // ---- replies ----

  /** A prompt opens the field for its answer, hidden or shown; a message is acknowledged; a refusal asks for the same user
      again, another error gives up the attempt; in no case is the launch source touched. */
  lemma RepliesMean(g: State, response: Response)
    requires ParseResponse(g, response).Some?
    ensures var (h, e) := ParseResponse(g, response).value;
            && h.source == g.source && h.sessions == g.sessions && h.settings == g.settings && h.cache == g.cache
            && match response
               case AuthMessage(SecretPrompt) =>
                 e == NoEffect && h == g.(mode := PasswordMode, previousMode := PasswordMode, auth := AwaitingInput(Secret))
               case AuthMessage(VisiblePrompt) =>
                 e == NoEffect && h == g.(mode := PasswordMode, previousMode := PasswordMode, auth := AwaitingInput(Visible))
               case AuthMessage(ErrorText) =>
                 e == Send(PostAuthMessageResponse(None)) && h == g.(auth := ContinuingAuth)
               case AuthMessage(InfoText) =>
                 && e == Send(PostAuthMessageResponse(None))
                 && h == g.(auth := ContinuingAuth, mode := ActionMode, previousMode := g.mode)
               case ErrorReply(AuthError) =>
                 && e == Send(CreateSession(g.username.value)) && h.auth.CreatingSession? && h.username == g.username
                 && h.mode.PasswordMode? && h.buffer == "" && h.commandBuffer == ""
               case ErrorReply(OtherError) =>
                 && e == NoEffect && h.auth.Idle? && h.username == Masked("", None) && h.mode.UsernameMode?
                 && h.buffer == "" && h.commandBuffer == ""
               case Success =>
                 if g.auth.StartingSession? then e == Commit(g.auth.pending, g.auth.policy) && h == g.(auth := Started)
                 else if LaunchCommand(g).None? then e == Cancel && h == g.(auth := Cancelling)
                 else
                   && e == Send(StartSession(LaunchCommand(g).value))
                   && h.auth.StartingSession? && h == g.(auth := h.auth, mode := ProcessingMode)
  {
  }
}
