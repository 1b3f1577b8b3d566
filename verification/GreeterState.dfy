/** The greeter's user-visible state (`src/greeter.rs`) as a value, and what each operation on it computes. */
module GreeterState {
  import opened Wrappers
  import opened Sessions
  import opened CacheState
  import Text

  datatype Mode =
    | UsernameMode | PasswordMode | ActionMode
    | UsersMode | CommandMode | SessionsMode | PowerMode
    | ProcessingMode

  predicate IsPopup(m: Mode) {
    m.UsersMode? || m.CommandMode? || m.SessionsMode? || m.PowerMode?
  }

  // ---- authentication state (src/ipc.rs) ----

  datatype CachedSession = CachedCommand(command: string) | CachedDesktop(selection: RememberedSelection) | CachedNone

  datatype PendingSession = PendingSession(username: string, displayName: Option<string>, selection: CachedSession)

  datatype CachePolicy = CachePolicy(rememberUsername: bool, rememberSession: bool, rememberUserSession: bool,
                                     allowCommandEditor: bool)

  datatype AuthInput = Secret | Visible

  datatype AuthState =
    | Idle
    | CreatingSession
    | AwaitingInput(input: AuthInput)
    | ContinuingAuth
    | StartingSession(pending: PendingSession, policy: CachePolicy)
    | Cancelling
    | Started
    | Failed
  {
    predicate AcceptsInput() { Idle? || AwaitingInput? }
    predicate CanCancel() { CreatingSession? || AwaitingInput? || ContinuingAuth? }
    predicate IsLivePrestart() { CanCancel() || Cancelling? }
  }

  // ---- menus ----

  datatype User = User(username: string, name: Option<string>)

  datatype PowerOption = Shutdown | Reboot | Suspend | Hibernate

  datatype Power = Power(action: PowerOption, command: Option<seq<string>>)

  datatype Menu<T> = Menu(options: seq<T>, selected: nat) {
    predicate InRange() { selected < |options| || selected == 0 }
    predicate HasSelection() { selected < |options| }
    function Clamped(): Menu<T> {
      if options == [] then Menu(options, 0)
      else if selected < |options| then this
      else Menu(options, |options| - 1)
    }
  }

  datatype Masked = Masked(value: string, mask: Option<string>)

  /** The settings that the modelled operations read. The greeter's run-time copies of them never differ from the
      settings last applied, so they are one value here. */
  datatype Settings = Settings(
    command: Option<string>,
    environment: seq<string>,
    allowCommandEditor: bool,
    defaultUser: Option<string>,
    userMenu: bool,
    userAutocomplete: bool,
    remember: bool,
    rememberSession: bool,
    rememberUserSession: bool,
    powerSetsid: bool,
    mock: bool,
    kbCommand: nat,
    kbSessions: nat,
    kbPower: nat)

  datatype ExitStatus = ExitSuccess | ExitFailure | ExitCancel

  datatype State = State(
    mode: Mode,
    previousMode: Mode,
    auth: AuthState,
    username: Masked,
    buffer: string,
    commandBuffer: string,
    source: SessionSource,
    sessions: Menu<Session>,
    users: Menu<User>,
    powers: Menu<Power>,
    cache: Remembered,
    settings: Settings,
    exit: Option<ExitStatus>)

  datatype ReloadPlan = ReloadPlan(
    settings: Settings,
    users: Option<seq<User>>,
    sessions: Option<seq<Session>>,
    powers: Option<seq<Power>>)

  // ---- launch source ----

  function SourceCommand(g: State): Option<string> {
    match g.source
    case NoSource => None
    case DefaultCommand(command, _) => Some(command)
    case FreeCommand(command) => Some(command)
    case FromSession(index) => if index < |g.sessions.options| then Some(g.sessions.options[index].command) else None
  }

  function LaunchCommand(g: State): Option<string> {
    if !g.settings.allowCommandEditor && g.source.FreeCommand? then None
    else
      var command := SourceCommand(g);
      if command.Some? && !Text.IsBlank(command.value) then command else None
  }

  function ConfiguredEnvironment(settings: Settings): Option<seq<string>> {
    if settings.environment == [] then None else Some(settings.environment)
  }

  function FallbackSource(sessions: seq<Session>, settings: Settings): SessionSource {
    if settings.command.Some? then DefaultCommand(settings.command.value, ConfiguredEnvironment(settings))
    else if sessions == [] then NoSource
    else FromSession(0)
  }

  function Capture(g: State): PendingSession {
    var selection :=
      match g.source
      case FreeCommand(command) => if g.settings.allowCommandEditor then CachedCommand(command) else CachedNone
      case FromSession(index) =>
        if index < |g.sessions.options| && SelectionOf(g.sessions.options[index]).Some?
        then CachedDesktop(SelectionOf(g.sessions.options[index]).value) else CachedNone
      case _ => CachedNone;
    PendingSession(g.username.value, g.username.mask, selection)
  }

  function CurrentPolicy(g: State): CachePolicy {
    CachePolicy(g.settings.remember, g.settings.rememberSession, g.settings.rememberUserSession,
                g.settings.allowCommandEditor)
  }

  // ---- resets and the command editor ----

  function ResetLocal(g: State, soft: bool): State {
    g.(mode := if soft then PasswordMode else UsernameMode,
       previousMode := if soft then PasswordMode else UsernameMode,
       auth := Idle,
       buffer := "",
       commandBuffer := "",
       username := if soft then g.username else Masked("", None))
  }

  /** Where a popup opened now returns to. */
  function ReturnMode(g: State): Mode {
    if IsPopup(g.mode) then g.previousMode else g.mode
  }

  function OpenCommandEditor(g: State): State {
    g.(previousMode := ReturnMode(g), commandBuffer := SourceCommand(g).GetOr(""), mode := CommandMode)
  }

  function CloseCommandEditor(g: State): State {
    g.(commandBuffer := "", mode := if g.mode == CommandMode then g.previousMode else g.mode)
  }

  // ---- beginning an attempt ----

  /** The new state and the user name to authenticate, if there is something to launch. */
  function BeginAuthentication(g: State): (State, Option<string>) {
    if LaunchCommand(g).None? then (g, None)
    else (g.(auth := CreatingSession, buffer := ""), Some(g.username.value))
  }

  function RestoreCachedSelection(g: State, selection: RememberedSelection): (h: State)
    ensures h == g.(source := h.source, sessions := h.sessions)
    ensures h.source.FreeCommand? ==> g.settings.allowCommandEditor || h.source == g.source
  {
    match selection
    case CommandEntry(command) =>
      if g.settings.allowCommandEditor then g.(source := FreeCommand(command)) else g
    case DesktopEntry(_, _) =>
      var index := Resolve(selection, g.sessions.options);
      if index.None? then g
      else g.(sessions := g.sessions.(selected := index.value), source := FromSession(index.value))
  }

  // ---- users ----

  function UserPosition(users: seq<User>, username: string): (r: Option<nat>)
    ensures r.Some? ==> r.value < |users| && users[r.value].username == username
    ensures r.Some? ==> forall j | 0 <= j < r.value :: users[j].username != username
    ensures r.None? ==> forall j | 0 <= j < |users| :: users[j].username != username
  {
    if users == [] then None
    else if users[0].username == username then Some(0)
    else
      assert forall j | 0 < j < |users| :: users[j] == users[1..][j - 1];
      var r := UserPosition(users[1..], username);
      if r.Some? then Some(r.value + 1) else None
  }

  function PrefillUser(g: State, username: Option<string>): (h: State)
    ensures h == g.(username := h.username)
  {
    if username.None? || username.value == "" then g
    else
      var i := UserPosition(g.users.options, username.value);
      g.(username := Masked(username.value, if i.Some? then g.users.options[i.value].name else None))
  }

  function SelectOnlyUser(g: State): State {
    if g.username.value == "" && g.settings.userMenu && g.mode == UsernameMode && g.auth == Idle && |g.users.options| == 1
    then g.(username := Masked(g.users.options[0].username, g.users.options[0].name))
    else g
  }

  // ---- normalization and reload ----

  function SafePreviousMode(g: State): Mode {
    if g.previousMode.UsernameMode? || g.previousMode.PasswordMode? || g.previousMode.ActionMode? then g.previousMode
    else if g.auth.AwaitingInput? then PasswordMode
    else UsernameMode
  }

  predicate PopupUsable(g: State, m: Mode) {
    match m
    case UsersMode => g.settings.userMenu && g.users.options != []
    case SessionsMode => g.sessions.options != []
    case PowerMode => g.powers.options != []
    case CommandMode => g.settings.allowCommandEditor
    case _ => true
  }

  function ClampMenus(g: State): State {
    g.(users := g.users.Clamped(), sessions := g.sessions.Clamped(), powers := g.powers.Clamped())
  }

  function RepairedSource(g: State): SessionSource {
    var source := if g.source.FromSession? && g.source.index >= |g.sessions.options|
                  then FallbackSource(g.sessions.options, g.settings) else g.source;
    if source.NoSource? then FallbackSource(g.sessions.options, g.settings) else source
  }

  function LeaveUnusablePopup(g: State): State {
    if PopupUsable(g, g.mode) then g else g.(mode := SafePreviousMode(g))
  }

  function Normalize(g: State): State {
    var g1 := ClampMenus(g);
    SelectOnlyUser(LeaveUnusablePopup(g1.(source := RepairedSource(g1))))
  }

  function ReloadUsers(g: State, users: Option<seq<User>>): (h: State)
    ensures h == g.(users := h.users)
  {
    if users.None? then g
    else
      var highlighted := if g.users.HasSelection() then UserPosition(users.value, g.users.options[g.users.selected].username)
                         else None;
      var named := if g.username.value != "" then UserPosition(users.value, g.username.value) else None;
      g.(users := Menu(users.value, if highlighted.Some? then highlighted.value else named.GetOr(0)))
  }

  function ReloadEditor(g: State, wasAllowed: bool): State {
    var g1 := if wasAllowed && !g.settings.allowCommandEditor then g.(cache := WithoutCommands(g.cache)) else g;
    if !g1.settings.allowCommandEditor && g1.mode == CommandMode then CloseCommandEditor(g1) else g1
  }

  function Relocated(sessions: seq<Session>, id: Option<SessionId>): Option<nat> {
    if id.Some? then PositionOf(sessions, id.value) else None
  }

  function ReloadSessions(g: State, sessions: Option<seq<Session>>): (h: State)
    ensures h == g.(sessions := h.sessions, source := h.source)
  {
    if sessions.None? then g
    else
      var highlighted := if g.sessions.HasSelection() then g.sessions.options[g.sessions.selected].Id() else None;
      var active := if g.source.FromSession? && g.source.index < |g.sessions.options|
                    then g.sessions.options[g.source.index].Id() else None;
      var index := Relocated(sessions.value, active);
      g.(sessions := Menu(sessions.value, Relocated(sessions.value, highlighted).GetOr(0)),
         source := if !g.source.FromSession? then g.source
                   else if index.Some? then FromSession(index.value)
                   else FallbackSource(sessions.value, g.settings))
  }

  function ReloadCommand(g: State, before: Settings): (h: State)
    ensures h == g.(source := h.source)
    ensures h.source.FreeCommand? ==> g.settings.allowCommandEditor && h.source == g.source
  {
    var s := g.settings;
    var g1 :=
      if s.command != before.command then
        if s.command.Some? then g.(source := DefaultCommand(s.command.value, ConfiguredEnvironment(s)))
        else if g.source.DefaultCommand? then g.(source := FallbackSource(g.sessions.options, s))
        else g
      else if s.environment != before.environment && g.source.DefaultCommand? then
        g.(source := DefaultCommand(g.source.command, ConfiguredEnvironment(s)))
      else g;
    if !s.allowCommandEditor && g1.source.FreeCommand?
    then g1.(source := FallbackSource(g1.sessions.options, s)) else g1
  }

  function PowerPosition(powers: seq<Power>, action: PowerOption): (r: Option<nat>)
    ensures r.Some? ==> r.value < |powers| && powers[r.value].action == action
    ensures r.Some? ==> forall j | 0 <= j < r.value :: powers[j].action != action
    ensures r.None? ==> forall j | 0 <= j < |powers| :: powers[j].action != action
  {
    if powers == [] then None
    else if powers[0].action == action then Some(0)
    else
      assert forall j | 0 < j < |powers| :: powers[j] == powers[1..][j - 1];
      var r := PowerPosition(powers[1..], action);
      if r.Some? then Some(r.value + 1) else None
  }

  function ReloadPowers(g: State, powers: Option<seq<Power>>): (h: State)
    ensures h == g.(powers := h.powers)
  {
    if powers.None? then g
    else
      var selected := if g.powers.HasSelection() then PowerPosition(powers.value, g.powers.options[g.powers.selected].action)
                      else None;
      g.(powers := Menu(powers.value, selected.GetOr(0)))
  }

  function ReloadDefaultUser(g: State, before: Settings): State {
    if g.settings.defaultUser != before.defaultUser && g.username.value == "" && g.mode == UsernameMode && g.auth == Idle
    then PrefillUser(g, g.settings.defaultUser) else g
  }

  function ApplyReload(g: State, plan: ReloadPlan): State {
    var before := g.settings;
    var g1 := ReloadUsers(g.(settings := plan.settings), plan.users);
    var g2 := ReloadDefaultUser(g1, before);
    var g3 := ReloadEditor(g2, before.allowCommandEditor);
    var g4 := ReloadSessions(g3, plan.sessions);
    var g5 := ReloadCommand(g4, before);
    Normalize(ReloadPowers(g5, plan.powers))
  }

  /** A reload that leaves nothing to launch cancels an attempt that has not started its session. */
  predicate ReloadCancels(g: State, plan: ReloadPlan) {
    var g' := ApplyReload(g, plan);
    g'.auth.CanCancel() && LaunchCommand(g').None?
  }

  // ---- start-up ----

  /** The greeter before anything is remembered or filled in. */
  function Fresh(settings: Settings, users: seq<User>, sessions: seq<Session>, powers: seq<Power>, cache: Remembered): State {
    var listed := if settings.userMenu || settings.userAutocomplete then users else [];
    State(UsernameMode, UsernameMode, Idle, Masked("", None), "", "", FallbackSource(sessions, settings),
          Menu(sessions, 0), Menu(listed, 0), Menu(powers, 0), cache, settings, None)
  }

  /** The configured user, or the last one if that is remembered. */
  function FillUser(g: State): State {
    if g.settings.remember && g.cache.lastUser.Some?
    then g.(username := Masked(g.cache.lastUser.value.username, g.cache.lastUser.value.displayName))
    else PrefillUser(g, g.settings.defaultUser)
  }

  function RestoreIfAny(g: State, entry: Option<RememberedSelection>): State {
    if entry.Some? then RestoreCachedSelection(g, entry.value) else g
  }

  /** What is remembered for the last user, if users and their sessions are remembered. */
  function OwnEntry(g: State): Option<RememberedSelection> {
    if g.settings.remember && g.cache.lastUser.Some? && g.settings.rememberUserSession
       && g.cache.lastUser.value.username in g.cache.userSelections
    then Some(g.cache.userSelections[g.cache.lastUser.value.username]) else None
  }

  function GlobalEntry(g: State): Option<RememberedSelection> {
    if g.settings.rememberSession then g.cache.globalSelection else None
  }

  function Startup(settings: Settings, users: seq<User>, sessions: seq<Session>, powers: seq<Power>,
                   cache: Remembered): State
  {
    var g := FillUser(Fresh(settings, users, sessions, powers, cache));
    Normalize(RestoreIfAny(RestoreIfAny(g, OwnEntry(g)), GlobalEntry(g)))
  }

  // ---- the invariant ----

  /** What holds of the greeter's modes, menus and launch source between any two steps. */
  ghost predicate Consistent(g: State) {
    && (g.source.FromSession? ==> g.source.index < |g.sessions.options|)
    && (g.source.FreeCommand? ==> g.settings.allowCommandEditor)
    && g.users.InRange() && g.sessions.InRange() && g.powers.InRange()
    && PopupUsable(g, g.mode)
    && (g.mode != CommandMode ==> g.commandBuffer == "")
    && !IsPopup(g.previousMode)
    && (g.auth.CreatingSession? || g.auth.ContinuingAuth? || g.auth.StartingSession? ==> !IsPopup(g.mode))
  }

  /** The part of the invariant that normalization relies on and does not establish. */
  ghost predicate Normalizable(g: State) {
    && (g.source.FreeCommand? ==> g.settings.allowCommandEditor)
    && (g.mode == CommandMode ==> g.settings.allowCommandEditor)
    && (g.mode != CommandMode ==> g.commandBuffer == "")
    && !IsPopup(g.previousMode)
    && (g.auth.CreatingSession? || g.auth.ContinuingAuth? || g.auth.StartingSession? ==> !IsPopup(g.mode))
  }

  lemma RepairedSourceIsUsable(g: State)
    ensures var source := RepairedSource(g);
            && (source.FromSession? ==> source.index < |g.sessions.options|)
            && (source.FreeCommand? ==> source == g.source)
            && (g.source.FromSession? && g.source.index < |g.sessions.options| ==> source == g.source)
  {
  }

  lemma LeavingPopup(g: State)
    requires !IsPopup(g.previousMode)
    ensures var h := LeaveUnusablePopup(g);
            && h == g.(mode := h.mode) && PopupUsable(h, h.mode)
            && (h.mode == g.mode || (!IsPopup(h.mode) && !PopupUsable(g, g.mode)))
  {
  }

  lemma NormalizeEstablishes(g: State)
    requires Normalizable(g)
    ensures Consistent(Normalize(g))
    ensures Normalize(g).auth == g.auth && Normalize(g).exit == g.exit && Normalize(g).sessions.options == g.sessions.options
    ensures !IsPopup(g.mode) ==> Normalize(g).mode == g.mode
    ensures g.source.FromSession? && g.source.index < |g.sessions.options| ==> Normalize(g).source == g.source
  {
    var g1 := ClampMenus(g);
    assert g1.users.InRange() && g1.sessions.InRange() && g1.powers.InRange();
    var g2 := g1.(source := RepairedSource(g1));
    RepairedSourceIsUsable(g1);
    var g3 := LeaveUnusablePopup(g2);
    LeavingPopup(g2);
    assert Normalize(g) == SelectOnlyUser(g3) == g3.(username := SelectOnlyUser(g3).username);
  }

  lemma StartupIsConsistent(settings: Settings, users: seq<User>, sessions: seq<Session>, powers: seq<Power>,
                            cache: Remembered)
    ensures Consistent(Startup(settings, users, sessions, powers, cache))
    ensures Startup(settings, users, sessions, powers, cache).auth == Idle
    ensures Startup(settings, users, sessions, powers, cache).exit == None
  {
    var g := FillUser(Fresh(settings, users, sessions, powers, cache));
    NormalizeEstablishes(RestoreIfAny(RestoreIfAny(g, OwnEntry(g)), GlobalEntry(g)));
  }

  lemma ResetIsConsistent(g: State, soft: bool)
    requires Consistent(g)
    ensures Consistent(ResetLocal(g, soft))
  {
  }

  lemma RestoreIsConsistent(g: State, selection: RememberedSelection)
    requires Consistent(g)
    ensures Consistent(RestoreCachedSelection(g, selection))
  {
  }

  /** What the successive stages of a reload keep: the modes, apart from closing a forbidden editor. */
  lemma ReloadStages(g: State, plan: ReloadPlan)
    requires Consistent(g)
    ensures var g1 := ReloadUsers(g.(settings := plan.settings), plan.users);
            var g2 := ReloadDefaultUser(g1, g.settings);
            var g3 := ReloadEditor(g2, g.settings.allowCommandEditor);
            var g4 := ReloadSessions(g3, plan.sessions);
            var g5 := ReloadCommand(g4, g.settings);
            var g6 := ReloadPowers(g5, plan.powers);
            && ApplyReload(g, plan) == Normalize(g6) && Normalizable(g6)
            && g6.auth == g.auth && g6.exit == g.exit && (!IsPopup(g.mode) ==> g6.mode == g.mode)
            && g3.source == g.source && g3.sessions == g.sessions && g3.settings == plan.settings
            && g6.source == g5.source && g6.sessions == g4.sessions
  {
    var g1 := ReloadUsers(g.(settings := plan.settings), plan.users);
    var g2 := ReloadDefaultUser(g1, g.settings);
    var g3 := ReloadEditor(g2, g.settings.allowCommandEditor);
    EditorStage(g2, g.settings.allowCommandEditor);
  }

  lemma EditorStage(g: State, wasAllowed: bool)
    requires !IsPopup(g.previousMode)
    requires g.mode != CommandMode ==> g.commandBuffer == ""
    ensures var h := ReloadEditor(g, wasAllowed);
            && h == g.(cache := h.cache, mode := h.mode, commandBuffer := h.commandBuffer)
            && (h.mode == CommandMode ==> g.settings.allowCommandEditor)
            && (h.mode != CommandMode ==> h.commandBuffer == "")
            && (h.mode == g.mode || !IsPopup(h.mode))
            && (!IsPopup(g.mode) ==> h.mode == g.mode)
  {
  }

  /** A reload keeps the invariant whatever the new settings and discovered lists are, and never touches the
      authentication state itself. */
  lemma ReloadIsConsistent(g: State, plan: ReloadPlan)
    requires Consistent(g)
    ensures Consistent(ApplyReload(g, plan))
    ensures ApplyReload(g, plan).auth == g.auth && ApplyReload(g, plan).exit == g.exit
    ensures !IsPopup(g.mode) ==> ApplyReload(g, plan).mode == g.mode
  {
    ReloadStages(g, plan);
    var g1 := ReloadUsers(g.(settings := plan.settings), plan.users);
    var g2 := ReloadDefaultUser(g1, g.settings);
    var g3 := ReloadEditor(g2, g.settings.allowCommandEditor);
    NormalizeEstablishes(ReloadPowers(ReloadCommand(ReloadSessions(g3, plan.sessions), g.settings), plan.powers));
  }

  /** An active session survives a reload that leaves the configured command alone, for as long as a session with its
      identity is still there: the source then points at the first such session. */
  lemma ReloadKeepsActiveSession(g: State, plan: ReloadPlan)
    requires Consistent(g) && g.source.FromSession?
    requires plan.settings.command == g.settings.command
    requires plan.sessions.Some? ==>
               var id := g.sessions.options[g.source.index].Id();
               id.Some? && exists i | 0 <= i < |plan.sessions.value| :: plan.sessions.value[i].Id() == id
    ensures var g' := ApplyReload(g, plan);
            && g'.source.FromSession? && g'.source.index < |g'.sessions.options|
            && (plan.sessions.None? ==> g'.source == g.source && g'.sessions.options == g.sessions.options)
            && (plan.sessions.Some? ==> g'.sessions.options == plan.sessions.value)
            && g'.sessions.options[g'.source.index].Id() == g.sessions.options[g.source.index].Id()
  {
    ReloadStages(g, plan);
    var g1 := ReloadUsers(g.(settings := plan.settings), plan.users);
    var g2 := ReloadDefaultUser(g1, g.settings);
    var g3 := ReloadEditor(g2, g.settings.allowCommandEditor);
    var g4 := ReloadSessions(g3, plan.sessions);
    SessionStage(g3, plan.sessions);
    var g5 := ReloadCommand(g4, g.settings);
    assert g5.source == g4.source;
    NormalizeEstablishes(ReloadPowers(g5, plan.powers));
  }

  lemma SessionStage(g: State, sessions: Option<seq<Session>>)
    requires g.source.FromSession? && g.source.index < |g.sessions.options|
    requires sessions.Some? ==>
               var id := g.sessions.options[g.source.index].Id();
               id.Some? && exists i | 0 <= i < |sessions.value| :: sessions.value[i].Id() == id
    ensures var h := ReloadSessions(g, sessions);
            && h.source.FromSession? && h.source.index < |h.sessions.options|
            && (sessions.None? ==> h == g)
            && (sessions.Some? ==> h.sessions.options == sessions.value)
            && h.sessions.options[h.source.index].Id() == g.sessions.options[g.source.index].Id()
  {
  }
}
