/** The greeter object, updated in place as in `src/greeter.rs`, `src/keyboard.rs` and `src/main.rs`. Each method is
    proved to compute the function of the same name on the object's state. */
module Greeter {
  import opened Wrappers
  import opened Sessions
  import opened CacheState
  import opened GreeterState
  import Spec = GreeterState
  import Keys = Keyboard
  import Reply = Replies
  import Text

  class Greeter {
    var mode: Mode
    var previousMode: Mode
    var auth: AuthState
    var username: Masked
    var buffer: string
    var commandBuffer: string
    var source: SessionSource
    var sessions: Menu<Session>
    var users: Menu<User>
    var powers: Menu<Power>
    var cache: Remembered
    var settings: Settings
    var exit: Option<ExitStatus>

    function View(): State
      reads this
    {
      State(mode, previousMode, auth, username, buffer, commandBuffer, source, sessions, users, powers, cache, settings,
            exit)
    }

    /** `Greeter::new_with_config`, once the discovered lists and the remembered state are at hand. */
    constructor (settings: Settings, users: seq<User>, sessions: seq<Session>, powers: seq<Power>, cache: Remembered)
      ensures View() == Spec.Startup(settings, users, sessions, powers, cache) && Consistent(View())
    {
      mode, previousMode, auth := UsernameMode, UsernameMode, Idle;
      username, buffer, commandBuffer := Masked("", None), "", "";
      source := Spec.FallbackSource(sessions, settings);
      this.sessions := Menu(sessions, 0);
      this.users := Menu(if settings.userMenu || settings.userAutocomplete then users else [], 0);
      this.powers := Menu(powers, 0);
      this.cache, this.settings, exit := cache, settings, None;
      new;
      FillUser();
      RestoreRemembered();
      NormalizeDerivedState();
      StartupIsConsistent(settings, users, sessions, powers, cache);
    }

    method FillUser()
      modifies this
      ensures View() == Spec.FillUser(old(View()))
    {
      PrefillUser(settings.defaultUser);
      if settings.remember && cache.lastUser.Some? {
        username := Masked(cache.lastUser.value.username, cache.lastUser.value.displayName);
      }
    }

    /** What is remembered for the last user, and then what is remembered for all. */
    method RestoreRemembered()
      modifies this
      ensures var g := old(View());
              View() == Spec.RestoreIfAny(Spec.RestoreIfAny(g, Spec.OwnEntry(g)), Spec.GlobalEntry(g))
    {
      if settings.remember && cache.lastUser.Some? {
        var user := cache.lastUser.value.username;
        if settings.rememberUserSession && user in cache.userSelections {
          var _ := RestoreCachedSelection(cache.userSelections[user]);
        }
      }
      if settings.rememberSession && cache.globalSelection.Some? {
        var _ := RestoreCachedSelection(cache.globalSelection.value);
      }
    }

    method ResetLocal(soft: bool)
      modifies this
      ensures View() == Spec.ResetLocal(old(View()), soft)
    {
      if soft {
        mode := PasswordMode;
        previousMode := PasswordMode;
      } else {
        mode := UsernameMode;
        previousMode := UsernameMode;
      }
      auth := Idle;
      buffer := "";
      commandBuffer := "";
      if !soft {
        username := Masked("", None);
      }
    }

    method OpenCommandEditor()
      modifies this
      ensures View() == Spec.OpenCommandEditor(old(View()))
    {
      if !IsPopup(mode) {
        previousMode := mode;
      }
      commandBuffer := Spec.SourceCommand(View()).GetOr("");
      mode := CommandMode;
    }

    method CloseCommandEditor()
      modifies this
      ensures View() == Spec.CloseCommandEditor(old(View()))
    {
      commandBuffer := "";
      if mode == CommandMode {
        mode := previousMode;
      }
    }

    method BeginAuthentication() returns (name: Option<string>)
      modifies this
      ensures (View(), name) == Spec.BeginAuthentication(old(View()))
    {
      if Spec.LaunchCommand(View()).None? {
        return None;
      }
      auth := CreatingSession;
      buffer := "";
      return Some(username.value);
    }

    method RestoreCachedSelection(selection: RememberedSelection) returns (restored: bool)
      modifies this
      ensures View() == Spec.RestoreCachedSelection(old(View()), selection)
      ensures !restored ==> View() == old(View())
    {
      if selection.CommandEntry? {
        if !settings.allowCommandEditor {
          return false;
        }
        source := FreeCommand(selection.command);
        return true;
      }
      var index := Resolve(selection, sessions.options);
      if index.None? {
        return false;
      }
      sessions := sessions.(selected := index.value);
      source := FromSession(index.value);
      return true;
    }

    method PrefillUser(name: Option<string>)
      modifies this
      ensures View() == Spec.PrefillUser(old(View()), name)
    {
      if name.None? || name.value == "" {
        return;
      }
      var i := UserPosition(users.options, name.value);
      username := Masked(name.value, if i.Some? then users.options[i.value].name else None);
    }

    method RepairSource()
      modifies this
      ensures View() == old(View()).(source := Spec.RepairedSource(old(View())))
    {
      if source.FromSession? && source.index >= |sessions.options| {
        source := Spec.FallbackSource(sessions.options, settings);
      }
      if source.NoSource? {
        source := Spec.FallbackSource(sessions.options, settings);
      }
    }

    method NormalizeDerivedState()
      modifies this
      ensures View() == Spec.Normalize(old(View()))
    {
      users := users.Clamped();
      sessions := sessions.Clamped();
      powers := powers.Clamped();
      assert View() == Spec.ClampMenus(old(View()));
      RepairSource();
      var invalidModal := !Spec.PopupUsable(View(), mode);
      if invalidModal {
        mode := Spec.SafePreviousMode(View());
      }
      SelectOnlyUser();
    }

    method SelectOnlyUser()
      modifies this
      ensures View() == Spec.SelectOnlyUser(old(View()))
    {
      if username.value == "" && settings.userMenu && mode == UsernameMode && auth == Idle && |users.options| == 1 {
        username := Masked(users.options[0].username, users.options[0].name);
      }
    }

    method ReloadUsers(list: Option<seq<User>>)
      modifies this
      ensures View() == Spec.ReloadUsers(old(View()), list)
    {
      if list.Some? {
        var highlighted := if users.HasSelection() then UserPosition(list.value, users.options[users.selected].username)
                           else None;
        if highlighted.None? && username.value != "" {
          highlighted := UserPosition(list.value, username.value);
        }
        users := Menu(list.value, highlighted.GetOr(0));
      }
    }

    method ReloadDefaultUser(before: Settings)
      modifies this
      ensures View() == Spec.ReloadDefaultUser(old(View()), before)
    {
      if settings.defaultUser != before.defaultUser && username.value == "" && mode == UsernameMode && auth == Idle {
        PrefillUser(settings.defaultUser);
      }
    }

    method ReloadEditor(wasAllowed: bool)
      modifies this
      ensures View() == Spec.ReloadEditor(old(View()), wasAllowed)
    {
      if wasAllowed && !settings.allowCommandEditor {
        cache := WithoutCommands(cache);
      }
      if !settings.allowCommandEditor && mode == CommandMode {
        CloseCommandEditor();
      }
    }

    method ReloadSessions(list: Option<seq<Session>>)
      modifies this
      ensures View() == Spec.ReloadSessions(old(View()), list)
    {
      if list.Some? {
        var highlighted := if sessions.HasSelection() then sessions.options[sessions.selected].Id() else None;
        var active := if source.FromSession? && source.index < |sessions.options| then sessions.options[source.index].Id()
                      else None;
        sessions := Menu(list.value, Spec.Relocated(list.value, highlighted).GetOr(0));
        if source.FromSession? {
          var index := Spec.Relocated(list.value, active);
          source := if index.Some? then FromSession(index.value) else Spec.FallbackSource(list.value, settings);
        }
      }
    }

    method ReloadLaunch(plan: ReloadPlan, before: Settings)
      modifies this
      ensures View() == Spec.ReloadPowers(Spec.ReloadCommand(old(View()), before), plan.powers)
    {
      if settings.command != before.command {
        if settings.command.Some? {
          source := DefaultCommand(settings.command.value, Spec.ConfiguredEnvironment(settings));
        } else if source.DefaultCommand? {
          source := Spec.FallbackSource(sessions.options, settings);
        }
      } else if settings.environment != before.environment && source.DefaultCommand? {
        source := DefaultCommand(source.command, Spec.ConfiguredEnvironment(settings));
      }
      if !settings.allowCommandEditor && source.FreeCommand? {
        source := Spec.FallbackSource(sessions.options, settings);
      }
      if plan.powers.Some? {
        var selected := if powers.HasSelection() then PowerPosition(plan.powers.value, powers.options[powers.selected].action)
                        else None;
        powers := Menu(plan.powers.value, selected.GetOr(0));
      }
    }

    method ApplyReload(plan: ReloadPlan) returns (cancelAuthentication: bool)
      modifies this
      ensures View() == Spec.ApplyReload(old(View()), plan)
      ensures cancelAuthentication <==> Spec.ReloadCancels(old(View()), plan)
      ensures old(Consistent(View())) ==> Consistent(View())
    {
      if Consistent(View()) {
        ReloadIsConsistent(View(), plan);
      }
      var before := settings;
      settings := plan.settings;
      ReloadUsers(plan.users);
      ReloadDefaultUser(before);
      ReloadEditor(before.allowCommandEditor);
      ReloadSessions(plan.sessions);
      ReloadLaunch(plan, before);
      NormalizeDerivedState();
      cancelAuthentication := auth.CanCancel() && Spec.LaunchCommand(View()).None?;
    }

    // ---- keyboard ----

    method ValidateUsername() returns (e: Keys.Effect)
      requires auth.AcceptsInput()
      modifies this
      ensures (View(), e) == Keys.ValidateUsername(old(View()))
    {
      if settings.rememberUserSession && username.value in cache.userSelections {
        var _ := RestoreCachedSelection(cache.userSelections[username.value]);
      }
      var name := BeginAuthentication();
      e := if name.Some? then Keys.Send(Keys.CreateSession(name.value)) else Keys.NoEffect;
    }

    method OpenMenu(menu: Mode)
      modifies this
      ensures View() == Keys.OpenMenu(old(View()), menu)
    {
      if !IsPopup(mode) {
        previousMode := mode;
      }
      if mode == CommandMode {
        CloseCommandEditor();
      }
      mode := menu;
    }

    method PressEsc() returns (e: Keys.Effect)
      modifies this
      ensures (View(), e) == Keys.PressEsc(old(View()))
    {
      e := Keys.NoEffect;
      match mode {
        case CommandMode => CloseCommandEditor();
        case UsersMode => mode := previousMode;
        case SessionsMode => mode := previousMode;
        case PowerMode => mode := previousMode;
        case _ =>
          if auth.CanCancel() {
            auth := Cancelling;
            e := Keys.Cancel;
          } else if auth.AcceptsInput() {
            ResetLocal(false);
          }
      }
    }

    method PressArrow(up: bool)
      modifies this
      ensures View() == Keys.PressArrow(old(View()), up)
    {
      match mode {
        case UsersMode =>
          if up && users.selected > 0 {
            users := users.(selected := users.selected - 1);
          } else if !up && users.selected + 1 < |users.options| {
            users := users.(selected := users.selected + 1);
          }
        case SessionsMode =>
          if up && sessions.selected > 0 {
            sessions := sessions.(selected := sessions.selected - 1);
          } else if !up && sessions.selected + 1 < |sessions.options| {
            sessions := sessions.(selected := sessions.selected + 1);
          }
        case PowerMode =>
          if up && powers.selected > 0 {
            powers := powers.(selected := powers.selected - 1);
          } else if !up && powers.selected + 1 < |powers.options| {
            powers := powers.(selected := powers.selected + 1);
          }
        case _ =>
      }
    }

    method PressTab() returns (e: Keys.Effect)
      requires auth.AcceptsInput()
      modifies this
      ensures (View(), e) == Keys.PressTab(old(View()))
    {
      e := Keys.NoEffect;
      if mode == UsernameMode {
        if settings.userAutocomplete {
          match Keys.CompleteUsername(View()) {
            case Changed(text) => username := Masked(text, None);
            case Exact => e := ValidateUsername();
            case NoCompletion =>
          }
        } else if username.value != "" {
          e := ValidateUsername();
        }
      }
    }

    method PressEnter() returns (e: Keys.Effect)
      requires auth.AcceptsInput()
      modifies this
      ensures (View(), e) == Keys.PressEnter(old(View()))
    {
      e := Keys.NoEffect;
      match mode {
        case UsernameMode =>
          if username.value != "" {
            e := ValidateUsername();
          } else if settings.userMenu && users.options != [] {
            previousMode := mode;
            mode := UsersMode;
          }
        case PasswordMode =>
          auth := ContinuingAuth;
          e := Keys.Send(Keys.PostAuthMessageResponse(Some(buffer)));
          buffer := "";
        case CommandMode =>
          if !settings.allowCommandEditor {
            CloseCommandEditor();
          } else if !Text.IsBlank(commandBuffer) {
            sessions := sessions.(selected := 0);
            source := FreeCommand(commandBuffer);
            CloseCommandEditor();
          }
        case UsersMode =>
          mode := previousMode;
          if users.HasSelection() {
            username := Masked(users.options[users.selected].username, users.options[users.selected].name);
            e := ValidateUsername();
          }
        case SessionsMode =>
          if sessions.HasSelection() {
            source := FromSession(sessions.selected);
          }
          mode := previousMode;
        case PowerMode =>
          var control := if powers.HasSelection() then Keys.ChoosePower(View(), powers.options[powers.selected].action)
                         else None;
          mode := previousMode;
          if control.Some? {
            e := Keys.Emit(control.value);
          }
        case ActionMode =>
        case ProcessingMode =>
      }
    }

    method EditField(text: string)
      modifies this
      ensures View() == Keys.EditField(old(View()), text)
    {
      match mode {
        case UsernameMode => username := Masked(text, None);
        case PasswordMode => buffer := text;
        case CommandMode => commandBuffer := text;
        case _ =>
      }
    }

    method PressFunctionKey(n: nat)
      modifies this
      ensures View() == Keys.PressFunctionKey(old(View()), n)
    {
      if n == settings.kbCommand && settings.allowCommandEditor {
        OpenCommandEditor();
      } else if n == settings.kbSessions && sessions.options != [] {
        OpenMenu(SessionsMode);
      } else if n == settings.kbPower && powers.options != [] {
        OpenMenu(PowerMode);
      }
    }

    method HandleKey(key: Keys.Key, powerActive: bool) returns (e: Keys.Effect)
      modifies this
      ensures (View(), e) == Keys.HandleKey(old(View()), key, powerActive)
      ensures old(Consistent(View())) ==> Consistent(View())
    {
      if Consistent(View()) {
        Keys.KeyIsConsistent(View(), key, powerActive);
      }
      e := Keys.NoEffect;
      if powerActive {
        e := if key == Keys.Esc then Keys.Emit(Keys.CancelPower) else Keys.NoEffect;
        return;
      }
      if key == Keys.Esc {
        e := PressEsc();
        return;
      }
      if !auth.AcceptsInput() {
        return;
      }
      match key {
        case FKey(n) => PressFunctionKey(n);
        case Up => PressArrow(true);
        case Down => PressArrow(false);
        case Tab => e := PressTab();
        case Enter => e := PressEnter();
        case ClearLine => EditField("");
        case Edit(text) => EditField(text);
        case _ =>
      }
    }

    // ---- replies ----

    /** `parse_response_with`; `accepted` is false for a protocol error. */
    method ParseResponse(response: Reply.Response) returns (accepted: bool, e: Keys.Effect)
      modifies this
      ensures accepted <==> Reply.ParseResponse(old(View()), response).Some?
      ensures if accepted then (View(), e) == Reply.ParseResponse(old(View()), response).value
              else View() == old(View()) && e == Keys.NoEffect
      ensures old(Consistent(View())) ==> Consistent(View())
    {
      if Consistent(View()) && Reply.ParseResponse(View(), response).Some? {
        Reply.ReplyIsConsistent(View(), response);
      }
      accepted, e := false, Keys.NoEffect;
      match response {
        case AuthMessage(kind) =>
          if auth.CreatingSession? || auth.ContinuingAuth? {
            accepted := true;
            e := ParseMessage(kind);
          }
        case Success =>
          if auth.StartingSession? {
            accepted, e := true, Keys.Commit(auth.pending, auth.policy);
            auth := Started;
          } else if auth.CreatingSession? || auth.ContinuingAuth? {
            accepted := true;
            e := ParseAuthenticated();
          }
        case ErrorReply(error) =>
          if auth.CreatingSession? || auth.ContinuingAuth? || auth.StartingSession? {
            accepted := true;
            if error.AuthError? {
              ResetLocal(true);
              auth := CreatingSession;
              e := Keys.Send(Keys.CreateSession(username.value));
            } else {
              ResetLocal(false);
            }
          }
      }
    }

    method ParseMessage(kind: Reply.MessageKind) returns (e: Keys.Effect)
      modifies this
      ensures (View(), e) == Reply.ParseMessage(old(View()), kind)
    {
      match kind {
        case SecretPrompt =>
          mode, previousMode, auth, e := PasswordMode, PasswordMode, AwaitingInput(Secret), Keys.NoEffect;
        case VisiblePrompt =>
          mode, previousMode, auth, e := PasswordMode, PasswordMode, AwaitingInput(Visible), Keys.NoEffect;
        case ErrorText =>
          auth := ContinuingAuth;
          e := Keys.Send(Keys.PostAuthMessageResponse(None));
        case InfoText =>
          previousMode := mode;
          mode := ActionMode;
          auth := ContinuingAuth;
          e := Keys.Send(Keys.PostAuthMessageResponse(None));
      }
    }

    method ParseAuthenticated() returns (e: Keys.Effect)
      requires auth.CanCancel()
      modifies this
      ensures (View(), e) == Reply.ParseAuthenticated(old(View()))
    {
      var command := Spec.LaunchCommand(View());
      if command.None? {
        auth := Cancelling;
        return Keys.Cancel;
      }
      mode := ProcessingMode;
      auth := StartingSession(Spec.Capture(View()), Spec.CurrentPolicy(View()));
      return Keys.Send(Keys.StartSession(command.value));
    }

    // ---- power and exit ----

    method BeginPower() returns (returnMode: Mode)
      modifies this
      ensures View() == Keys.BeginPower(old(View())) && returnMode == old(mode)
    {
      returnMode := mode;
      mode := ProcessingMode;
    }

    method FinishPower(returnMode: Mode)
      modifies this
      ensures View() == Keys.FinishPower(old(View()), returnMode)
    {
      mode := returnMode;
    }

    method RequestExit(status: ExitStatus) returns (e: Keys.Effect)
      modifies this
      ensures (View(), e) == Keys.RequestExit(old(View()), status)
    {
      e := Keys.NoEffect;
      if status != ExitSuccess && auth.CanCancel() {
        auth := Cancelling;
        e := Keys.Cancel;
      }
      exit := Some(status);
    }
  }
}
