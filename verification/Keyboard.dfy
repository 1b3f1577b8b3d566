/** What one key press, one power command and one exit request do to the greeter
    (`src/keyboard.rs`, `src/main.rs`), as functions of its state. */
module Keyboard {
  import opened Wrappers
  import opened Sessions
  import opened GreeterState
  import Text

  datatype Request =
    | CreateSession(username: string)
    | PostAuthMessageResponse(response: Option<string>)
    | StartSession(command: string)

  datatype Control = Exit(status: ExitStatus) | PowerCommand(argv: seq<string>, setsid: bool) | CancelPower

  /** What a step asks of the rest of the program, besides changing the greeter. */
  datatype Effect =
    | NoEffect
    | Send(request: Request)
    | Cancel
    | Emit(control: Control)
    | Commit(pending: PendingSession, policy: CachePolicy)

  /** A pressed or repeated key. `Edit` stands for any editing key: the text it leaves in the active field is
      arbitrary. */
  datatype Key = Esc | FKey(n: nat) | Up | Down | Tab | Enter | ClearLine | Edit(text: string) | OtherKey

  // ---- username completion ----

  datatype Completion = Changed(text: string) | Exact | NoCompletion

  function Matching(users: seq<User>, input: string): (r: seq<string>)
    ensures forall s | s in r :: input <= s
    ensures forall u | u in users && input <= u.username :: u.username in r
  {
    if users == [] then []
    else if input <= users[0].username then [users[0].username] + Matching(users[1..], input)
    else Matching(users[1..], input)
  }

  function SharedPrefix(a: string, b: string): (r: string)
    ensures r <= a && r <= b
  {
    if a == [] || b == [] || a[0] != b[0] then [] else [a[0]] + SharedPrefix(a[1..], b[1..])
  }

  lemma {:induction false} SharedPrefixIsLongest(a: string, b: string, p: string)
    ensures p <= a && p <= b <==> p <= SharedPrefix(a, b)
  {
    if a != [] && b != [] && p != [] && a[0] == b[0] {
      SharedPrefixIsLongest(a[1..], b[1..], p[1..]);
      assert p[0] == a[0] ==> (p <= a <==> p[1..] <= a[1..]) && (p <= b <==> p[1..] <= b[1..]);
    }
  }

  function CommonPrefix(values: seq<string>): string
    requires values != []
  {
    if |values| == 1 then values[0] else SharedPrefix(CommonPrefix(values[..|values| - 1]), values[|values| - 1])
  }

  /** `CommonPrefix` is the longest string that all the values start with. */
  lemma {:induction false} CommonPrefixIsLongest(values: seq<string>, p: string)
    requires values != []
    ensures (forall i | 0 <= i < |values| :: p <= values[i]) <==> p <= CommonPrefix(values)
  {
    if |values| > 1 {
      var last := |values| - 1;
      CommonPrefixIsLongest(values[..last], p);
      assert forall i | 0 <= i < last :: values[..last][i] == values[i];
      SharedPrefixIsLongest(CommonPrefix(values[..last]), values[last], p);
    }
  }

  /** `take_while(left == right).count()` finds the shared prefix. */
  lemma {:induction false} SharedPrefixAt(a: string, b: string, n: nat)
    requires n <= |a| && n <= |b| && a[..n] == b[..n]
    requires n < |a| && n < |b| ==> a[n] != b[n]
    ensures SharedPrefix(a, b) == a[..n]
  {
    if n > 0 {
      assert a[0] == a[..n][0] == b[..n][0] == b[0];
      assert a[1..][..n - 1] == a[..n][1..] && b[1..][..n - 1] == b[..n][1..];
      SharedPrefixAt(a[1..], b[1..], n - 1);
    }
  }

  /** `common_prefix`, truncating the first value once for every other one. */
  method ComputeCommonPrefix(values: seq<string>) returns (prefix: string)
    requires values != []
    ensures prefix == CommonPrefix(values)
  {
    prefix := values[0];
    for i := 1 to |values|
      invariant prefix == CommonPrefix(values[..i])
    {
      var matching := 0;
      while matching < |prefix| && matching < |values[i]| && prefix[matching] == values[i][matching]
        invariant matching <= |prefix| && matching <= |values[i]|
        invariant prefix[..matching] == values[i][..matching]
      {
        matching := matching + 1;
      }
      SharedPrefixAt(prefix, values[i], matching);
      prefix := prefix[..matching];
      assert values[..i + 1][..i] == values[..i];
    }
    assert values[..|values|] == values;
  }

  function CompleteUsername(g: State): Completion {
    var input := g.username.value;
    var matches := Matching(g.users.options, input);
    if input in matches then Exact
    else if (input == "" && |matches| != 1) || matches == [] then NoCompletion
    else if CommonPrefix(matches) == input then NoCompletion
    else Changed(CommonPrefix(matches))
  }

  /** Completion only ever extends what was typed, and only with characters that every matching name shares. */
  lemma CompletionExtends(g: State)
    ensures var c := CompleteUsername(g);
            c.Changed? ==> && g.username.value < c.text
                           && forall u | u in g.users.options && g.username.value <= u.username :: c.text <= u.username
  {
    var input := g.username.value;
    var matches := Matching(g.users.options, input);
    if CompleteUsername(g).Changed? {
      assert forall i | 0 <= i < |matches| :: matches[i] in matches;
      CommonPrefixIsLongest(matches, input);
      CommonPrefixIsLongest(matches, CommonPrefix(matches));
      forall u | u in g.users.options && input <= u.username
        ensures CommonPrefix(matches) <= u.username
      {
        assert u.username in matches;
      }
    }
  }

  // ---- keys ----

  function ValidateUsername(g: State): (r: (State, Effect))
    requires g.auth.AcceptsInput()
    ensures AuthFollows(g, r.0, r.1)
    ensures r.0 == g.(source := r.0.source, sessions := r.0.sessions, auth := r.0.auth, buffer := r.0.buffer)
  {
    var name := g.username.value;
    var restored := if g.settings.rememberUserSession && name in g.cache.userSelections
                    then RestoreCachedSelection(g, g.cache.userSelections[name]) else g;
    var (begun, username) := BeginAuthentication(restored);
    (begun, if username.Some? then Send(CreateSession(username.value)) else NoEffect)
  }

  function PressEsc(g: State): (State, Effect) {
    match g.mode
    case CommandMode => (CloseCommandEditor(g), NoEffect)
    case UsersMode => (g.(mode := g.previousMode), NoEffect)
    case SessionsMode => (g.(mode := g.previousMode), NoEffect)
    case PowerMode => (g.(mode := g.previousMode), NoEffect)
    case _ =>
      if g.auth.CanCancel() then (g.(auth := Cancelling), Cancel)
      else if g.auth.AcceptsInput() then (ResetLocal(g, false), NoEffect)
      else (g, NoEffect)
  }

  function OpenMenu(g: State, menu: Mode): State {
    var g1 := g.(previousMode := ReturnMode(g));
    (if g.mode == CommandMode then CloseCommandEditor(g1) else g1).(mode := menu)
  }

  function PressFunctionKey(g: State, n: nat): State {
    if n == g.settings.kbCommand && g.settings.allowCommandEditor then OpenCommandEditor(g)
    else if n == g.settings.kbSessions && g.sessions.options != [] then OpenMenu(g, SessionsMode)
    else if n == g.settings.kbPower && g.powers.options != [] then OpenMenu(g, PowerMode)
    else g
  }

  function MovedUp<T>(m: Menu<T>): Menu<T> {
    if m.selected > 0 then m.(selected := m.selected - 1) else m
  }

  function MovedDown<T>(m: Menu<T>): Menu<T> {
    if m.selected + 1 < |m.options| then m.(selected := m.selected + 1) else m
  }

  function PressArrow(g: State, up: bool): State {
    match g.mode
    case UsersMode => g.(users := if up then MovedUp(g.users) else MovedDown(g.users))
    case SessionsMode => g.(sessions := if up then MovedUp(g.sessions) else MovedDown(g.sessions))
    case PowerMode => g.(powers := if up then MovedUp(g.powers) else MovedDown(g.powers))
    case _ => g
  }

  function PressTab(g: State): (State, Effect)
    requires g.auth.AcceptsInput()
  {
    if !g.mode.UsernameMode? then (g, NoEffect)
    else if g.settings.userAutocomplete then
      match CompleteUsername(g)
      case Changed(text) => (g.(username := Masked(text, None)), NoEffect)
      case Exact => ValidateUsername(g)
      case NoCompletion => (g, NoEffect)
    else if g.username.value != "" then ValidateUsername(g)
    else (g, NoEffect)
  }

  /** `power`: what choosing an entry of the power menu asks for. */
  function ChoosePower(g: State, action: PowerOption): Option<Control> {
    if g.settings.mock then Some(Exit(ExitCancel))
    else
      var i := PowerPosition(g.powers.options, action);
      if i.Some? && g.powers.options[i.value].command.Some?
      then Some(PowerCommand(g.powers.options[i.value].command.value, g.settings.powerSetsid)) else None
  }

  function PressEnter(g: State): (State, Effect)
    requires g.auth.AcceptsInput()
  {
    match g.mode
    case UsernameMode =>
      if g.username.value != "" then ValidateUsername(g)
      else if g.settings.userMenu && g.users.options != [] then (g.(previousMode := g.mode, mode := UsersMode), NoEffect)
      else (g, NoEffect)
    case PasswordMode =>
      (g.(auth := ContinuingAuth, buffer := ""), Send(PostAuthMessageResponse(Some(g.buffer))))
    case CommandMode =>
      if !g.settings.allowCommandEditor then (CloseCommandEditor(g), NoEffect)
      else if Text.IsBlank(g.commandBuffer) then (g, NoEffect)
      else
        var chosen := g.(sessions := g.sessions.(selected := 0), source := FreeCommand(g.commandBuffer));
        (CloseCommandEditor(chosen), NoEffect)
    case UsersMode =>
      var back := g.(mode := g.previousMode);
      if g.users.HasSelection() then
        var user := g.users.options[g.users.selected];
        ValidateUsername(back.(username := Masked(user.username, user.name)))
      else (back, NoEffect)
    case SessionsMode =>
      var source := if g.sessions.HasSelection() then FromSession(g.sessions.selected) else g.source;
      (g.(source := source, mode := g.previousMode), NoEffect)
    case PowerMode =>
      var back := g.(mode := g.previousMode);
      var control := if g.powers.HasSelection() then ChoosePower(g, g.powers.options[g.powers.selected].action) else None;
      (back, if control.Some? then Emit(control.value) else NoEffect)
    case ActionMode => (g, NoEffect)
    case ProcessingMode => (g, NoEffect)
  }

  function EditField(g: State, text: string): State {
    match g.mode
    case UsernameMode => g.(username := Masked(text, None))
    case PasswordMode => g.(buffer := text)
    case CommandMode => g.(commandBuffer := text)
    case _ => g
  }

  function PressKey(g: State, key: Key): (State, Effect) {
    if key == Esc then PressEsc(g)
    else if !g.auth.AcceptsInput() then (g, NoEffect)
    else
      match key
      case Esc => PressEsc(g)
      case FKey(n) => (PressFunctionKey(g, n), NoEffect)
      case Up => (PressArrow(g, true), NoEffect)
      case Down => (PressArrow(g, false), NoEffect)
      case Tab => PressTab(g)
      case Enter => PressEnter(g)
      case ClearLine => (EditField(g, ""), NoEffect)
      case Edit(text) => (EditField(g, text), NoEffect)
      case OtherKey => (g, NoEffect)
  }

  /** `handle_with_power`: while a power command runs, Esc targets only that command and other keys are ignored. */
  function HandleKey(g: State, key: Key, powerActive: bool): (State, Effect) {
    if powerActive then (g, if key == Esc then Emit(CancelPower) else NoEffect)
    else PressKey(g, key)
  }

  // ---- power and exit (src/main.rs) ----

  function BeginPower(g: State): State {
    g.(mode := ProcessingMode)
  }

  function FinishPower(g: State, returnMode: Mode): State {
    g.(mode := returnMode)
  }

  function RequestExit(g: State, status: ExitStatus): (State, Effect) {
    if status != ExitSuccess && g.auth.CanCancel() then (g.(auth := Cancelling, exit := Some(status)), Cancel)
    else (g.(exit := Some(status)), NoEffect)
  }

  // ---- what a user step can do to the authentication state ----

  ghost predicate AuthFollows(g: State, h: State, e: Effect) {
    match e
    case NoEffect => h.auth == g.auth
    case Emit(_) => h.auth == g.auth
    case Send(CreateSession(username)) =>
      g.auth.AcceptsInput() && h.auth == CreatingSession && username == h.username.value && LaunchCommand(h).Some?
    case Send(PostAuthMessageResponse(_)) => g.auth.AcceptsInput() && h.auth == ContinuingAuth
    case Send(StartSession(_)) => false
    case Cancel => g.auth.CanCancel() && h.auth == Cancelling
    case Commit(_, _) => false
  }

  /** A key sends a request only when input is accepted, together with entering the state that awaits its reply; it
      cancels only what can be cancelled; in every other case the authentication state stays as it is. */
  lemma KeyAuth(g: State, key: Key, powerActive: bool)
    ensures AuthFollows(g, HandleKey(g, key, powerActive).0, HandleKey(g, key, powerActive).1)
    ensures HandleKey(g, key, powerActive).0.exit == g.exit
  {
  }

  lemma ValidateIsConsistent(g: State)
    requires Consistent(g) && g.auth.AcceptsInput() && !IsPopup(g.mode)
    ensures Consistent(ValidateUsername(g).0)
  {
    var name := g.username.value;
    if g.settings.rememberUserSession && name in g.cache.userSelections {
      RestoreIsConsistent(g, g.cache.userSelections[name]);
    }
  }

  lemma EnterIsConsistent(g: State)
    requires Consistent(g) && g.auth.AcceptsInput()
    ensures Consistent(PressEnter(g).0)
  {
    match g.mode
    case UsernameMode =>
      if g.username.value != "" {
        ValidateIsConsistent(g);
      }
    case UsersMode =>
      var back := g.(mode := g.previousMode);
      if g.users.HasSelection() {
        var user := g.users.options[g.users.selected];
        ValidateIsConsistent(back.(username := Masked(user.username, user.name)));
      }
    case _ =>
  }

  lemma EscIsConsistent(g: State)
    requires Consistent(g)
    ensures Consistent(PressEsc(g).0)
  {
    ResetIsConsistent(g, false);
  }

  lemma FunctionKeyIsConsistent(g: State, n: nat)
    requires Consistent(g) && g.auth.AcceptsInput()
    ensures Consistent(PressFunctionKey(g, n))
  {
  }

  lemma ArrowIsConsistent(g: State, up: bool)
    requires Consistent(g)
    ensures Consistent(PressArrow(g, up))
  {
  }

  /** Every key keeps the greeter consistent. */
  lemma KeyIsConsistent(g: State, key: Key, powerActive: bool)
    requires Consistent(g)
    ensures Consistent(HandleKey(g, key, powerActive).0)
  {
    if !powerActive {
      if key == Esc {
        EscIsConsistent(g);
      } else if g.auth.AcceptsInput() {
        match key
        case FKey(n) => FunctionKeyIsConsistent(g, n);
        case Up => ArrowIsConsistent(g, true);
        case Down => ArrowIsConsistent(g, false);
        case Enter => EnterIsConsistent(g);
        case Tab =>
          if g.mode.UsernameMode? {
            ValidateIsConsistent(g);
          }
        case _ =>
      }
    }
  }

  /** Choosing a power command has already left the menu. */
  lemma EmittingLeavesMenu(g: State, key: Key)
    requires Consistent(g) && HandleKey(g, key, false).1.Emit?
    ensures key == Enter && g.mode.PowerMode? && HandleKey(g, key, false).0 == g.(mode := g.previousMode)
  {
  }
}
