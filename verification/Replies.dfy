/** What one decoded greetd reply does to the greeter (`parse_response_with` in `src/ipc.rs`). */
module Replies {
  import opened Wrappers
  import opened CacheState
  import opened GreeterState
  import opened Keyboard

  datatype MessageKind = SecretPrompt | VisiblePrompt | ErrorText | InfoText

  datatype ErrorKind = AuthError | OtherError

  datatype Response = AuthMessage(kind: MessageKind) | Success | ErrorReply(error: ErrorKind)

  /** `build_cache_update` */
  function BuildUpdate(pending: PendingSession, policy: CachePolicy): Update {
    var selection := match pending.selection
                     case CachedCommand(command) => Some(CommandEntry(command))
                     case CachedDesktop(entry) => Some(entry)
                     case CachedNone => None;
    LoginUpdate(RememberedUser(pending.username, pending.displayName), selection, policy.rememberUsername,
                policy.rememberSession, policy.rememberUserSession, policy.allowCommandEditor)
  }

  function ParseMessage(g: State, kind: MessageKind): (State, Effect) {
    match kind
    case SecretPrompt => (g.(mode := PasswordMode, previousMode := PasswordMode, auth := AwaitingInput(Secret)), NoEffect)
    case VisiblePrompt => (g.(mode := PasswordMode, previousMode := PasswordMode, auth := AwaitingInput(Visible)), NoEffect)
    case ErrorText => (g.(auth := ContinuingAuth), Send(PostAuthMessageResponse(None)))
    case InfoText =>
      (g.(previousMode := g.mode, mode := ActionMode, auth := ContinuingAuth), Send(PostAuthMessageResponse(None)))
  }

  function ParseAuthenticated(g: State): (State, Effect)
    requires g.auth.CanCancel()
  {
    var command := LaunchCommand(g);
    if command.None? then (g.(auth := Cancelling), Cancel)
    else
      var h := g.(mode := ProcessingMode);
      (h.(auth := StartingSession(Capture(h), CurrentPolicy(h))), Send(StartSession(command.value)))
  }

  function ParseError(g: State, error: ErrorKind): (State, Effect) {
    if error.AuthError? then
      var h := ResetLocal(g, true).(auth := CreatingSession);
      (h, Send(CreateSession(h.username.value)))
    else (ResetLocal(g, false), NoEffect)
  }

  /** None is a protocol error: the reply does not fit the current state, which is left as it was. */
  function ParseResponse(g: State, response: Response): Option<(State, Effect)> {
    match response
    case AuthMessage(kind) =>
      if g.auth.CreatingSession? || g.auth.ContinuingAuth? then Some(ParseMessage(g, kind)) else None
    case Success =>
      if g.auth.StartingSession? then Some((g.(auth := Started), Commit(g.auth.pending, g.auth.policy)))
      else if g.auth.CreatingSession? || g.auth.ContinuingAuth? then Some(ParseAuthenticated(g))
      else None
    case ErrorReply(error) =>
      if g.auth.CreatingSession? || g.auth.ContinuingAuth? || g.auth.StartingSession? then Some(ParseError(g, error))
      else None
  }

  /** The only replies that start, cancel or commit anything, and the state each leaves behind. */
  ghost predicate ReplyFollows(g: State, response: Response, h: State, e: Effect) {
    && (g.auth.CreatingSession? || g.auth.ContinuingAuth? || g.auth.StartingSession?)
    && match e
       case NoEffect => (h.auth.AwaitingInput? && response.AuthMessage?) || (h.auth.Idle? && response.ErrorReply?)
       case Send(CreateSession(username)) =>
         h.auth.CreatingSession? && username == h.username.value == g.username.value && response.ErrorReply?
       case Send(PostAuthMessageResponse(answer)) => h.auth.ContinuingAuth? && answer == None && response.AuthMessage?
       case Send(StartSession(command)) =>
         && h.auth == StartingSession(Capture(g), CurrentPolicy(g)) && LaunchCommand(g) == Some(command)
         && g.auth.CanCancel() && response.Success?
       case Cancel => h.auth.Cancelling? && g.auth.CanCancel() && response.Success?
       case Commit(pending, policy) => g.auth == StartingSession(pending, policy) && h.auth.Started? && response.Success?
       case Emit(_) => false
  }

  lemma ReplyAuth(g: State, response: Response)
    ensures var r := ParseResponse(g, response);
            && (r.Some? ==> ReplyFollows(g, response, r.value.0, r.value.1) && r.value.0.exit == g.exit)
            && (r.None? <==> (!(g.auth.CreatingSession? || g.auth.ContinuingAuth? || g.auth.StartingSession?)
                              || (response.AuthMessage? && g.auth.StartingSession?)))
  {
  }

  /** Every accepted reply keeps the greeter consistent, and never leaves a popup open over a prompt it set up. */
  lemma ReplyIsConsistent(g: State, response: Response)
    requires Consistent(g) && ParseResponse(g, response).Some?
    ensures Consistent(ParseResponse(g, response).value.0)
    ensures !IsPopup(ParseResponse(g, response).value.0.mode)
  {
  }
}
