/** Safety of the greetd transaction protocol over every run. */
module ProtocolSafety {
  import opened GreeterState
  import opened Keyboard
  import opened Replies
  import opened Protocol

  // ---- state and outstanding work correspond ----

  /** A cancellation has been requested and the actor has not handled it yet. */
  predicate Pending(w: World) {
    w.observed != w.generation
  }

  /** The state in which a request's reply is awaited. */
  predicate Awaits(auth: AuthState, request: Request) {
    match request
    case CreateSession(_) => auth.CreatingSession?
    case PostAuthMessageResponse(_) => auth.ContinuingAuth?
    case StartSession(_) => auth.StartingSession?
  }

  /** No request is queued in a quiet state; otherwise the queue holds exactly the request whose reply is awaited. */
  ghost predicate QueueMatches(w: World) {
    if w.queue == [] then w.greeter.auth.AcceptsInput() || w.greeter.auth.Started?
    else |w.queue| == 1 && w.queue[0].generation == w.generation && Awaits(w.greeter.auth, w.queue[0].request)
  }

  ghost predicate Corresponds(w: World) {
    && w.observed <= w.generation
    && w.failures <= (if w.phase.Recovering? || w.phase.Stopped? then MAX_RECOVERY_ATTEMPTS else MAX_RECOVERY_ATTEMPTS - 1)
    && (w.phase.Selecting? || w.phase.Persisting? ==>
          if Pending(w) then w.greeter.auth.Cancelling? && |w.queue| <= 1 && forall q | q in w.queue :: q.generation < w.generation
          else QueueMatches(w))
    && (w.phase.Persisting? && w.phase.update.Some? ==> w.greeter.auth.Started?)
    && (w.phase.HasRequest() ==>
          && w.queue == [] && w.phase.generation == w.observed
          && if Pending(w) then w.greeter.auth.Cancelling? && !w.phase.request.StartSession?
             else Awaits(w.greeter.auth, w.phase.request))
    && (w.phase.Resetting? ==> w.queue == [] && w.phase.generation == w.observed && w.greeter.auth.Failed?)
    && (w.phase.BackingOff? ==>
          && w.queue == [] && w.phase.generation == w.observed
          && (w.greeter.auth.CreatingSession? || (w.greeter.auth.Cancelling? && Pending(w))))
    && (w.phase.Stopped? ==> w.queue == [] && (w.shutdown || w.greeter.auth.Failed?))
  }

  /** A user step that treats the authentication state as it should keeps the correspondence. */
  lemma EffectKeepsCorrespondence(w: World, g: State, e: Effect)
    requires Corresponds(w) && !w.shutdown && AuthFollows(w.greeter, g, e)
    ensures Corresponds(Perform(w.(greeter := g), e))
  {
  }

  /** Every user step treats the authentication state as it should, and does nothing else to the actor. */
  lemma UiIsEffect(w: World, s: UiStep)
    requires UiEnabled(w, s) && Consistent(w.greeter)
    ensures var (g, e) := UiEffect(w, s);
            AuthFollows(w.greeter, g, e) && SameActor(UiNext(w, s), Perform(w.(greeter := g), e))
  {
    match s
    case KeyStep(key) => KeyAuth(w.greeter, key, w.ui.PowerRunning?);
    case ReloadStep(plan) => ReloadIsConsistent(w.greeter, plan);
    case _ =>
  }

  /** Equal but for the UI task's own state. */
  predicate SameActor(w: World, w': World) {
    w == w'.(ui := w.ui, controls := w.controls, shutdown := w.shutdown)
  }

  lemma UiKeepsCorrespondence(w: World, s: UiStep)
    requires Corresponds(w) && UiEnabled(w, s) && Consistent(w.greeter)
    ensures Corresponds(UiNext(w, s))
  {
    var (g, e) := UiEffect(w, s);
    UiIsEffect(w, s);
    EffectKeepsCorrespondence(w, g, e);
    SameActorCorresponds(Perform(w.(greeter := g), e), UiNext(w, s));
  }

  lemma SameActorCorresponds(w: World, w': World)
    requires Corresponds(w) && !w.shutdown && SameActor(w', w)
    ensures Corresponds(w')
  {
  }

  lemma SelectKeepsCorrespondence(w: World)
    requires Corresponds(w) && w.phase.Selecting? && ActorEnabled(w, Proceed)
    ensures Corresponds(SelectStep(w))
  {
    if Pending(w) && w.queue != [] {
      assert w.queue[0] in w.queue && w.queue[1..] == [];
      assert FreshOnly(w.queue, w.generation) == [];
    }
  }

  lemma TransmitKeepsCorrespondence(w: World, o: Outcome)
    requires Corresponds(w) && (w.phase.Connecting? || w.phase.Writing? || w.phase.Flushing?)
    ensures Corresponds(TransmitStep(w, o))
  {
  }

  lemma ReadKeepsCorrespondence(w: World, o: Outcome)
    requires Corresponds(w) && w.phase.Reading? && ActorEnabled(w, o)
    ensures Corresponds(ReadStep(w, o))
  {
  }

  lemma ParseKeepsCorrespondence(w: World)
    requires Corresponds(w) && w.phase.Decoded?
    ensures Corresponds(ParseStep(w))
  {
    ReplyAuth(w.greeter, w.phase.response);
    var parsed := ParseResponse(w.greeter, w.phase.response);
    if parsed.Some? {
      var (g, e) := parsed.value;
      assert ReplyFollows(w.greeter, w.phase.response, g, e);
      assert !Pending(w);
      assert Perform(w, e).queue == if e.Send? then [Queued(e.request, w.generation)] else [];
    }
  }

  lemma RecoveryKeepsCorrespondence(w: World)
    requires Corresponds(w)
    ensures w.phase.Recovering? ==> Corresponds(RecoverStep(w))
    ensures w.phase.Resetting? ==> Corresponds(ResetStep(w))
    ensures w.phase.Persisting? ==> Corresponds(PersistStep(w))
  {
  }

  lemma BackOffKeepsCorrespondence(w: World)
    requires Corresponds(w) && w.phase.BackingOff?
    ensures Corresponds(BackOffStep(w))
  {
  }

  lemma ActorKeepsCorrespondence(w: World, o: Outcome)
    requires Corresponds(w) && ActorEnabled(w, o)
    ensures Corresponds(ActorNext(w, o))
  {
    match w.phase
    case Selecting => SelectKeepsCorrespondence(w);
    case Reading(_, _) => ReadKeepsCorrespondence(w, o);
    case Decoded(_, _, _) => ParseKeepsCorrespondence(w);
    case Connecting(_, _) => TransmitKeepsCorrespondence(w, o);
    case Writing(_, _) => TransmitKeepsCorrespondence(w, o);
    case Flushing(_, _) => TransmitKeepsCorrespondence(w, o);
    case BackingOff(_) => BackOffKeepsCorrespondence(w);
    case _ => RecoveryKeepsCorrespondence(w);
  }

  // ---- modes, menus and the launch source ----

  /** The greeter is consistent, and no popup is open or waiting to come back while a power command runs. */
  ghost predicate Usable(w: World) {
    && Consistent(w.greeter)
    && (w.ui.StartingPower? || w.ui.PowerRunning? ==> !IsPopup(w.greeter.mode))
    && (w.ui.PowerRunning? ==> !IsPopup(w.ui.returnMode))
  }

  lemma KeyKeepsUsable(w: World, key: Key)
    requires Usable(w) && !w.ui.StartingPower?
    ensures Usable(KeyNext(w, key))
  {
    KeyIsConsistent(w.greeter, key, w.ui.PowerRunning?);
    var (g, e) := HandleKey(w.greeter, key, w.ui.PowerRunning?);
    assert Perform(w.(greeter := g), e).greeter == g;
    if e.Emit? && !w.ui.PowerRunning? {
      EmittingLeavesMenu(w.greeter, key);
    }
  }

  lemma ReloadKeepsUsable(w: World, plan: ReloadPlan)
    requires Usable(w)
    ensures Usable(ReloadNext(w, plan))
  {
    ReloadIsConsistent(w.greeter, plan);
    var g := ApplyReload(w.greeter, plan);
    assert Consistent(g.(auth := Cancelling));
  }

  lemma QuietUiKeepsUsable(w: World, s: UiStep)
    requires Usable(w) && UiEnabled(w, s) && !s.KeyStep? && !s.ReloadStep? && !s.ExitStep?
    ensures Usable(UiNext(w, s))
  {
  }

  lemma ExitKeepsUsable(w: World)
    requires Usable(w) && UiEnabled(w, ExitStep)
    ensures Usable(UiNext(w, ExitStep))
  {
    var (g, e) := RequestExit(w.greeter, w.ui.status);
    assert UiNext(w, ExitStep).greeter == g && Consistent(g);
  }

  lemma UiKeepsUsable(w: World, s: UiStep)
    requires Usable(w) && UiEnabled(w, s)
    ensures Usable(UiNext(w, s))
  {
    if s.KeyStep? {
      KeyKeepsUsable(w, s.key);
    } else if s.ReloadStep? {
      ReloadKeepsUsable(w, s.plan);
    } else if s.ExitStep? {
      ExitKeepsUsable(w);
    } else {
      QuietUiKeepsUsable(w, s);
    }
  }

  lemma ParseKeepsUsable(w: World)
    requires Usable(w) && w.phase.Decoded?
    ensures Usable(ParseStep(w))
  {
    if ParseResponse(w.greeter, w.phase.response).Some? {
      ReplyIsConsistent(w.greeter, w.phase.response);
      var (g, e) := ParseResponse(w.greeter, w.phase.response).value;
      assert Perform(w.(greeter := g), e).greeter == g;
    }
  }

  /** Elsewhere the actor only resets the greeter or moves its authentication state out of the way of the user. */
  lemma ActorTouchesGreeter(w: World, o: Outcome)
    requires ActorEnabled(w, o) && !w.phase.Decoded?
    ensures var g, h := w.greeter, ActorNext(w, o).greeter;
            || h == g || h == ResetLocal(g, false) || h == ResetLocal(g, true).(auth := CreatingSession)
            || h == g.(auth := Failed)
    ensures ActorNext(w, o).ui == w.ui
  {
  }

  lemma ActorKeepsUsable(w: World, o: Outcome)
    requires Usable(w) && ActorEnabled(w, o)
    ensures Usable(ActorNext(w, o))
  {
    if w.phase.Decoded? {
      ParseKeepsUsable(w);
    } else {
      ActorTouchesGreeter(w, o);
      ResetIsConsistent(w.greeter, false);
      ResetIsConsistent(w.greeter, true);
    }
  }
}
