/** When the history of the code-level protocol stays safe: exactly as long as no step of the user, other than one that
    asks to exit, races with the actor. */
module FineExactness {
  import opened Wrappers
  import opened Sessions
  import opened CacheState
  import opened GreeterState
  import opened Keyboard
  import opened Protocol
  import opened ProtocolSafety
  import opened ProtocolHistory
  import opened ProtocolTheorems
  import opened FineProtocol
  import opened FineSafety
  import opened FineTheorems
  import opened FineRuns
  import Text

  /** A race that is not a request to exit: that one ends the user's part in the run. */
  predicate Endangers(f: FineWorld, s: Step)
    requires CanMove(f, s)
  {
    Races(f, s) && s != Ui(ExitStep)
  }

  predicate IsPeaceful(f: FineWorld, steps: seq<Step>)
    requires IsFineRun(f, steps)
    decreases |steps|
  {
    steps == [] || (!Endangers(f, steps[0]) && IsPeaceful(Move(f, steps[0]), steps[1..]))
  }

  /** Whatever comes next, short of another such race, the history is safe. */
  ghost predicate StaysSafe(f: FineWorld) {
    forall steps :: IsFineRun(f, steps) && IsPeaceful(f, steps) ==> IsSafeHistory(FineAfter(f, steps).w.log)
  }

  ghost predicate StaysSafeThroughout(f: FineWorld, steps: seq<Step>)
    requires IsFineRun(f, steps)
    decreases |steps|
  {
    StaysSafe(f) && (steps != [] ==> StaysSafeThroughout(Move(f, steps[0]), steps[1..]))
  }

  // ---- racing to exit is harmless ----

  /** The world as it would be if the attempt had never been cancelled. */
  function Uncancelled(w: World): World {
    w.(greeter := w.greeter.(auth := CreatingSession), observed := w.generation,
       phase := if w.phase.BackingOff? then BackingOff(w.generation) else w.phase)
  }

  /** A retry that outlives the cancellation of an exit: the actor will queue it, reset the greeter under it and find that
      its answer fits no longer. Nothing but that is wrong, and the user cannot add to it. */
  ghost predicate Adrift(f: FineWorld) {
    var w := Held(f);
    && w.greeter.exit.Some? && Invariant(Uncancelled(w))
    && if w.greeter.auth.Cancelling? then
         && w.observed < w.generation && !f.pause.Chosen?
         && (if f.pause.Fired? || f.pause.Named? then w.phase.BackingOff?
             else w.phase.Selecting? && w.queue != [] && (f.pause.Noticed? ==> f.pause.seen == w.generation))
       else
         && w.greeter.auth.Idle? && w.observed == w.generation
         && if f.pause.Chosen? then w.phase.Selecting?
            else f.pause.Between? && (w.phase.HasRequest() || (w.phase.Selecting? && w.queue != []))
  }

  ghost predicate Steady(f: FineWorld) {
    FineInvariant(f) || Adrift(f)
  }

  lemma SafeWorldIsSteady(w: World)
    requires Invariant(w)
    ensures FineInvariant(FineWorld(w, Between))
  {
    SafeWorldIsCoarse(w);
  }

  lemma RacingExitSetsAdrift(f: FineWorld)
    requires FineInvariant(f) && UiEnabled(f.w, ExitStep) && Races(f, Ui(ExitStep))
    ensures Adrift(Move(f, Ui(ExitStep)))
  {
    var w' := UiNext(f.w, ExitStep);
    ExitKeepsUsable(f.w);
    assert w'.queue == f.w.queue == [];
    SameLogKeepsHistory(f.w, Uncancelled(w'));
  }

  /** A stopped actor does not mind what became of the attempt. */
  lemma StoppedIsSteady(f: FineWorld, w: World)
    requires Invariant(w) && w.phase.Stopped? && w.shutdown && w.greeter.auth.CreatingSession? && f.pause.Between?
    requires f.w.greeter.auth.Cancelling? || f.w.greeter.auth.Idle?
    requires f.w == w.(greeter := w.greeter.(auth := f.w.greeter.auth), observed := f.w.observed)
    requires f.w.observed <= f.w.generation
    ensures FineInvariant(f)
  {
    SameLogKeepsHistory(w, f.w);
    SafeWorldIsSteady(f.w);
  }

  lemma AdriftUserMove(f: FineWorld, u: UiStep)
    requires Adrift(f) && UiEnabled(f.w, u)
    ensures Adrift(Move(f, Ui(u))) && !Races(f, Ui(u))
  {
    HeldUserStep(f, u);
    StepKeepsInvariant(Uncancelled(Held(f)), Ui(u));
    assert Uncancelled(UiNext(Held(f), u)) == UiNext(Uncancelled(Held(f)), u);
  }

  /** The retry is queued although its attempt has been cancelled. */
  lemma AdriftRetryMove(f: FineWorld, o: Outcome)
    requires Adrift(f) && (f.pause.Fired? || f.pause.Named?)
    ensures Adrift(ActorMove(f, o))
  {
    if f.pause.Named? {
      RetryKeepsInvariant(Uncancelled(f.w), f.pause.username);
      var retried := QueueRetry(f).w;
      assert Uncancelled(retried) == Perform(Uncancelled(f.w), Send(CreateSession(f.pause.username))).(phase := Selecting);
    }
  }

  /** Losing the connection of a live attempt, with a word to greetd or without. */
  lemma LosingStreamKeepsInvariant(w: World, w': World)
    requires Invariant(w) && w.phase.Selecting? && w.greeter.auth.CreatingSession?
    requires w' == w.(connected := w'.connected, log := w'.log) && (w'.log == w.log || w'.log == w.log + [WroteCancel])
    ensures Invariant(w')
  {
    if w'.log == w.log {
      SameLogKeepsHistory(w, w');
    } else {
      AppendKeepsWire(w, w', WroteCancel);
      AppendKeepsCommits(w, w', WroteCancel);
    }
  }

  lemma StoppingKeepsInvariant(w: World)
    requires Invariant(w) && w.phase.Selecting? && w.shutdown && w.greeter.auth.CreatingSession?
    ensures Invariant(Stop(w))
  {
    SameLogKeepsHistory(w, Stop(w));
  }

  lemma AdriftStopMove(f: FineWorld, o: Outcome)
    requires Adrift(f) && f.pause.Between? && f.w.phase.Selecting? && f.w.shutdown
    ensures FineInvariant(ActorMove(f, o))
  {
    var cut := CancelStreamIfLive(f.w);
    LosingStreamKeepsInvariant(Uncancelled(f.w), Uncancelled(cut));
    StoppingKeepsInvariant(Uncancelled(cut));
    StoppedIsSteady(FineWorld(Stop(cut), Between), Stop(Uncancelled(cut)));
  }

  lemma AdriftSelectMove(f: FineWorld, o: Outcome)
    requires Adrift(f) && f.pause.Between? && f.w.phase.Selecting? && !f.w.shutdown && ActorCanMove(f, o)
    ensures Adrift(ActorMove(f, o))
  {
    if f.w.greeter.auth.Idle? {
      assert Held(ActorMove(f, o)) == f.w;
    } else {
      LosingStreamKeepsInvariant(Uncancelled(f.w), Uncancelled(CancelStreamIfLive(f.w)));
    }
  }

  lemma AdriftRecheckMove(f: FineWorld)
    requires Adrift(f) && f.pause.Chosen?
    ensures Adrift(Recheck(f))
  {
    var c := Uncancelled(Held(f));
    assert c.queue[0] == f.pause.next && c.queue[1..] == f.w.queue;
    TakingKeepsInvariant(c);
  }

  lemma AdriftResetMove(f: FineWorld)
    requires Adrift(f) && f.pause.Noticed?
    ensures Adrift(Reset(f))
  {
    var c, c' := Uncancelled(f.w), Uncancelled(Reset(f).w);
    ResetIsConsistent(f.w.greeter, false);
    assert c' == c.(greeter := ResetLocal(f.w.greeter, false).(auth := CreatingSession));
    SameLogKeepsHistory(c, c');
  }

  /** The answer to the retry fits nothing any more. */
  lemma AdriftAnswerMove(f: FineWorld, o: Outcome)
    requires Adrift(f) && f.w.phase.Decoded?
    ensures Adrift(ActorMove(f, o))
  {
    var c, c' := Uncancelled(f.w), Uncancelled(ActorMove(f, o).w);
    assert c' == c.(connected := false, failures := 1, phase := Recovering(c.phase.request, c.phase.generation));
    SameLogKeepsWire(c, c');
    SameLogKeepsCommits(c, c');
  }

  /** The exchange goes on as if nothing had happened. */
  lemma ExchangeIsUndisturbed(f: FineWorld, o: Outcome)
    requires f.w.phase.Connecting? || f.w.phase.Writing? || f.w.phase.Flushing? || f.w.phase.Reading?
    requires f.pause.Between? && ActorCanMove(f, o) && f.w.observed == f.w.generation == f.w.phase.generation
    ensures var f' := ActorMove(f, o);
            && Uncancelled(f'.w) == ActorNext(Uncancelled(f.w), o) && f'.pause.Between?
            && f'.w == ActorNext(f.w, o) == f.w.(queue := f'.w.queue, connected := f'.w.connected, phase := f'.w.phase,
                                                 failures := f'.w.failures, log := f'.w.log)
            && if f.w.shutdown then f'.w.phase.Stopped? else f'.w.phase.HasRequest()
  {
  }

  lemma AdriftExchangeMove(f: FineWorld, o: Outcome)
    requires Adrift(f) && ActorCanMove(f, o)
    requires f.w.phase.Connecting? || f.w.phase.Writing? || f.w.phase.Flushing? || f.w.phase.Reading?
    ensures Steady(ActorMove(f, o))
  {
    ExchangeIsUndisturbed(f, o);
    StepKeepsInvariant(Uncancelled(f.w), Actor(o));
    if f.w.shutdown {
      StoppedIsSteady(ActorMove(f, o), ActorNext(Uncancelled(f.w), o));
    }
  }

  /** Recovering sets the authentication state anew, and the run is back on its way. */
  lemma AdriftRecoverMove(f: FineWorld, o: Outcome)
    requires Adrift(f) && f.w.phase.Recovering?
    ensures FineInvariant(ActorMove(f, o))
  {
    var c := Uncancelled(f.w);
    StepKeepsInvariant(c, Actor(o));
    assert ActorMove(f, o).w == ActorNext(c, o);
    SafeWorldIsSteady(ActorNext(c, o));
  }

  lemma AdriftActorMove(f: FineWorld, o: Outcome)
    requires Adrift(f) && ActorCanMove(f, o)
    ensures Steady(ActorMove(f, o))
  {
    match f.pause
    case Chosen(_) => AdriftRecheckMove(f);
    case Noticed(_) => AdriftResetMove(f);
    case Fired => AdriftRetryMove(f, o);
    case Named(_) => AdriftRetryMove(f, o);
    case Between =>
      if f.w.phase.Selecting? && f.w.shutdown {
        AdriftStopMove(f, o);
      } else if f.w.phase.Selecting? {
        AdriftSelectMove(f, o);
      } else if f.w.phase.Decoded? {
        AdriftAnswerMove(f, o);
      } else if f.w.phase.Recovering? {
        AdriftRecoverMove(f, o);
      } else {
        AdriftExchangeMove(f, o);
      }
  }

  lemma PeacefulMoveStaysSteady(f: FineWorld, s: Step)
    requires Steady(f) && CanMove(f, s) && !Endangers(f, s)
    ensures Steady(Move(f, s))
  {
    if Adrift(f) {
      match s
      case Ui(u) => AdriftUserMove(f, u);
      case Actor(o) => AdriftActorMove(f, o);
    } else if Races(f, s) {
      RacingExitSetsAdrift(f);
    } else {
      OrderlyMoveKeepsInvariant(f, s);
    }
  }

  lemma {:induction false} PeacefulRunStaysSteady(f: FineWorld, steps: seq<Step>)
    requires Steady(f) && IsFineRun(f, steps) && IsPeaceful(f, steps)
    ensures Steady(FineAfter(f, steps))
    decreases |steps|
  {
    if steps != [] {
      PeacefulMoveStaysSteady(f, steps[0]);
      PeacefulRunStaysSteady(Move(f, steps[0]), steps[1..]);
    }
  }

  lemma SteadyIsSafe(f: FineWorld)
    requires Steady(f)
    ensures IsSafeHistory(f.w.log)
  {
    if FineInvariant(f) {
      InvariantIsSafe(f);
    } else {
      SafeWorldHasSafeHistory(Uncancelled(Held(f)));
    }
  }

  lemma SteadyStaysSafe(f: FineWorld)
    requires Steady(f)
    ensures StaysSafe(f)
  {
    forall steps | IsFineRun(f, steps) && IsPeaceful(f, steps)
      ensures IsSafeHistory(FineAfter(f, steps).w.log)
    {
      PeacefulRunStaysSteady(f, steps);
      SteadyIsSafe(FineAfter(f, steps));
    }
  }

  // ---- any other race can break the history ----

  /** The actor's next request is live, and the greeter knows nothing of it. */
  ghost predicate Forgotten(f: FineWorld) {
    var w := f.w;
    && f.pause.Between? && w.phase.Selecting? && !w.shutdown && w.ui.Ready? && w.greeter.exit.None?
    && w.observed == w.generation && w.greeter.auth.Idle? && w.greeter.mode.UsernameMode?
    && |w.queue| == 1 && w.queue[0].generation == w.generation
  }

  /** Nothing prevents the user from going on once the actor is through with what it has to look at. */
  ghost predicate Settles(f: FineWorld, request: Request) {
    var w := f.w;
    && f.pause.Between? && w.phase.Selecting? && !w.shutdown && w.ui.Ready? && w.greeter.exit.None?
    && (w.queue == [Queued(request, w.generation)]
        || (|w.queue| == 2 && w.queue[0].generation != w.generation && w.queue[1] == Queued(request, w.generation)))
    && (w.observed == w.generation && |w.queue| == 1 ==> w.greeter.auth.Idle? && w.greeter.mode.UsernameMode?)
  }

  lemma RequestIsForgotten(a: FineWorld, f: FineWorld, request: Request) returns (t: FineWorld)
    requires Reaches(a, f, true) && Settles(f, request)
    ensures Reaches(a, t, true) && Forgotten(t)
  {
    t := f;
    if t.w.observed != t.w.generation {
      HandlePending(a, t, true);
      t := FineWorld(Handled(t.w, t.w.queue), Between);
    }
    if |t.w.queue| == 2 {
      TakeStale(a, t, true);
      t := FineWorld(Handled(t.w, t.w.queue[1..]), Between);
    }
  }

  function OtherCommand(g: State): string {
    if g.settings.command == Some("a") then "b" else "a"
  }

  /** A reload that configures another command. */
  function Reconfigured(g: State): ReloadPlan {
    ReloadPlan(g.settings.(command := Some(OtherCommand(g))), None, None, None)
  }

  lemma ReconfiguredCanLaunch(g: State)
    requires g.mode.UsernameMode? && g.auth.Idle?
    ensures var h := ApplyReload(g, Reconfigured(g));
            && LaunchCommand(h).Some? && h.mode.UsernameMode? && h.auth.Idle? && h.cache == g.cache && h.exit == g.exit
    ensures !ReloadCancels(g, Reconfigured(g))
  {
    var h := ApplyReload(g, Reconfigured(g));
    assert h.source == DefaultCommand(OtherCommand(g), ConfiguredEnvironment(h.settings));
    assert !Text.IsWhitespace(OtherCommand(g)[0]);
  }

  /** The user can always get ready for another attempt. */
  lemma UserGetsReady(a: FineWorld, f: FineWorld) returns (t: FineWorld)
    requires Reaches(a, f, true) && Forgotten(f)
    ensures Reaches(a, t, true) && Forgotten(t) && AtPrompt(t.w)
  {
    var load := Ui(CacheLoadedStep(NOTHING_REMEMBERED));
    Then(a, f, load, true);
    var f1 := Move(f, load);
    var reload := Ui(ReloadStep(Reconfigured(f1.w.greeter)));
    ReconfiguredCanLaunch(f1.w.greeter);
    Then(a, f1, reload, true);
    t := Move(f1, reload);
  }

  /** The next attempt commits on the answer to its own CreateSession. */
  lemma ForgottenRequestBreaksHistory(a: FineWorld, f: FineWorld)
    requires Reaches(a, f, true) && Forgotten(f)
    ensures exists t :: Reaches(a, t, true) && !CommitsAreSound(t.w.log)
  {
    var name := "a";
    var f1 := UserGetsReady(a, f);
    assert !HasLeftovers(f1.w);
    StartAttempt(a, f1, name, true);
    var f2 := FineWorld(FineRuns.Started(f1.w, name), f1.pause);
    assert f2.w.queue[2..] == [];
    var t, command := WrongCommit(a, f2, name, [], true);
    WrongCommitIsUnsound(t.w.log, name);
  }

  lemma RacingStartIsForgotten(f: FineWorld, u: UiStep) returns (t: FineWorld)
    requires FineInvariant(f) && UiEnabled(f.w, u) && Races(f, Ui(u)) && UiEffect(f.w, u).1.Send?
    ensures Reaches(Move(f, Ui(u)), t, true) && Forgotten(t)
  {
    var a, request := Move(f, Ui(u)), UiEffect(f.w, u).1.request;
    RacingStartQueues(f, u);
    SendKeepsUi(f.w, u);
    LeftoversAreStale(f);
    Here(a);
    t := PausesPass(a, a);
    t := RequestIsForgotten(a, t, request);
  }

  /** A cancellation that the actor has seen, or will see at the request it has just taken, is followed by the reset. */
  lemma PausesPass(a: FineWorld, f: FineWorld) returns (t: FineWorld)
    requires Reaches(a, f, true) && (f.pause.Between? || f.pause.Noticed? || f.pause.Chosen?) && f.w.phase.Selecting?
    requires f.pause.Chosen? ==> f.pause.next.generation != f.w.generation
    ensures Reaches(a, t, true) && t.pause.Between? && t.w.phase.Selecting?
    ensures t.w.queue == f.w.queue && t.w.generation == f.w.generation && t.w.shutdown == f.w.shutdown && t.w.ui == f.w.ui
    ensures t.w.greeter.exit == f.w.greeter.exit
    ensures if f.pause.Between? then t == f else t.w.greeter.auth.Idle? && t.w.greeter.mode.UsernameMode?
  {
    t := f;
    if f.pause.Chosen? {
      Then(a, t, Actor(Proceed), true);
      t := Recheck(t);
    }
    if t.pause.Noticed? {
      Then(a, t, Actor(Proceed), true);
      t := Reset(t);
    }
  }

  lemma SendKeepsUi(w: World, u: UiStep)
    requires UiEnabled(w, u) && UiEffect(w, u).1.Send?
    ensures UiNext(w, u).ui.Ready? && UiNext(w, u).greeter.exit.None?
  {
    KeyAuth(w.greeter, u.key, w.ui.PowerRunning?);
  }

  /** A retry whose attempt has been cancelled is queued all the same. */
  lemma RetryIsForgotten(a: FineWorld, f: FineWorld) returns (t: FineWorld)
    requires Reaches(a, f, true) && f.pause.Named? && f.w.queue == [] && f.w.observed != f.w.generation
    requires !f.w.shutdown && f.w.ui.Ready? && f.w.greeter.exit.None?
    ensures Reaches(a, t, true) && Forgotten(t)
  {
    Then(a, f, Actor(Proceed), true);
    t := RequestIsForgotten(a, QueueRetry(f), CreateSession(f.pause.username));
  }

  lemma RacingCancelLeavesRetry(f: FineWorld, u: UiStep)
    requires FineInvariant(f) && UiEnabled(f.w, u) && Endangers(f, Ui(u)) && UiEffect(f.w, u).1.Cancel?
    ensures var f' := Move(f, Ui(u));
            && (f'.pause.Fired? || f'.pause.Named?) && f'.w.queue == [] && f'.w.observed != f'.w.generation
            && (f'.w.ui.Ready? || f'.w.ui.PowerRunning?) && !f'.w.shutdown && f'.w.greeter.exit.None?
  {
    UiIsEffect(f.w, u);
    CancelKeepsUi(f.w, u);
  }

  lemma RacingCancelIsForgotten(f: FineWorld, u: UiStep) returns (t: FineWorld)
    requires FineInvariant(f) && UiEnabled(f.w, u) && Endangers(f, Ui(u)) && UiEffect(f.w, u).1.Cancel?
    ensures Reaches(Move(f, Ui(u)), t, true) && Forgotten(t)
  {
    var a := Move(f, Ui(u));
    RacingCancelLeavesRetry(f, u);
    Here(a);
    t := a;
    if t.w.ui.PowerRunning? {
      Then(a, t, Ui(FinishPowerStep(false)), true);
      t := Move(t, Ui(FinishPowerStep(false)));
    }
    if t.pause.Fired? {
      Then(a, t, Actor(Proceed), true);
      t := ActorMove(t, Proceed);
    }
    t := RetryIsForgotten(a, t);
  }

  lemma CancelKeepsUi(w: World, u: UiStep)
    requires UiEnabled(w, u) && UiEffect(w, u).1.Cancel? && !u.ExitStep?
    ensures var w' := UiNext(w, u); (w'.ui.Ready? || w'.ui.PowerRunning?) && w'.greeter.exit.None? && !w'.shutdown
  {
    match u
    case KeyStep(key) => KeyAuth(w.greeter, key, w.ui.PowerRunning?);
    case ReloadStep(plan) =>
    case _ =>
  }

  lemma {:induction false} OrderlyIsPeaceful(f: FineWorld, steps: seq<Step>)
    requires IsFineRun(f, steps) && IsOrderly(f, steps)
    ensures IsPeaceful(f, steps)
    decreases |steps|
  {
    if steps != [] {
      OrderlyIsPeaceful(Move(f, steps[0]), steps[1..]);
    }
  }

  /** After any other race the run can go on, without another one, to a commit that answers the wrong request. */
  lemma RaceBreaksHistory(f: FineWorld, s: Step)
    requires FineInvariant(f) && CanMove(f, s) && Endangers(f, s)
    ensures !StaysSafe(Move(f, s))
  {
    var a, t := Move(f, s), f;
    if UiEffect(f.w, s.step).1.Send? {
      t := RacingStartIsForgotten(f, s.step);
    } else {
      t := RacingCancelIsForgotten(f, s.step);
    }
    ForgottenRequestBreaksHistory(a, t);
    var broken :| Reaches(a, broken, true) && !CommitsAreSound(broken.w.log);
    var steps :| IsFineRun(a, steps) && FineAfter(a, steps) == broken && IsOrderly(a, steps);
    OrderlyIsPeaceful(a, steps);
  }

  // ---- the condition is exact ----

  lemma {:induction false} PeacefulExactlyWhenSafe(f: FineWorld, steps: seq<Step>)
    requires Steady(f) && IsFineRun(f, steps)
    ensures IsPeaceful(f, steps) <==> StaysSafeThroughout(f, steps)
    decreases |steps|
  {
    SteadyStaysSafe(f);
    if steps != [] {
      if Endangers(f, steps[0]) {
        if Adrift(f) {
          AdriftUserMove(f, steps[0].step);
        }
        RaceBreaksHistory(f, steps[0]);
      } else {
        PeacefulMoveStaysSteady(f, steps[0]);
        PeacefulExactlyWhenSafe(Move(f, steps[0]), steps[1..]);
      }
    }
  }

  /** Main result: along a run of the code the history is safe, and stays so whatever follows short of such a race, if and
      only if no step of the user races with the actor, other than one that asks to exit. */
  lemma HistoryStaysSafeExactlyWithoutRaces(settings: Settings, users: seq<User>, sessions: seq<Session>,
                                            powers: seq<Power>, cache: Remembered, steps: seq<Step>)
    requires IsFineRun(FineProgram(settings, users, sessions, powers, cache), steps)
    ensures var f := FineProgram(settings, users, sessions, powers, cache);
            IsPeaceful(f, steps) <==> StaysSafeThroughout(f, steps)
  {
    ProgramStartsSafe(settings, users, sessions, powers, cache);
    PeacefulExactlyWhenSafe(FineProgram(settings, users, sessions, powers, cache), steps);
  }
}
