/** How runs of the code-level protocol end and go on: when the greeter exits with success, whom a retry is for, and what a
    power command leaves behind. */
module FineExits {
  import opened Wrappers
  import opened Sessions
  import opened CacheState
  import opened GreeterState
  import opened Keyboard
  import opened Replies
  import opened Protocol
  import opened ProtocolHistory
  import opened FineProtocol
  import opened FineSafety
  import opened FineRuns

  // ---- exiting with success ----

  ghost predicate HasCommitted(log: Log) {
    exists i | 0 <= i < |log| :: log[i].Committed?
  }

  /** The greeter is on its way to exiting with success, or has. */
  predicate ExitsWithSuccess(w: World) {
    Exit(ExitSuccess) in w.controls || w.ui == Exiting(ExitSuccess) || w.greeter.exit == Some(ExitSuccess)
  }

  ghost predicate SuccessIsEarned(w: World) {
    && (ExitsWithSuccess(w) ==> HasCommitted(w.log))
    && (w.phase.Persisting? && w.phase.control == Some(Exit(ExitSuccess)) ==> w.phase.update.Some?)
  }

  lemma LongerLogHasCommitted(log: Log, log': Log)
    requires log <= log' && HasCommitted(log)
    ensures HasCommitted(log')
  {
    var i :| 0 <= i < |log| && log[i].Committed?;
    assert log'[i] == log[i];
  }

  lemma KeysNeverExitWithSuccess(g: State, key: Key, powerActive: bool)
    ensures HandleKey(g, key, powerActive).1 != Emit(Exit(ExitSuccess))
    ensures HandleKey(g, key, powerActive).0.exit == g.exit
  {
    KeyAuth(g, key, powerActive);
  }

  lemma ObeyingEarnsNothing(w: World, e: Effect)
    requires e != Emit(Exit(ExitSuccess))
    ensures ExitsWithSuccess(Obey(w, e)) ==> ExitsWithSuccess(w)
    ensures w.log <= Obey(w, e).log && Obey(w, e).phase == w.phase
  {
  }

  lemma KeysEarnNothing(w: World, key: Key)
    ensures ExitsWithSuccess(KeyNext(w, key)) ==> ExitsWithSuccess(w)
    ensures w.log <= KeyNext(w, key).log && KeyNext(w, key).phase == w.phase
  {
    var (g, e) := HandleKey(w.greeter, key, w.ui.PowerRunning?);
    KeysNeverExitWithSuccess(w.greeter, key, w.ui.PowerRunning?);
    ObeyingEarnsNothing(w.(greeter := g), e);
  }

  /** What a user step adds. */
  lemma UserEarnsNothing(w: World, u: UiStep)
    requires UiEnabled(w, u)
    ensures ExitsWithSuccess(UiNext(w, u)) ==> ExitsWithSuccess(w)
    ensures w.log <= UiNext(w, u).log && UiNext(w, u).phase == w.phase
  {
    match u
    case KeyStep(key) => KeysEarnNothing(w, key);
    case ControlStep => assert w.controls == [w.controls[0]] + w.controls[1..];
    case _ =>
  }

  lemma SameControlsEarnNothing(w: World, w': World)
    requires w'.controls == w.controls && w'.ui == w.ui
    requires w'.greeter.exit == w.greeter.exit
    ensures ExitsWithSuccess(w') ==> ExitsWithSuccess(w)
  {
  }

  lemma PausedMoveEarnsNothing(f: FineWorld, o: Outcome)
    requires !f.pause.Between?
    ensures ExitsWithSuccess(ActorMove(f, o).w) ==> ExitsWithSuccess(f.w)
    ensures f.w.log <= ActorMove(f, o).w.log
  {
    SameControlsEarnNothing(f.w, ActorMove(f, o).w);
  }

  lemma RestingMoveEarnsNothing(f: FineWorld, o: Outcome)
    requires Rests(f) && ActorCanMove(f, o)
    ensures ExitsWithSuccess(ActorMove(f, o).w) ==> ExitsWithSuccess(f.w)
    ensures f.w.log <= ActorMove(f, o).w.log
  {
    WaitingMoveKeepsGreeter(f, o);
    assert ActorMove(f, o).w.controls == f.w.controls;
    SameControlsEarnNothing(f.w, ActorMove(f, o).w);
  }

  lemma ParsingEarnsNothing(w: World)
    requires w.phase.Decoded?
    ensures ExitsWithSuccess(ParseStep(w)) ==> ExitsWithSuccess(w)
    ensures w.log <= ParseStep(w).log
  {
    ReplyAuth(w.greeter, w.phase.response);
    assert ParseStep(w).controls == w.controls;
    SameControlsEarnNothing(w, ParseStep(w));
  }

  /** Elsewhere than in `persist` the actor asks for no exit but a failing one. */
  lemma ActorEarnsNothing(f: FineWorld, o: Outcome)
    requires ActorCanMove(f, o) && !(f.pause.Between? && f.w.phase.Persisting?)
    ensures ExitsWithSuccess(ActorMove(f, o).w) ==> ExitsWithSuccess(f.w)
    ensures f.w.log <= ActorMove(f, o).w.log
  {
    if !f.pause.Between? {
      PausedMoveEarnsNothing(f, o);
    } else if Rests(f) {
      RestingMoveEarnsNothing(f, o);
    } else if f.w.phase.Decoded? {
      ParsingEarnsNothing(f.w);
    }
  }

  lemma PersistingEarnsSuccess(w: World)
    requires w.phase.Persisting? && SuccessIsEarned(w)
    ensures SuccessIsEarned(PersistStep(w))
  {
    var log' := PersistStep(w).log;
    if w.phase.update.Some? {
      assert log'[|log'| - 1].Committed?;
    }
  }

  lemma ActorKeepsPersisting(f: FineWorld, o: Outcome)
    requires ActorCanMove(f, o) && !f.w.phase.Persisting?
    ensures var p := ActorMove(f, o).w.phase; p.Persisting? && p.control == Some(Exit(ExitSuccess)) ==> p.update.Some?
  {
  }

  lemma MoveKeepsSuccessEarned(f: FineWorld, s: Step)
    requires Basic(f) && SuccessIsEarned(f.w) && CanMove(f, s)
    ensures SuccessIsEarned(Move(f, s).w)
  {
    match s
    case Ui(u) =>
      UserEarnsNothing(f.w, u);
      if ExitsWithSuccess(f.w) {
        LongerLogHasCommitted(f.w.log, UiNext(f.w, u).log);
      }
    case Actor(o) =>
      if f.w.phase.Persisting? {
        PersistingEarnsSuccess(f.w);
      } else {
        ActorEarnsNothing(f, o);
        ActorKeepsPersisting(f, o);
        if ExitsWithSuccess(f.w) {
          LongerLogHasCommitted(f.w.log, ActorMove(f, o).w.log);
        }
      }
  }

  lemma {:induction false} RunKeepsSuccessEarned(f: FineWorld, steps: seq<Step>)
    requires Basic(f) && SuccessIsEarned(f.w) && IsFineRun(f, steps)
    ensures SuccessIsEarned(FineAfter(f, steps).w)
    decreases |steps|
  {
    if steps != [] {
      MoveKeepsBasic(f, steps[0]);
      MoveKeepsSuccessEarned(f, steps[0]);
      RunKeepsSuccessEarned(Move(f, steps[0]), steps[1..]);
    }
  }

  /** Main result: in every run, racing or not, the greeter exits with success only after a login has been committed. */
  lemma SuccessfulExitFollowsACommit(settings: Settings, users: seq<User>, sessions: seq<Session>, powers: seq<Power>,
                                     cache: Remembered, steps: seq<Step>)
    requires IsFineRun(FineProgram(settings, users, sessions, powers, cache), steps)
    requires ExitsWithSuccess(FineAfter(FineProgram(settings, users, sessions, powers, cache), steps).w)
    ensures HasCommitted(FineAfter(FineProgram(settings, users, sessions, powers, cache), steps).w.log)
  {
    ProgramIsBasic(settings, users, sessions, powers, cache);
    StartupIsConsistent(settings, users, sessions, powers, cache);
    RunKeepsSuccessEarned(FineProgram(settings, users, sessions, powers, cache), steps);
  }

  /** And a commit is followed by telling the main loop to exit so. */
  lemma CommitTellsToExit(w: World)
    requires w.phase.Decoded? && w.phase.response.Success? && w.greeter.auth.StartingSession?
    ensures var parsed := ParseStep(w);
            && parsed.phase.Persisting? && PersistStep(parsed).controls == w.controls + [Exit(ExitSuccess)]
            && PersistStep(parsed).log == w.log + [Committed(parsed.phase.update.value)]
  {
  }

  /** Giving up is told as a failure. */
  lemma GivingUpTellsToFail(w: World)
    requires w.phase.Recovering? && (w.phase.request.StartSession? || w.failures >= MAX_RECOVERY_ATTEMPTS)
    ensures RecoverStep(w).controls == w.controls + [Exit(ExitFailure)] && RecoverStep(w).phase.Stopped?
  {
  }

  /** The main loop exits as it is told, and with a failure when it is terminated from outside. */
  lemma ToldExitIsRecorded(w: World, status: ExitStatus)
    requires !w.shutdown && w.greeter.exit.None? && w.ui.Ready?
    ensures w.controls != [] && w.controls[0] == Exit(status) ==>
              && UiEnabled(w, ControlStep) && UiEnabled(UiNext(w, ControlStep), ExitStep)
              && var t := UiNext(UiNext(w, ControlStep), ExitStep);
                 t.greeter.exit == Some(status) && t.controls == w.controls[1..]
    ensures UiEnabled(w, SignalStep) && UiEnabled(UiNext(w, SignalStep), ExitStep)
    ensures UiNext(UiNext(w, SignalStep), ExitStep).greeter.exit == Some(ExitFailure)
  {
  }

  // ---- beginning and cancelling ----

  /** A user known at start-up is asked for at once, if there is something to launch. */
  lemma KnownUserIsAskedFor(g: State)
    ensures var w := Initial(g);
            if g.username.value != "" && LaunchCommand(g).Some?
            then w.queue == [Queued(CreateSession(g.username.value), 0)]
                 && w.greeter == g.(auth := CreatingSession, buffer := "")
            else w.queue == [] && w.greeter == g
  {
  }

  /** A reload cancels an attempt exactly if it leaves the attempt nothing to launch. */
  lemma ReloadCancelsAttempt(w: World, plan: ReloadPlan)
    requires Consistent(w.greeter) && UiEnabled(w, ReloadStep(plan))
    ensures var h, t := ApplyReload(w.greeter, plan), UiNext(w, ReloadStep(plan));
            if w.greeter.auth.CanCancel() && LaunchCommand(h).None?
            then t == w.(greeter := h.(auth := Cancelling), generation := w.generation + 1)
            else t == w.(greeter := h)
  {
    ReloadIsConsistent(w.greeter, plan);
  }

  /** What the actor writes when it notices a cancellation: CancelSession for a session that greetd may still have and that
      has not been started, nothing otherwise; and the connection is given up. */
  lemma CancellationIsToldToGreetd(f: FineWorld, o: Outcome)
    requires Basic(f) && ActorCanMove(f, o) && !f.w.shutdown && ActorMove(f, o).pause.Noticed? && !f.pause.Noticed?
    ensures var w, w' := f.w, ActorMove(f, o).w;
            && (w.phase.Selecting? && w.connected && (w.greeter.auth.CanCancel() || w.greeter.auth.Cancelling?) ==>
                  w'.log == w.log + [WroteCancel])
            && (w.phase.Selecting? && !(w.connected && (w.greeter.auth.CanCancel() || w.greeter.auth.Cancelling?)) ==>
                  w'.log == w.log)
            && (w.phase.Reading? ==> w'.log == if w.phase.request.StartSession? then w.log else w.log + [WroteCancel])
            && (w.phase.Connecting? || w.phase.Writing? || w.phase.Flushing? || w.phase.BackingOff? ==> w'.log == w.log)
            && (!w.phase.BackingOff? ==> !w'.connected)
  {
  }

  // ---- retrying ----

  /** After a failure that is not given up, the actor by itself asks greetd again for the same user, and forgets what was
      typed. */
  lemma RetryIsForTheSameUser(f: FineWorld)
    requires f.pause.Between? && f.w.phase.Recovering? && !f.w.shutdown && f.w.phase.generation == f.w.generation
    requires !f.w.phase.request.StartSession? && f.w.failures < MAX_RECOVERY_ATTEMPTS
    ensures exists t :: && Reaches(f, t, true) && t.pause.Between? && t.w.phase.Selecting? && t.w.greeter.buffer == ""
                        && t.w.queue == f.w.queue + [Queued(CreateSession(f.w.greeter.username.value), f.w.generation)]
                        && t.w.greeter.auth.CreatingSession? && t.w.greeter.username == f.w.greeter.username
  {
    Here(f);
    RecoverToBackOff(f, f, true);
    var b := FineWorld(Recovered(f.w), Between);
    BackOffAndRetry(f, b, true);
    assert b.w.greeter.username == f.w.greeter.username;
  }

  // ---- power commands ----

  /** Keys pressed while a power command runs. */
  function PressedMeanwhile(w: World, keys: seq<Key>): World {
    if keys == [] then w else KeyNext(PressedMeanwhile(w, keys[..|keys| - 1]), keys[|keys| - 1])
  }

  lemma {:induction false} KeysWaitForThePowerCommand(w: World, keys: seq<Key>)
    requires w.ui.PowerRunning?
    ensures PressedMeanwhile(w, keys) == w
    decreases |keys|
  {
    if keys != [] {
      KeysWaitForThePowerCommand(w, keys[..|keys| - 1]);
    }
  }

  /** A power command that fails or is cancelled leaves the greeter as it was, whatever was typed meanwhile. */
  lemma FailedPowerCommandChangesNothing(w: World, keys: seq<Key>)
    requires w.ui.StartingPower? && !w.shutdown && w.greeter.exit.None?
    ensures UiNext(w, BeginPowerStep).greeter == w.greeter.(mode := ProcessingMode)
    ensures var running := PressedMeanwhile(UiNext(w, BeginPowerStep), keys);
            UiEnabled(running, FinishPowerStep(false)) && UiNext(running, FinishPowerStep(false)) == w.(ui := Ready)
    ensures var running := PressedMeanwhile(UiNext(w, BeginPowerStep), keys);
            UiNext(running, FinishPowerStep(true)).shutdown
  {
    KeysWaitForThePowerCommand(UiNext(w, BeginPowerStep), keys);
  }
}
