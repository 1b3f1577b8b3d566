/** What holds of every run of the code-level protocol, whatever the user does at whatever moment. */
module FineSafety {
  import opened Sessions
  import opened CacheState
  import opened GreeterState
  import opened Keyboard
  import opened Replies
  import opened Protocol
  import opened ProtocolSafety
  import opened ProtocolHistory
  import opened ProtocolTheorems
  import opened FineProtocol

  predicate HasGeneration(p: Phase) {
    p.HasRequest() || p.Resetting? || p.BackingOff?
  }

  /** The actor waits for something other than the greeter. */
  predicate Rests(f: FineWorld) {
    f.pause.Between? && Waits(f.w.phase)
  }

  /** Generations never run ahead, and a cancellation that has not been acted upon is ahead of everything in hand. */
  ghost predicate GenerationsInOrder(f: FineWorld) {
    var w := f.w;
    && w.observed <= w.generation
    && (forall q :: q in Held(f).queue ==> q.generation <= w.generation)
    && (f.pause.Chosen? ==> w.phase.Selecting? && (w.greeter.auth.Cancelling? ==> f.pause.next.generation < w.generation))
    && (f.pause.Noticed? ==> f.pause.seen <= w.generation && Waits(w.phase))
    && (f.pause.Fired? || f.pause.Named? ==> w.phase.BackingOff?)
    && (HasGeneration(w.phase) ==> w.phase.generation <= w.generation)
    && (w.greeter.auth.Cancelling? ==>
          && w.observed < w.generation
          && (w.phase.HasRequest() || (w.phase.BackingOff? && f.pause.Between?) ==> w.phase.generation < w.generation))
    && (w.phase.Stopped? ==> f.pause.Between? && w.queue == [] && (w.shutdown || w.greeter.auth.Failed?))
  }

  /** Failures are counted, and what is written belongs to the current attempt. */
  ghost predicate FailuresCounted(w: World) {
    && w.failures <= (if w.phase.Recovering? || w.phase.Stopped? then MAX_RECOVERY_ATTEMPTS else MAX_RECOVERY_ATTEMPTS - 1)
    && WritesAreFresh(w.log)
    && TrailingFailures(w.log) <= w.failures
    && (w.phase.Decoded? ==> TrailingFailures(w.log) == 0)
  }

  ghost predicate Basic(f: FineWorld) {
    Usable(f.w) && GenerationsInOrder(f) && FailuresCounted(f.w)
  }

  // ---- user steps ----

  lemma UserKeepsGenerations(f: FineWorld, u: UiStep)
    requires Basic(f) && UiEnabled(f.w, u)
    ensures GenerationsInOrder(Move(f, Ui(u))) && FailuresCounted(UiNext(f.w, u))
  {
    UiIsEffect(f.w, u);
    var (g, e) := UiEffect(f.w, u);
    EffectKeepsGenerations(f, g, e);
    UiOnlyShutsDown(f.w, u);
  }

  lemma EffectKeepsGenerations(f: FineWorld, g: State, e: Effect)
    requires Basic(f) && !f.w.shutdown && AuthFollows(f.w.greeter, g, e)
    ensures GenerationsInOrder(FineWorld(Perform(f.w.(greeter := g), e), f.pause))
    ensures FailuresCounted(Perform(f.w.(greeter := g), e))
  {
  }

  lemma UiOnlyShutsDown(w: World, u: UiStep)
    requires UiEnabled(w, u)
    ensures !w.shutdown
  {
  }

  // ---- actor steps ----

  lemma SameButGreeterIsUsable(w: World, w': World)
    requires Usable(w) && w'.ui == w.ui && (w'.greeter == w.greeter || w'.greeter == ResetLocal(w.greeter, false))
    ensures Usable(w')
  {
    ResetIsConsistent(w.greeter, false);
  }

  lemma MoveKeepsUsable(f: FineWorld, o: Outcome)
    requires Usable(f.w) && ActorCanMove(f, o)
    ensures Usable(ActorMove(f, o).w)
  {
    match f.pause
    case Chosen(_) => SameButGreeterIsUsable(f.w, Recheck(f).w);
    case Noticed(_) => SameButGreeterIsUsable(f.w, Reset(f).w);
    case Fired =>
    case Named(_) => SameButGreeterIsUsable(f.w, QueueRetry(f).w);
    case Between =>
      if f.w.phase.Decoded? || f.w.phase.Recovering? || f.w.phase.Resetting? || f.w.phase.Persisting? {
        ActorKeepsUsable(f.w, o);
      } else {
        WaitingMoveKeepsGreeter(f, o);
      }
  }

  lemma WaitingMoveKeepsGreeter(f: FineWorld, o: Outcome)
    requires ActorCanMove(f, o) && Rests(f)
    ensures ActorMove(f, o).w.greeter == f.w.greeter && ActorMove(f, o).w.ui == f.w.ui
  {
  }

  lemma SelectKeepsGenerations(f: FineWorld, o: Outcome)
    requires GenerationsInOrder(f) && f.pause.Between? && f.w.phase.Selecting? && ActorCanMove(f, o)
    ensures GenerationsInOrder(ActorMove(f, o))
  {
    if !f.w.shutdown && f.w.observed == f.w.generation {
      assert Held(ActorMove(f, o)) == f.w;
    }
  }

  lemma TransmitKeepsGenerations(f: FineWorld, o: Outcome)
    requires GenerationsInOrder(f) && f.pause.Between?
    requires f.w.phase.Connecting? || f.w.phase.Writing? || f.w.phase.Flushing?
    ensures GenerationsInOrder(ActorMove(f, o))
  {
    assert ActorMove(f, o) == FineTransmit(f.w, o);
  }

  lemma WaitingMoveKeepsGenerations(f: FineWorld, o: Outcome)
    requires GenerationsInOrder(f) && Rests(f) && ActorCanMove(f, o)
    ensures GenerationsInOrder(ActorMove(f, o))
  {
    if f.w.phase.Selecting? {
      SelectKeepsGenerations(f, o);
    } else if f.w.phase.Connecting? || f.w.phase.Writing? || f.w.phase.Flushing? {
      TransmitKeepsGenerations(f, o);
    }
  }

  lemma ParseKeepsGenerations(f: FineWorld)
    requires GenerationsInOrder(f) && f.pause.Between? && f.w.phase.Decoded?
    ensures GenerationsInOrder(FineWorld(ParseStep(f.w), Between))
  {
    ReplyAuth(f.w.greeter, f.w.phase.response);
  }

  lemma WorkingMoveKeepsGenerations(f: FineWorld, o: Outcome)
    requires GenerationsInOrder(f) && f.pause.Between? && !Waits(f.w.phase) && ActorCanMove(f, o)
    ensures GenerationsInOrder(ActorMove(f, o))
  {
    if f.w.phase.Decoded? {
      ParseKeepsGenerations(f);
    }
  }

  lemma PausedMoveKeepsGenerations(f: FineWorld, o: Outcome)
    requires GenerationsInOrder(f) && !f.pause.Between?
    ensures GenerationsInOrder(ActorMove(f, o))
  {
  }

  /** What an event does to the counts. */
  lemma OneMoreEvent(w: World, w': World, e: Event)
    requires FailuresCounted(w) && w'.log == w.log + [e]
    requires e.Wrote? ==> e.generation == e.current
    requires w'.failures <= (if w'.phase.Recovering? || w'.phase.Stopped? then MAX_RECOVERY_ATTEMPTS else MAX_RECOVERY_ATTEMPTS - 1)
    requires e.TransactionFailed? ==> w'.failures == w.failures + 1
    requires !e.TransactionFailed? && !e.Answered? ==> w'.failures >= w.failures || w.phase.Decoded?
    requires w'.phase.Decoded? ==> e.Answered?
    ensures FailuresCounted(w')
  {
    Append(w.log, e);
    AppendToFresh(w.log, e);
  }

  lemma WaitingMoveKeepsCounts(f: FineWorld, o: Outcome)
    requires FailuresCounted(f.w) && Rests(f) && ActorCanMove(f, o)
    ensures FailuresCounted(ActorMove(f, o).w)
  {
    var w, w' := f.w, ActorMove(f, o).w;
    match w.phase
    case Selecting => if w'.log != w.log { OneMoreEvent(w, w', WroteCancel); }
    case Connecting(r, g) => TransmissionKeepsCounts(f, o);
    case Writing(r, g) => TransmissionKeepsCounts(f, o);
    case Flushing(r, g) => TransmissionKeepsCounts(f, o);
    case Reading(r, g) =>
      if w.shutdown || g != w.generation {
        if !r.StartSession? { OneMoreEvent(w, w', WroteCancel); }
      } else {
        OneMoreEvent(w, w', if o.Reply? then Answered(r, o.response) else TransactionFailed(r));
      }
    case BackingOff(_) =>
  }

  lemma TransmissionKeepsCounts(f: FineWorld, o: Outcome)
    requires FailuresCounted(f.w) && f.pause.Between?
    requires f.w.phase.Connecting? || f.w.phase.Writing? || f.w.phase.Flushing?
    ensures FailuresCounted(ActorMove(f, o).w)
  {
    var w, w' := f.w, ActorMove(f, o).w;
    if !w.shutdown && w.phase.generation == w.generation {
      if o.Fail? {
        OneMoreEvent(w, w', TransactionFailed(w.phase.request));
      } else if w.phase.Writing? {
        OneMoreEvent(w, w', Wrote(w.phase.request, w.phase.generation, w.generation));
      }
    }
  }

  lemma WorkingMoveKeepsCounts(f: FineWorld, o: Outcome)
    requires FailuresCounted(f.w) && f.pause.Between? && !Waits(f.w.phase) && ActorCanMove(f, o)
    ensures FailuresCounted(ActorMove(f, o).w)
  {
    var w, w' := f.w, ActorMove(f, o).w;
    match w.phase
    case Decoded(_, _, response) =>
      ReplyAuth(w.greeter, response);
      if w'.log != w.log {
        var g := ParseResponse(w.greeter, response).value.0;
        OneMoreEvent(w, w', Captured(Capture(g), CurrentPolicy(g)));
      }
    case Persisting(update, _) => if update.Some? { OneMoreEvent(w, w', Committed(update.value)); }
    case Recovering(_, _) => if w'.phase.Stopped? { OneMoreEvent(w, w', ExitSent(ExitFailure)); }
    case Resetting(_) =>
  }

  lemma PausedMoveKeepsCounts(f: FineWorld, o: Outcome)
    requires FailuresCounted(f.w) && !f.pause.Between? && (f.pause.Noticed? ==> Waits(f.w.phase))
    requires (f.pause.Fired? || f.pause.Named? ==> f.w.phase.BackingOff?) && (f.pause.Chosen? ==> f.w.phase.Selecting?)
    ensures FailuresCounted(ActorMove(f, o).w)
  {
    if ActorMove(f, o).w.log != f.w.log {
      OneMoreEvent(f.w, ActorMove(f, o).w, WroteCancel);
    }
  }

  lemma MoveKeepsBasic(f: FineWorld, s: Step)
    requires Basic(f) && CanMove(f, s)
    ensures Basic(Move(f, s))
  {
    match s
    case Ui(u) =>
      UiKeepsUsable(f.w, u);
      UserKeepsGenerations(f, u);
    case Actor(o) =>
      MoveKeepsUsable(f, o);
      if !f.pause.Between? {
        PausedMoveKeepsGenerations(f, o);
        PausedMoveKeepsCounts(f, o);
      } else if Waits(f.w.phase) {
        WaitingMoveKeepsGenerations(f, o);
        WaitingMoveKeepsCounts(f, o);
      } else {
        WorkingMoveKeepsGenerations(f, o);
        WorkingMoveKeepsCounts(f, o);
      }
  }

  lemma {:induction false} RunKeepsBasic(f: FineWorld, steps: seq<Step>)
    requires Basic(f) && IsFineRun(f, steps)
    ensures Basic(FineAfter(f, steps))
    decreases |steps|
  {
    if steps != [] {
      MoveKeepsBasic(f, steps[0]);
      RunKeepsBasic(Move(f, steps[0]), steps[1..]);
    }
  }

  function FineProgram(settings: Settings, users: seq<User>, sessions: seq<Session>, powers: seq<Power>,
                       cache: Remembered): FineWorld
  {
    FineInitial(Startup(settings, users, sessions, powers, cache))
  }

  lemma ProgramIsBasic(settings: Settings, users: seq<User>, sessions: seq<Session>, powers: seq<Power>, cache: Remembered)
    ensures Basic(FineProgram(settings, users, sessions, powers, cache))
  {
    var f := FineProgram(settings, users, sessions, powers, cache);
    StartupIsConsistent(settings, users, sessions, powers, cache);
    InitialCorresponds(Startup(settings, users, sessions, powers, cache));
    assert f.w.log == [] && Held(f) == f.w;
  }

  /** Every run of the code from any configuration, racing or not: modes, menus and launch source stay consistent, no
      stale request is ever written, and the third failure without a decoded response in between stops the actor. */
  lemma BasicSafetyOfEveryRun(settings: Settings, users: seq<User>, sessions: seq<Session>, powers: seq<Power>,
                              cache: Remembered, steps: seq<Step>)
    requires IsFineRun(FineProgram(settings, users, sessions, powers, cache), steps)
    ensures var w := FineAfter(FineProgram(settings, users, sessions, powers, cache), steps).w;
            && Usable(w) && WritesAreFresh(w.log) && TrailingFailures(w.log) <= MAX_RECOVERY_ATTEMPTS
            && (TrailingFailures(w.log) == MAX_RECOVERY_ATTEMPTS ==> w.phase.Recovering? || w.phase.Stopped?)
    ensures Basic(FineAfter(FineProgram(settings, users, sessions, powers, cache), steps))
  {
    ProgramIsBasic(settings, users, sessions, powers, cache);
    RunKeepsBasic(FineProgram(settings, users, sessions, powers, cache), steps);
  }

  // ---- cancellation, stopping and starting, whatever the user does ----

  /** No cancellation is lost: while the state is Cancelling the actor is behind; where it rests or has just taken a request,
      noticing is what it does next, without any help from greetd; and noticing is followed by the reset. */
  lemma CancellationIsNeverLost(f: FineWorld, o: Outcome)
    requires Basic(f) && f.w.greeter.auth.Cancelling? && !f.w.phase.Stopped?
    ensures f.w.observed < f.w.generation
    ensures Rests(f) ==> ActorCanMove(f, o) && (!f.w.shutdown ==> ActorMove(f, o).pause.Noticed?)
    ensures f.pause.Chosen? ==> ActorMove(f, o).pause.Noticed?
    ensures f.pause.Noticed? ==> ActorMove(f, o).w.greeter == ResetLocal(f.w.greeter, false)
  {
  }

  /** How many moves separate the actor from resting. */
  function MovesToRest(f: FineWorld): nat {
    match f.pause
    case Chosen(_) => 2
    case Noticed(_) => 1
    case Fired => 2
    case Named(_) => 1
    case Between => StepsToWait(f.w.phase)
  }

  /** An actor that does not rest always moves, and rests or stops after at most three moves; the user cannot delay it. */
  lemma ActorComesToRest(f: FineWorld, s: Step)
    requires Basic(f) && !f.w.phase.Stopped? && !Rests(f) && CanMove(f, s)
    ensures ActorCanMove(f, Proceed)
    ensures s.Ui? ==> Move(f, s).w.phase == f.w.phase && Move(f, s).pause == f.pause
    ensures s.Actor? ==> Move(f, s).w.phase.Stopped? || MovesToRest(Move(f, s)) < MovesToRest(f)
  {
    match s
    case Ui(u) => UiIsEffect(f.w, u);
    case Actor(o) => if f.pause.Between? { ActorComesCloser(f.w, o); }
  }

  /** No step of the user touches a starting session, its place in the queue or the cancel generation. */
  lemma UserLeavesStartAlone(f: FineWorld, u: UiStep)
    requires Basic(f) && f.w.greeter.auth.StartingSession? && UiEnabled(f.w, u)
    ensures var w' := UiNext(f.w, u);
            w'.greeter.auth == f.w.greeter.auth && w'.generation == f.w.generation && w'.queue == f.w.queue
  {
    UiIsEffect(f.w, u);
  }

  /** A stopped actor never resumes, writes or queues. */
  lemma StoppingIsFinal(f: FineWorld, s: Step)
    requires Basic(f) && f.w.phase.Stopped? && CanMove(f, s)
    ensures Move(f, s).w.phase.Stopped? && Move(f, s).w.log == f.w.log && Move(f, s).w.queue == []
  {
    UiIsEffect(f.w, s.step);
    MoveKeepsBasic(f, s);
  }
}
