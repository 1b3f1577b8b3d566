/** When the state and the outstanding work of the code-level protocol correspond: exactly as long as no step of the user
    races with the actor. */
module FineTheorems {
  import opened Sessions
  import opened CacheState
  import opened GreeterState
  import opened Keyboard
  import opened Protocol
  import opened ProtocolSafety
  import opened ProtocolHistory
  import opened ProtocolTheorems
  import opened FineProtocol
  import opened FineSafety

  /** The authentication state says which live request is queued or in flight. */
  ghost predicate Matches(w: World) {
    w.phase.Stopped? ||
    match w.greeter.auth
    case CreatingSession =>
      || (|Outstanding(w)| == 1 && Outstanding(w)[0].CreateSession?)
      || (w.phase.BackingOff? && Outstanding(w) == [])
    case ContinuingAuth => |Outstanding(w)| == 1 && Outstanding(w)[0].PostAuthMessageResponse?
    case StartingSession(_, _) => |Outstanding(w)| == 1 && Outstanding(w)[0].StartSession?
    case _ => Outstanding(w) == []
  }

  /** The world with the leftovers of a finished cancellation cleared away, as `Protocol` does at once. */
  function Coarse(w: World): World {
    if w.phase.Selecting? && !w.greeter.auth.Cancelling?
    then w.(observed := w.generation, queue := FreshOnly(w.queue, w.generation)) else w
  }

  ghost predicate PauseFits(w: World, pause: Pause) {
    && (pause.Chosen? ==> w.phase.Selecting?)
    && (pause.Noticed? ==>
          && pause.seen <= w.generation && Waits(w.phase)
          && (if w.phase.Selecting? then w.greeter.auth.Cancelling? || w.greeter.auth.Idle? else Pending(w)))
    && (pause.Fired? || pause.Named? ==> w.phase.BackingOff? && w.greeter.auth.CreatingSession? && !Pending(w))
  }

  ghost predicate LeftoversAreQuiet(w: World) {
    HasLeftovers(w) && !w.greeter.auth.Cancelling? ==>
      w.greeter.auth.Idle? && w.observed <= w.generation && |w.queue| <= 1 && FreshOnly(w.queue, w.generation) == []
  }

  /** Cleared of leftovers, the world is as safe as one of `Protocol`. */
  ghost predicate Fits(w: World, pause: Pause) {
    Invariant(Coarse(w)) && PauseFits(w, pause) && LeftoversAreQuiet(w)
  }

  /** What orderly runs keep. */
  ghost predicate FineInvariant(f: FineWorld) {
    Fits(Held(f), f.pause)
  }

  lemma {:induction false} FreshOnlyKeepsRequests(queue: seq<Queued>, generation: nat)
    ensures Requests(FreshOnly(queue, generation), generation) == Requests(queue, generation)
  {
    if queue != [] {
      FreshOnlyKeepsRequests(queue[1..], generation);
      var rest := FreshOnly(queue[1..], generation);
      if queue[0].generation == generation {
        assert ([queue[0]] + rest)[1..] == rest;
      } else {
        assert [] + rest == rest;
      }
    }
  }

  lemma {:induction false} FreshQueueIsKept(queue: seq<Queued>, generation: nat)
    requires forall q :: q in queue ==> q.generation == generation
    ensures FreshOnly(queue, generation) == queue
  {
    if queue != [] {
      assert queue[0] in queue;
      FreshQueueIsKept(queue[1..], generation);
    }
  }

  lemma InvariantMatches(f: FineWorld)
    requires FineInvariant(f)
    ensures Matches(Held(f))
  {
    if !f.w.phase.Stopped? {
      StateDeterminesOutstandingWork(Coarse(Held(f)));
      CoarseKeepsOutstanding(Held(f));
    }
  }

  lemma CoarseKeepsOutstanding(w: World)
    ensures Outstanding(Coarse(w)) == Outstanding(w)
  {
    FreshOnlyKeepsRequests(w.queue, w.generation);
  }

  /** Without leftovers the coarse world is the world itself. */
  lemma CoarseOfClean(w: World)
    requires !HasLeftovers(w)
    ensures Coarse(w) == w
  {
    if w.phase.Selecting? {
      FreshQueueIsKept(w.queue, w.generation);
    }
  }

  /** A safe world of `Protocol` has leftovers only while it is cancelling, so it is its own coarse world. */
  lemma SafeWorldIsCoarse(w: World)
    requires Invariant(w)
    ensures Coarse(w) == w && LeftoversAreQuiet(w)
  {
    if w.phase.Selecting? && !w.greeter.auth.Cancelling? {
      assert !HasLeftovers(w);
      FreshQueueIsKept(w.queue, w.generation);
    }
  }

  // ---- user steps ----

  /** A step that neither starts nor cancels passes over leftovers. */
  lemma QuietStepPassesLeftovers(w: World, u: UiStep)
    requires UiEnabled(w, u) && !UiEffect(w, u).1.Send? && !UiEffect(w, u).1.Cancel?
    ensures UiEnabled(w.(observed := w.generation, queue := FreshOnly(w.queue, w.generation)), u)
    ensures var w' := UiNext(w, u);
            w'.(observed := w.generation, queue := FreshOnly(w.queue, w.generation)) ==
            UiNext(w.(observed := w.generation, queue := FreshOnly(w.queue, w.generation)), u)
  {
  }

  lemma UserEffectOnPause(w: World, pause: Pause, g: State, e: Effect)
    requires Fits(w, pause) && AuthFollows(w.greeter, g, e)
    requires e.Send? ==> !pause.Noticed? && !HasLeftovers(w)
    requires e.Cancel? ==> !pause.Fired? && !pause.Named?
    ensures var w' := Perform(w.(greeter := g), e); PauseFits(w', pause) && LeftoversAreQuiet(w')
    ensures HasLeftovers(w) ==> !e.Send? && !e.Cancel?
  {
  }

  lemma UserStepKeepsPause(w: World, pause: Pause, u: UiStep)
    requires Fits(w, pause) && UiEnabled(w, u)
    requires UiEffect(w, u).1.Send? ==> !pause.Noticed? && !HasLeftovers(w)
    requires UiEffect(w, u).1.Cancel? ==> !pause.Fired? && !pause.Named?
    ensures PauseFits(UiNext(w, u), pause) && LeftoversAreQuiet(UiNext(w, u))
    ensures HasLeftovers(w) ==> !UiEffect(w, u).1.Send? && !UiEffect(w, u).1.Cancel?
  {
    var (g, e) := UiEffect(w, u);
    UiIsEffect(w, u);
    UserEffectOnPause(w, pause, g, e);
    SameActorFits(Perform(w.(greeter := g), e), UiNext(w, u), pause);
  }

  lemma SameActorFits(w: World, w': World, pause: Pause)
    requires SameActor(w', w) && PauseFits(w, pause) && LeftoversAreQuiet(w)
    ensures PauseFits(w', pause) && LeftoversAreQuiet(w')
  {
  }

  lemma CoarseUserStep(w: World, u: UiStep)
    requires UiEnabled(w, u) && Invariant(Coarse(w)) && HasLeftovers(w) && !w.greeter.auth.Cancelling?
    requires !UiEffect(w, u).1.Send? && !UiEffect(w, u).1.Cancel?
    ensures Invariant(Coarse(UiNext(w, u)))
  {
    UiIsEffect(w, u);
    QuietStepPassesLeftovers(w, u);
    StepKeepsInvariant(Coarse(w), Ui(u));
  }

  lemma ObeyPassesOver(w: World, next: Queued, e: Effect)
    ensures Obey(w.(queue := [next] + w.queue), e) == Obey(w, e).(queue := [next] + Obey(w, e).queue)
    ensures Perform(w.(queue := [next] + w.queue), e) == Perform(w, e).(queue := [next] + Perform(w, e).queue)
  {
    if e.Send? {
      assert ([next] + w.queue) + [Queued(e.request, w.generation)] == [next] + (w.queue + [Queued(e.request, w.generation)]);
    }
  }

  /** The user does not see whether the actor has taken a request or not. */
  lemma HeldUserStep(f: FineWorld, u: UiStep)
    requires UiEnabled(f.w, u)
    ensures UiEnabled(Held(f), u) && UiEffect(Held(f), u) == UiEffect(f.w, u)
    ensures UiNext(Held(f), u) == Held(Move(f, Ui(u)))
  {
    if f.pause.Chosen? {
      var (g, e) := UiEffect(f.w, u);
      ObeyPassesOver(f.w.(greeter := g), f.pause.next, e);
      ObeyPassesOver(f.w.(greeter := g, ui := Ready), f.pause.next, e);
    }
  }

  lemma OrderlyUserKeepsInvariant(f: FineWorld, u: UiStep)
    requires FineInvariant(f) && UiEnabled(f.w, u) && !Races(f, Ui(u))
    ensures FineInvariant(Move(f, Ui(u)))
  {
    var w := Held(f);
    HeldUserStep(f, u);
    UserStepKeepsPause(w, f.pause, u);
    if HasLeftovers(w) && !w.greeter.auth.Cancelling? {
      CoarseUserStep(w, u);
    } else {
      if !HasLeftovers(w) {
        CoarseOfClean(w);
      }
      StepKeepsInvariant(w, Ui(u));
      SafeWorldIsCoarse(UiNext(w, u));
    }
  }

  // ---- actor steps ----

  /** Handling a cancellation, or one that was handled before, is safe wherever the actor rests. */
  lemma HandlingKeepsInvariant(w: World)
    requires Invariant(w) && Waits(w.phase)
    requires Pending(w) || (w.phase.Selecting? && w.greeter.auth.Idle?)
    ensures Invariant(FinishCancellation(w))
  {
    RestingQueueIsStale(w);
    SameButGreeterIsUsable(w, FinishCancellation(w));
    HandlingKeepsHistory(w);
  }

  lemma RestingQueueIsStale(w: World)
    requires Corresponds(w) && Waits(w.phase) && (Pending(w) || (w.phase.Selecting? && w.greeter.auth.Idle?))
    ensures |w.queue| <= 1 && FreshOnly(w.queue, w.generation) == []
  {
    if w.queue != [] {
      assert w.queue[0] in w.queue && w.queue[1..] == [];
    }
  }

  lemma HandlingKeepsHistory(w: World)
    requires Corresponds(w) && HistoryIsSafe(w) && Waits(w.phase)
    requires Pending(w) || (w.phase.Selecting? && w.greeter.auth.Idle?)
    ensures HistoryIsSafe(FinishCancellation(w))
  {
    SameLogKeepsHistory(w, FinishCancellation(w));
  }

  /** Writing a cancellation to greetd, or not, and losing the connection is safe while one is pending. */
  lemma GivingUpStreamKeepsInvariant(w: World, w': World)
    requires Invariant(w) && Waits(w.phase) && (Pending(w) || (w.phase.Selecting? && w.greeter.auth.Idle?))
    requires w' == w.(connected := w'.connected, log := w'.log)
    requires w'.log == w.log || w'.log == w.log + [WroteCancel]
    ensures Invariant(w')
  {
    if w'.log == w.log {
      SameLogKeepsHistory(w, w');
    } else {
      AppendKeepsWire(w, w', WroteCancel);
      AppendKeepsCommits(w, w', WroteCancel);
    }
  }

  lemma RetryKeepsInvariant(w: World, username: string)
    requires Invariant(w) && w.phase.BackingOff? && w.greeter.auth.CreatingSession? && !Pending(w)
    ensures Invariant(Perform(w, Send(CreateSession(username))).(phase := Selecting))
  {
    SameLogKeepsHistory(w, Perform(w, Send(CreateSession(username))).(phase := Selecting));
  }

  lemma ResetMoveKeepsInvariant(f: FineWorld)
    requires FineInvariant(f) && f.pause.Noticed?
    ensures FineInvariant(Reset(f))
  {
    var w, c := f.w, Coarse(f.w);
    HandlingKeepsInvariant(c);
    NoticedQueueIsStale(f);
    assert FreshOnly([], w.generation) == [];
    assert Coarse(Reset(f).w) == FinishCancellation(c);
  }

  lemma NoticedQueueIsStale(f: FineWorld)
    requires FineInvariant(f) && f.pause.Noticed?
    ensures |f.w.queue| <= 1 && FreshOnly(f.w.queue, f.w.generation) == []
    ensures FreshOnly(Coarse(f.w).queue, f.w.generation) == []
  {
    RestingQueueIsStale(Coarse(f.w));
    if f.w.phase.Selecting? && f.w.greeter.auth.Idle? && !HasLeftovers(f.w) {
      CoarseOfClean(f.w);
    }
  }

  lemma StopKeepsInvariant(w: World)
    requires Invariant(Coarse(w)) && LeftoversAreQuiet(w) && w.phase.Selecting? && w.shutdown
    ensures Invariant(Stop(CancelStreamIfLive(w)))
  {
    StepKeepsInvariant(Coarse(w), Actor(Proceed));
    OnlyObservedDiffers(Stop(CancelStreamIfLive(Coarse(w))), w.observed);
  }

  lemma OnlyObservedDiffers(w: World, observed: nat)
    requires Invariant(w) && w.phase.Stopped? && observed <= w.generation
    ensures Invariant(w.(observed := observed))
  {
    SameLogKeepsHistory(w, w.(observed := observed));
  }

  /** Taking note of a cancellation, and of a stale request with it, is safe. */
  lemma NoticingKeepsInvariant(w: World, rest: seq<Queued>)
    requires Invariant(Coarse(w)) && LeftoversAreQuiet(w) && w.phase.Selecting? && HasLeftovers(w)
    requires rest == w.queue || (w.queue != [] && rest == w.queue[1..] && w.queue[0].generation != w.generation)
    ensures Fits(CancelStreamIfLive(w.(queue := rest)), Noticed(w.generation))
  {
    var taken := w.(queue := rest);
    if w.greeter.auth.Cancelling? {
      ShorterQueueKeepsInvariant(w, rest);
      GivingUpStreamKeepsInvariant(taken, CancelStreamIfLive(taken));
    } else {
      var c := Coarse(w);
      GivingUpStreamKeepsInvariant(c, c.(connected := false));
      assert Coarse(CancelStreamIfLive(taken)) == c.(connected := false);
    }
  }

  lemma ShorterQueueKeepsInvariant(w: World, rest: seq<Queued>)
    requires Invariant(w) && w.phase.Selecting? && Pending(w)
    requires rest == w.queue || (w.queue != [] && rest == w.queue[1..])
    ensures Invariant(w.(queue := rest))
  {
    SameLogKeepsHistory(w, w.(queue := rest));
  }

  /** Shutting down matters to the actor only where it looks. */
  lemma ShutdownIsNotSeen(w: World, shutdown: bool)
    requires Invariant(w) && !w.phase.Stopped?
    ensures Invariant(w.(shutdown := shutdown))
  {
    SameLogKeepsHistory(w, w.(shutdown := shutdown));
  }

  lemma TakingKeepsInvariant(w: World)
    requires Invariant(w) && w.phase.Selecting? && !Pending(w) && w.queue != []
    ensures var next := w.queue[0];
            Invariant(w.(queue := w.queue[1..], phase := if w.connected then Writing(next.request, next.generation)
                                                         else Connecting(next.request, next.generation)))
  {
    ShutdownIsNotSeen(w, false);
    StepKeepsInvariant(w.(shutdown := false), Actor(Proceed));
    ShutdownIsNotSeen(SelectStep(w.(shutdown := false)), w.shutdown);
  }

  lemma RecheckKeepsInvariant(f: FineWorld)
    requires FineInvariant(f) && f.pause.Chosen?
    ensures FineInvariant(Recheck(f))
  {
    var w := Held(f);
    assert w.queue[0] == f.pause.next && w.queue[1..] == f.w.queue && w.queue[0] in w.queue;
    if f.pause.next.generation != w.generation {
      NoticingKeepsInvariant(w, f.w.queue);
    } else {
      assert !HasLeftovers(w);
      CoarseOfClean(w);
      TakingKeepsInvariant(w);
      SafeWorldIsCoarse(Recheck(f).w);
    }
  }

  lemma PausedMoveKeepsInvariant(f: FineWorld, o: Outcome)
    requires FineInvariant(f) && !f.pause.Between?
    ensures FineInvariant(ActorMove(f, o))
  {
    match f.pause
    case Chosen(_) => RecheckKeepsInvariant(f);
    case Noticed(_) => ResetMoveKeepsInvariant(f);
    case Fired =>
    case Named(username) =>
      RetryKeepsInvariant(f.w, username);
      SafeWorldIsCoarse(QueueRetry(f).w);
  }

  lemma SelectMoveKeepsInvariant(f: FineWorld, o: Outcome)
    requires FineInvariant(f) && f.pause.Between? && f.w.phase.Selecting? && ActorCanMove(f, o)
    ensures FineInvariant(ActorMove(f, o))
  {
    if f.w.shutdown {
      StopKeepsInvariant(f.w);
    } else if f.w.observed != f.w.generation {
      NoticingKeepsInvariant(f.w, f.w.queue);
    } else {
      assert Held(ActorMove(f, o)) == f.w;
    }
  }

  lemma AbandonedExchangeKeepsInvariant(f: FineWorld, o: Outcome)
    requires FineInvariant(f) && f.pause.Between? && ActorCanMove(f, o) && !f.w.shutdown
    requires f.w.phase.Connecting? || f.w.phase.Writing? || f.w.phase.Flushing? || f.w.phase.Reading?
    requires f.w.phase.generation != f.w.generation
    ensures FineInvariant(ActorMove(f, o))
  {
    GivingUpStreamKeepsInvariant(f.w, ActorMove(f, o).w);
  }

  lemma ExchangeMoveKeepsInvariant(f: FineWorld, o: Outcome)
    requires FineInvariant(f) && f.pause.Between? && ActorCanMove(f, o)
    requires f.w.phase.Connecting? || f.w.phase.Writing? || f.w.phase.Flushing? || f.w.phase.Reading?
    ensures FineInvariant(ActorMove(f, o))
  {
    if !f.w.shutdown && f.w.phase.generation != f.w.generation {
      AbandonedExchangeKeepsInvariant(f, o);
    } else {
      assert ActorMove(f, o) == FineWorld(ActorNext(f.w, o), Between);
      StepKeepsInvariant(f.w, Actor(o));
      SafeWorldIsCoarse(ActorNext(f.w, o));
    }
  }

  lemma BackOffMoveKeepsInvariant(f: FineWorld, o: Outcome)
    requires FineInvariant(f) && f.pause.Between? && f.w.phase.BackingOff?
    ensures FineInvariant(ActorMove(f, o))
  {
    if f.w.shutdown {
      StepKeepsInvariant(f.w, Actor(o));
      SafeWorldIsCoarse(ActorMove(f, o).w);
    }
  }

  lemma ActorMoveKeepsInvariant(f: FineWorld, o: Outcome)
    requires FineInvariant(f) && ActorCanMove(f, o)
    ensures FineInvariant(ActorMove(f, o))
  {
    if !f.pause.Between? {
      PausedMoveKeepsInvariant(f, o);
    } else if f.w.phase.Selecting? {
      SelectMoveKeepsInvariant(f, o);
    } else if f.w.phase.BackingOff? {
      BackOffMoveKeepsInvariant(f, o);
    } else if Waits(f.w.phase) {
      ExchangeMoveKeepsInvariant(f, o);
    } else {
      StepKeepsInvariant(f.w, Actor(o));
      SafeWorldIsCoarse(ActorMove(f, o).w);
    }
  }

  // ---- orderly runs ----

  lemma OrderlyMoveKeepsInvariant(f: FineWorld, s: Step)
    requires FineInvariant(f) && CanMove(f, s) && !Races(f, s)
    ensures FineInvariant(Move(f, s))
  {
    match s
    case Ui(u) => OrderlyUserKeepsInvariant(f, u);
    case Actor(o) => ActorMoveKeepsInvariant(f, o);
  }

  lemma {:induction false} OrderlyRunKeepsInvariant(f: FineWorld, steps: seq<Step>)
    requires FineInvariant(f) && IsFineRun(f, steps) && IsOrderly(f, steps)
    ensures FineInvariant(FineAfter(f, steps))
    decreases |steps|
  {
    if steps != [] {
      OrderlyMoveKeepsInvariant(f, steps[0]);
      OrderlyRunKeepsInvariant(Move(f, steps[0]), steps[1..]);
    }
  }

  lemma ProgramStartsSafe(settings: Settings, users: seq<User>, sessions: seq<Session>, powers: seq<Power>,
                          cache: Remembered)
    ensures FineInvariant(FineProgram(settings, users, sessions, powers, cache))
  {
    StartupIsConsistent(settings, users, sessions, powers, cache);
    InitialInvariant(Startup(settings, users, sessions, powers, cache));
    SafeWorldIsCoarse(FineProgram(settings, users, sessions, powers, cache).w);
  }

  /** The state determines the outstanding work, the queue is never crowded, and the history is safe. */
  ghost predicate IsSafe(f: FineWorld) {
    Matches(Held(f)) && |Held(f).queue| <= 1 < QUEUE_CAPACITY && IsSafeHistory(f.w.log)
  }

  lemma InvariantIsSafe(f: FineWorld)
    requires FineInvariant(f)
    ensures IsSafe(f)
  {
    InvariantMatches(f);
    SafeWorldHasSafeHistory(Coarse(Held(f)));
    InvariantBoundsQueue(Held(f), f.pause);
  }

  lemma InvariantBoundsQueue(w: World, pause: Pause)
    requires Fits(w, pause)
    ensures |w.queue| <= 1
  {
    if !HasLeftovers(w) {
      CoarseOfClean(w);
    }
    if !w.phase.Stopped? {
      StateDeterminesOutstandingWork(Coarse(w));
    }
  }

  /** Main result: in every run of the code in which the user does not race with the actor, the state determines the
      outstanding work, the queue is never crowded, and the history is safe. */
  lemma OrderlyRunsAreSafe(settings: Settings, users: seq<User>, sessions: seq<Session>, powers: seq<Power>,
                           cache: Remembered, steps: seq<Step>)
    requires IsFineRun(FineProgram(settings, users, sessions, powers, cache), steps)
    requires IsOrderly(FineProgram(settings, users, sessions, powers, cache), steps)
    ensures IsSafe(FineAfter(FineProgram(settings, users, sessions, powers, cache), steps))
  {
    ProgramStartsSafe(settings, users, sessions, powers, cache);
    OrderlyRunKeepsInvariant(FineProgram(settings, users, sessions, powers, cache), steps);
    InvariantIsSafe(FineAfter(FineProgram(settings, users, sessions, powers, cache), steps));
  }

  /** An uncertain session start is the end of an orderly run's history, or is followed by a failing exit and nothing else,
      with the actor stopped. */
  lemma UncertainStartEndsTheRun(settings: Settings, users: seq<User>, sessions: seq<Session>, powers: seq<Power>,
                                 cache: Remembered, steps: seq<Step>, i: nat)
    requires IsFineRun(FineProgram(settings, users, sessions, powers, cache), steps)
    requires IsOrderly(FineProgram(settings, users, sessions, powers, cache), steps)
    requires var log := FineAfter(FineProgram(settings, users, sessions, powers, cache), steps).w.log;
             i < |log| && IsUncertain(log[i])
    ensures var w := FineAfter(FineProgram(settings, users, sessions, powers, cache), steps).w;
            || i == |w.log| - 1
            || (i == |w.log| - 2 && w.log[i + 1] == ExitSent(ExitFailure) && w.phase.Stopped?)
  {
    ProgramStartsSafe(settings, users, sessions, powers, cache);
    OrderlyRunKeepsInvariant(FineProgram(settings, users, sessions, powers, cache), steps);
    UncertainStartEndsTheHistory(Coarse(Held(FineAfter(FineProgram(settings, users, sessions, powers, cache), steps))), i);
  }

  lemma UncertainStartEndsTheHistory(w: World, i: nat)
    requires WireIsSafe(w) && i < |w.log| && IsUncertain(w.log[i])
    ensures i == |w.log| - 1 || (i == |w.log| - 2 && w.log[i + 1] == ExitSent(ExitFailure) && w.phase.Stopped?)
  {
    assert !NothingUncertain(w.log);
  }

  /** In orderly runs the starting state ends only by the replies that decide it, or by giving up after a failure. */
  lemma StartEndsOnlyByItsReply(f: FineWorld, o: Outcome)
    requires FineInvariant(f) && f.w.greeter.auth.StartingSession? && ActorCanMove(f, o)
    ensures var w, w' := f.w, ActorMove(f, o).w;
            || w'.greeter.auth == w.greeter.auth
            || (w.phase.Decoded? && w.phase.request.StartSession? && !w.phase.response.AuthMessage?)
            || (w.phase.Recovering? && w.phase.request.StartSession? && w'.phase.Stopped?)
  {
    if !f.pause.Between? {
    } else if Waits(f.w.phase) {
      WaitingMoveKeepsGreeter(f, o);
    } else {
      StartingEndsOnlyByItsReply(f.w, o);
    }
  }

  /** A user step that does not race queues a request only when nothing at all is queued, in flight or about to be. */
  lemma OrderlyUserNeverDoublesWork(f: FineWorld, u: UiStep)
    requires FineInvariant(f) && UiEnabled(f.w, u) && !Races(f, Ui(u))
    ensures |UiNext(f.w, u).queue| > |f.w.queue| ==>
              Held(f).queue == [] && !f.w.phase.HasRequest() && !f.w.phase.BackingOff? && f.w.greeter.auth.AcceptsInput()
  {
    UiIsEffect(f.w, u);
    if |UiNext(f.w, u).queue| > |f.w.queue| {
      HeldUserStep(f, u);
      CoarseOfClean(Held(f));
      UserNeverDoublesWork(Held(f), u);
    }
  }

  // ---- the condition is exact ----

  function Moves(outcomes: seq<Outcome>): (steps: seq<Step>)
    ensures |steps| == |outcomes|
  {
    seq(|outcomes|, i requires 0 <= i < |outcomes| => Actor(outcomes[i]))
  }

  /** Left alone by the user from here on, the actor keeps state and work in correspondence, whatever greetd does. */
  ghost predicate StaysMatched(f: FineWorld) {
    forall outcomes :: IsFineRun(f, Moves(outcomes)) ==> Matches(Held(FineAfter(f, Moves(outcomes))))
  }

  ghost predicate StaysMatchedThroughout(f: FineWorld, steps: seq<Step>)
    requires IsFineRun(f, steps)
    decreases |steps|
  {
    StaysMatched(f) && (steps != [] ==> StaysMatchedThroughout(Move(f, steps[0]), steps[1..]))
  }

  lemma {:induction false} ActorRunsAreOrderly(f: FineWorld, outcomes: seq<Outcome>)
    requires IsFineRun(f, Moves(outcomes))
    ensures IsOrderly(f, Moves(outcomes))
    decreases |outcomes|
  {
    if outcomes != [] {
      assert Moves(outcomes)[1..] == Moves(outcomes[1..]);
      ActorRunsAreOrderly(Move(f, Actor(outcomes[0])), outcomes[1..]);
    }
  }

  lemma SafeWorldStaysMatched(f: FineWorld)
    requires FineInvariant(f)
    ensures StaysMatched(f)
  {
    forall outcomes | IsFineRun(f, Moves(outcomes))
      ensures Matches(Held(FineAfter(f, Moves(outcomes))))
    {
      ActorRunsAreOrderly(f, outcomes);
      OrderlyRunKeepsInvariant(f, Moves(outcomes));
      InvariantMatches(FineAfter(f, Moves(outcomes)));
    }
  }

  lemma NotMatchedNow(f: FineWorld)
    requires !Matches(Held(f))
    ensures !StaysMatched(f)
  {
    assert IsFineRun(f, Moves([])) && FineAfter(f, Moves([])) == f;
  }

  lemma NotMatchedLater(f: FineWorld)
    requires ActorCanMove(f, Proceed) && !StaysMatched(ActorMove(f, Proceed))
    ensures !StaysMatched(f)
  {
    var f' := ActorMove(f, Proceed);
    var outcomes :| IsFineRun(f', Moves(outcomes)) && !Matches(Held(FineAfter(f', Moves(outcomes))));
    var steps := Moves([Proceed] + outcomes);
    assert steps[0] == Actor(Proceed) && steps[1..] == Moves(outcomes);
    assert IsFineRun(f, steps) && FineAfter(f, steps) == FineAfter(f', Moves(outcomes));
  }

  /** A live request at the end of the queue is outstanding. */
  lemma {:induction false} LastIsOutstanding(queue: seq<Queued>, request: Request, generation: nat)
    ensures Requests(queue + [Queued(request, generation)], generation) != []
    decreases |queue|
  {
    var all := queue + [Queued(request, generation)];
    if queue != [] {
      assert all[1..] == queue[1..] + [Queued(request, generation)];
      LastIsOutstanding(queue[1..], request, generation);
    }
  }

  /** A reset that leaves a live request behind breaks the correspondence. */
  lemma ResetUnderRequest(f: FineWorld, queue: seq<Queued>, request: Request)
    requires f.pause.Noticed? && f.w.queue == queue + [Queued(request, f.w.generation)]
    ensures !StaysMatched(f)
  {
    LastIsOutstanding(queue, request, f.w.generation);
    NotMatchedNow(Reset(f));
    NotMatchedLater(f);
  }

  lemma RecheckUnderRequest(f: FineWorld, queue: seq<Queued>, request: Request)
    requires f.pause.Chosen? && f.pause.next.generation != f.w.generation
    requires f.w.queue == queue + [Queued(request, f.w.generation)]
    ensures !StaysMatched(f)
  {
    ResetUnderRequest(Recheck(f), queue, request);
    NotMatchedLater(f);
  }

  lemma LeftoversAreNoticedFirst(f: FineWorld, queue: seq<Queued>, request: Request)
    requires f.pause.Between? && f.w.phase.Selecting? && !f.w.shutdown
    requires f.w.queue == queue + [Queued(request, f.w.generation)]
    requires f.w.observed != f.w.generation || (queue != [] && queue[0].generation != f.w.generation)
    ensures !StaysMatched(f)
  {
    if f.w.observed != f.w.generation {
      ResetUnderRequest(ActorMove(f, Proceed), queue, request);
    } else {
      assert f.w.queue[1..] == queue[1..] + [Queued(request, f.w.generation)];
      RecheckUnderRequest(ActorMove(f, Proceed), queue[1..], request);
    }
    NotMatchedLater(f);
  }

  /** An attempt started while the actor still has a cancellation to look at is reset by it, and its request stays. */
  lemma RacingStartIsReset(f: FineWorld, u: UiStep)
    requires FineInvariant(f) && UiEnabled(f.w, u) && Races(f, Ui(u)) && UiEffect(f.w, u).1.Send?
    ensures !StaysMatched(Move(f, Ui(u)))
  {
    var request := UiEffect(f.w, u).1.request;
    RacingStartQueues(f, u);
    LeftoversAreStale(f);
    if f.pause.Noticed? {
      ResetUnderRequest(Move(f, Ui(u)), f.w.queue, request);
    } else if f.pause.Chosen? {
      RecheckUnderRequest(Move(f, Ui(u)), f.w.queue, request);
    } else {
      LeftoversAreNoticedFirst(Move(f, Ui(u)), f.w.queue, request);
    }
  }

  /** What a racing start does: it queues its request behind whatever is there. */
  lemma RacingStartQueues(f: FineWorld, u: UiStep)
    requires FineInvariant(f) && UiEnabled(f.w, u) && Races(f, Ui(u)) && UiEffect(f.w, u).1.Send?
    ensures var w, w' := f.w, UiNext(f.w, u);
            && w'.queue == w.queue + [Queued(UiEffect(w, u).1.request, w.generation)]
            && w'.generation == w.generation && w'.observed == w.observed && !w'.shutdown
            && w'.phase == w.phase && w.phase.Selecting?
    ensures !f.pause.Noticed? ==> HasLeftovers(Held(f)) && f.w.greeter.auth.Idle?
  {
    UiIsEffect(f.w, u);
    SendNeedsKey(f.w, u);
  }

  /** At rest, whatever is left in the queue is one stale request. */
  lemma LeftoversAreStale(f: FineWorld)
    requires FineInvariant(f) && (f.pause.Noticed? || (HasLeftovers(Held(f)) && f.w.greeter.auth.Idle?))
    ensures var queue := Held(f).queue;
            && (queue == [] || (|queue| == 1 && queue[0].generation != f.w.generation))
            && (f.w.observed != f.w.generation || queue != [] || f.pause.Noticed?)
  {
    if f.pause.Noticed? {
      NoticedQueueIsStale(f);
    }
    if Held(f).queue != [] {
      HeadIsStale(Held(f));
    }
  }

  lemma HeadIsStale(w: World)
    requires w.queue != [] && |w.queue| <= 1 && FreshOnly(w.queue, w.generation) == []
    ensures w.queue[0].generation != w.generation && w.queue[1..] == []
  {
  }

  lemma SendNeedsKey(w: World, u: UiStep)
    requires UiEnabled(w, u) && UiEffect(w, u).1.Send?
    ensures u.KeyStep? && !UiNext(w, u).shutdown
  {
  }

  /** An attempt cancelled after its retry timer has fired is followed by the retry, which belongs to nothing. */
  lemma RacingCancelIsOutlived(f: FineWorld, u: UiStep)
    requires FineInvariant(f) && UiEnabled(f.w, u) && Races(f, Ui(u)) && UiEffect(f.w, u).1.Cancel?
    ensures !StaysMatched(Move(f, Ui(u)))
  {
    UiIsEffect(f.w, u);
    var f1 := Move(f, Ui(u));
    if f.pause.Named? {
      RetryBelongsToNothing(f1);
    } else {
      RetryBelongsToNothing(ActorMove(f1, Proceed));
      NotMatchedLater(f1);
    }
  }

  lemma RetryBelongsToNothing(f: FineWorld)
    requires f.pause.Named? && f.w.greeter.auth.Cancelling?
    ensures !StaysMatched(f)
  {
    LastIsOutstanding(f.w.queue, CreateSession(f.pause.username), f.w.generation);
    NotMatchedNow(QueueRetry(f));
    NotMatchedLater(f);
  }

  lemma RaceBreaksCorrespondence(f: FineWorld, s: Step)
    requires FineInvariant(f) && CanMove(f, s) && Races(f, s)
    ensures !StaysMatched(Move(f, s))
  {
    if UiEffect(f.w, s.step).1.Send? {
      RacingStartIsReset(f, s.step);
    } else {
      RacingCancelIsOutlived(f, s.step);
    }
  }

  lemma {:induction false} OrderlyExactlyWhenMatched(f: FineWorld, steps: seq<Step>)
    requires FineInvariant(f) && IsFineRun(f, steps)
    ensures IsOrderly(f, steps) <==> StaysMatchedThroughout(f, steps)
    decreases |steps|
  {
    SafeWorldStaysMatched(f);
    if steps != [] {
      if Races(f, steps[0]) {
        RaceBreaksCorrespondence(f, steps[0]);
      } else {
        OrderlyMoveKeepsInvariant(f, steps[0]);
        OrderlyExactlyWhenMatched(Move(f, steps[0]), steps[1..]);
      }
    }
  }

  /** So the condition is exact: along a run of the code, state and work correspond, and the actor left alone would keep it
      so, if and only if no step of the user races with the actor. */
  lemma CorrespondenceHoldsExactlyWithoutRaces(settings: Settings, users: seq<User>, sessions: seq<Session>,
                                               powers: seq<Power>, cache: Remembered, steps: seq<Step>)
    requires IsFineRun(FineProgram(settings, users, sessions, powers, cache), steps)
    ensures var f := FineProgram(settings, users, sessions, powers, cache);
            IsOrderly(f, steps) <==> StaysMatchedThroughout(f, steps)
  {
    ProgramStartsSafe(settings, users, sessions, powers, cache);
    OrderlyExactlyWhenMatched(FineProgram(settings, users, sessions, powers, cache), steps);
  }
}
