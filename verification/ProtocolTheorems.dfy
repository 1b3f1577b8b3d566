/** Lemmas about the coarse protocol: what its steps keep, and what its invariant says of state, work and history. */
module ProtocolTheorems {
  import opened GreeterState
  import opened Keyboard
  import opened Protocol
  import opened ProtocolSafety
  import opened ProtocolHistory

  ghost predicate Invariant(w: World) {
    Corresponds(w) && Usable(w) && HistoryIsSafe(w)
  }

  lemma InitialInvariant(g: State)
    requires Consistent(g) && g.auth.Idle? && !IsPopup(g.mode)
    ensures Invariant(Initial(g))
  {
    InitialCorresponds(g);
    InitialHistory(g);
  }

  lemma InitialCorresponds(g: State)
    requires Consistent(g) && g.auth.Idle? && !IsPopup(g.mode)
    ensures Corresponds(Initial(g)) && Usable(Initial(g))
  {
  }

  lemma InitialHistory(g: State)
    requires g.auth.Idle?
    ensures HistoryIsSafe(Initial(g))
  {
    assert Initial(g).log == [];
    assert !Initial(g).greeter.auth.StartingSession?;
  }

  lemma StepKeepsInvariant(w: World, s: Step)
    requires Invariant(w) && Enabled(w, s)
    ensures Invariant(Next(w, s))
  {
    match s
    case Ui(u) =>
      UiKeepsCorrespondence(w, u);
      UiKeepsUsable(w, u);
      UiKeepsHistory(w, u);
    case Actor(o) =>
      ActorKeepsCorrespondence(w, o);
      ActorKeepsUsable(w, o);
      ActorKeepsHistory(w, o);
  }

  ghost predicate IsSafeHistory(log: Log) {
    && StartsAreFinal(log) && UncertaintyIsFinal(log) && WritesAreFresh(log) && CommitsAreSound(log)
    && TrailingFailures(log) <= MAX_RECOVERY_ATTEMPTS
    && AtMostOneCommit(log)
  }

  ghost predicate AtMostOneCommit(log: Log) {
    forall i, j | 0 <= i < |log| && 0 <= j < |log| && log[i].Committed? && log[j].Committed? :: i == j
  }

  lemma SafeWorldHasSafeHistory(w: World)
    requires HistoryIsSafe(w) && w.failures <= MAX_RECOVERY_ATTEMPTS
    ensures IsSafeHistory(w.log)
  {
    var log := w.log;
    forall i, j | 0 <= i < j < |log| && log[j].Committed?
      ensures !log[i].Committed?
    {
      assert log[..j][i] == log[i];
    }
  }

  // ---- outstanding work ----

  function Requests(queue: seq<Queued>, generation: nat): seq<Request> {
    if queue == [] then []
    else (if queue[0].generation == generation then [queue[0].request] else []) + Requests(queue[1..], generation)
  }

  lemma RequestsOfShortQueue(queue: seq<Queued>, generation: nat)
    requires |queue| <= 1
    ensures Requests(queue, generation) ==
            if queue != [] && queue[0].generation == generation then [queue[0].request] else []
  {
    if queue != [] {
      assert queue[1..] == [];
    }
  }

  /** The requests of the current generation that are in flight or queued. */
  function Outstanding(w: World): seq<Request> {
    (if w.phase.HasRequest() && w.phase.generation == w.generation then [w.phase.request] else [])
    + Requests(w.queue, w.generation)
  }

  /** While the actor runs, the authentication state determines the outstanding work exactly; and the queue, far from
      its capacity, can never make a sender wait while it holds the greeter. */
  lemma StateDeterminesOutstandingWork(w: World)
    requires Invariant(w) && !w.phase.Stopped?
    ensures |w.queue| <= 1 < QUEUE_CAPACITY
    ensures match w.greeter.auth
            case CreatingSession =>
              || (|Outstanding(w)| == 1 && Outstanding(w)[0].CreateSession?)
              || (w.phase.BackingOff? && Outstanding(w) == [])
            case ContinuingAuth => |Outstanding(w)| == 1 && Outstanding(w)[0].PostAuthMessageResponse?
            case StartingSession(_, _) => |Outstanding(w)| == 1 && Outstanding(w)[0].StartSession?
            case _ => Outstanding(w) == []
  {
    RequestsOfShortQueue(w.queue, w.generation);
    if w.queue != [] {
      assert w.queue[0] in w.queue;
    }
  }

  /** A user step queues a request only when nothing at all is outstanding. */
  lemma UserNeverDoublesWork(w: World, u: UiStep)
    requires Invariant(w) && UiEnabled(w, u)
    ensures |UiNext(w, u).queue| > |w.queue| ==>
              w.queue == [] && !w.phase.HasRequest() && !w.phase.BackingOff? && w.greeter.auth.AcceptsInput()
  {
    var (g, e) := UiEffect(w, u);
    UiIsEffect(w, u);
    EffectNeverDoublesWork(w, g, e);
  }

  lemma EffectNeverDoublesWork(w: World, g: State, e: Effect)
    requires Corresponds(w) && !w.shutdown && AuthFollows(w.greeter, g, e)
    ensures var w' := Perform(w.(greeter := g), e);
            |w'.queue| > |w.queue| ==>
              && w.queue == [] && !w.phase.HasRequest() && !w.phase.BackingOff? && w.greeter.auth.AcceptsInput()
              && w'.queue == [Queued(e.request, w.generation)] && w'.phase == w.phase && w'.generation == w.generation
  {
  }

  /** The phases in which the actor waits for something other than the greeter. */
  predicate Waits(p: Phase) {
    p.Selecting? || p.Connecting? || p.Writing? || p.Flushing? || p.Reading? || p.BackingOff?
  }

  /** How many actor steps separate a phase from one that waits. */
  function StepsToWait(p: Phase): nat {
    match p
    case Decoded(_, _, _) => 3
    case Recovering(_, _) => 2
    case Resetting(_) => 1
    case Persisting(_, _) => 1
    case _ => 0
  }

  lemma ActorComesCloser(w: World, o: Outcome)
    requires ActorEnabled(w, o) && !Waits(w.phase)
    ensures var w' := ActorNext(w, o); w'.phase.Stopped? || StepsToWait(w'.phase) < StepsToWait(w.phase)
  {
  }

  /** The starting state ends only by the three replies that decide it, for a failure, or not at all. */
  lemma StartingEndsOnlyByItsReply(w: World, o: Outcome)
    requires Invariant(w) && w.greeter.auth.StartingSession? && ActorEnabled(w, o)
    ensures var w' := ActorNext(w, o);
            || w'.greeter.auth == w.greeter.auth
            || (w.phase.Decoded? && w.phase.request.StartSession? && !w.phase.response.AuthMessage?)
            || (w.phase.Recovering? && w.phase.request.StartSession? && w'.phase.Stopped?)
  {
  }
}
