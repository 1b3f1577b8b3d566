/** Runs of the code-level protocol in which the user races with the actor: all three kinds of race can happen, and each
    clause of a safe history that `FineSafety` does not prove for every run fails in one of them. */
module FineRuns {
  import opened Wrappers
  import opened Sessions
  import opened CacheState
  import opened GreeterState
  import opened Keyboard
  import opened Replies
  import opened Protocol
  import opened ProtocolHistory
  import opened ProtocolTheorems
  import opened FineProtocol
  import opened FineSafety
  import Text

  // ---- reaching worlds ----

  /** Whether some run leads from one world to the other; an orderly one, if that is asked for. */
  ghost predicate Reaches(a: FineWorld, b: FineWorld, orderly: bool) {
    exists steps :: IsFineRun(a, steps) && FineAfter(a, steps) == b && (orderly ==> IsOrderly(a, steps))
  }

  lemma {:induction false} OneMoreStep(a: FineWorld, steps: seq<Step>, s: Step)
    requires IsFineRun(a, steps) && CanMove(FineAfter(a, steps), s)
    ensures IsFineRun(a, steps + [s]) && FineAfter(a, steps + [s]) == Move(FineAfter(a, steps), s)
    ensures IsOrderly(a, steps + [s]) <==> IsOrderly(a, steps) && !Races(FineAfter(a, steps), s)
    decreases |steps|
  {
    if steps == [] {
      assert [] + [s] == [s] && [s][1..] == [];
    } else {
      OneMoreStep(Move(a, steps[0]), steps[1..], s);
      assert (steps + [s])[1..] == steps[1..] + [s];
    }
  }

  lemma Then(a: FineWorld, b: FineWorld, s: Step, orderly: bool)
    requires Reaches(a, b, orderly) && CanMove(b, s) && (orderly ==> !Races(b, s))
    ensures Reaches(a, Move(b, s), orderly)
  {
    var steps :| IsFineRun(a, steps) && FineAfter(a, steps) == b && (orderly ==> IsOrderly(a, steps));
    OneMoreStep(a, steps, s);
  }

  lemma Here(a: FineWorld)
    ensures Reaches(a, a, true)
  {
    assert IsFineRun(a, []) && FineAfter(a, []) == a && IsOrderly(a, []);
  }

  lemma AnyWay(a: FineWorld, b: FineWorld)
    requires Reaches(a, b, true)
    ensures Reaches(a, b, false)
  {
  }

  // ---- what the user does ----

  /** A UI that is idle, and a greeter that can launch something and remembers nothing. */
  ghost predicate Willing(w: World) {
    && w.ui.Ready? && !w.shutdown && w.greeter.exit.None? && LaunchCommand(w.greeter).Some?
    && w.greeter.cache == NOTHING_REMEMBERED
  }

  ghost predicate AtPrompt(w: World) {
    Willing(w) && w.greeter.auth.Idle? && w.greeter.mode.UsernameMode?
  }

  function Started(w: World, name: string): World {
    w.(greeter := w.greeter.(username := Masked(name, None), auth := CreatingSession, buffer := ""),
       queue := w.queue + [Queued(CreateSession(name), w.generation)])
  }

  /** Typing a name and pressing Enter queues a request behind whatever is in the queue. */
  lemma StartAttempt(a: FineWorld, f: FineWorld, name: string, orderly: bool)
    requires Reaches(a, f, orderly) && AtPrompt(f.w) && name != ""
    requires orderly ==> !f.pause.Noticed? && !HasLeftovers(Held(f))
    ensures Reaches(a, FineWorld(Started(f.w, name), f.pause), orderly) && Willing(Started(f.w, name))
  {
    var g := f.w.greeter.(username := Masked(name, None));
    Then(a, f, Ui(KeyStep(Edit(name))), orderly);
    var f1 := FineWorld(f.w.(greeter := g), f.pause);
    assert Move(f, Ui(KeyStep(Edit(name)))) == f1;
    assert LaunchCommand(g) == LaunchCommand(f.w.greeter);
    assert ValidateUsername(g) == (g.(auth := CreatingSession, buffer := ""), Send(CreateSession(name)));
    Then(a, f1, Ui(KeyStep(Enter)), orderly);
    assert Move(f1, Ui(KeyStep(Enter))) == FineWorld(Started(f.w, name), f.pause);
    assert LaunchCommand(Started(f.w, name).greeter) == LaunchCommand(f.w.greeter);
  }

  function Cancelled(w: World): World {
    w.(greeter := w.greeter.(auth := Cancelling), generation := w.generation + 1)
  }

  lemma CancelAttempt(a: FineWorld, f: FineWorld, orderly: bool)
    requires Reaches(a, f, orderly) && Willing(f.w) && f.w.greeter.auth.CanCancel() && !IsPopup(f.w.greeter.mode)
    requires orderly ==> !f.pause.Fired? && !f.pause.Named?
    ensures Reaches(a, FineWorld(Cancelled(f.w), f.pause), orderly) && Willing(Cancelled(f.w))
  {
    Then(a, f, Ui(KeyStep(Esc)), orderly);
    assert LaunchCommand(Cancelled(f.w).greeter) == LaunchCommand(f.w.greeter);
  }

  // ---- what the actor does ----

  function Handled(w: World, queue: seq<Queued>): World {
    CancelStreamIfLive(w).(observed := w.generation, greeter := ResetLocal(w.greeter, false), queue := queue)
  }

  lemma ResetStaysWilling(w: World, w': World)
    requires Willing(w) && w'.greeter == ResetLocal(w.greeter, false) && w'.ui == w.ui && w'.shutdown == w.shutdown
    ensures AtPrompt(w')
  {
    assert LaunchCommand(w'.greeter) == LaunchCommand(w.greeter);
  }

  /** A cancellation is noticed and the greeter reset; the queue stays. */
  lemma HandlePending(a: FineWorld, f: FineWorld, orderly: bool)
    requires Reaches(a, f, orderly) && f.pause.Between? && f.w.phase.Selecting? && !f.w.shutdown
    requires f.w.observed != f.w.generation
    ensures Reaches(a, FineWorld(Handled(f.w, f.w.queue), Between), orderly)
    ensures Willing(f.w) ==> AtPrompt(Handled(f.w, f.w.queue))
  {
    Then(a, f, Actor(Proceed), orderly);
    Then(a, ActorMove(f, Proceed), Actor(Proceed), orderly);
    assert Handled(f.w, f.w.queue).phase == Selecting;
    if Willing(f.w) {
      ResetStaysWilling(f.w, Handled(f.w, f.w.queue));
    }
  }

  /** A stale request is taken for a cancellation of its own. */
  lemma TakeStale(a: FineWorld, f: FineWorld, orderly: bool)
    requires Reaches(a, f, orderly) && f.pause.Between? && f.w.phase.Selecting? && !f.w.shutdown
    requires f.w.observed == f.w.generation && f.w.queue != [] && f.w.queue[0].generation != f.w.generation
    ensures Reaches(a, FineWorld(Handled(f.w, f.w.queue[1..]), Between), orderly)
    ensures Willing(f.w) ==> AtPrompt(Handled(f.w, f.w.queue[1..]))
  {
    var chosen := FineWorld(f.w.(queue := f.w.queue[1..]), Chosen(f.w.queue[0]));
    Then(a, f, Actor(Proceed), orderly);
    Then(a, chosen, Actor(Proceed), orderly);
    Then(a, Recheck(chosen), Actor(Proceed), orderly);
    if Willing(f.w) {
      ResetStaysWilling(f.w, Handled(f.w, f.w.queue[1..]));
    }
  }

  /** The head of the queue is written and answered. */
  function Exchanged(w: World, response: Response): World
    requires w.queue != []
  {
    var r := w.queue[0].request;
    w.(queue := w.queue[1..], connected := true, phase := Decoded(r, w.generation, response),
       log := w.log + [Wrote(r, w.generation, w.generation), Answered(r, response)])
  }

  ghost predicate HeadIsLive(f: FineWorld) {
    && f.pause.Between? && f.w.phase.Selecting? && !f.w.shutdown && f.w.observed == f.w.generation
    && f.w.queue != [] && f.w.queue[0].generation == f.w.generation
  }

  lemma Connect(a: FineWorld, f: FineWorld, orderly: bool)
    requires Reaches(a, f, orderly) && HeadIsLive(f)
    ensures var w := f.w;
            Reaches(a, FineWorld(w.(queue := w.queue[1..], connected := true,
                                    phase := Writing(w.queue[0].request, w.generation)), Between), orderly)
  {
    var chosen := FineWorld(f.w.(queue := f.w.queue[1..]), Chosen(f.w.queue[0]));
    Then(a, f, Actor(Proceed), orderly);
    Then(a, chosen, Actor(Proceed), orderly);
    if !f.w.connected {
      Then(a, Recheck(chosen), Actor(Proceed), orderly);
    }
  }

  lemma Exchange(a: FineWorld, f: FineWorld, response: Response, orderly: bool)
    requires Reaches(a, f, orderly) && HeadIsLive(f)
    ensures Reaches(a, FineWorld(Exchanged(f.w, response), Between), orderly)
  {
    var w, r, g := f.w, f.w.queue[0].request, f.w.generation;
    Connect(a, f, orderly);
    var w1 := w.(queue := w.queue[1..], connected := true, phase := Writing(r, g));
    var w2 := w1.(phase := Flushing(r, g), log := w.log + [Wrote(r, g, g)]);
    var w3 := w2.(phase := Reading(r, g));
    Then(a, FineWorld(w1, Between), Actor(Proceed), orderly);
    assert ActorMove(FineWorld(w1, Between), Proceed) == FineWorld(w2, Between);
    Then(a, FineWorld(w2, Between), Actor(Proceed), orderly);
    Then(a, FineWorld(w3, Between), Actor(Reply(response)), orderly);
    assert w2.log + [Answered(r, response)] == w.log + [Wrote(r, g, g), Answered(r, response)];
  }

  /** An accepted answer that commits nothing. */
  function Applied(w: World, response: Response): World
    requires w.queue != [] && ParseResponse(w.greeter, response).Some?
  {
    var (g, e) := ParseResponse(w.greeter, response).value;
    Perform(Exchanged(w, response).(greeter := g), e).(failures := 0, connected := !response.ErrorReply?, phase := Selecting)
  }

  lemma ExchangeAndApply(a: FineWorld, f: FineWorld, response: Response, orderly: bool)
    requires Reaches(a, f, orderly) && HeadIsLive(f)
    requires var parsed := ParseResponse(f.w.greeter, response); parsed.Some? && !parsed.value.1.Commit?
    ensures Reaches(a, FineWorld(Applied(f.w, response), Between), orderly)
  {
    Exchange(a, f, response, orderly);
    var f1 := FineWorld(Exchanged(f.w, response), Between);
    Then(a, f1, Actor(Proceed), orderly);
    var f2 := ActorMove(f1, Proceed);
    assert f2.w == Applied(f.w, response).(phase := Persisting(None, None));
    Then(a, f2, Actor(Proceed), orderly);
  }

  /** Success while a session is starting commits, whatever it answers. */
  function Committing(w: World): World
    requires w.queue != [] && w.greeter.auth.StartingSession?
  {
    var r, update := w.queue[0].request, BuildUpdate(w.greeter.auth.pending, w.greeter.auth.policy);
    w.(queue := w.queue[1..], connected := true, failures := 0, greeter := w.greeter.(auth := AuthState.Started),
       controls := w.controls + [Exit(ExitSuccess)],
       log := w.log + [Wrote(r, w.generation, w.generation), Answered(r, Success), Committed(update)])
  }

  lemma ExchangeAndCommit(a: FineWorld, f: FineWorld, orderly: bool)
    requires Reaches(a, f, orderly) && HeadIsLive(f) && f.w.greeter.auth.StartingSession?
    ensures Reaches(a, FineWorld(Committing(f.w), Between), orderly)
  {
    Exchange(a, f, Success, orderly);
    var f1 := FineWorld(Exchanged(f.w, Success), Between);
    Then(a, f1, Actor(Proceed), orderly);
    var f2 := ActorMove(f1, Proceed);
    Then(a, f2, Actor(Proceed), orderly);
    var update := BuildUpdate(f.w.greeter.auth.pending, f.w.greeter.auth.policy);
    assert f1.w.log + [Committed(update)] == Committing(f.w).log;
    assert ActorMove(f2, Proceed).w == Committing(f.w);
  }

  /** An answer that fits no longer makes the actor recover and retry. */
  function Retried(w: World, response: Response): World
    requires w.queue != []
  {
    var g := ResetLocal(w.greeter, true).(auth := CreatingSession);
    w.(queue := w.queue[1..] + [Queued(CreateSession(g.username.value), w.generation)], connected := false, failures := 1,
       greeter := g,
       log := w.log + [Wrote(w.queue[0].request, w.generation, w.generation), Answered(w.queue[0].request, response)])
  }

  /** Recovery of anything but a session start, up to the back-off. */
  function Recovered(w: World): World
    requires w.phase.Recovering?
  {
    w.(greeter := ResetLocal(w.greeter, true).(auth := CreatingSession), phase := BackingOff(w.phase.generation))
  }

  lemma RecoverToBackOff(a: FineWorld, f: FineWorld, orderly: bool)
    requires Reaches(a, f, orderly) && f.pause.Between? && f.w.phase.Recovering?
    requires !f.w.phase.request.StartSession? && f.w.failures < MAX_RECOVERY_ATTEMPTS
    ensures Reaches(a, FineWorld(Recovered(f.w), Between), orderly)
  {
    Then(a, f, Actor(Proceed), orderly);
    var f1 := FineWorld(f.w.(greeter := f.w.greeter.(auth := Failed), phase := Resetting(f.w.phase.generation)), Between);
    Then(a, f1, Actor(Proceed), orderly);
    assert ResetLocal(f1.w.greeter, true) == ResetLocal(f.w.greeter, true);
  }

  lemma ExchangeAndRetry(a: FineWorld, f: FineWorld, response: Response, orderly: bool)
    requires Reaches(a, f, orderly) && HeadIsLive(f) && ParseResponse(f.w.greeter, response).None?
    requires !f.w.queue[0].request.StartSession?
    ensures Reaches(a, FineWorld(Retried(f.w, response), Between), orderly)
  {
    Exchange(a, f, response, orderly);
    var w1 := Exchanged(f.w, response);
    var w2 := w1.(connected := false, failures := 1, phase := Recovering(f.w.queue[0].request, f.w.generation));
    Then(a, FineWorld(w1, Between), Actor(Proceed), orderly);
    RecoverToBackOff(a, FineWorld(w2, Between), orderly);
    BackOffAndRetry(a, FineWorld(Recovered(w2), Between), orderly);
  }

  lemma BackOffAndRetry(a: FineWorld, f: FineWorld, orderly: bool)
    requires Reaches(a, f, orderly) && f.pause.Between? && f.w.phase == BackingOff(f.w.generation) && !f.w.shutdown
    ensures Reaches(a, QueueRetry(FineWorld(f.w, Named(f.w.greeter.username.value))), orderly)
  {
    Then(a, f, Actor(Proceed), orderly);
    Then(a, FineWorld(f.w, Fired), Actor(Proceed), orderly);
    Then(a, FineWorld(f.w, Named(f.w.greeter.username.value)), Actor(Proceed), orderly);
  }

  // ---- the three kinds of race ----

  /** A program that has a command to launch, and nothing else of interest. */
  ghost predicate Plain(settings: Settings) {
    && settings.command.Some? && !Text.IsBlank(settings.command.value)
    && settings.defaultUser.None? && !settings.remember && !settings.rememberSession && !settings.userMenu
  }

  function PlainProgram(settings: Settings, powers: seq<Power>): FineWorld {
    FineProgram(settings, [], [], powers, NOTHING_REMEMBERED)
  }

  lemma PlainProgramStarts(settings: Settings, powers: seq<Power>)
    requires Plain(settings)
    ensures var f := PlainProgram(settings, powers);
            && Reaches(f, f, false) && AtPrompt(f.w) && f.pause.Between?
            && f.w == World(f.w.greeter, Ready, 0, [], false, 0, 0, true, Selecting, [], [])
  {
    Here(PlainProgram(settings, powers));
    AnyWay(PlainProgram(settings, powers), PlainProgram(settings, powers));
    var g := Startup(settings, [], [], powers, NOTHING_REMEMBERED);
    assert g.source == DefaultCommand(settings.command.value, ConfiguredEnvironment(settings));
  }

  /** A cancellation was handled and left its request in the queue. */
  lemma StaleRequestIsReachable(settings: Settings, powers: seq<Power>, name: string) returns (f: FineWorld)
    requires Plain(settings) && name != ""
    ensures Reaches(PlainProgram(settings, powers), f, false)
    ensures f.pause.Between? && AtPrompt(f.w) && f.w.phase.Selecting? && !f.w.connected
    ensures f.w.observed == f.w.generation == 1 && f.w.queue == [Queued(CreateSession(name), 0)]
  {
    var a := PlainProgram(settings, powers);
    PlainProgramStarts(settings, powers);
    StartAttempt(a, a, name, false);
    var w1 := Started(a.w, name);
    CancelAttempt(a, FineWorld(w1, Between), false);
    var w2 := Cancelled(w1);
    HandlePending(a, FineWorld(w2, Between), false);
    f := FineWorld(Handled(w2, w2.queue), Between);
  }

  /** A write that fails leads to a back-off, with the greeter waiting for a new session. */
  function BackingOffAfterFailure(w: World): World
    requires w.queue != []
  {
    w.(queue := w.queue[1..], connected := false, failures := w.failures + 1, phase := BackingOff(w.generation),
       greeter := ResetLocal(w.greeter, true).(auth := CreatingSession),
       log := w.log + [TransactionFailed(w.queue[0].request)])
  }

  lemma FailToWrite(a: FineWorld, f: FineWorld)
    requires Reaches(a, f, false) && HeadIsLive(f) && f.w.failures == 0 && !f.w.queue[0].request.StartSession?
    ensures Reaches(a, FineWorld(BackingOffAfterFailure(f.w), Between), false)
  {
    var w, r, g := f.w, f.w.queue[0].request, f.w.generation;
    Connect(a, f, false);
    var w1 := w.(queue := w.queue[1..], connected := true, phase := Writing(r, g));
    var w2 := w1.(connected := false, failures := 1, phase := Recovering(r, g), log := w.log + [TransactionFailed(r)]);
    Then(a, FineWorld(w1, Between), Actor(Fail), false);
    assert ActorMove(FineWorld(w1, Between), Fail).w == w2;
    RecoverToBackOff(a, FineWorld(w2, Between), false);
  }

  /** The actor is backing off after a failed write. */
  lemma BackingOffIsReachable(settings: Settings, powers: seq<Power>, name: string) returns (f: FineWorld)
    requires Plain(settings) && name != ""
    ensures Reaches(PlainProgram(settings, powers), f, false)
    ensures f.pause.Between? && Willing(f.w) && f.w.phase == BackingOff(0) && f.w.queue == []
    ensures f.w.observed == f.w.generation == 0 && f.w.greeter.auth.CreatingSession? && !IsPopup(f.w.greeter.mode)
  {
    var a := PlainProgram(settings, powers);
    PlainProgramStarts(settings, powers);
    StartAttempt(a, a, name, false);
    var w := Started(a.w, name);
    assert w.queue == [Queued(CreateSession(name), 0)] && w.queue[1..] == [];
    FailToWrite(a, FineWorld(w, Between));
    f := FineWorld(BackingOffAfterFailure(w), Between);
    assert LaunchCommand(f.w.greeter) == LaunchCommand(w.greeter);
  }

  /** A cancellation noticed while backing off is not taken for handled. */
  lemma HandledTwiceIsReachable(settings: Settings, powers: seq<Power>, name: string) returns (f: FineWorld)
    requires Plain(settings) && name != ""
    ensures Reaches(PlainProgram(settings, powers), f, false)
    ensures f.pause.Between? && AtPrompt(f.w) && f.w.phase.Selecting? && f.w.queue == [] && f.w.observed != f.w.generation
  {
    var a := PlainProgram(settings, powers);
    var b := BackingOffIsReachable(settings, powers, name);
    CancelAttempt(a, b, false);
    var w1 := Cancelled(b.w);
    Then(a, FineWorld(w1, Between), Actor(Proceed), false);
    Then(a, FineWorld(w1, Noticed(0)), Actor(Proceed), false);
    f := Reset(FineWorld(w1, Noticed(0)));
    ResetStaysWilling(w1, f.w);
  }

  /** The retry timer has fired, and the retry is not queued yet. */
  lemma FiredTimerIsReachable(settings: Settings, powers: seq<Power>, name: string) returns (f: FineWorld)
    requires Plain(settings) && name != ""
    ensures Reaches(PlainProgram(settings, powers), f, false)
    ensures f.pause.Fired? && Willing(f.w) && f.w.greeter.auth.CreatingSession? && !IsPopup(f.w.greeter.mode)
  {
    var b := BackingOffIsReachable(settings, powers, name);
    Then(PlainProgram(settings, powers), b, Actor(Proceed), false);
    f := FineWorld(b.w, Fired);
  }

  ghost predicate RaceIsReachable(a: FineWorld, f: FineWorld, s: Step) {
    Reaches(a, f, false) && CanMove(f, s) && Races(f, s)
  }

  lemma TypedNameRaces(a: FineWorld, f: FineWorld, name: string)
    requires Reaches(a, f, false) && f.pause.Between? && AtPrompt(f.w) && HasLeftovers(f.w) && name != ""
    ensures var named := f.w.(greeter := f.w.greeter.(username := Masked(name, None)));
            exists s :: RaceIsReachable(a, FineWorld(named, Between), s)
  {
    Then(a, f, Ui(KeyStep(Edit(name))), false);
    var g := f.w.greeter.(username := Masked(name, None));
    var f1 := FineWorld(f.w.(greeter := g), Between);
    assert Move(f, Ui(KeyStep(Edit(name)))) == f1;
    assert LaunchCommand(g) == LaunchCommand(f.w.greeter);
    assert ValidateUsername(g) == (g.(auth := CreatingSession, buffer := ""), Send(CreateSession(name)));
    assert RaceIsReachable(a, f1, Ui(KeyStep(Enter)));
  }

  lemma StartBehindStaleRequest(settings: Settings, powers: seq<Power>, name: string)
    requires Plain(settings) && name != ""
    ensures exists f, s ::
              RaceIsReachable(PlainProgram(settings, powers), f, s) && f.w.observed == f.w.generation && f.w.queue != []
  {
    var f := StaleRequestIsReachable(settings, powers, name);
    assert f.w.queue[0] in f.w.queue;
    TypedNameRaces(PlainProgram(settings, powers), f, name);
  }

  lemma StartBeforeSecondReset(settings: Settings, powers: seq<Power>, name: string)
    requires Plain(settings) && name != ""
    ensures exists f, s ::
              RaceIsReachable(PlainProgram(settings, powers), f, s) && f.w.observed != f.w.generation && f.w.queue == []
  {
    var f := HandledTwiceIsReachable(settings, powers, name);
    TypedNameRaces(PlainProgram(settings, powers), f, name);
  }

  /** Each kind of race can happen: starting behind a stale request, starting after a cancellation that the loop will handle
      again, and cancelling after the retry timer has fired. */
  lemma EveryRaceCanHappen(settings: Settings, powers: seq<Power>, name: string)
    requires Plain(settings) && name != ""
    ensures var a := PlainProgram(settings, powers);
            && (exists f, s :: RaceIsReachable(a, f, s) && f.w.observed == f.w.generation && f.w.queue != [])
            && (exists f, s :: RaceIsReachable(a, f, s) && f.w.observed != f.w.generation && f.w.queue == [])
            && (exists f, s :: RaceIsReachable(a, f, s) && f.pause.Fired?)
  {
    var a := PlainProgram(settings, powers);
    StartBehindStaleRequest(settings, powers, name);
    StartBeforeSecondReset(settings, powers, name);
    var f3 := FiredTimerIsReachable(settings, powers, name);
    assert RaceIsReachable(a, f3, Ui(KeyStep(Esc)));
  }

  // ---- what races can do to the history ----

  /** Three live requests and a greeter that waits for one of them. */
  ghost predicate Crowded(f: FineWorld, name: string) {
    var q := Queued(CreateSession(name), f.w.generation);
    && f.pause.Between? && f.w.phase.Selecting? && f.w.observed == f.w.generation && Willing(f.w)
    && f.w.greeter.auth.CreatingSession? && f.w.queue == [q, q, q]
  }

  /** Cancelling an attempt that was started behind a stale request leaves two stale ones. */
  lemma TwoStaleRequestsAreReachable(settings: Settings, powers: seq<Power>, name: string) returns (w: World)
    requires Plain(settings) && name != ""
    ensures Reaches(PlainProgram(settings, powers), FineWorld(w, Between), false)
    ensures AtPrompt(w) && w.phase.Selecting? && w.observed == w.generation == 2
    ensures w.queue == [Queued(CreateSession(name), 0), Queued(CreateSession(name), 1)]
  {
    var a := PlainProgram(settings, powers);
    var b := StaleRequestIsReachable(settings, powers, name);
    StartAttempt(a, b, name, false);
    CancelAttempt(a, FineWorld(Started(b.w, name), Between), false);
    var w2 := Cancelled(Started(b.w, name));
    HandlePending(a, FineWorld(w2, Between), false);
    w := Handled(w2, w2.queue);
  }

  /** Racing twice with a stale request leaves three live ones. */
  lemma CrowdIsReachable(settings: Settings, powers: seq<Power>, name: string) returns (f: FineWorld)
    requires Plain(settings) && name != ""
    ensures Reaches(PlainProgram(settings, powers), f, false) && Crowded(f, name)
  {
    var a, c := PlainProgram(settings, powers), CreateSession(name);
    var w3 := TwoStaleRequestsAreReachable(settings, powers, name);
    var w4 := RaceWithStale(a, w3, name);
    assert w4.queue == [Queued(c, 1), Queued(c, 2)];
    var w5 := RaceWithStale(a, w4, name);
    assert w5.queue == [Queued(c, 2), Queued(c, 2)];
    StartAttempt(a, FineWorld(w5, Between), name, false);
    f := FineWorld(Started(w5, name), Between);
    assert f.w.queue == [Queued(c, 2), Queued(c, 2), Queued(c, 2)];
  }

  /** Starting behind a stale request: the actor takes it, resets the greeter and keeps the new request. */
  lemma RaceWithStale(a: FineWorld, w: World, name: string) returns (w': World)
    requires Reaches(a, FineWorld(w, Between), false) && AtPrompt(w) && w.phase.Selecting? && name != ""
    requires w.observed == w.generation && w.queue != [] && w.queue[0].generation != w.generation
    ensures Reaches(a, FineWorld(w', Between), false) && AtPrompt(w') && w'.phase.Selecting?
    ensures w'.observed == w'.generation == w.generation
    ensures w'.queue == w.queue[1..] + [Queued(CreateSession(name), w.generation)]
  {
    StartAttempt(a, FineWorld(w, Between), name, false);
    var w1 := Started(w, name);
    assert w1.queue[0] == w.queue[0] && w1.queue[1..] == w.queue[1..] + [Queued(CreateSession(name), w.generation)];
    TakeStale(a, FineWorld(w1, Between), false);
    w' := Handled(w1, w1.queue[1..]);
  }

  /** With live requests left over, the success of one of them is taken for the start of the session. */
  lemma WrongCommit(a: FineWorld, f: FineWorld, name: string, rest: seq<Queued>, orderly: bool)
    returns (t: FineWorld, command: string)
    requires Reaches(a, f, orderly) && f.pause.Between? && f.w.phase.Selecting? && !f.w.shutdown
    requires f.w.observed == f.w.generation && f.w.greeter.auth.CreatingSession? && LaunchCommand(f.w.greeter).Some?
    requires |f.w.queue| > 1 && f.w.queue[0].generation == f.w.generation
    requires f.w.queue[1] == Queued(CreateSession(name), f.w.generation) && f.w.queue[2..] == rest
    ensures Reaches(a, t, orderly) && t.pause.Between? && t.w.phase.Selecting? && t.w.observed == t.w.generation
    ensures !t.w.shutdown && t.w.generation == f.w.generation
    ensures t.w.greeter.auth.Started? && LaunchCommand(t.w.greeter).Some?
    ensures t.w.queue == rest + [Queued(StartSession(command), t.w.generation)]
    ensures |t.w.log| > 1 && Last(t.w.log).Committed? && t.w.log[|t.w.log| - 2] == Answered(CreateSession(name), Success)
  {
    command := LaunchCommand(f.w.greeter).value;
    ExchangeAndApply(a, f, Success, orderly);
    var w1 := Applied(f.w, Success);
    assert w1.queue == f.w.queue[1..] + [Queued(StartSession(command), f.w.generation)];
    assert w1.queue[0] == f.w.queue[1];
    ExchangeAndCommit(a, FineWorld(w1, Between), orderly);
    t := FineWorld(Committing(w1), Between);
    assert w1.queue[1..] == rest + [Queued(StartSession(command), f.w.generation)];
    assert LaunchCommand(t.w.greeter) == LaunchCommand(f.w.greeter);
  }

  lemma WrongCommitIsUnsound(log: Log, name: string)
    requires |log| > 1 && Last(log).Committed? && log[|log| - 2] == Answered(CreateSession(name), Success)
    ensures !CommitsAreSound(log)
  {
  }

  /** The next leftover answer is a protocol error, and the retry comes behind the session start. */
  lemma StartBeforeRetryIsReachable(a: FineWorld, f: FineWorld, name: string, command: string) returns (t: FineWorld)
    requires Reaches(a, f, false) && f.pause.Between? && f.w.phase.Selecting? && !f.w.shutdown
    requires f.w.observed == f.w.generation
    requires f.w.greeter.auth.Started? && LaunchCommand(f.w.greeter).Some?
    requires f.w.queue == [Queued(CreateSession(name), f.w.generation), Queued(StartSession(command), f.w.generation)]
    ensures Reaches(a, t, false) && t.pause.Between? && t.w.phase.Selecting? && !t.w.shutdown
    ensures t.w.observed == t.w.generation
    ensures t.w.greeter.auth.CreatingSession? && LaunchCommand(t.w.greeter).Some?
    ensures |t.w.queue| == 2 && t.w.queue[0] == Queued(StartSession(command), t.w.generation)
    ensures t.w.queue[1].request.CreateSession? && t.w.queue[1].generation == t.w.generation
    ensures f.w.log <= t.w.log
  {
    ExchangeAndRetry(a, f, AuthMessage(SecretPrompt), false);
    t := FineWorld(Retried(f.w, AuthMessage(SecretPrompt)), Between);
    assert LaunchCommand(t.w.greeter) == LaunchCommand(f.w.greeter);
  }

  /** The start succeeds where a creation was awaited: another start, and after the retry's success another commit. */
  lemma SecondCommitIsReachable(a: FineWorld, f: FineWorld, command: string) returns (t: FineWorld)
    requires Reaches(a, f, false) && f.pause.Between? && f.w.phase.Selecting? && !f.w.shutdown
    requires f.w.observed == f.w.generation
    requires f.w.greeter.auth.CreatingSession? && LaunchCommand(f.w.greeter).Some?
    requires |f.w.queue| == 2 && f.w.queue[0] == Queued(StartSession(command), f.w.generation)
    requires f.w.queue[1].request.CreateSession? && f.w.queue[1].generation == f.w.generation
    ensures Reaches(a, t, false) && f.w.log <= t.w.log && |t.w.log| > |f.w.log| && Last(t.w.log).Committed?
    ensures !StartsAreFinal(t.w.log)
  {
    var n := |f.w.log|;
    ExchangeAndApply(a, f, Success, false);
    var w1 := Applied(f.w, Success);
    assert w1.queue[0] == f.w.queue[1];
    assert w1.log[n] == Wrote(f.w.queue[0].request, f.w.generation, f.w.generation);
    assert w1.log[n + 1] == Answered(f.w.queue[0].request, Success);
    ExchangeAndCommit(a, FineWorld(w1, Between), false);
    t := FineWorld(Committing(w1), Between);
    WriteAfterStart(t.w.log, n, |w1.log|);
  }

  lemma WriteAfterStart(log: Log, i: nat, j: nat)
    requires i + 1 < j < |log| && IsStart(log[i]) && IsWrite(log[j]) && !IsRefusal(log[i + 1])
    ensures !StartsAreFinal(log)
  {
  }

  /** The start is answered by a prompt where one was awaited, and the retry is written after all. */
  lemma WriteAfterUncertainStartIsReachable(a: FineWorld, f: FineWorld, command: string) returns (t: FineWorld)
    requires Reaches(a, f, false) && f.pause.Between? && f.w.phase.Selecting? && !f.w.shutdown
    requires f.w.observed == f.w.generation
    requires f.w.greeter.auth.CreatingSession?
    requires |f.w.queue| == 2 && f.w.queue[0] == Queued(StartSession(command), f.w.generation)
    requires f.w.queue[1].generation == f.w.generation
    ensures Reaches(a, t, false) && !UncertaintyIsFinal(t.w.log)
  {
    var n := |f.w.log|;
    ExchangeAndApply(a, f, AuthMessage(SecretPrompt), false);
    var w1 := Applied(f.w, AuthMessage(SecretPrompt));
    Exchange(a, FineWorld(w1, Between), Success, false);
    t := FineWorld(Exchanged(w1, Success), Between);
    assert t.w.log[n + 1] == Answered(f.w.queue[0].request, AuthMessage(SecretPrompt));
    assert IsUncertain(t.w.log[n + 1]) && |t.w.log| == n + 4;
  }

  /** Which clauses of a safe history need orderly runs: with a user who races, a commit can follow the answer to another
      request, there can be a second commit, greetd can be written to after a session start, and also after one whose
      outcome is uncertain. */
  lemma RacesBreakTheHistory(settings: Settings, powers: seq<Power>, name: string)
    requires Plain(settings) && name != ""
    ensures var a := PlainProgram(settings, powers);
            && (exists f :: Reaches(a, f, false) && !CommitsAreSound(f.w.log))
            && (exists f :: Reaches(a, f, false) && !AtMostOneCommit(f.w.log))
            && (exists f :: Reaches(a, f, false) && !StartsAreFinal(f.w.log))
            && (exists f :: Reaches(a, f, false) && !UncertaintyIsFinal(f.w.log))
  {
    var a := PlainProgram(settings, powers);
    var f1 := CrowdIsReachable(settings, powers, name);
    var f2, command := WrongCommit(a, f1, name, [Queued(CreateSession(name), f1.w.generation)], false);
    WrongCommitIsUnsound(f2.w.log, name);
    var f3 := StartBeforeRetryIsReachable(a, f2, name, command);
    var f4 := SecondCommitIsReachable(a, f3, command);
    TwoCommits(f2.w.log, f4.w.log);
    var f5 := WriteAfterUncertainStartIsReachable(a, f3, command);
  }

  lemma TwoCommits(before: Log, after: Log)
    requires before <= after && before != [] && Last(before).Committed? && |after| > |before| && Last(after).Committed?
    ensures !AtMostOneCommit(after)
  {
    assert after[|before| - 1] == Last(before);
  }
}
