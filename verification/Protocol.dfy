/** The greetd transaction protocol: the UI task, the IPC actor of `src/ipc.rs` and an arbitrary greetd, as a
    transition system. A step is one critical section of the greeter lock or one poll of a `select!`. */
module Protocol {
  import opened Wrappers
  import opened CacheState
  import opened GreeterState
  import opened Keyboard
  import opened Replies

  const QUEUE_CAPACITY := 10
  const MAX_RECOVERY_ATTEMPTS := 3

  datatype Queued = Queued(request: Request, generation: nat)

  datatype Phase =
    | Selecting
    | Connecting(request: Request, generation: nat)
    | Writing(request: Request, generation: nat)
    | Flushing(request: Request, generation: nat)
    | Reading(request: Request, generation: nat)
    | Decoded(request: Request, generation: nat, response: Response)
    | Persisting(update: Option<Update>, control: Option<Control>)
    | Recovering(request: Request, generation: nat)
    | Resetting(generation: nat)
    | BackingOff(generation: nat)
    | Stopped
  {
    /** A request taken from the queue whose transaction has not been settled. */
    predicate HasRequest() {
      Connecting? || Writing? || Flushing? || Reading? || Decoded? || Recovering?
    }
  }

  datatype UiPhase = Ready | StartingPower | PowerRunning(returnMode: Mode) | Exiting(status: ExitStatus)

  /** The history of what crossed the actor's boundary. */
  datatype Event =
    | Captured(pending: PendingSession, policy: CachePolicy)
    | Wrote(request: Request, generation: nat, current: nat)
    | WroteCancel
    | Answered(request: Request, response: Response)
    | TransactionFailed(request: Request)
    | Committed(update: Update)
    | ExitSent(status: ExitStatus)

  datatype World = World(
    greeter: State,
    ui: UiPhase,
    generation: nat,
    queue: seq<Queued>,
    shutdown: bool,
    observed: nat,
    failures: nat,
    connected: bool,
    phase: Phase,
    controls: seq<Control>,
    log: seq<Event>)

  // ---- pieces shared by the steps ----

  /** `send` and `cancel` as done inside a critical section. The history keeps what the greeter selects when a session
      start is queued. */
  function Perform(w: World, e: Effect): World {
    match e
    case Send(request) =>
      w.(queue := w.queue + [Queued(request, w.generation)],
         log := if request.StartSession? then w.log + [Captured(Capture(w.greeter), CurrentPolicy(w.greeter))] else w.log)
    case Cancel => w.(generation := w.generation + 1)
    case _ => w
  }

  function Record(w: World, e: Event): World {
    w.(log := w.log + [e])
  }

  /** `cancel_stream_if_live` */
  function CancelStreamIfLive(w: World): World {
    (if w.greeter.auth.IsLivePrestart() && w.connected then Record(w, WroteCancel) else w).(connected := false)
  }

  function FreshOnly(queue: seq<Queued>, generation: nat): seq<Queued> {
    if queue == [] then []
    else (if queue[0].generation == generation then [queue[0]] else []) + FreshOnly(queue[1..], generation)
  }

  /** `finish_cancellation`, merged with dropping the requests that the cancellation made stale. */
  function FinishCancellation(w: World): World {
    w.(observed := w.generation,
       greeter := ResetLocal(w.greeter, false),
       queue := FreshOnly(w.queue, w.generation),
       phase := Selecting)
  }

  function Stop(w: World): World {
    w.(phase := Stopped, queue := [])
  }

  function FailTransaction(w: World): World
    requires w.phase.HasRequest()
  {
    Record(w, TransactionFailed(w.phase.request)).(
      connected := false, failures := w.failures + 1, phase := Recovering(w.phase.request, w.phase.generation))
  }

  // ---- the actor ----

  /** What the environment does to the actor's current operation: lets it go on, makes it fail, or answers. */
  datatype Outcome = Proceed | Fail | Reply(response: Response)

  predicate ActorEnabled(w: World, o: Outcome) {
    match w.phase
    case Selecting => w.shutdown || w.observed != w.generation || w.queue != []
    case Reading(_, generation) => w.shutdown || generation != w.generation || !o.Proceed?
    case Stopped => false
    case _ => true
  }

  function SelectStep(w: World): World
    requires w.phase.Selecting? && ActorEnabled(w, Proceed)
  {
    if w.shutdown then Stop(CancelStreamIfLive(w))
    else if w.observed != w.generation then FinishCancellation(CancelStreamIfLive(w))
    else
      var next := w.queue[0];
      var taken := w.(queue := w.queue[1..]);
      if next.generation != w.generation then FinishCancellation(CancelStreamIfLive(taken))
      else if w.connected then taken.(phase := Writing(next.request, next.generation))
      else taken.(phase := Connecting(next.request, next.generation))
  }

  /** Connecting, starting a write and completing it share the handling of shutdown, cancellation and failure. */
  function TransmitStep(w: World, o: Outcome): World
    requires w.phase.Connecting? || w.phase.Writing? || w.phase.Flushing?
  {
    var request, generation := w.phase.request, w.phase.generation;
    if w.shutdown then Stop(w.(connected := false))
    else if generation != w.generation then FinishCancellation(w.(connected := false))
    else if o.Fail? then FailTransaction(w)
    else if w.phase.Connecting? then w.(connected := true, phase := Writing(request, generation))
    else if w.phase.Writing? then
      Record(w, Wrote(request, generation, w.generation)).(phase := Flushing(request, generation))
    else w.(phase := Reading(request, generation))
  }

  function ReadStep(w: World, o: Outcome): World
    requires w.phase.Reading? && ActorEnabled(w, o)
  {
    var request, generation := w.phase.request, w.phase.generation;
    var abandoned := (if request.StartSession? then w else Record(w, WroteCancel)).(connected := false);
    if w.shutdown then Stop(abandoned)
    else if generation != w.generation then FinishCancellation(abandoned)
    else if o.Reply? then
      Record(w, Answered(request, o.response)).(phase := Decoded(request, generation, o.response))
    else FailTransaction(w)
  }

  function PhaseAfterReply(e: Effect): Phase {
    if e.Commit? then Persisting(Some(BuildUpdate(e.pending, e.policy)), Some(Exit(ExitSuccess)))
    else Persisting(None, None)
  }

  function ParseStep(w: World): World
    requires w.phase.Decoded?
  {
    var parsed := ParseResponse(w.greeter, w.phase.response);
    if parsed.None? then
      w.(connected := false, failures := 1, phase := Recovering(w.phase.request, w.phase.generation))
    else
      var (g, e) := parsed.value;
      Perform(w.(greeter := g), e).(
        failures := 0,
        connected := w.connected && !w.phase.response.ErrorReply?,
        phase := PhaseAfterReply(e))
  }

  function PersistStep(w: World): World
    requires w.phase.Persisting?
  {
    var w1 := if w.phase.update.Some? then Record(w, Committed(w.phase.update.value)) else w;
    var w2 := if w.phase.control.Some? then w1.(controls := w1.controls + [w.phase.control.value]) else w1;
    w2.(phase := Selecting)
  }

  function RecoverStep(w: World): World
    requires w.phase.Recovering?
  {
    var failed := w.(greeter := w.greeter.(auth := Failed));
    if w.phase.request.StartSession? || w.failures >= MAX_RECOVERY_ATTEMPTS then
      Stop(Record(failed, ExitSent(ExitFailure)).(controls := w.controls + [Exit(ExitFailure)]))
    else failed.(phase := Resetting(w.phase.generation))
  }

  function ResetStep(w: World): World
    requires w.phase.Resetting?
  {
    w.(greeter := ResetLocal(w.greeter, true).(auth := CreatingSession), phase := BackingOff(w.phase.generation))
  }

  /** The end of a back-off; firing of the timer is merged with queueing the retry. */
  function BackOffStep(w: World): World
    requires w.phase.BackingOff?
  {
    if w.shutdown then Stop(w)
    else if w.phase.generation != w.generation then FinishCancellation(w)
    else Perform(w, Send(CreateSession(w.greeter.username.value))).(phase := Selecting)
  }

  function ActorNext(w: World, o: Outcome): World
    requires ActorEnabled(w, o)
  {
    match w.phase
    case Selecting => SelectStep(w)
    case Connecting(_, _) => TransmitStep(w, o)
    case Writing(_, _) => TransmitStep(w, o)
    case Flushing(_, _) => TransmitStep(w, o)
    case Reading(_, _) => ReadStep(w, o)
    case Decoded(_, _, _) => ParseStep(w)
    case Persisting(_, _) => PersistStep(w)
    case Recovering(_, _) => RecoverStep(w)
    case Resetting(_) => ResetStep(w)
    case BackingOff(_) => BackOffStep(w)
  }

  // ---- the UI task ----

  datatype UiStep =
    | KeyStep(key: Key)
    | ReloadStep(plan: ReloadPlan)
    | CacheLoadedStep(cache: Remembered)
    | BeginPowerStep
    | FinishPowerStep(succeeded: bool)
    | ControlStep
    | SignalStep
    | ExitStep
    | ShutdownStep

  predicate UiEnabled(w: World, s: UiStep) {
    && !w.shutdown
    && (w.greeter.exit.Some? ==> s.ShutdownStep?)
    && match s
       case BeginPowerStep => w.ui.StartingPower?
       case FinishPowerStep(_) => w.ui.PowerRunning?
       case ExitStep => w.ui.Exiting?
       case ControlStep => (w.ui.Ready? || w.ui.PowerRunning?) && w.controls != [] && w.controls[0].Exit?
       case ShutdownStep => true
       case _ => w.ui.Ready? || w.ui.PowerRunning?
  }

  /** What a key press asks for besides changing the greeter. */
  function Obey(w: World, e: Effect): World {
    var w' := Perform(w, e);
    if !e.Emit? then w'
    else match e.control
         case PowerCommand(_, _) => w'.(ui := StartingPower)
         case Exit(status) => w'.(ui := Exiting(status))
         case CancelPower => w'
  }

  function KeyNext(w: World, key: Key): World {
    var (g, e) := HandleKey(w.greeter, key, w.ui.PowerRunning?);
    Obey(w.(greeter := g), e)
  }

  function ReloadNext(w: World, plan: ReloadPlan): World {
    var g := ApplyReload(w.greeter, plan);
    if ReloadCancels(w.greeter, plan) then Perform(w.(greeter := g.(auth := Cancelling)), Cancel)
    else w.(greeter := g)
  }

  function UiNext(w: World, s: UiStep): World
    requires UiEnabled(w, s)
  {
    match s
    case KeyStep(key) => KeyNext(w, key)
    case ReloadStep(plan) => ReloadNext(w, plan)
    case CacheLoadedStep(cache) => w.(greeter := w.greeter.(cache := cache))
    case BeginPowerStep => w.(greeter := BeginPower(w.greeter), ui := PowerRunning(w.greeter.mode))
    case FinishPowerStep(succeeded) =>
      if succeeded then w.(ui := Ready, shutdown := true)
      else w.(greeter := FinishPower(w.greeter, w.ui.returnMode), ui := Ready)
    case ControlStep => w.(controls := w.controls[1..], ui := Exiting(w.controls[0].status))
    case SignalStep => w.(ui := Exiting(ExitFailure))
    case ExitStep =>
      var (g, e) := RequestExit(w.greeter, w.ui.status);
      Perform(w.(greeter := g, ui := Ready), e)
    case ShutdownStep => w.(shutdown := true)
  }

  /** A user step as a change of the greeter and an effect. */
  function UiEffect(w: World, s: UiStep): (State, Effect)
    requires UiEnabled(w, s)
  {
    match s
    case KeyStep(key) => HandleKey(w.greeter, key, w.ui.PowerRunning?)
    case ReloadStep(plan) =>
      var g := ApplyReload(w.greeter, plan);
      if ReloadCancels(w.greeter, plan) then (g.(auth := Cancelling), Cancel) else (g, NoEffect)
    case CacheLoadedStep(cache) => (w.greeter.(cache := cache), NoEffect)
    case BeginPowerStep => (BeginPower(w.greeter), NoEffect)
    case FinishPowerStep(succeeded) =>
      (if succeeded then w.greeter else FinishPower(w.greeter, w.ui.returnMode), NoEffect)
    case ExitStep => RequestExit(w.greeter, w.ui.status)
    case _ => (w.greeter, NoEffect)
  }

  // ---- runs ----

  datatype Step = Ui(step: UiStep) | Actor(outcome: Outcome)

  predicate Enabled(w: World, s: Step) {
    match s
    case Ui(u) => UiEnabled(w, u)
    case Actor(o) => ActorEnabled(w, o)
  }

  function Next(w: World, s: Step): World
    requires Enabled(w, s)
  {
    match s
    case Ui(u) => UiNext(w, u)
    case Actor(o) => ActorNext(w, o)
  }

  /** The program after start-up: a preselected user begins to authenticate at once. */
  function Initial(g: State): World {
    var (begun, username) := if g.username.value != "" then BeginAuthentication(g) else (g, None);
    World(begun, Ready, 0, if username.Some? then [Queued(CreateSession(username.value), 0)] else [],
          false, 0, 0, true, Selecting, [], [])
  }

  ghost predicate IsRun(w: World, steps: seq<Step>)
    decreases |steps|
  {
    steps == [] || (Enabled(w, steps[0]) && IsRun(Next(w, steps[0]), steps[1..]))
  }

  ghost function After(w: World, steps: seq<Step>): World
    requires IsRun(w, steps)
    decreases |steps|
  {
    if steps == [] then w else After(Next(w, steps[0]), steps[1..])
  }
}
