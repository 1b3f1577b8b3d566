/** The greetd transaction protocol at the granularity of the code. `Protocol` handles a cancellation together with dropping
    the requests it made stale, and fires the recovery timer together with queueing the retry; here these are steps of
    their own, with anything the user does in between. */
module FineProtocol {
  import opened GreeterState
  import opened Keyboard
  import opened Protocol

  /** Where the actor is between two steps that `Protocol` takes at once. */
  datatype Pause =
    | Between
    | Chosen(next: Queued)     // a request was taken from the queue, and its generation is about to be compared
    | Noticed(seen: nat)       // a cancellation was noticed, and the greeter is about to be reset
    | Fired                    // the recovery timer has fired
    | Named(username: string)  // the user name has been read, and the retry is about to be queued

  datatype FineWorld = FineWorld(w: World, pause: Pause)

  predicate ActorCanMove(f: FineWorld, o: Outcome) {
    f.pause.Between? ==> ActorEnabled(f.w, o)
  }

  /** A cancellation has been noticed; the actor will take `seen` for the generation it has handled. The queue keeps its
      stale requests. */
  function Notice(w: World, seen: nat): FineWorld {
    FineWorld(w, Noticed(seen))
  }

  function FineSelect(w: World): FineWorld
    requires w.phase.Selecting? && ActorEnabled(w, Proceed)
  {
    if w.shutdown then FineWorld(Stop(CancelStreamIfLive(w)), Between)
    else if w.observed != w.generation then Notice(CancelStreamIfLive(w), w.generation)
    else
      FineWorld(w.(queue := w.queue[1..]), Chosen(w.queue[0]))
  }

  /** A request that a cancellation has overtaken, in the queue or since, is taken for a cancellation of its own. */
  function Recheck(f: FineWorld): FineWorld
    requires f.pause.Chosen?
  {
    var w, next := f.w, f.pause.next;
    if next.generation != w.generation then Notice(CancelStreamIfLive(w), w.generation)
    else
      FineWorld(w.(phase := if w.connected then Writing(next.request, next.generation)
                            else Connecting(next.request, next.generation)), Between)
  }

  /** The world as it would be if a request whose generation is still to be compared had been left in the queue. */
  function Held(f: FineWorld): World {
    if f.pause.Chosen? then f.w.(queue := [f.pause.next] + f.w.queue) else f.w
  }

  function FineTransmit(w: World, o: Outcome): FineWorld
    requires w.phase.Connecting? || w.phase.Writing? || w.phase.Flushing?
  {
    if !w.shutdown && w.phase.generation != w.generation then Notice(w.(connected := false), w.generation)
    else FineWorld(TransmitStep(w, o), Between)
  }

  function FineRead(w: World, o: Outcome): FineWorld
    requires w.phase.Reading? && ActorEnabled(w, o)
  {
    if !w.shutdown && w.phase.generation != w.generation then
      Notice((if w.phase.request.StartSession? then w else Record(w, WroteCancel)).(connected := false), w.generation)
    else FineWorld(ReadStep(w, o), Between)
  }

  /** The wait of `recover`: a cancellation noticed here is not taken for handled by the actor's loop. */
  function FineBackOff(w: World): FineWorld
    requires w.phase.BackingOff?
  {
    if w.shutdown then FineWorld(Stop(w), Between)
    else if w.phase.generation != w.generation then Notice(w, w.observed)
    else FineWorld(w, Fired)
  }

  /** `finish_cancellation` */
  function Reset(f: FineWorld): FineWorld
    requires f.pause.Noticed?
  {
    FineWorld(f.w.(observed := f.pause.seen, greeter := ResetLocal(f.w.greeter, false), phase := Selecting), Between)
  }

  function QueueRetry(f: FineWorld): FineWorld
    requires f.pause.Named?
  {
    FineWorld(Perform(f.w, Send(CreateSession(f.pause.username))).(phase := Selecting), Between)
  }

  function ActorMove(f: FineWorld, o: Outcome): FineWorld
    requires ActorCanMove(f, o)
  {
    match f.pause
    case Chosen(_) => Recheck(f)
    case Noticed(_) => Reset(f)
    case Fired => FineWorld(f.w, Named(f.w.greeter.username.value))
    case Named(_) => QueueRetry(f)
    case Between =>
      match f.w.phase
      case Selecting => FineSelect(f.w)
      case Connecting(_, _) => FineTransmit(f.w, o)
      case Writing(_, _) => FineTransmit(f.w, o)
      case Flushing(_, _) => FineTransmit(f.w, o)
      case Reading(_, _) => FineRead(f.w, o)
      case BackingOff(_) => FineBackOff(f.w)
      case _ => FineWorld(ActorNext(f.w, o), Between)
  }

  predicate CanMove(f: FineWorld, s: Step) {
    match s
    case Ui(u) => UiEnabled(f.w, u)
    case Actor(o) => ActorCanMove(f, o)
  }

  function Move(f: FineWorld, s: Step): FineWorld
    requires CanMove(f, s)
  {
    match s
    case Ui(u) => FineWorld(UiNext(f.w, u), f.pause)
    case Actor(o) => ActorMove(f, o)
  }

  predicate IsFineRun(f: FineWorld, steps: seq<Step>)
    decreases |steps|
  {
    steps == [] || (CanMove(f, steps[0]) && IsFineRun(Move(f, steps[0]), steps[1..]))
  }

  function FineAfter(f: FineWorld, steps: seq<Step>): FineWorld
    requires IsFineRun(f, steps)
    decreases |steps|
  {
    if steps == [] then f else FineAfter(Move(f, steps[0]), steps[1..])
  }

  function FineInitial(g: State): FineWorld {
    FineWorld(Initial(g), Between)
  }

  // ---- racing with the actor ----

  /** At the head of the loop, the actor still has a cancellation to look at: an unnoticed one, one handled elsewhere, or
      the requests that one left behind, in the queue or just taken from it. */
  predicate HasLeftovers(w: World) {
    w.phase.Selecting? && (w.observed != w.generation || exists q :: q in w.queue && q.generation != w.generation)
  }

  /** The user starts an attempt before the actor is through with the last cancellation, or cancels one between the firing
      of the recovery timer and the queueing of the retry. Whether a step does so can be told before it is taken. */
  predicate Races(f: FineWorld, s: Step)
    requires CanMove(f, s)
  {
    s.Ui? &&
    match UiEffect(f.w, s.step).1
    case Send(_) => f.pause.Noticed? || HasLeftovers(Held(f))
    case Cancel => f.pause.Fired? || f.pause.Named?
    case _ => false
  }

  predicate IsOrderly(f: FineWorld, steps: seq<Step>)
    requires IsFineRun(f, steps)
    decreases |steps|
  {
    steps == [] || (!Races(f, steps[0]) && IsOrderly(Move(f, steps[0]), steps[1..]))
  }
}
