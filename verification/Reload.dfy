/** Reload coordination (`src/reload.rs`): the UI asks for reloads, one worker prepares them, and only the newest request
    is ever delivered. Steps are atomic accesses, mutex sections and channel operations of the two threads. */
module Reload {
  import opened Wrappers

  datatype Request = Request(revision: nat, input: string)

  /** What the worker finds when it prepares a request: readable configuration, rejected configuration or a panic. */
  datatype Found = Parsed(text: string) | Invalid(text: string) | Panicked

  datatype Outcome = Ready(input: string, text: string) | Rejected(text: string) | Failed

  datatype WorkerResult = WorkerResult(revision: nat, outcome: Outcome)

  datatype Worker = Waiting | Preparing(request: Request) | Sending(result: WorkerResult) | Stopped

  /** A result handed to the UI, with the newest revision requested at that moment. */
  datatype Delivery = Delivery(result: WorkerResult, newest: nat)

  datatype State = State(
    inputs: seq<string>,         // what each request so far asked for; revision r is inputs[r - 1]
    latestRevision: nat,
    pending: bool,
    hasRequests: bool,
    storing: Option<Request>,    // a request between publishing its revision and filling the slot
    latest: nat,                 // the published revision
    slot: Option<Request>,
    closed: bool,
    worker: Worker,
    channel: Option<WorkerResult>,
    dropped: bool,
    delivered: seq<Delivery>)

  datatype Step =
    | BeginRequest(input: string) | FinishRequest | Receive | DropCoordinator
    | Take | Check(found: Found) | Send | Die

  const START := State([], 0, false, true, None, 0, None, false, Waiting, None, false, [])

  function Prepared(request: Request, found: Found): Outcome {
    match found
    case Parsed(text) => Ready(request.input, text)
    case Invalid(text) => Rejected(text)
    case Panicked => Failed
  }

  predicate Enabled(s: State, step: Step) {
    match step
    case BeginRequest(_) => s.storing.None? && !s.dropped
    case FinishRequest => s.storing.Some?
    case Receive => s.pending && s.storing.None? && !s.dropped && (s.channel.Some? || s.worker.Stopped?)
    case DropCoordinator => s.storing.None? && !s.dropped
    case Take => s.worker.Waiting? && (s.slot.Some? || s.closed)
    case Check(_) => s.worker.Preparing?
    case Send => s.worker.Sending? && (s.channel.None? || s.dropped)
    case Die => !s.worker.Stopped?
  }

  function Next(s: State, step: Step): State
    requires Enabled(s, step)
  {
    match step
    case BeginRequest(input) =>
      var revision := s.latestRevision + 1;
      var s1 := s.(inputs := s.inputs + [input], latestRevision := revision);
      if s.hasRequests then s1.(latest := revision, storing := Some(Request(revision, input))) else s1
    case FinishRequest =>
      if s.closed then s.(storing := None) else s.(storing := None, slot := s.storing, pending := true)
    case Receive =>
      if s.channel.None? then s.(pending := false, hasRequests := false, slot := None)
      else if s.channel.value.revision != s.latestRevision then s.(channel := None)
      else s.(channel := None, pending := false,
              delivered := s.delivered + [Delivery(s.channel.value, s.latestRevision)])
    case DropCoordinator =>
      s.(dropped := true, closed := s.hasRequests || s.closed, slot := None, channel := None)
    case Take => if s.slot.Some? then s.(worker := Preparing(s.slot.value), slot := None) else s.(worker := Stopped)
    case Check(found) =>
      var request := s.worker.request;
      if request.revision != s.latest then s.(worker := Waiting)
      else s.(worker := Sending(WorkerResult(request.revision, Prepared(request, found))))
    case Send =>
      if s.dropped then s.(worker := Stopped) else s.(worker := Waiting, channel := Some(s.worker.result))
    case Die => s.(worker := Stopped)
  }

  // ---- the objects the source updates in place ----

  /** The mailbox of one request, guarded by a mutex. */
  class RequestSlot {
    var latest: Option<Request>
    var closed: bool

    constructor ()
      ensures latest == None && !closed
    {
      latest, closed := None, false;
    }

    method Replace(request: Request) returns (ok: bool)
      modifies this
      ensures ok == !old(closed) && closed == old(closed)
      ensures latest == if ok then Some(request) else old(latest)
    {
      if closed {
        return false;
      }
      latest := Some(request);
      return true;
    }

    /** One turn of the wait loop: a request, the end, or back to waiting for a change. */
    method TryTake() returns (request: Option<Request>, finished: bool)
      modifies this
      ensures request == old(latest) && latest == None && closed == old(closed)
      ensures finished <==> old(latest).None? && closed
    {
      request, finished := None, false;
      if latest.Some? {
        request, latest := latest, None;
      } else if closed {
        finished := true;
      }
    }

    method Close()
      modifies this
      ensures closed && latest == None
    {
      closed, latest := true, None;
    }
  }

  /** The coordinator with everything it shares with its worker. */
  class ReloadCoordinator {
    const slot: RequestSlot
    var hasRequests: bool
    var latest: nat
    var latestRevision: nat
    var pending: bool
    var channel: Option<WorkerResult>
    var dropped: bool
    var worker: Worker
    ghost var inputs: seq<string>
    ghost var delivered: seq<Delivery>
    ghost var storing: Option<Request>

    ghost function View(): State
      reads this, slot
    {
      State(inputs, latestRevision, pending, hasRequests, storing, latest, if hasRequests then slot.latest else None,
            slot.closed, worker, channel, dropped, delivered)
    }

    constructor ()
      ensures View() == START && fresh(slot)
    {
      slot := new RequestSlot();
      hasRequests, latest, latestRevision, pending := true, 0, 0, false;
      channel, dropped, worker := None, false, Waiting;
      inputs, delivered, storing := [], [], None;
    }

    /** `request` up to the point where the revision is published. */
    method Publish(input: string) returns (request: Option<Request>)
      requires Enabled(View(), BeginRequest(input))
      modifies this
      ensures View() == Next(old(View()), BeginRequest(input)) && request == storing
    {
      latestRevision := latestRevision + 1;
      inputs := inputs + [input];
      if !hasRequests {
        return None;
      }
      latest := latestRevision;
      request := Some(Request(latestRevision, input));
      storing := request;
    }

    /** The rest of `request`, with the slot locked. */
    method Store(request: Request) returns (ok: bool)
      requires storing == Some(request) && hasRequests
      modifies this, slot
      ensures View() == Next(old(View()), FinishRequest) && ok == !old(slot.closed)
    {
      storing := None;
      ok := slot.Replace(request);
      if ok {
        pending := true;
      }
    }

    /** One turn of the loop in `next`; the loop goes on while there is no reply. */
    method ReceiveOne() returns (reply: Option<Result<Outcome, ()>>)
      requires Enabled(View(), Receive)
      requires hasRequests
      modifies this
      ensures View() == Next(old(View()), Receive)
      ensures match reply
              case None => pending
              case Some(Err(_)) => old(channel).None? && worker.Stopped?
              case Some(Ok(outcome)) => old(channel) == Some(WorkerResult(latestRevision, outcome))
    {
      if channel.None? {
        pending, hasRequests := false, false;
        return Some(Err(()));
      }
      var result := channel.value;
      channel := None;
      if result.revision != latestRevision {
        return None;
      }
      pending := false;
      delivered := delivered + [Delivery(result, latestRevision)];
      return Some(Ok(result.outcome));
    }

    method Drop()
      requires Enabled(View(), DropCoordinator)
      modifies this, slot
      ensures View() == Next(old(View()), DropCoordinator)
    {
      if hasRequests {
        slot.Close();
      }
      dropped, channel := true, None;
    }

    /** One step of the loop in `worker`. */
    method WorkerStep(found: Found) returns (step: Option<Step>)
      requires hasRequests || worker.Stopped?
      modifies this, slot
      ensures step.Some? ==> Enabled(old(View()), step.value) && View() == Next(old(View()), step.value)
      ensures step.Some? ==> step.value in [Take, Check(found), Send]
      ensures step.None? ==> View() == old(View())
      ensures step.None? ==> !Enabled(View(), Take) && !Enabled(View(), Check(found)) && !Enabled(View(), Send)
    {
      step := None;
      match worker
      case Waiting =>
        var request, finished := slot.TryTake();
        if request.Some? {
          worker, step := Preparing(request.value), Some(Take);
        } else if finished {
          worker, step := Stopped, Some(Take);
        }
      case Preparing(request) =>
        var outcome := match found
          case Parsed(text) => Ready(request.input, text)
          case Invalid(text) => Rejected(text)
          case Panicked => Failed;
        worker := if request.revision != latest then Waiting else Sending(WorkerResult(request.revision, outcome));
        step := Some(Check(found));
      case Sending(result) =>
        if dropped {
          worker, step := Stopped, Some(Send);
        } else if channel.None? {
          channel, worker, step := Some(result), Waiting, Some(Send);
        }
      case Stopped =>
    }
  }
}
