/** The IPC handle, the actor's local state and the UI task around one greeter object, updated in place one critical
    section at a time (`src/ipc.rs`, `src/main.rs`). Each method is proved to take a step of the code-level protocol. */
module Ipc {
  import opened GreeterState
  import opened Keyboard
  import opened Replies
  import opened Protocol
  import opened ProtocolTheorems
  import opened FineProtocol
  import opened FineSafety
  import opened FineTheorems
  import opened FineExactness
  import Objects = Greeter

  class Ipc {
    const greeter: Objects.Greeter
    var ui: UiPhase
    var cancelGeneration: nat
    var queue: seq<Queued>
    var shutdown: bool
    var observedGeneration: nat
    var failures: nat
    var stream: bool
    var phase: Phase
    var pause: Pause
    var controls: seq<Control>
    ghost var log: seq<Event>

    ghost function Whole(): FineWorld
      reads this, greeter
    {
      FineWorld(View(), pause)
    }

    ghost function View(): World
      reads this, greeter
    {
      World(greeter.View(), ui, cancelGeneration, queue, shutdown, observedGeneration, failures, stream, phase, controls,
            log)
    }

    constructor (greeter: Objects.Greeter)
      modifies greeter
      ensures this.greeter == greeter && Whole() == FineInitial(old(greeter.View()))
    {
      this.greeter := greeter;
      ui, cancelGeneration, queue, shutdown := Ready, 0, [], false;
      observedGeneration, failures, stream, phase := 0, 0, true, Selecting;
      pause, controls, log := Between, [], [];
      new;
      if greeter.username.value != "" {
        var name := greeter.BeginAuthentication();
        if name.Some? {
          QueueRequest(CreateSession(name.value));
        }
      }
    }

    /** `queue_request` */
    method QueueRequest(request: Request)
      modifies this
      ensures pause == old(pause)
      ensures View() == Perform(old(View()), Send(request))
    {
      queue := queue + [Queued(request, cancelGeneration)];
      if request.StartSession? {
        log := log + [Captured(Capture(greeter.View()), CurrentPolicy(greeter.View()))];
      }
    }

    method Do(e: Effect)
      modifies this
      ensures pause == old(pause)
      ensures View() == Perform(old(View()), e)
    {
      match e {
        case Send(request) => QueueRequest(request);
        case Cancel => cancelGeneration := cancelGeneration + 1;
        case _ =>
      }
    }

    method CancelStream()
      modifies this
      ensures pause == old(pause)
      ensures View() == CancelStreamIfLive(old(View()))
    {
      if greeter.auth.IsLivePrestart() && stream {
        log := log + [WroteCancel];
      }
      stream := false;
    }

    method StopActor()
      modifies this
      ensures pause == old(pause)
      ensures View() == Stop(old(View()))
    {
      phase := Stopped;
      queue := [];
    }

    method Fail()
      requires phase.HasRequest()
      modifies this
      ensures pause == old(pause)
      ensures View() == FailTransaction(old(View()))
    {
      log := log + [TransactionFailed(phase.request)];
      stream := false;
      failures := failures + 1;
      phase := Recovering(phase.request, phase.generation);
    }

    // ---- the actor ----

    method Select()
      requires pause.Between? && phase.Selecting? && ActorEnabled(View(), Proceed)
      modifies this
      ensures Whole() == FineSelect(old(View()))
    {
      if shutdown {
        CancelStream();
        StopActor();
        return;
      }
      if observedGeneration != cancelGeneration {
        CancelStream();
        pause := Noticed(cancelGeneration);
        return;
      }
      pause := Chosen(queue[0]);
      queue := queue[1..];
    }

    /** What follows the `select!` when it has yielded a request. */
    method Recheck()
      requires pause.Chosen?
      modifies this
      ensures Whole() == FineProtocol.Recheck(old(Whole()))
    {
      var next := pause.next;
      if next.generation != cancelGeneration {
        CancelStream();
        pause := Noticed(cancelGeneration);
      } else {
        phase := if stream then Writing(next.request, next.generation) else Connecting(next.request, next.generation);
        pause := Between;
      }
    }

    /** `finish_cancellation`, after which the actor is back at the head of its loop. */
    method FinishCancellation()
      requires pause.Noticed?
      modifies this, greeter
      ensures Whole() == FineProtocol.Reset(old(Whole()))
    {
      observedGeneration := pause.seen;
      greeter.ResetLocal(false);
      phase, pause := Selecting, Between;
    }

    method Transmit(o: Outcome)
      requires pause.Between? && (phase.Connecting? || phase.Writing? || phase.Flushing?)
      modifies this
      ensures Whole() == FineTransmit(old(View()), o)
    {
      var request, generation := phase.request, phase.generation;
      if shutdown {
        stream := false;
        StopActor();
      } else if generation != cancelGeneration {
        stream := false;
        pause := Noticed(cancelGeneration);
      } else if o.Fail? {
        Fail();
      } else if phase.Connecting? {
        stream := true;
        phase := Writing(request, generation);
      } else if phase.Writing? {
        log := log + [Wrote(request, generation, cancelGeneration)];
        phase := Flushing(request, generation);
      } else {
        phase := Reading(request, generation);
      }
    }

    method Read(o: Outcome)
      requires pause.Between? && phase.Reading? && ActorEnabled(View(), o)
      modifies this
      ensures Whole() == FineRead(old(View()), o)
    {
      var request, generation := phase.request, phase.generation;
      if shutdown || generation != cancelGeneration {
        if !request.StartSession? {
          log := log + [WroteCancel];
        }
        stream := false;
        if shutdown {
          StopActor();
        } else {
          pause := Noticed(cancelGeneration);
        }
      } else if o.Reply? {
        log := log + [Answered(request, o.response)];
        phase := Decoded(request, generation, o.response);
      } else {
        Fail();
      }
    }

    method Parse()
      requires phase.Decoded?
      modifies this, greeter
      ensures pause == old(pause)
      ensures View() == ParseStep(old(View()))
    {
      var request, generation, response := phase.request, phase.generation, phase.response;
      var accepted, e := greeter.ParseResponse(response);
      if accepted {
        Accept(e, response);
      } else {
        stream := false;
        failures := 1;
        phase := Recovering(request, generation);
      }
    }

    method Accept(e: Effect, response: Response)
      modifies this
      ensures pause == old(pause)
      ensures View() == Perform(old(View()), e).(
                          failures := 0,
                          connected := old(stream) && !response.ErrorReply?,
                          phase := PhaseAfterReply(e))
    {
      failures := 0;
      Do(e);
      if response.ErrorReply? {
        stream := false;
      }
      phase := PhaseAfterReply(e);
    }

    method Persist()
      requires phase.Persisting?
      modifies this
      ensures pause == old(pause)
      ensures View() == PersistStep(old(View()))
    {
      if phase.update.Some? {
        log := log + [Committed(phase.update.value)];
      }
      if phase.control.Some? {
        controls := controls + [phase.control.value];
      }
      phase := Selecting;
    }

    method Recover()
      requires phase.Recovering?
      modifies this, greeter
      ensures pause == old(pause)
      ensures View() == RecoverStep(old(View()))
    {
      greeter.auth := Failed;
      if phase.request.StartSession? || failures >= MAX_RECOVERY_ATTEMPTS {
        log := log + [ExitSent(ExitFailure)];
        controls := controls + [Exit(ExitFailure)];
        StopActor();
      } else {
        phase := Resetting(phase.generation);
      }
    }

    method ResetForRetry()
      requires phase.Resetting?
      modifies this, greeter
      ensures pause == old(pause)
      ensures View() == ResetStep(old(View()))
    {
      greeter.ResetLocal(true);
      greeter.auth := CreatingSession;
      phase := BackingOff(phase.generation);
    }

    /** The wait in `recover`. */
    method BackOff()
      requires pause.Between? && phase.BackingOff?
      modifies this
      ensures Whole() == FineBackOff(old(View()))
    {
      if shutdown {
        StopActor();
      } else if phase.generation != cancelGeneration {
        pause := Noticed(observedGeneration);
      } else {
        pause := Fired;
      }
    }

    method SendRetry()
      requires pause.Named?
      modifies this
      ensures Whole() == QueueRetry(old(Whole()))
    {
      QueueRequest(CreateSession(pause.username));
      phase, pause := Selecting, Between;
    }

    /** One step of the actor between two pauses. */
    method Work(o: Outcome)
      requires pause.Between? && ActorCanMove(Whole(), o)
      modifies this, greeter
      ensures Whole() == ActorMove(old(Whole()), o)
    {
      match phase {
        case Selecting => Select();
        case Connecting(_, _) => Transmit(o);
        case Writing(_, _) => Transmit(o);
        case Flushing(_, _) => Transmit(o);
        case Reading(_, _) => Read(o);
        case Decoded(_, _, _) => Parse();
        case Persisting(_, _) => Persist();
        case Recovering(_, _) => Recover();
        case Resetting(_) => ResetForRetry();
        case BackingOff(_) => BackOff();
      }
    }

    method TakeStep(o: Outcome)
      requires ActorCanMove(Whole(), o)
      modifies this, greeter
      ensures Whole() == ActorMove(old(Whole()), o)
    {
      match pause {
        case Chosen(_) => Recheck();
        case Noticed(_) => FinishCancellation();
        case Fired => pause := Named(greeter.username.value);
        case Named(_) => SendRetry();
        case Between => Work(o);
      }
    }

    /** One step of the actor, which by itself never breaks anything. */
    method Advance(o: Outcome)
      requires ActorCanMove(Whole(), o)
      modifies this, greeter
      ensures Whole() == ActorMove(old(Whole()), o)
      ensures old(Basic(Whole())) ==> Basic(Whole())
      ensures old(FineInvariant(Whole())) ==> FineInvariant(Whole())
    {
      ghost var before := Whole();
      TakeStep(o);
      MoveIsSafe(before, Actor(o));
    }

    // ---- the UI task ----

    method PressKey(key: Key)
      modifies this, greeter
      ensures pause == old(pause)
      ensures View() == KeyNext(old(View()), key)
    {
      var e := greeter.HandleKey(key, ui.PowerRunning?);
      Follow(e);
    }

    method Follow(e: Effect)
      modifies this
      ensures pause == old(pause)
      ensures View() == Obey(old(View()), e)
    {
      Do(e);
      if e.Emit? {
        match e.control {
          case PowerCommand(_, _) => ui := StartingPower;
          case Exit(status) => ui := Exiting(status);
          case CancelPower =>
        }
      }
    }

    /** `apply_config_reload` */
    method ApplyConfigReload(plan: ReloadPlan)
      modifies this, greeter
      ensures pause == old(pause)
      ensures View() == ReloadNext(old(View()), plan)
    {
      var cancelAuthentication := greeter.ApplyReload(plan);
      if cancelAuthentication {
        greeter.auth := Cancelling;
        cancelGeneration := cancelGeneration + 1;
      }
    }

    method RequestExit()
      requires ui.Exiting?
      modifies this, greeter
      ensures pause == old(pause)
      ensures var (g, e) := Keyboard.RequestExit(old(greeter.View()), old(ui.status));
              View() == Perform(old(View()).(greeter := g, ui := Ready), e)
    {
      var e := greeter.RequestExit(ui.status);
      ui := Ready;
      Do(e);
    }

    method TakeTurn(s: UiStep)
      requires UiEnabled(View(), s)
      modifies this, greeter
      ensures pause == old(pause)
      ensures View() == UiNext(old(View()), s)
    {
      match s {
        case KeyStep(key) => PressKey(key);
        case ReloadStep(plan) => ApplyConfigReload(plan);
        case CacheLoadedStep(cache) => greeter.cache := cache;
        case BeginPowerStep =>
          var returnMode := greeter.BeginPower();
          ui := PowerRunning(returnMode);
        case FinishPowerStep(succeeded) =>
          if succeeded {
            shutdown := true;
          } else {
            greeter.FinishPower(ui.returnMode);
          }
          ui := Ready;
        case ControlStep =>
          ui := Exiting(controls[0].status);
          controls := controls[1..];
        case SignalStep => ui := Exiting(ExitFailure);
        case ExitStep => RequestExit();
        case ShutdownStep => shutdown := true;
      }
    }

    /** One turn of the main loop, which breaks the correspondence only by racing with the actor. */
    method Turn(s: UiStep)
      requires UiEnabled(View(), s)
      modifies this, greeter
      ensures Whole() == Move(old(Whole()), Ui(s))
      ensures old(Basic(Whole())) ==> Basic(Whole())
      ensures old(FineInvariant(Whole()) && !Races(Whole(), Ui(s))) ==> FineInvariant(Whole())
    {
      ghost var before := Whole();
      TakeTurn(s);
      MoveIsSafe(before, Ui(s));
    }

    /** The main loop and the actor's loop together, in any order: what holds of every run, of every peaceful one and of
        every orderly one. */
    method Run(steps: seq<Step>)
      requires IsFineRun(Whole(), steps) && Basic(Whole())
      modifies this, greeter
      ensures Whole() == FineAfter(old(Whole()), steps) && Basic(Whole())
      ensures old(FineInvariant(Whole())) && old(IsOrderly(Whole(), steps)) ==>
                FineInvariant(Whole()) && IsSafe(Whole())
      ensures old(FineInvariant(Whole())) && old(IsPeaceful(Whole(), steps)) ==> IsSafeHistory(log)
    {
      ghost var start, orderly := Whole(), FineInvariant(Whole()) && IsOrderly(Whole(), steps);
      var i := 0;
      while i < |steps|
        invariant i <= |steps| && IsFineRun(Whole(), steps[i..]) && Basic(Whole())
        invariant FineAfter(Whole(), steps[i..]) == FineAfter(start, steps)
        invariant orderly ==> FineInvariant(Whole()) && IsOrderly(Whole(), steps[i..])
      {
        assert steps[i..][0] == steps[i] && steps[i..][1..] == steps[i + 1..];
        match steps[i] {
          case Ui(u) => Turn(u);
          case Actor(o) => Advance(o);
        }
        i := i + 1;
      }
      if orderly {
        InvariantIsSafe(Whole());
      }
      if FineInvariant(start) && IsPeaceful(start, steps) {
        PeacefulRunStaysSteady(start, steps);
        SteadyIsSafe(Whole());
      }
    }
  }

  lemma MoveIsSafe(f: FineWorld, s: Step)
    requires CanMove(f, s)
    ensures Basic(f) ==> Basic(Move(f, s))
    ensures FineInvariant(f) && !Races(f, s) ==> FineInvariant(Move(f, s))
  {
    if Basic(f) {
      MoveKeepsBasic(f, s);
    }
    if FineInvariant(f) && !Races(f, s) {
      OrderlyMoveKeepsInvariant(f, s);
    }
  }
}
