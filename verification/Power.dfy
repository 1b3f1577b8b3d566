/** The life of one power command (`src/power.rs`): waiting, the termination ladder and the guard that kills what is left,
    for every answer of the operating system and an abort at every await point. */
module Power {
  import opened Wrappers

  datatype Signal = Term | Kill

  datatype Liveness = Alive | Gone | Unknown

  /** What the command's process, or process group, went through. A signal to a target that is gone counts as accepted. */
  datatype Event =
    | Reaped(success: bool) | Signalled(signal: Signal, accepted: bool) | Probed(liveness: Liveness)
    | GraceOver | Disarmed | Dropped(armed: bool)
    | ChildKilled   // the runtime kills a child whose handle is dropped before it has been reaped

  datatype Completion = Exited(success: bool) | WaitFailed | Cancelled | TimedOut | Aborted

  datatype Wait = Collected | Failed | Elapsed | Interrupted

  /** What the environment answers at each point; `Aborted`, `Interrupted` and `pauseAborted` drop the
      worker there. */
  datatype Environment = Environment(
    completion: Completion, firstProbe: Liveness, term: bool, grace: Wait, pauseAborted: bool, probe: Liveness,
    kill: bool, lastWait: Wait, dropKill: bool)

  datatype Outcome = SpawnFailure | Success | ExitFailure | WaitFailure | CancelledOutcome | Timeout

  type Trace = seq<Event>

  /** What a trace contains, as far as it matters for what may follow. */
  datatype Past = Past(reaped: bool, succeeded: bool, term: bool, kill: bool, killAccepted: bool, gone: bool,
                       graceOver: bool, disarmed: bool, dropped: bool, droppedArmed: bool, childKilled: bool)

  const NO_PAST := Past(false, false, false, false, false, false, false, false, false, false, false)

  function Extended(p: Past, e: Event): Past {
    match e
    case Reaped(success) => p.(reaped := true, succeeded := p.succeeded || success)
    case Signalled(Term, _) => p.(term := true)
    case Signalled(Kill, accepted) => p.(kill := true, killAccepted := p.killAccepted || accepted)
    case Probed(liveness) => p.(gone := p.gone || liveness == Gone)
    case GraceOver => p.(graceOver := true)
    case Disarmed => p.(disarmed := true)
    case Dropped(armed) => p.(dropped := true, droppedArmed := p.droppedArmed || armed)
    case ChildKilled => p.(childKilled := true)
  }

  function Summary(t: Trace): Past {
    Past(Reaped(true) in t || Reaped(false) in t, Reaped(true) in t,
         Signalled(Term, true) in t || Signalled(Term, false) in t,
         Signalled(Kill, true) in t || Signalled(Kill, false) in t, Signalled(Kill, true) in t,
         Probed(Gone) in t, GraceOver in t, Disarmed in t, Dropped(true) in t || Dropped(false) in t, Dropped(true) in t,
         ChildKilled in t)
  }

  lemma ReapedExtends(t: Trace, success: bool)
    ensures Summary(t + [Reaped(success)]) == Extended(Summary(t), Reaped(success))
  {
    assert forall x :: x in t + [Reaped(success)] <==> x in t || x == Reaped(success);
  }

  lemma SignalledExtends(t: Trace, signal: Signal, accepted: bool)
    ensures Summary(t + [Signalled(signal, accepted)]) == Extended(Summary(t), Signalled(signal, accepted))
  {
    assert forall x :: x in t + [Signalled(signal, accepted)] <==> x in t || x == Signalled(signal, accepted);
  }

  lemma ProbedExtends(t: Trace, liveness: Liveness)
    ensures Summary(t + [Probed(liveness)]) == Extended(Summary(t), Probed(liveness))
  {
    assert forall x :: x in t + [Probed(liveness)] <==> x in t || x == Probed(liveness);
  }

  lemma DroppedExtends(t: Trace, armed: bool)
    ensures Summary(t + [Dropped(armed)]) == Extended(Summary(t), Dropped(armed))
  {
    assert forall x :: x in t + [Dropped(armed)] <==> x in t || x == Dropped(armed);
  }

  lemma GraceOverExtends(t: Trace)
    ensures Summary(t + [GraceOver]) == Extended(Summary(t), GraceOver)
  {
    assert forall x :: x in t + [GraceOver] <==> x in t || x == GraceOver;
  }

  lemma DisarmedExtends(t: Trace)
    ensures Summary(t + [Disarmed]) == Extended(Summary(t), Disarmed)
  {
    assert forall x :: x in t + [Disarmed] <==> x in t || x == Disarmed;
  }

  lemma ChildKilledExtends(t: Trace)
    ensures Summary(t + [ChildKilled]) == Extended(Summary(t), ChildKilled)
  {
    assert forall x :: x in t + [ChildKilled] <==> x in t || x == ChildKilled;
  }

  lemma SummaryExtends(t: Trace, e: Event)
    ensures Summary(t + [e]) == Extended(Summary(t), e)
  {
    match e
    case Reaped(success) => ReapedExtends(t, success);
    case Signalled(signal, accepted) => SignalledExtends(t, signal, accepted);
    case Probed(liveness) => ProbedExtends(t, liveness);
    case Dropped(armed) => DroppedExtends(t, armed);
    case GraceOver => GraceOverExtends(t);
    case Disarmed => DisarmedExtends(t);
    case ChildKilled => ChildKilledExtends(t);
  }

  /** Nothing is left that the guard would have to kill. */
  predicate Secured(p: Past, group: bool) {
    p.succeeded || (if group then p.gone || p.killAccepted else p.reaped)
  }

  /** What may happen next after the given past. */
  predicate Lawful(past: Past, e: Event, group: bool) {
    match e
    case Reaped(_) => !past.reaped
    case Signalled(signal, _) =>
      // the number of a reaped process may belong to another process
      && (!group ==> !past.reaped)
      // a group has its whole grace period between the two signals, whoever in it was reaped early
      && (signal == Kill ==> past.droppedArmed || (past.term && (group ==> past.graceOver)))
      && !past.disarmed
    case Probed(_) => !group ==> !past.reaped
    case GraceOver => past.term
    case Disarmed => Secured(past, group) && !past.disarmed
    case Dropped(armed) =>
      && !past.dropped
      && (armed <==> !past.disarmed)
      && (armed ==> !past.reaped || (group && !Secured(past, group)))
    case ChildKilled => past.dropped && !past.reaped
  }

  predicate AllLawful(t: Trace, group: bool) {
    t == [] || (AllLawful(t[..|t| - 1], group) && Lawful(Summary(t[..|t| - 1]), t[|t| - 1], group))
  }

  lemma {:induction false} LawfulAt(t: Trace, group: bool, j: nat)
    requires AllLawful(t, group) && j < |t|
    ensures Lawful(Summary(t[..j]), t[j], group)
    decreases |t|
  {
    if j < |t| - 1 {
      LawfulAt(t[..|t| - 1], group, j);
      assert t[..|t| - 1][..j] == t[..j];
    }
  }

  /** A process that is not a group is neither signalled nor probed from the moment it has been reaped. */
  lemma ReapedProcessIsLeftAlone(t: Trace, i: nat, j: nat)
    requires AllLawful(t, false) && i < j < |t| && t[i].Reaped?
    ensures !t[j].Signalled? && !t[j].Probed? && !t[j].ChildKilled?
  {
    LawfulAt(t, false, j);
    assert t[..j][i] == Reaped(t[i].success);
  }

  /** What dropping the guard and the child's handle adds. */
  function AfterDrop(p: Past, armed: bool, accepted: bool): Past {
    var guarded := if armed then Extended(Extended(p, Dropped(true)), Signalled(Kill, accepted))
                   else Extended(p, Dropped(false));
    if p.reaped then guarded else Extended(guarded, ChildKilled)
  }

  lemma DropSecures(p: Past, group: bool, armed: bool, accepted: bool)
    requires !armed ==> Secured(p, group)
    ensures var q := AfterDrop(p, armed, accepted);
            (Secured(q, group) || q.kill) && q.term == p.term && (!armed ==> q.kill == p.kill)
  {
    if armed {
      assert Extended(Extended(p, Dropped(true)), Signalled(Kill, accepted)).kill;
    }
  }

  class PowerRun {
    const group: bool
    var armed: bool
    var childReaped: bool
    ghost var trace: Trace

    ghost function Past(): Past
      reads this
    {
      Summary(trace)
    }

    ghost predicate Valid()
      reads this
    {
      && AllLawful(trace, group)
      && !Past().dropped && !Past().droppedArmed
      && childReaped == Past().reaped
      && armed == !Past().disarmed && (!armed ==> Secured(Past(), group))
    }

    constructor (group: bool)
      ensures Valid() && this.group == group && armed && trace == [] && Past() == NO_PAST
    {
      this.group, armed, childReaped, trace := group, true, false, [];
    }

    ghost method Record(e: Event)
      requires AllLawful(trace, group) && Lawful(Past(), e, group)
      modifies this`trace
      ensures AllLawful(trace, group) && Past() == Extended(old(Past()), e) && trace == old(trace) + [e]
    {
      ghost var before := trace;
      SummaryExtends(before, e);
      trace := trace + [e];
      assert trace[..|trace| - 1] == before;
    }

    /** `child.wait` returned a status. */
    method Reap(success: bool)
      requires Valid() && !childReaped
      modifies this
      ensures Valid() && armed == old(armed) && Past() == Extended(old(Past()), Reaped(success))
    {
      childReaped := true;
      Record(Reaped(success));
    }

    method Disarm()
      requires Valid() && armed && Secured(Past(), group)
      modifies this
      ensures Valid() && !armed && Past() == old(Past()).(disarmed := true)
    {
      armed := false;
      Record(Disarmed);
    }

    /** `ProcessGuard::drop`, at the end of every run and wherever it is aborted, and then the drop of the child's handle. */
    method Drop(accepted: bool)
      requires Valid() && (armed ==> !Past().reaped || (group && !Secured(Past(), group)))
      modifies this
      ensures AllLawful(trace, group) && Past().dropped
      ensures Past() == AfterDrop(old(Past()), old(armed), accepted)
    {
      Record(Dropped(armed));
      if armed {
        Record(Signalled(Kill, accepted));
      }
      if !childReaped {
        Record(ChildKilled);
      }
    }

    /** `terminate`; `aborted` tells that the worker was dropped at one of its awaits. */
    method Terminate(env: Environment, alreadyReaped: bool) returns (aborted: bool)
      requires Valid() && armed
      requires Past() == NO_PAST.(reaped := alreadyReaped)
      requires alreadyReaped ==> group
      modifies this
      ensures Valid()
      ensures !Past().succeeded
      ensures armed ==> !Past().reaped || (group && !Secured(Past(), group))
      ensures !aborted ==> !armed || Past().kill || Past().gone
      ensures Past().term || (alreadyReaped && env.firstProbe == Gone)
    {
      aborted := false;
      if alreadyReaped && group {
        Record(Probed(env.firstProbe));
        if env.firstProbe == Gone {
          Disarm();
          return;
        }
      }
      Record(Signalled(Term, env.term));
      var reaped := alreadyReaped;
      if !alreadyReaped {
        if env.grace == Interrupted {
          return true;
        }
        if env.grace == Collected {
          Reap(false);
          reaped := true;
        }
      }
      if group {
        if env.pauseAborted {
          return true;
        }
        Record(GraceOver);
      } else if reaped {
        Disarm();
        return;
      }
      aborted := Escalate(env, reaped);
    }

    /** The end of `terminate`, once the grace period is over. */
    method Escalate(env: Environment, reaped: bool) returns (aborted: bool)
      requires Valid() && armed && Past().term && !Past().kill && !Past().killAccepted
      requires reaped == Past().reaped
      requires if group then Past().graceOver else !reaped
      requires !Past().succeeded && !Past().gone
      modifies this
      ensures Valid() && Past().term && !Past().succeeded
      ensures armed ==> !Past().reaped || (group && !Secured(Past(), group))
      ensures !aborted ==> !armed || Past().kill || Past().gone
    {
      aborted := false;
      var alive := env.probe != Gone;
      Record(Probed(env.probe));
      var killSecured := true;
      if alive {
        Record(Signalled(Kill, env.kill));
        killSecured := env.kill;
      }
      var collected := reaped;
      if !reaped {
        if env.lastWait == Interrupted {
          return true;
        }
        if env.lastWait == Collected {
          Reap(false);
          collected := true;
        }
      }
      if (group && killSecured) || (!group && collected) {
        Disarm();
      }
    }

    /** The wait of `run_command` and what follows from it; no outcome when the worker is dropped. */
    method Complete(env: Environment) returns (outcome: Option<Outcome>)
      requires Valid() && armed && Past() == NO_PAST
      modifies this
      ensures Valid() && outcome != Some(SpawnFailure)
      ensures armed ==> !Past().reaped || (group && !Secured(Past(), group))
      ensures outcome.Some? ==>
                match outcome.value
                case SpawnFailure => false
                case Success => env.completion == Exited(true)
                case ExitFailure => env.completion == Exited(false)
                case WaitFailure => env.completion == WaitFailed
                case CancelledOutcome => env.completion == Cancelled
                case Timeout => env.completion == TimedOut
      ensures env.completion == Exited(true) || (env.completion == Exited(false) && !group) ==>
                outcome.Some? && !armed && !Past().term && !Past().kill
      ensures env.completion.Cancelled? || env.completion.TimedOut? || env.completion.WaitFailed? ==> Past().term
    {
      var aborted := false;
      match env.completion {
        case Exited(success) =>
          Reap(success);
          if success || !group {
            Disarm();
          } else {
            aborted := Terminate(env, true);
          }
          outcome := Some(if success then Success else ExitFailure);
        case WaitFailed =>
          aborted := Terminate(env, false);
          outcome := Some(WaitFailure);
        case Cancelled =>
          aborted := Terminate(env, false);
          outcome := Some(CancelledOutcome);
        case TimedOut =>
          aborted := Terminate(env, false);
          outcome := Some(Timeout);
        case Aborted => aborted := true;
      }
      if aborted {
        outcome := None;
      }
    }

    /**
     * `run_command` after a successful spawn; no outcome when it is aborted. In every case the whole trace is
     * lawful, a successful command is never signalled, and the guard leaves nothing behind without an attempt to kill it.
     */
    method RunCommand(env: Environment) returns (outcome: Option<Outcome>)
      requires Valid() && armed && Past() == NO_PAST
      modifies this
      ensures AllLawful(trace, group)
      ensures Past().dropped && outcome != Some(SpawnFailure)
      ensures env.completion == Exited(true) ==> outcome == Some(Success) && !Past().term && !Past().kill
      ensures env.completion == Exited(false) && !group ==> outcome == Some(ExitFailure) && !Past().term && !Past().kill
      ensures Secured(Past(), group) || Past().kill
      ensures env.completion == Exited(false) ==> outcome == None || outcome == Some(ExitFailure)
      ensures env.completion.Aborted? ==> outcome == None
      ensures env.completion.Cancelled? ==> outcome == None || outcome == Some(CancelledOutcome)
      ensures env.completion.TimedOut? ==> outcome == None || outcome == Some(Timeout)
      ensures env.completion.WaitFailed? ==> outcome == None || outcome == Some(WaitFailure)
      ensures env.completion.Cancelled? || env.completion.TimedOut? || env.completion.WaitFailed? ==> Past().term
    {
      outcome := Complete(env);
      DropSecures(Past(), group, armed, env.dropKill);
      Drop(env.dropKill);
    }
  }

  datatype Spawn = Spawned | Refused | NoProcessId

  /** `run_command`; a command that could not be spawned leaves nothing to guard. */
  method RunPowerCommand(spawn: Spawn, group: bool, env: Environment) returns (outcome: Option<Outcome>, run: PowerRun?)
    ensures spawn != Spawned ==> outcome == Some(SpawnFailure) && run == null
    ensures spawn == Spawned ==>
              && run != null && fresh(run) && run.group == group
              && outcome != Some(SpawnFailure) && AllLawful(run.trace, group) && run.Past().dropped
              && (Secured(run.Past(), group) || run.Past().kill)
  {
    if spawn != Spawned {
      return Some(SpawnFailure), null;
    }
    run := new PowerRun(group);
    outcome := run.RunCommand(env);
  }
}
