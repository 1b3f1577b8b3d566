/** What the history of a run can look like: writes to greetd, uncertain session starts, failures and commits. */
module ProtocolHistory {
  import opened Wrappers
  import opened CacheState
  import opened GreeterState
  import opened Keyboard
  import opened Replies
  import opened Protocol
  import opened ProtocolSafety

  type Log = seq<Event>

  predicate IsStart(e: Event) { e.Wrote? && e.request.StartSession? }

  predicate IsWrite(e: Event) { e.Wrote? || e.WroteCancel? }

  predicate IsRefusal(e: Event) { e.Answered? && e.response.ErrorReply? }

  /** greetd may have started the session: nothing more can be said to it. */
  predicate IsUncertain(e: Event) {
    || (e.TransactionFailed? && e.request.StartSession?)
    || (e.Answered? && e.request.StartSession? && e.response.AuthMessage?)
  }

  /** Every session start that was written was refused by the very next event. */
  ghost predicate Settled(log: Log) {
    forall i | 0 <= i < |log| && IsStart(log[i]) :: i + 1 < |log| && IsRefusal(log[i + 1])
  }

  /** After a session start is written, nothing is written again unless greetd refused it first. */
  ghost predicate StartsAreFinal(log: Log) {
    forall i, j | 0 <= i < j < |log| && IsStart(log[i]) && IsWrite(log[j]) :: IsRefusal(log[i + 1])
  }

  ghost predicate NothingUncertain(log: Log) {
    forall i | 0 <= i < |log| :: !IsUncertain(log[i])
  }

  /** After an uncertain start the only thing that ever happens is that the greeter is told to exit with a failure. */
  ghost predicate UncertaintyIsFinal(log: Log) {
    forall i | 0 <= i < |log| && IsUncertain(log[i]) ::
      i == |log| - 1 || (i == |log| - 2 && log[i + 1] == ExitSent(ExitFailure))
  }

  /** Failed transactions since the last decoded response. */
  function TrailingFailures(log: Log): nat {
    if log == [] || log[|log| - 1].Answered? then 0
    else TrailingFailures(log[..|log| - 1]) + if log[|log| - 1].TransactionFailed? then 1 else 0
  }

  /** What was captured when the latest session start was queued. */
  function LastCapture(log: Log): Option<(PendingSession, CachePolicy)> {
    if log == [] then None
    else
      match log[|log| - 1]
      case Captured(pending, policy) => Some((pending, policy))
      case _ => LastCapture(log[..|log| - 1])
  }

  ghost predicate NothingCommitted(log: Log) {
    forall i | 0 <= i < |log| :: !log[i].Committed?
  }

  function Last(log: Log): Event
    requires log != []
  {
    log[|log| - 1]
  }

  /** The first update to be committed, right after Success answers a session start, holding exactly what was captured when
      that start was queued. */
  ghost predicate CommitIsSound(before: Log, update: Update) {
    && before != [] && Last(before).Answered? && Last(before).request.StartSession? && Last(before).response.Success?
    && LastCapture(before).Some?
    && update == BuildUpdate(LastCapture(before).value.0, LastCapture(before).value.1)
    && NothingCommitted(before)
  }

  ghost predicate CommitsAreSound(log: Log) {
    forall i | 0 <= i < |log| && log[i].Committed? :: CommitIsSound(log[..i], log[i].update)
  }

  ghost predicate WritesAreFresh(log: Log) {
    forall i | 0 <= i < |log| && log[i].Wrote? :: log[i].generation == log[i].current
  }

  // ---- the invariant ----

  /** The written session start that the actor is waiting on, if any, is the last thing that happened. */
  ghost predicate StartIsOpen(w: World) {
    match w.phase
    case Flushing(r, _) => r.StartSession? ==> w.log != [] && IsStart(Last(w.log)) && Settled(w.log[..|w.log| - 1])
    case Reading(r, _) => r.StartSession? ==> w.log != [] && IsStart(Last(w.log)) && Settled(w.log[..|w.log| - 1])
    case Decoded(r, _, response) =>
      && w.log != [] && Last(w.log) == Answered(r, response)
      && (r.StartSession? && response.ErrorReply? ==> Settled(w.log))
    case Recovering(r, _) => r.StartSession? ==> w.log != [] && IsUncertain(Last(w.log))
    case _ => true
  }

  /** The actor is busy with a session start, or has finished with one for good. */
  predicate StartMayBeOpen(w: World) {
    || w.phase.Stopped? || w.greeter.auth.Started?
    || ((w.phase.Flushing? || w.phase.Reading? || w.phase.Decoded? || w.phase.Recovering?) && w.phase.request.StartSession?)
  }

  predicate MayBeUncertain(w: World) {
    || w.phase.Stopped?
    || (w.phase.Recovering? && w.phase.request.StartSession?)
    || (w.phase.Decoded? && w.phase.request.StartSession? && w.phase.response.AuthMessage?)
  }

  ghost predicate WireIsSafe(w: World) {
    && StartsAreFinal(w.log) && UncertaintyIsFinal(w.log) && WritesAreFresh(w.log)
    && StartIsOpen(w)
    && (!StartMayBeOpen(w) ==> Settled(w.log))
    && (!MayBeUncertain(w) ==> NothingUncertain(w.log))
    && TrailingFailures(w.log) <= w.failures
  }

  ghost predicate CommitsAreSafe(w: World) {
    && CommitsAreSound(w.log)
    && (w.greeter.auth.StartingSession? ==> LastCapture(w.log) == Some((w.greeter.auth.pending, w.greeter.auth.policy)))
    && (!(w.greeter.auth.Started? && (w.phase.Selecting? || w.phase.Stopped?)) ==> NothingCommitted(w.log))
    && (w.phase.Decoded? ==> w.log != [] && Last(w.log) == Answered(w.phase.request, w.phase.response))
    && (w.phase.Persisting? && w.phase.update.Some? ==>
          && w.log != [] && Last(w.log).Answered? && Last(w.log).request.StartSession? && Last(w.log).response.Success?
          && LastCapture(w.log).Some?
          && w.phase.update.value == BuildUpdate(LastCapture(w.log).value.0, LastCapture(w.log).value.1))
  }

  // ---- appending one event ----

  lemma Append(log: Log, e: Event)
    ensures Last(log + [e]) == e && (log + [e])[..|log|] == log
    ensures TrailingFailures(log + [e]) ==
            if e.Answered? then 0 else TrailingFailures(log) + if e.TransactionFailed? then 1 else 0
    ensures LastCapture(log + [e]) == if e.Captured? then Some((e.pending, e.policy)) else LastCapture(log)
  {
    assert (log + [e])[..|log|] == log;
  }

  lemma AppendToSettled(log: Log, e: Event)
    ensures Settled(log) && !IsStart(e) ==> Settled(log + [e])
    ensures StartsAreFinal(log) && (IsWrite(e) ==> Settled(log)) ==> StartsAreFinal(log + [e])
  {
  }

  lemma AppendToCertain(log: Log, e: Event)
    ensures NothingUncertain(log) && !IsUncertain(e) ==> NothingUncertain(log + [e])
    ensures NothingUncertain(log) ==> UncertaintyIsFinal(log + [e])
  {
  }

  lemma AppendToFresh(log: Log, e: Event)
    ensures WritesAreFresh(log) && (e.Wrote? ==> e.generation == e.current) ==> WritesAreFresh(log + [e])
    ensures NothingCommitted(log) && !e.Committed? ==> NothingCommitted(log + [e])
  {
  }

  lemma AppendKeepsCommitsSound(log: Log, e: Event)
    requires CommitsAreSound(log)
    requires e.Committed? ==> CommitIsSound(log, e.update)
    ensures CommitsAreSound(log + [e])
  {
    var l := log + [e];
    forall i | 0 <= i < |l| && l[i].Committed?
      ensures CommitIsSound(l[..i], l[i].update)
    {
      if i < |log| {
        assert l[..i] == log[..i] && l[i] == log[i];
      } else {
        assert l[..i] == log && l[i] == e;
      }
    }
  }

  /** Answering an open session start settles it exactly when the answer is a refusal. */
  lemma AnswerSettles(log: Log, e: Event)
    requires log != [] && IsStart(Last(log)) && Settled(log[..|log| - 1]) && IsRefusal(e)
    ensures Settled(log + [e])
  {
    var l := log + [e];
    forall i | 0 <= i < |l| && IsStart(l[i])
      ensures i + 1 < |l| && IsRefusal(l[i + 1])
    {
      if i < |log| - 1 {
        assert log[..|log| - 1][i] == l[i];
      }
    }
  }

  // ---- steps that leave the history alone, and steps that add one event to it ----

  lemma SameLogKeepsWire(w: World, w': World)
    requires WireIsSafe(w) && w'.log == w.log
    requires w.failures <= w'.failures || w.phase.Decoded?
    requires w'.phase == w.phase || !(w'.phase.Flushing? || w'.phase.Decoded?)
    requires w'.phase.Reading? && w'.phase != w.phase ==> w.phase == Flushing(w'.phase.request, w'.phase.generation)
    requires w'.phase.Recovering? && w'.phase != w.phase && w'.phase.request.StartSession? ==>
               w.phase.Decoded? && w.phase.request.StartSession? && w.phase.response.AuthMessage?
    requires !StartMayBeOpen(w') ==>
               !StartMayBeOpen(w) || (w.phase.Decoded? && w.phase.request.StartSession? && w.phase.response.ErrorReply?)
    requires !MayBeUncertain(w') ==> !MayBeUncertain(w)
    ensures WireIsSafe(w')
  {
  }

  lemma SameLogKeepsCommits(w: World, w': World)
    requires CommitsAreSafe(w) && w'.log == w.log
    requires w'.phase == w.phase || !(w'.phase.Decoded? || (w'.phase.Persisting? && w'.phase.update.Some?))
    requires w'.greeter.auth.StartingSession? ==> w'.greeter.auth == w.greeter.auth
    requires w.greeter.auth.Started? && (w.phase.Selecting? || w.phase.Stopped?) ==>
               w'.greeter.auth.Started? && (w'.phase.Selecting? || w'.phase.Stopped?)
    ensures CommitsAreSafe(w')
  {
  }

  lemma AppendKeepsWire(w: World, w': World, e: Event)
    requires WireIsSafe(w) && w'.log == w.log + [e] && !MayBeUncertain(w)
    requires IsWrite(e) ==> !StartMayBeOpen(w)
    requires e.Wrote? ==> e.generation == e.current
    requires IsUncertain(e) ==> MayBeUncertain(w')
    requires e.Answered? || (w.phase.Decoded? && !e.TransactionFailed?)
             || w'.failures >= w.failures + if e.TransactionFailed? then 1 else 0
    requires w'.phase.Flushing? && w'.phase.request.StartSession? ==> IsStart(e)
    requires w'.phase.Reading? ==> !w'.phase.request.StartSession?
    requires w'.phase.Recovering? && w'.phase.request.StartSession? ==> IsUncertain(e)
    requires w'.phase.Decoded? ==>
               && e == Answered(w'.phase.request, w'.phase.response)
               && w.phase == Reading(w'.phase.request, w'.phase.generation)
    requires !StartMayBeOpen(w') ==> !StartMayBeOpen(w) && !IsStart(e)
    ensures WireIsSafe(w')
  {
    Append(w.log, e);
    AppendToSettled(w.log, e);
    AppendToCertain(w.log, e);
    AppendToFresh(w.log, e);
    if w'.phase.Decoded? && w'.phase.request.StartSession? && IsRefusal(e) {
      AnswerSettles(w.log, e);
    }
  }

  lemma AppendKeepsCommits(w: World, w': World, e: Event)
    requires CommitsAreSafe(w) && w'.log == w.log + [e] && NothingCommitted(w.log)
    requires e.Committed? ==>
               && w.phase.Persisting? && w.phase.update == Some(e.update)
               && w'.greeter.auth.Started? && w'.phase.Selecting?
    requires w'.greeter.auth.StartingSession? ==>
               if e.Captured? then w'.greeter.auth == StartingSession(e.pending, e.policy)
               else w'.greeter.auth == w.greeter.auth
    requires w'.phase.Decoded? ==> e == Answered(w'.phase.request, w'.phase.response)
    requires w'.phase.Persisting? ==> w'.phase.update.None?
    ensures CommitsAreSafe(w')
  {
    Append(w.log, e);
    AppendToFresh(w.log, e);
    AppendKeepsCommitsSound(w.log, e);
  }

  ghost predicate HistoryIsSafe(w: World) {
    WireIsSafe(w) && CommitsAreSafe(w)
  }

  lemma SameLogKeepsHistory(w: World, w': World)
    requires HistoryIsSafe(w) && w'.log == w.log && w.failures <= w'.failures
    requires w'.phase == w.phase || !(w'.phase.Flushing? || w'.phase.Reading? || w'.phase.Decoded? || w'.phase.Recovering? || w'.phase.Persisting?)
    requires w'.greeter.auth.StartingSession? ==> w'.greeter.auth == w.greeter.auth
    requires w.greeter.auth.Started? ==> w'.greeter.auth.Started?
    requires w'.phase != w.phase ==> !w.phase.Stopped? && (w.greeter.auth.Started? ==> w'.phase.Selecting? || w'.phase.Stopped?)
    requires !StartMayBeOpen(w') ==> !StartMayBeOpen(w)
    requires !MayBeUncertain(w') ==> !MayBeUncertain(w)
    ensures HistoryIsSafe(w')
  {
    SameLogKeepsWire(w, w');
    SameLogKeepsCommits(w, w');
  }

  // ---- user steps ----

  /** No user step adds to the history, moves the actor, or enters or leaves a starting or started session. */
  lemma UiLeavesHistory(w: World, s: UiStep)
    requires UiEnabled(w, s) && Consistent(w.greeter)
    ensures var w' := UiNext(w, s);
            && w'.log == w.log && w'.phase == w.phase && w'.failures == w.failures
            && (w.greeter.auth.Started? <==> w'.greeter.auth.Started?)
            && (w'.greeter.auth.StartingSession? ==> w'.greeter.auth == w.greeter.auth)
  {
    var (g, e) := UiEffect(w, s);
    UiIsEffect(w, s);
    EffectLeavesHistory(w, g, e);
  }

  lemma EffectLeavesHistory(w: World, g: State, e: Effect)
    requires AuthFollows(w.greeter, g, e)
    ensures var w' := Perform(w.(greeter := g), e);
            && w' == w.(greeter := g, queue := w'.queue, generation := w'.generation)
            && (w.greeter.auth.Started? <==> g.auth.Started?)
            && (g.auth.StartingSession? ==> g.auth == w.greeter.auth)
  {
  }

  lemma UiKeepsHistory(w: World, s: UiStep)
    requires Corresponds(w) && UiEnabled(w, s) && Consistent(w.greeter) && HistoryIsSafe(w)
    ensures HistoryIsSafe(UiNext(w, s))
  {
    UiLeavesHistory(w, s);
    SameLogKeepsHistory(w, UiNext(w, s));
  }

  // ---- actor steps ----

  lemma SelectKeepsHistory(w: World)
    requires Corresponds(w) && w.phase.Selecting? && ActorEnabled(w, Proceed) && HistoryIsSafe(w)
    ensures HistoryIsSafe(SelectStep(w))
  {
    var w' := SelectStep(w);
    if w'.log == w.log {
      SameLogKeepsHistory(w, w');
    } else {
      AppendKeepsWire(w, w', WroteCancel);
      AppendKeepsCommits(w, w', WroteCancel);
    }
  }

  lemma TransmitKeepsHistory(w: World, o: Outcome)
    requires Corresponds(w) && (w.phase.Connecting? || w.phase.Writing? || w.phase.Flushing?) && HistoryIsSafe(w)
    ensures HistoryIsSafe(TransmitStep(w, o))
  {
    var w' := TransmitStep(w, o);
    var r, generation := w.phase.request, w.phase.generation;
    if w.shutdown || generation != w.generation {
      SameLogKeepsHistory(w, w');
    } else if o.Fail? {
      AppendKeepsWire(w, w', TransactionFailed(r));
      AppendKeepsCommits(w, w', TransactionFailed(r));
    } else if w.phase.Writing? {
      AppendKeepsWire(w, w', Wrote(r, generation, w.generation));
      AppendKeepsCommits(w, w', Wrote(r, generation, w.generation));
    } else {
      SameLogKeepsWire(w, w');
      SameLogKeepsCommits(w, w');
    }
  }

  lemma ReadKeepsHistory(w: World, o: Outcome)
    requires Corresponds(w) && w.phase.Reading? && ActorEnabled(w, o) && HistoryIsSafe(w)
    ensures HistoryIsSafe(ReadStep(w, o))
  {
    var w' := ReadStep(w, o);
    var r := w.phase.request;
    if w.shutdown || w.phase.generation != w.generation {
      if r.StartSession? {
        SameLogKeepsHistory(w, w');
      } else {
        AppendKeepsWire(w, w', WroteCancel);
        AppendKeepsCommits(w, w', WroteCancel);
      }
    } else {
      var e := if o.Reply? then Answered(r, o.response) else TransactionFailed(r);
      AppendKeepsWire(w, w', e);
      AppendKeepsCommits(w, w', e);
    }
  }

  /** What a starting session holds is what the greeter selects when the start is queued. */
  lemma StartCapturesTheGreeter(g: State, response: Response)
    requires var r := ParseResponse(g, response); r.Some? && r.value.1.Send? && r.value.1.request.StartSession?
    ensures var h := ParseResponse(g, response).value.0; h.auth == StartingSession(Capture(h), CurrentPolicy(h))
  {
  }

  lemma QueueingStartKeepsHistory(w: World)
    requires Corresponds(w) && w.phase.Decoded? && HistoryIsSafe(w)
    requires var parsed := ParseResponse(w.greeter, w.phase.response);
             parsed.Some? && parsed.value.1.Send? && parsed.value.1.request.StartSession?
    ensures HistoryIsSafe(ParseStep(w))
  {
    var w', g := ParseStep(w), ParseResponse(w.greeter, w.phase.response).value.0;
    ReplyAuth(w.greeter, w.phase.response);
    StartCapturesTheGreeter(w.greeter, w.phase.response);
    AppendKeepsWire(w, w', Captured(Capture(g), CurrentPolicy(g)));
    AppendKeepsCommits(w, w', Captured(Capture(g), CurrentPolicy(g)));
  }

  lemma ParseKeepsHistory(w: World)
    requires Corresponds(w) && w.phase.Decoded? && HistoryIsSafe(w)
    ensures HistoryIsSafe(ParseStep(w))
  {
    var w' := ParseStep(w);
    ReplyAuth(w.greeter, w.phase.response);
    var parsed := ParseResponse(w.greeter, w.phase.response);
    if parsed.Some? && parsed.value.1.Commit? {
      SameLogKeepsWire(w, w');
    } else if parsed.Some? && parsed.value.1.Send? && parsed.value.1.request.StartSession? {
      QueueingStartKeepsHistory(w);
    } else if parsed.Some? {
      assert w'.log == w.log && w'.phase == Persisting(None, None);
      SameLogKeepsWire(w, w');
      SameLogKeepsCommits(w, w');
    } else {
      SameLogKeepsWire(w, w');
      SameLogKeepsCommits(w, w');
    }
  }

  lemma PersistKeepsHistory(w: World)
    requires Corresponds(w) && w.phase.Persisting? && HistoryIsSafe(w)
    ensures HistoryIsSafe(PersistStep(w))
  {
    var w' := PersistStep(w);
    if w.phase.update.Some? {
      AppendKeepsWire(w, w', Committed(w.phase.update.value));
      AppendKeepsCommits(w, w', Committed(w.phase.update.value));
    } else {
      SameLogKeepsHistory(w, w');
    }
  }

  lemma RecoverKeepsHistory(w: World)
    requires Corresponds(w) && w.phase.Recovering? && HistoryIsSafe(w)
    ensures HistoryIsSafe(RecoverStep(w))
  {
    var w' := RecoverStep(w);
    if w'.phase.Stopped? {
      GivingUpKeepsWire(w, w');
      AppendKeepsCommits(w, w', ExitSent(ExitFailure));
    } else {
      SameLogKeepsHistory(w, w');
    }
  }

  lemma GivingUpKeepsWire(w: World, w': World)
    requires WireIsSafe(w) && w.phase.Recovering? && w'.log == w.log + [ExitSent(ExitFailure)]
    requires w'.phase.Stopped? && w'.failures == w.failures
    ensures WireIsSafe(w')
  {
    Append(w.log, ExitSent(ExitFailure));
    AppendToSettled(w.log, ExitSent(ExitFailure));
    AppendToCertain(w.log, ExitSent(ExitFailure));
    AppendToFresh(w.log, ExitSent(ExitFailure));
    if !(w.phase.request.StartSession?) {
      assert NothingUncertain(w'.log);
    } else {
      StartedSoLastIsUncertain(w);
    }
  }

  lemma StartedSoLastIsUncertain(w: World)
    requires WireIsSafe(w) && w.phase.Recovering? && w.phase.request.StartSession?
    ensures UncertaintyIsFinal(w.log + [ExitSent(ExitFailure)])
  {
    assert Last(w.log) != ExitSent(ExitFailure);
    assert forall i | 0 <= i < |w.log| && IsUncertain(w.log[i]) :: i == |w.log| - 1;
  }

  lemma ActorKeepsHistory(w: World, o: Outcome)
    requires Corresponds(w) && ActorEnabled(w, o) && HistoryIsSafe(w)
    ensures HistoryIsSafe(ActorNext(w, o))
  {
    match w.phase
    case Selecting => SelectKeepsHistory(w);
    case Connecting(_, _) => TransmitKeepsHistory(w, o);
    case Writing(_, _) => TransmitKeepsHistory(w, o);
    case Flushing(_, _) => TransmitKeepsHistory(w, o);
    case Reading(_, _) => ReadKeepsHistory(w, o);
    case Decoded(_, _, _) => ParseKeepsHistory(w);
    case Persisting(_, _) => PersistKeepsHistory(w);
    case Recovering(_, _) => RecoverKeepsHistory(w);
    case Resetting(_) => SameLogKeepsHistory(w, ResetStep(w));
    case BackingOff(_) => SameLogKeepsHistory(w, BackOffStep(w));
    case Stopped =>
  }
}
