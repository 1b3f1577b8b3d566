/** What reload coordination guarantees over every run: nothing stale is delivered, nothing new is lost, and the worker's
    blocking send cannot deadlock. */
module ReloadTheorems {
  import opened Wrappers
  import opened Reload

  // The revision held at each place, 0 for none: requests are numbered from 1.

  function Busy(w: Worker): nat {
    match w
    case Preparing(request) => request.revision
    case Sending(result) => result.revision
    case _ => 0
  }

  function Revision(request: Option<Request>): nat {
    if request.Some? then request.value.revision else 0
  }

  function ResultRevision(result: Option<WorkerResult>): nat {
    if result.Some? then result.value.revision else 0
  }

  /** Whether the request of this revision is still somewhere on its way to the UI. */
  predicate UnderWay(s: State, revision: nat) {
    revision > 0 && (revision == Revision(s.slot) || revision == Busy(s.worker) || revision == ResultRevision(s.channel))
  }

  predicate Below(revision: nat, behind: nat) {
    behind == 0 || revision < behind
  }

  predicate Numbered(s: State) {
    && (s.storing.Some? ==> Revision(s.storing) > 0)
    && (s.slot.Some? ==> Revision(s.slot) > 0)
    && (s.worker.Preparing? || s.worker.Sending? ==> Busy(s.worker) > 0)
    && (s.channel.Some? ==> ResultRevision(s.channel) > 0)
  }

  /** Channel, worker, slot and the request being stored hold strictly increasing revisions, none beyond the published
      one. */
  predicate Increasing(c: nat, w: nat, m: nat, u: nat, latest: nat) {
    && Below(c, w) && Below(c, m) && Below(c, u) && c <= latest
    && Below(w, m) && Below(w, u) && w <= latest
    && Below(m, u) && m <= latest
    && (u == 0 || u == latest)
  }

  predicate Ordered(s: State) {
    && Numbered(s)
    && Increasing(ResultRevision(s.channel), Busy(s.worker), Revision(s.slot), Revision(s.storing), s.latest)
    && s.latest <= s.latestRevision == |s.inputs|
  }

  /** A revision smaller than all that is under way. */
  predicate Past(revision: nat, s: State) {
    && Below(revision, ResultRevision(s.channel)) && Below(revision, Busy(s.worker))
    && Below(revision, Revision(s.slot)) && Below(revision, Revision(s.storing)) && revision <= s.latest
  }

  predicate DeliveriesArePast(s: State) {
    forall i :: 0 <= i < |s.delivered| ==> Past(s.delivered[i].result.revision, s)
  }

  /** A request carries what was asked for under its revision. */
  predicate Authentic(inputs: seq<string>, request: Request) {
    0 < request.revision <= |inputs| && request.input == inputs[request.revision - 1]
  }

  predicate AuthenticResult(inputs: seq<string>, result: WorkerResult) {
    && 0 < result.revision <= |inputs|
    && (result.outcome.Ready? ==> result.outcome.input == inputs[result.revision - 1])
  }

  predicate AllAuthentic(s: State) {
    && (s.storing.Some? ==> Authentic(s.inputs, s.storing.value))
    && (s.slot.Some? ==> Authentic(s.inputs, s.slot.value))
    && (s.worker.Preparing? ==> Authentic(s.inputs, s.worker.request))
    && (s.worker.Sending? ==> AuthenticResult(s.inputs, s.worker.result))
    && (s.channel.Some? ==> AuthenticResult(s.inputs, s.channel.value))
  }

  predicate DeliveriesAreAuthentic(s: State) {
    forall i :: 0 <= i < |s.delivered| ==> AuthenticResult(s.inputs, s.delivered[i].result)
  }

  /** Every delivery was the newest request when it was handed over, and deliveries strictly increase. */
  predicate DeliveriesAreNewest(delivered: seq<Delivery>) {
    && (forall i :: 0 <= i < |delivered| ==> delivered[i].result.revision == delivered[i].newest)
    && (forall i, j :: 0 <= i < j < |delivered| ==> delivered[i].result.revision < delivered[j].result.revision)
  }

  predicate NothingLost(s: State) {
    && (s.hasRequests ==> s.latest == s.latestRevision)
    && (!s.hasRequests ==> s.worker.Stopped? && !s.pending && s.storing.None? && s.channel.None? && s.slot.None?)
    && (s.pending && s.storing.None? && !s.dropped && !s.worker.Stopped? ==> UnderWay(s, s.latestRevision))
    && (!s.pending && !s.dropped ==> s.slot.None? && Busy(s.worker) == 0 && s.channel.None?)
    && (s.dropped ==> s.storing.None? && s.slot.None? && s.channel.None?)
    && (s.closed ==> s.dropped)
  }

  predicate Inv(s: State) {
    Coherent(s) && DeliveriesArePast(s) && DeliveriesAreAuthentic(s) && DeliveriesAreNewest(s.delivered)
  }

  predicate IsRun(s: State, steps: seq<Step>)
    decreases |steps|
  {
    steps == [] || (Enabled(s, steps[0]) && IsRun(Next(s, steps[0]), steps[1..]))
  }

  function After(s: State, steps: seq<Step>): State
    requires IsRun(s, steps)
    decreases |steps|
  {
    if steps == [] then s else After(Next(s, steps[0]), steps[1..])
  }

  /** What one step keeps, apart from the deliveries made so far. */
  predicate Coherent(s: State) {
    Ordered(s) && AllAuthentic(s) && NothingLost(s)
  }

  ghost predicate Advances(s: State, t: State) {
    && Coherent(t)
    && (forall revision: nat :: Past(revision, s) ==> Past(revision, t))
  }

  lemma BeginRequestAdvances(s: State, input: string)
    requires Coherent(s) && Enabled(s, BeginRequest(input))
    ensures Advances(s, Next(s, BeginRequest(input)))
  {
    assert forall k :: 0 <= k < |s.inputs| ==> Next(s, BeginRequest(input)).inputs[k] == s.inputs[k];
  }

  lemma FinishRequestAdvances(s: State)
    requires Coherent(s) && Enabled(s, FinishRequest)
    ensures Advances(s, Next(s, FinishRequest))
  {
  }

  lemma ReceiveAdvances(s: State)
    requires Coherent(s) && Enabled(s, Receive)
    ensures Advances(s, Next(s, Receive))
  {
  }

  lemma DropCoordinatorAdvances(s: State)
    requires Coherent(s) && Enabled(s, DropCoordinator)
    ensures Advances(s, Next(s, DropCoordinator))
  {
  }

  lemma TakeAdvances(s: State)
    requires Coherent(s) && Enabled(s, Take)
    ensures Advances(s, Next(s, Take))
  {
  }

  lemma CheckAdvances(s: State, found: Found)
    requires Coherent(s) && Enabled(s, Check(found))
    ensures Advances(s, Next(s, Check(found)))
  {
  }

  lemma SendAdvances(s: State)
    requires Coherent(s) && Enabled(s, Send)
    ensures Advances(s, Next(s, Send))
  {
  }

  lemma DieAdvances(s: State)
    requires Coherent(s) && Enabled(s, Die)
    ensures Advances(s, Next(s, Die))
  {
  }

  lemma StepAdvances(s: State, step: Step)
    requires Coherent(s) && Enabled(s, step)
    ensures Advances(s, Next(s, step))
  {
    match step
    case BeginRequest(input) => BeginRequestAdvances(s, input);
    case FinishRequest => FinishRequestAdvances(s);
    case Receive => ReceiveAdvances(s);
    case DropCoordinator => DropCoordinatorAdvances(s);
    case Take => TakeAdvances(s);
    case Check(found) => CheckAdvances(s, found);
    case Send => SendAdvances(s);
    case Die => DieAdvances(s);
  }

  lemma StepKeepsDeliveries(s: State, step: Step)
    requires Inv(s) && Enabled(s, step)
    ensures DeliveriesArePast(Next(s, step)) && DeliveriesAreNewest(Next(s, step).delivered)
  {
    var t := Next(s, step);
    StepAdvances(s, step);
    if t.delivered != s.delivered {
      DeliveryIsTheNewest(s);
    }
  }

  lemma DeliveryIsTheNewest(s: State)
    requires Inv(s) && Enabled(s, Receive)
    requires s.channel.Some? && s.channel.value.revision == s.latestRevision
    ensures Past(s.latestRevision, Next(s, Receive))
    ensures forall i :: 0 <= i < |s.delivered| ==> s.delivered[i].result.revision < s.latestRevision
  {
    forall i | 0 <= i < |s.delivered|
      ensures s.delivered[i].result.revision < s.latestRevision
    {
      assert Past(s.delivered[i].result.revision, s);
    }
  }

  lemma StepKeepsDeliveredContent(s: State, step: Step)
    requires Inv(s) && Enabled(s, step)
    ensures DeliveriesAreAuthentic(Next(s, step))
  {
    var t := Next(s, step);
    forall i | 0 <= i < |t.delivered|
      ensures AuthenticResult(t.inputs, t.delivered[i].result)
    {
      if i < |s.delivered| {
        assert AuthenticResult(s.inputs, s.delivered[i].result);
      }
    }
  }

  lemma StepKeepsInv(s: State, step: Step)
    requires Inv(s) && Enabled(s, step)
    ensures Inv(Next(s, step))
  {
    StepAdvances(s, step);
    StepKeepsDeliveries(s, step);
    StepKeepsDeliveredContent(s, step);
  }

  /** Every interleaving of requests, worker steps, receptions and failures keeps the invariant. */
  lemma {:induction false} RunKeepsInv(s: State, steps: seq<Step>)
    requires Inv(s) && IsRun(s, steps)
    ensures Inv(After(s, steps))
    decreases |steps|
  {
    if steps != [] {
      StepKeepsInv(s, steps[0]);
      RunKeepsInv(Next(s, steps[0]), steps[1..]);
    }
  }

  /** Main result. In every run: deliveries strictly increase, each was the newest request when delivered and carries
      what that request asked for; while a reload is pending and the worker lives, the newest request is on its way. */
  lemma EveryRunDeliversOnlyTheNewest(steps: seq<Step>)
    requires IsRun(START, steps)
    ensures var t := After(START, steps);
            && DeliveriesAreNewest(t.delivered)
            && (forall d :: d in t.delivered && d.result.outcome.Ready? ==>
                  0 < d.newest <= |t.inputs| && d.result.outcome.input == t.inputs[d.newest - 1])
            && (t.pending && t.storing.None? && !t.dropped && !t.worker.Stopped? ==> UnderWay(t, t.latestRevision))
            && |t.inputs| == t.latestRevision
  {
    RunKeepsInv(START, steps);
  }

  /** A worker blocked on a full channel finds the UI ready to receive: the two never wait for each other. */
  lemma BlockedSendIsReceived(steps: seq<Step>)
    requires IsRun(START, steps)
    requires var t := After(START, steps); t.worker.Sending? && !Enabled(t, Send) && t.storing.None?
    ensures Enabled(After(START, steps), Receive)
  {
    RunKeepsInv(START, steps);
  }

  // ---- progress ----

  /** Steps other than the UI's own requests; the worker may die at any of them. */
  predicate Quiet(step: Step) {
    step.Receive? || step.Take? || step.Check? || step.Send? || step.Die?
  }

  predicate AllQuiet(steps: seq<Step>) {
    forall step :: step in steps ==> Quiet(step)
  }

  predicate CanProgress(s: State) {
    Enabled(s, Receive) || Enabled(s, Take) || Enabled(s, Check(Panicked)) || Enabled(s, Send)
  }

  /** Steps left until nothing is under way. */
  function Distance(s: State): nat {
    (if s.slot.Some? then 4 else 0)
    + (match s.worker case Waiting => 1 case Preparing(_) => 4 case Sending(_) => 3 case Stopped => 0)
    + (if s.channel.Some? then 1 else 0)
    + (if s.pending then 1 else 0)
  }

  /** The reload asked for last has been answered: by its result, or by the notice that the worker has stopped. */
  predicate Answered(s: State) {
    && !s.pending
    && ((|s.delivered| > 0 && s.delivered[|s.delivered| - 1].result.revision == s.latestRevision)
        || (s.worker.Stopped? && !s.hasRequests))
  }

  lemma QuietStepComesCloser(s: State, step: Step)
    requires Inv(s) && !s.dropped && Enabled(s, step) && Quiet(step)
    ensures Distance(Next(s, step)) < Distance(s)
    ensures var t := Next(s, step);
            && t.latestRevision == s.latestRevision && !t.dropped && t.storing == s.storing
            && (s.worker.Stopped? ==> t.worker.Stopped?)
            && (s.pending ==> t.pending || Answered(t))
            && (Answered(s) ==> Answered(t))
            && (!s.worker.Stopped? && s.pending && !t.pending ==>
                  t.delivered != [] && t.delivered[|t.delivered| - 1].result.revision == s.latestRevision)
  {
  }

  lemma PendingIsNeverStuck(s: State)
    requires Inv(s) && s.pending && s.storing.None? && !s.dropped
    ensures CanProgress(s)
  {
  }

  /** Without new requests a pending reload is answered: at most ten quiet steps remain, and a run of them after which
      nothing can progress has delivered the newest request, or told the UI that the worker has stopped. */
  lemma {:induction false} PendingReloadIsAnswered(s: State, steps: seq<Step>)
    requires Inv(s) && s.storing.None? && !s.dropped && IsRun(s, steps) && AllQuiet(steps)
    ensures |steps| <= Distance(s) <= 10
    ensures s.pending || Answered(s) ==>
              var t := After(s, steps);
              t.latestRevision == s.latestRevision && (!CanProgress(t) ==> Answered(t))
    decreases |steps|
  {
    if steps == [] {
      if s.pending {
        PendingIsNeverStuck(s);
      }
    } else {
      QuietStepComesCloser(s, steps[0]);
      StepKeepsInv(s, steps[0]);
      PendingReloadIsAnswered(Next(s, steps[0]), steps[1..]);
    }
  }

  /** While the worker lives, the answer is the newest request itself. */
  lemma LivingWorkerDelivers(s: State, steps: seq<Step>)
    requires Inv(s) && s.storing.None? && !s.dropped && s.pending && IsRun(s, steps) && AllQuiet(steps)
    requires var t := After(s, steps); !CanProgress(t) && !t.worker.Stopped?
    ensures var t := After(s, steps);
            !t.pending && t.delivered != [] && t.delivered[|t.delivered| - 1].result.revision == s.latestRevision
  {
    PendingReloadIsAnswered(s, steps);
  }

  /** What the worker finds in the newest configuration is what the UI gets: the settings with the input they were asked for,
      the reason for a rejection, or that preparing failed. */
  lemma WhatIsFoundIsDelivered(s: State, input: string, found: Found)
    requires s.worker.Waiting? && !s.dropped && s.pending && s.storing.None? && s.channel.None?
    requires s.latest == s.latestRevision && s.slot == Some(Request(s.latestRevision, input))
    ensures Enabled(s, Take) && Enabled(Next(s, Take), Check(found))
    ensures var checked := Next(Next(s, Take), Check(found));
            Enabled(checked, Send) && Enabled(Next(checked, Send), Receive)
    ensures var outcome := match found
                           case Parsed(text) => Ready(input, text)
                           case Invalid(text) => Rejected(text)
                           case Panicked => Failed;
            Next(Next(Next(Next(s, Take), Check(found)), Send), Receive).delivered ==
            s.delivered + [Delivery(WorkerResult(s.latestRevision, outcome), s.latestRevision)]
  {
  }
}
