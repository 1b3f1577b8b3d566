/** Any number of greeters loading and committing at once (`src/cache.rs`): the lock makes their effects a sequence. */
module CommitOrder {
  import opened Wrappers
  import opened CacheState
  import opened StateFile
  import opened CacheStore

  datatype Phase = Waiting | Entered | Loaded(seen: Stored) | Published | Synced | Finished(synced: bool)

  /** Inside the lock. */
  predicate Holding(p: Phase) {
    p.Entered? || p.Loaded? || p.Published? || p.Synced?
  }

  datatype Party = Party(op: Operation, phase: Phase)

  datatype State = State(
    stored: Stored,
    parties: seq<Party>,
    lock: Option<nat>,
    acquired: seq<nat>,      // parties in the order in which they got the lock
    published: seq<nat>,     // parties in the order in which they replaced the state file
    possible: set<Stored>,   // what a power loss now may leave
    settled: nat)            // how many of the replacements a power loss cannot undo

  /** `GiveUp` is a lock timeout; `Publish` is the rename and `Sync` the directory sync after it; `Release` ends an operation
      for any reason: success, an error or the death of the process, which drops the lock as well. */
  datatype Step = Acquire(i: nat) | GiveUp(i: nat) | Read(i: nat) | Publish(i: nat) | Sync(i: nat)
                | Release(i: nat)

  function Initial(stored: Stored, ops: seq<Operation>): State {
    State(stored, seq(|ops|, i requires 0 <= i < |ops| => Party(ops[i], Waiting)), None, [], [], {stored}, 0)
  }

  predicate Enabled(s: State, step: Step) {
    && step.i < |s.parties|
    && var phase := s.parties[step.i].phase;
       match step
       case Acquire(_) => phase.Waiting? && s.lock.None?
       case GiveUp(_) => phase.Waiting?
       case Read(_) => phase.Entered?
       case Publish(_) => phase.Loaded? && Target(s.parties[step.i].op, phase.seen).Some?
       case Sync(_) => phase.Published?
       case Release(_) => Holding(phase)
  }

  function Move(s: State, i: nat, phase: Phase): State
    requires i < |s.parties|
  {
    s.(parties := s.parties[i := s.parties[i].(phase := phase)])
  }

  function Next(s: State, step: Step): State
    requires Enabled(s, step)
  {
    var i := step.i;
    match step
    case Acquire(_) => Move(s, i, Entered).(lock := Some(i), acquired := s.acquired + [i])
    case GiveUp(_) => Move(s, i, Finished(false))
    case Read(_) => Move(s, i, Loaded(s.stored))
    case Publish(_) =>
      var target := Current(Target(s.parties[i].op, s.parties[i].phase.seen).value);
      Move(s, i, Published).(stored := target, published := s.published + [i], possible := s.possible + {target})
    case Sync(_) => Move(s, i, Synced).(possible := {s.stored}, settled := |s.published|)
    case Release(_) => Move(s, i, Finished(s.parties[i].phase.Synced?)).(lock := None)
  }

  predicate IsRun(s: State, steps: seq<Step>)
    decreases |steps|
  {
    steps == [] || (Enabled(s, steps[0]) && IsRun(Next(s, steps[0]), steps[1..]))
  }

  function After(s: State, steps: seq<Step>): State
    requires IsRun(s, steps)
    decreases |steps|
  {
    if steps == [] then s else After(Next(s, steps[0]), steps[1..])
  }

  /** The operations one after the other, each finding what the one before it left. */
  function Serial(initial: Stored, ops: seq<Operation>): Stored {
    if ops == [] then initial
    else
      var before := Serial(initial, ops[..|ops| - 1]);
      var target := Target(ops[|ops| - 1], before);
      if target.Some? then Current(target.value) else before
  }

  function OpsOf(s: State, order: seq<nat>): seq<Operation>
    requires forall k :: 0 <= k < |order| ==> order[k] < |s.parties|
  {
    seq(|order|, k requires 0 <= k < |order| => s.parties[order[k]].op)
  }

  predicate IsSubsequence(a: seq<nat>, b: seq<nat>) {
    if a == [] then true
    else if b == [] then false
    else if a[|a| - 1] == b[|b| - 1] then IsSubsequence(a[..|a| - 1], b[..|b| - 1])
    else IsSubsequence(a, b[..|b| - 1])
  }

  /** Mutual exclusion, and what the holder has seen is still there until it replaces it. */
  predicate Exclusive(s: State) {
    && (forall i :: 0 <= i < |s.parties| && Holding(s.parties[i].phase) ==> s.lock == Some(i))
    && (forall i :: 0 <= i < |s.parties| && s.parties[i].phase.Loaded? ==> s.parties[i].phase.seen == s.stored)
    && (s.lock.Some? ==> s.acquired != [] && s.acquired[|s.acquired| - 1] == s.lock.value)
  }

  /** The state file was replaced in the order in which the lock was got, with the holder's turn still to come. */
  predicate InLockOrder(s: State) {
    && IsSubsequence(s.published, s.acquired)
    && (s.lock.Some? && s.lock.value !in s.published ==>
          s.acquired != [] && IsSubsequence(s.published, s.acquired[..|s.acquired| - 1]))
  }

  /** Published parties are done writing, and each published once. */
  predicate PublishedAreDone(s: State) {
    && (forall k :: 0 <= k < |s.published| ==>
          && s.published[k] < |s.parties|
          && var phase := s.parties[s.published[k]].phase; phase.Published? || phase.Synced? || phase.Finished?)
    && (forall j, k :: 0 <= j < k < |s.published| ==> s.published[j] != s.published[k])
  }

  predicate PublishedByParties(s: State) {
    forall k :: 0 <= k < |s.published| ==> s.published[k] < |s.parties|
  }

  predicate Serialized(s: State, initial: Stored) {
    && PublishedByParties(s)
    && s.stored == Serial(initial, OpsOf(s, s.published))
  }

  /** What a power loss may leave is what some of the replacements made of the initial state, all settled ones included. */
  ghost predicate Survives(s: State, initial: Stored, survivor: Stored) {
    && PublishedByParties(s)
    && exists k :: s.settled <= k <= |s.published| && survivor == Serial(initial, OpsOf(s, s.published[..k]))
  }

  ghost predicate Durable(s: State, initial: Stored) {
    && s.settled <= |s.published| && s.stored in s.possible
    && forall survivor :: survivor in s.possible ==> Survives(s, initial, survivor)
  }

  /** A party that has synced the directory, or has reported so, is among the settled ones. */
  predicate SyncedAreSettled(s: State) {
    && s.settled <= |s.published|
    && (forall i :: 0 <= i < |s.parties| && s.parties[i].phase.Published? ==>
          s.published != [] && s.published[|s.published| - 1] == i)
    && (forall i :: 0 <= i < |s.parties| && (s.parties[i].phase.Synced? || s.parties[i].phase == Finished(true)) ==>
          i in s.published[..s.settled])
  }

  ghost predicate Inv(s: State, initial: Stored) {
    && Exclusive(s) && PublishedAreDone(s) && InLockOrder(s) && Serialized(s, initial)
    && Durable(s, initial) && SyncedAreSettled(s)
  }

  lemma {:induction false} LongerIsStillSubsequence(a: seq<nat>, b: seq<nat>, x: nat)
    requires IsSubsequence(a, b)
    ensures IsSubsequence(a, b + [x])
    decreases |a| + |b|, 1
  {
    assert (b + [x])[..|b|] == b;
    if a != [] && a[|a| - 1] == x {
      ShorterIsStillSubsequence(a, b);
    }
  }

  lemma {:induction false} ShorterIsStillSubsequence(a: seq<nat>, b: seq<nat>)
    requires a != [] && IsSubsequence(a, b)
    ensures IsSubsequence(a[..|a| - 1], b)
    decreases |a| + |b|, 0
  {
    if b != [] {
      if a[|a| - 1] == b[|b| - 1] {
        var b1 := b[..|b| - 1];
        assert b == b1 + [b[|b| - 1]];
        LongerIsStillSubsequence(a[..|a| - 1], b1, b[|b| - 1]);
      } else {
        ShorterIsStillSubsequence(a, b[..|b| - 1]);
        LongerIsStillSubsequence(a[..|a| - 1], b[..|b| - 1], b[|b| - 1]);
        assert b == b[..|b| - 1] + [b[|b| - 1]];
      }
    }
  }

  lemma StepKeepsExclusive(s: State, step: Step)
    requires Exclusive(s) && Enabled(s, step)
    ensures Exclusive(Next(s, step))
  {
  }

  lemma StepKeepsPublishedDone(s: State, step: Step)
    requires PublishedAreDone(s) && Enabled(s, step)
    ensures PublishedAreDone(Next(s, step))
  {
  }

  lemma StepKeepsLockOrder(s: State, step: Step)
    requires Exclusive(s) && PublishedAreDone(s) && InLockOrder(s) && Enabled(s, step)
    ensures InLockOrder(Next(s, step))
  {
    var t := Next(s, step);
    match step
    case Acquire(i) =>
      LongerIsStillSubsequence(s.published, s.acquired, i);
      assert t.acquired[..|t.acquired| - 1] == s.acquired;
    case Publish(i) =>
      assert Holding(s.parties[i].phase);
      assert t.published[..|t.published| - 1] == s.published;
      assert t.published[|s.published|] == i;
    case _ =>
  }

  lemma SerialOfOneMore(initial: Stored, ops: seq<Operation>, op: Operation)
    ensures var before := Serial(initial, ops); var target := Target(op, before);
            Serial(initial, ops + [op]) == if target.Some? then Current(target.value) else before
  {
    assert (ops + [op])[..|ops|] == ops;
  }

  lemma OpsOfNext(s: State, step: Step)
    requires PublishedByParties(s) && Enabled(s, step)
    ensures var t := Next(s, step);
            && PublishedByParties(t)
            && OpsOf(t, t.published) == OpsOf(s, s.published) + if step.Publish? then [s.parties[step.i].op] else []
  {
  }

  lemma StepKeepsSerialized(s: State, step: Step, initial: Stored)
    requires Exclusive(s) && Serialized(s, initial) && Enabled(s, step)
    ensures Serialized(Next(s, step), initial)
  {
    OpsOfNext(s, step);
    if step.Publish? {
      SerialOfOneMore(initial, OpsOf(s, s.published), s.parties[step.i].op);
    } else {
      assert OpsOf(s, s.published) + [] == OpsOf(s, s.published);
    }
  }

  lemma SamePrefix(s: State, step: Step, k: nat)
    requires PublishedAreDone(s) && Enabled(s, step) && k <= |s.published|
    ensures var t := Next(s, step);
            PublishedByParties(t) && OpsOf(t, t.published[..k]) == OpsOf(s, s.published[..k])
  {
    assert Next(s, step).published[..k] == s.published[..k];
  }

  lemma SurvivorStays(s: State, step: Step, initial: Stored, survivor: Stored)
    requires PublishedAreDone(s) && Enabled(s, step) && !step.Sync? && Survives(s, initial, survivor)
    ensures Survives(Next(s, step), initial, survivor)
  {
    var k :| s.settled <= k <= |s.published| && survivor == Serial(initial, OpsOf(s, s.published[..k]));
    SamePrefix(s, step, k);
  }

  lemma StoredSurvives(s: State, initial: Stored)
    requires Serialized(s, initial) && s.settled <= |s.published|
    ensures Survives(s, initial, s.stored)
  {
    assert s.published[..|s.published|] == s.published;
  }

  lemma StepKeepsDurable(s: State, step: Step, initial: Stored)
    requires Inv(s, initial) && Enabled(s, step) && Serialized(Next(s, step), initial)
    ensures Durable(Next(s, step), initial)
  {
    var t := Next(s, step);
    StoredSurvives(t, initial);
    forall survivor | survivor in t.possible
      ensures Survives(t, initial, survivor)
    {
      if survivor != t.stored {
        SurvivorStays(s, step, initial, survivor);
      }
    }
  }

  lemma StepKeepsSettled(s: State, step: Step)
    requires Exclusive(s) && SyncedAreSettled(s) && Enabled(s, step)
    ensures SyncedAreSettled(Next(s, step))
  {
    var t := Next(s, step);
    assert Holding(s.parties[step.i].phase) ==> s.lock == Some(step.i);
    forall i | 0 <= i < |t.parties| && (t.parties[i].phase.Synced? || t.parties[i].phase == Finished(true))
      ensures i in t.published[..t.settled]
    {
      if step != Sync(i) {
        assert s.parties[i].phase.Synced? || s.parties[i].phase == Finished(true);
        assert s.published[..s.settled] <= t.published[..t.settled];
      }
    }
  }

  lemma {:induction false} RunKeepsInv(s: State, steps: seq<Step>, initial: Stored)
    requires Inv(s, initial) && IsRun(s, steps)
    ensures Inv(After(s, steps), initial)
    decreases |steps|
  {
    if steps != [] {
      StepKeepsExclusive(s, steps[0]);
      StepKeepsPublishedDone(s, steps[0]);
      StepKeepsLockOrder(s, steps[0]);
      StepKeepsSerialized(s, steps[0], initial);
      StepKeepsDurable(s, steps[0], initial);
      StepKeepsSettled(s, steps[0]);
      RunKeepsInv(Next(s, steps[0]), steps[1..], initial);
    }
  }

  /** Main result: after any interleaving the stored state is what the operations that replaced it give one after the
      other, in the order in which they got the lock, each at most once; all others left no trace. */
  lemma EveryRunIsSerial(initial: Stored, ops: seq<Operation>, steps: seq<Step>)
    requires IsRun(Initial(initial, ops), steps)
    ensures var t := After(Initial(initial, ops), steps);
            && InLockOrder(t) && PublishedAreDone(t)
            && t.stored == Serial(initial, OpsOf(t, t.published))
            && |t.parties| == |ops| && forall i :: 0 <= i < |ops| ==> t.parties[i].op == ops[i]
  {
    StartIsInv(initial, ops);
    RunKeepsInv(Initial(initial, ops), steps, initial);
    RunKeepsOps(Initial(initial, ops), steps);
  }

  lemma StartIsInv(initial: Stored, ops: seq<Operation>)
    ensures Inv(Initial(initial, ops), initial)
  {
    StoredSurvives(Initial(initial, ops), initial);
  }

  /** The first `k` replacements are what is left, with every party among them that reported its write as synced. */
  ghost predicate IsLeft(s: State, initial: Stored, survivor: Stored, k: nat) {
    && PublishedByParties(s) && k <= |s.published| && survivor == Serial(initial, OpsOf(s, s.published[..k]))
    && forall i :: 0 <= i < |s.parties| && s.parties[i].phase == Finished(true) ==> i in s.published[..k]
  }

  /** And a power loss at any moment leaves a prefix of that order that holds everything reported as stored. */
  lemma PowerLossLeavesReportedWrites(initial: Stored, ops: seq<Operation>, steps: seq<Step>, survivor: Stored)
    requires IsRun(Initial(initial, ops), steps) && survivor in After(Initial(initial, ops), steps).possible
    ensures exists k :: IsLeft(After(Initial(initial, ops), steps), initial, survivor, k)
  {
    var t := After(Initial(initial, ops), steps);
    StartIsInv(initial, ops);
    RunKeepsInv(Initial(initial, ops), steps, initial);
    assert Survives(t, initial, survivor);
    var k :| t.settled <= k <= |t.published| && survivor == Serial(initial, OpsOf(t, t.published[..k]));
    assert t.published[..t.settled] <= t.published[..k];
    assert IsLeft(t, initial, survivor, k);
  }

  lemma {:induction false} RunKeepsOps(s: State, steps: seq<Step>)
    requires IsRun(s, steps)
    ensures var t := After(s, steps);
            |t.parties| == |s.parties| && forall i :: 0 <= i < |s.parties| ==> t.parties[i].op == s.parties[i].op
    decreases |steps|
  {
    if steps != [] {
      RunKeepsOps(Next(s, steps[0]), steps[1..]);
    }
  }

  lemma {:induction false} OtherVersionsStay(version: nat, ops: seq<Operation>)
    ensures Serial(Future(version), ops) == Future(version)
    decreases |ops|
  {
    if ops != [] {
      OtherVersionsStay(version, ops[..|ops| - 1]);
    }
  }

  /** A document of another version outlives every run, and no commit or load replaces it. */
  lemma OtherVersionIsNeverReplaced(version: nat, ops: seq<Operation>, steps: seq<Step>)
    requires IsRun(Initial(Future(version), ops), steps)
    ensures After(Initial(Future(version), ops), steps).stored == Future(version)
  {
    EveryRunIsSerial(Future(version), ops, steps);
    var t := After(Initial(Future(version), ops), steps);
    OtherVersionsStay(version, OpsOf(t, t.published));
  }

  /** Whether an operation works under a policy without free-form commands; migration never yields one. */
  ghost predicate Purges(op: Operation) {
    match op
    case CommitOf(update) => update.purgeCommands
    case LoadOf(migrated, allowCommands) => !allowCommands && (migrated.Some? ==> !HasCommand(migrated.value))
  }

  /** Whatever others stored before, an operation that purges and writes leaves no command in any slot. */
  lemma PurgingLeavesNoCommand(initial: Stored, ops: seq<Operation>)
    requires ops != [] && Purges(ops[|ops| - 1])
    requires Target(ops[|ops| - 1], Serial(initial, ops[..|ops| - 1])).Some?
    ensures Serial(initial, ops).Current? && !HasCommand(Serial(initial, ops).state)
  {
    var before := Serial(initial, ops[..|ops| - 1]);
    match ops[|ops| - 1]
    case CommitOf(update) => PurgingUpdateLeavesNoCommand(Base(before).value, update);
    case LoadOf(_, _) => if before.Current? { PurgeRemovesExactlyCommands(before.state); }
  }
}
