/** The bounded terminal event queue (`src/event.rs`): keys must get through, renders may be dropped when it is full. */
module Events {
  import opened Wrappers

  const CAPACITY := 10

  datatype Event = Key(key: nat) | Render

  /** The worker selects, waits for room for a key, waits for room for the render after it, or has ended; an ended worker
      may take one key with it. */
  datatype Worker = Selecting | SendingKey(key: nat) | SendingRender | Ended(lost: Option<nat>)

  datatype State = State(
    queue: seq<Event>,
    worker: Worker,
    read: seq<nat>,          // keys the terminal delivered to the worker
    received: seq<Event>,    // events the main loop has handled, in order
    owed: nat,               // redraws that some party is about to request
    dirty: bool)             // whether the screen is older than the state it shows

  datatype Step =
    | ReadKey(key: nat)      // the worker reads a key
    | SendKey | SendRender   // its pending send finds room
    | Change                 // a party changes what is shown and will request a redraw
    | Request(full: bool)    // `request_render`: a render is queued, or dropped because the queue is full
    | Receive                // the main loop handles the next event
    | Redraw                 // the main loop draws for a reason of its own
    | End                    // the worker shuts down or fails

  // The worker starts by requesting the first frame.
  const START := State([], Selecting, [], [], 1, true)

  /** The queue refuses a render when it holds ten events, or nine with the last place promised to the waiting worker. */
  predicate MayRefuse(s: State) {
    |s.queue| == CAPACITY || (|s.queue| == CAPACITY - 1 && (s.worker.SendingKey? || s.worker.SendingRender?))
  }

  predicate Enabled(s: State, step: Step) {
    match step
    case ReadKey(_) => s.worker.Selecting?
    case SendKey => s.worker.SendingKey? && |s.queue| < CAPACITY
    case SendRender => s.worker.SendingRender? && |s.queue| < CAPACITY
    case Change => true
    case Request(full) => s.owed > 0 && if full then MayRefuse(s) else |s.queue| < CAPACITY
    case Receive => s.queue != []
    case Redraw => true
    case End => !s.worker.Ended?
  }

  function Next(s: State, step: Step): State
    requires Enabled(s, step)
  {
    match step
    case ReadKey(key) => s.(read := s.read + [key], worker := SendingKey(key))
    case SendKey => s.(queue := s.queue + [Key(s.worker.key)], worker := SendingRender)
    case SendRender => s.(queue := s.queue + [Render], worker := Selecting)
    case Change => s.(dirty := true, owed := s.owed + 1)
    case Request(full) => s.(owed := s.owed - 1, queue := if full then s.queue else s.queue + [Render])
    case Receive => s.(queue := s.queue[1..], received := s.received + [s.queue[0]], dirty := s.queue[0].Key?)
    case Redraw => s.(dirty := false)
    case End => s.(worker := Ended(if s.worker.SendingKey? then Some(s.worker.key) else None))
  }

  // ---- the queue and its worker, updated in place ----

  class EventQueue {
    var queue: seq<Event>
    var worker: Worker
    ghost var read: seq<nat>
    ghost var received: seq<Event>
    ghost var owed: nat
    ghost var dirty: bool

    ghost function View(): State
      reads this
    {
      State(queue, worker, read, received, owed, dirty)
    }

    constructor ()
      ensures View() == START
    {
      queue, worker := [], Selecting;
      read, received, owed, dirty := [], [], 1, true;
    }

    /** `request_render`; a full queue is not an error. */
    method RequestRender(promised: bool) returns (queued: bool)
      requires owed > 0
      requires promised ==> |queue| == CAPACITY - 1 && (worker.SendingKey? || worker.SendingRender?)
      requires |queue| <= CAPACITY
      modifies this
      ensures Enabled(old(View()), Request(!queued)) && View() == Next(old(View()), Request(!queued))
    {
      owed := owed - 1;
      queued := |queue| < CAPACITY && !promised;
      if queued {
        queue := queue + [Render];
      }
    }

    /** The key branch of `run_worker`: the key, then a render, wait for room one after the other. */
    method OnKey(key: nat)
      requires Enabled(View(), ReadKey(key))
      modifies this
      ensures View() == Next(old(View()), ReadKey(key))
    {
      read := read + [key];
      worker := SendingKey(key);
    }

    /** One poll of `send_required`: sent, stopped by a shutdown, or still waiting. */
    method PollSend(shutdown: bool) returns (step: Option<Step>)
      requires worker.SendingKey? || worker.SendingRender?
      requires |queue| <= CAPACITY
      modifies this
      ensures match step
              case Some(done) => Enabled(old(View()), done) && View() == Next(old(View()), done)
              case None => View() == old(View()) && |queue| == CAPACITY && !shutdown
      ensures shutdown ==> step == Some(End)
    {
      if shutdown {
        worker := Ended(if worker.SendingKey? then Some(worker.key) else None);
        return Some(End);
      }
      if |queue| == CAPACITY {
        return None;
      }
      if worker.SendingKey? {
        queue, worker := queue + [Key(worker.key)], SendingRender;
        return Some(SendKey);
      }
      queue, worker := queue + [Render], Selecting;
      return Some(SendRender);
    }

    /** `next_result` and the handling of its event: a key changes the state, a render draws it. */
    method NextResult() returns (event: Event)
      requires Enabled(View(), Receive)
      modifies this
      ensures View() == Next(old(View()), Receive) && event == old(queue)[0]
    {
      event, queue := queue[0], queue[1..];
      received := received + [event];
      dirty := event.Key?;
    }
  }
}

/** What the event queue guarantees over every run, although it drops renders. */
module EventTheorems {
  import opened Events

  function Keys(events: seq<Event>): seq<nat> {
    if events == [] then []
    else if events[0].Key? then [events[0].key] + Keys(events[1..])
    else Keys(events[1..])
  }

  lemma {:induction false} KeysOfSum(a: seq<Event>, b: seq<Event>)
    ensures Keys(a + b) == Keys(a) + Keys(b)
  {
    if a == [] {
      assert a + b == b;
    } else {
      assert (a + b)[1..] == a[1..] + b;
      KeysOfSum(a[1..], b);
    }
  }

  function InHand(w: Worker): seq<nat> {
    match w
    case SendingKey(key) => [key]
    case Ended(lost) => if lost.Some? then [lost.value] else []
    case _ => []
  }

  /** No key directly follows a key. */
  predicate Spaced(events: seq<Event>) {
    forall i :: 0 < i < |events| ==> events[i - 1].Render? || events[i].Render?
  }

  function Sent(s: State): seq<Event> {
    s.received + s.queue
  }

  predicate KeysConserved(s: State) {
    Keys(Sent(s)) + InHand(s.worker) == s.read
  }

  predicate KeysSpaced(s: State) {
    && Spaced(Sent(s))
    && (Sent(s) != [] && Sent(s)[|Sent(s)| - 1].Key? ==> s.worker.SendingRender? || s.worker.Ended?)
    && |s.queue| <= CAPACITY
  }

  /** A stale screen will be redrawn: someone is about to request it, a render is queued or the worker will send one. */
  predicate Covered(s: State) {
    s.dirty ==> s.owed > 0 || Render in s.queue || s.worker.SendingRender? || s.worker.Ended?
  }

  predicate Inv(s: State) {
    KeysConserved(s) && KeysSpaced(s) && Covered(s)
  }

  predicate IsRun(s: State, steps: seq<Step>)
    decreases |steps|
  {
    steps == [] || (Enabled(s, steps[0]) && IsRun(Next(s, steps[0]), steps[1..]))
  }

  function After(s: State, steps: seq<Step>): State
    requires IsRun(s, steps)
    decreases |steps|
  {
    if steps == [] then s else After(Next(s, steps[0]), steps[1..])
  }

  /** A queue that refuses a render holds one. */
  lemma RefusalIsCovered(s: State)
    requires KeysSpaced(s) && MayRefuse(s)
    ensures Render in s.queue
  {
    var k := |s.received|;
    assert Sent(s)[k] == s.queue[0] && Sent(s)[k + 1] == s.queue[1];
  }

  lemma StepExtendsSent(s: State, step: Step)
    requires Enabled(s, step)
    ensures var more := match step
                        case SendKey => [Key(s.worker.key)]
                        case SendRender => [Render]
                        case Request(full) => if full then [] else [Render]
                        case _ => [];
            Sent(Next(s, step)) == Sent(s) + more
  {
    var t := Next(s, step);
    match step
    case Receive =>
      assert s.queue == [s.queue[0]] + s.queue[1..];
      assert Sent(t) == Sent(s) + [];
    case SendKey => assert Sent(t) == s.received + (s.queue + [Key(s.worker.key)]);
    case SendRender => assert Sent(t) == s.received + (s.queue + [Render]);
    case Request(full) => if !full { assert Sent(t) == s.received + (s.queue + [Render]); }
    case _ =>
  }

  lemma StepConservesKeys(s: State, step: Step)
    requires KeysConserved(s) && Enabled(s, step)
    ensures KeysConserved(Next(s, step))
  {
    StepExtendsSent(s, step);
    var keys := Keys(Sent(s));
    assert keys + [] == keys && Sent(s) + [] == Sent(s);
    KeysOfSum(Sent(s), [Render]);
    if step.SendKey? {
      KeysOfSum(Sent(s), [Key(s.worker.key)]);
      assert keys + [s.worker.key] + [] == keys + [s.worker.key];
    }
  }

  lemma StepKeepsKeysSpaced(s: State, step: Step)
    requires KeysSpaced(s) && Enabled(s, step)
    ensures KeysSpaced(Next(s, step))
  {
    StepExtendsSent(s, step);
  }

  lemma StepKeepsCovered(s: State, step: Step)
    requires Inv(s) && Enabled(s, step)
    ensures Covered(Next(s, step))
  {
    match step
    case Request(full) =>
      if full {
        RefusalIsCovered(s);
      } else {
        assert (s.queue + [Render])[|s.queue|] == Render;
      }
    case Receive =>
      var k := |s.received|;
      assert Sent(s)[k] == s.queue[0];
      if |s.queue| > 1 {
        assert Sent(s)[k + 1] == s.queue[1] == s.queue[1..][0];
      }
    case SendKey => assert s.queue <= Next(s, step).queue;
    case SendRender => assert s.queue <= Next(s, step).queue && Next(s, step).queue[|s.queue|] == Render;
    case _ =>
  }

  lemma StepKeepsInv(s: State, step: Step)
    requires Inv(s) && Enabled(s, step)
    ensures Inv(Next(s, step))
  {
    StepConservesKeys(s, step);
    StepKeepsKeysSpaced(s, step);
    StepKeepsCovered(s, step);
  }

  lemma {:induction false} RunKeepsInv(s: State, steps: seq<Step>)
    requires Inv(s) && IsRun(s, steps)
    ensures Inv(After(s, steps))
    decreases |steps|
  {
    if steps != [] {
      StepKeepsInv(s, steps[0]);
      RunKeepsInv(Next(s, steps[0]), steps[1..]);
    }
  }

  /** Main result. In every run the keys handled, then those queued, then the one in the worker's hand are exactly the
      keys read, in order; between two keys handled there is a render; a render that the full queue drops is covered by
      one still queued; and a stale screen has its redraw ahead. */
  lemma KeysOnceInOrderAndRedrawsCovered(steps: seq<Step>)
    requires IsRun(START, steps)
    ensures var t := After(START, steps);
            && Keys(t.received) + Keys(t.queue) + InHand(t.worker) == t.read
            && Spaced(t.received)
            && (Enabled(t, Request(true)) ==> Render in t.queue)
            && Covered(t)
  {
    RunKeepsInv(START, steps);
    var t := After(START, steps);
    KeysOfSum(t.received, t.queue);
    assert forall i :: 0 <= i < |t.received| ==> Sent(t)[i] == t.received[i];
    if MayRefuse(t) {
      RefusalIsCovered(t);
    }
  }

  // ---- progress ----

  /** Steps that serve what is already there. */
  predicate Serves(step: Step) {
    step.SendKey? || step.SendRender? || step.Request? || step.Receive?
  }

  function Distance(s: State): nat {
    2 * s.owed + (match s.worker case SendingKey(_) => 4 case SendingRender => 2 case _ => 0) + |s.queue|
  }

  lemma ServingComesCloser(s: State, step: Step)
    requires Enabled(s, step) && Serves(step) && !s.worker.Ended?
    ensures Distance(Next(s, step)) < Distance(s) && !Next(s, step).worker.Ended?
  {
  }

  lemma ServedIsDrawn(s: State)
    requires Inv(s) && !s.worker.Ended?
    ensures (forall step :: Serves(step) ==> !Enabled(s, step)) ==> !s.dirty && s.queue == []
  {
    assert Serves(SendKey) && Serves(SendRender) && Serves(Request(false)) && Serves(Receive);
  }

  /** Every redraw is drawn: without new keys and changes the queue drains in a bounded number of steps, and when
      nothing is left to do under a live worker the screen is up to date. */
  lemma {:induction false} EveryChangeIsDrawn(s: State, steps: seq<Step>)
    requires Inv(s) && !s.worker.Ended? && IsRun(s, steps)
    requires forall step :: step in steps ==> Serves(step)
    ensures |steps| <= Distance(s)
    ensures var t := After(s, steps); (forall step :: Serves(step) ==> !Enabled(t, step)) ==> !t.dirty && t.queue == []
    decreases |steps|
  {
    if steps == [] {
      ServedIsDrawn(s);
    } else {
      assert steps[0] in steps;
      ServingComesCloser(s, steps[0]);
      StepKeepsInv(s, steps[0]);
      EveryChangeIsDrawn(Next(s, steps[0]), steps[1..]);
    }
  }
}
