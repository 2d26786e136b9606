/**
  The whole life of one scheduler task: rounds of collecting, sorting and draining, a native pool
  that may refuse or lose a job, and an end by stop or by abort. Every request that reached the
  scheduler has exactly one outcome.
 */
module SchedulerLife {
  import opened EmbeddingCore
  import opened Scheduling
  import opened Batching
  import Sorting

  /** What became of a dispatched job: refused by the bounded pool, run, or lost with its worker. */
  datatype Fate = Full | Runs | Lost

  /** Everything outside the scheduler's control during one round. */
  datatype Surroundings = Surroundings(
    control: Liveness,
    fate: nat -> Fate,
    world: nat -> World,
    engine: nat -> Engine,
    abortedAfter: Option<nat>)

  datatype Window = Window(collected: seq<Request>, surroundings: Surroundings)

  datatype Answer = Sent(result: Result<Output>) | SenderDropped

  datatype Outcome = Outcome(request: Request, answer: Answer)

  function Askers(log: seq<Outcome>): seq<Request> {
    seq(|log|, i requires 0 <= i < |log| => log[i].request)
  }

  function Dropped(requests: seq<Request>): seq<Outcome> {
    seq(|requests|, i requires 0 <= i < |requests| => Outcome(requests[i], SenderDropped))
  }

  function Replied(log: seq<Reply>): seq<Outcome> {
    seq(|log|, i requires 0 <= i < |log| => Outcome(log[i].request, Sent(log[i].answer)))
  }

  /** `dispatch_batch`, or the immediate refusal of an inactive head. */
  ghost function StepLog(step: Step, fate: Fate, world: World, engine: Engine): seq<Outcome> {
    match step
    case Refused(r, code) => [Outcome(r, Sent(Err(code)))]
    case Dispatched(batch) =>
      match fate
      case Full => Replied(Fail(batch, QueueFull, world))
      case Lost => Dropped(batch)
      case Runs => Replied(Execute(engine, batch, world))
  }

  /** Steps `t..` of a round; an abort takes effect at a yield and drops whatever is still pending. */
  ghost function StepsLog(steps: seq<Step>, around: Surroundings, t: nat): seq<Outcome> {
    if steps == [] then []
    else if around.abortedAfter == Some(t) then Dropped(AllMembers(steps))
    else StepLog(steps[0], around.fate(t), around.world(t), around.engine(t)) + StepsLog(steps[1..], around, t + 1)
  }

  ghost predicate AbortsIn(steps: seq<Step>, around: Surroundings) {
    around.abortedAfter.Some? && around.abortedAfter.value < |steps|
  }

  /** Rounds in order, then the closing sequence for what is left in the deque and the channel. */
  ghost function Life(windows: seq<Window>, left: seq<Request>, policy: BatchPolicy, closing: World): seq<Outcome> {
    if windows == [] then Replied(Fail(left, ModelUnavailable, closing))
    else
      RoundLog(windows[0], policy)
      + (if RoundAborts(windows[0], policy) then Dropped(Received(windows[1..], left))
         else Life(windows[1..], left, policy, closing))
  }

  ghost function RoundLog(w: Window, policy: BatchPolicy): seq<Outcome> {
    StepsLog(Round(w.collected, policy, w.surroundings.control), w.surroundings, 0)
  }

  ghost predicate RoundAborts(w: Window, policy: BatchPolicy) {
    AbortsIn(Round(w.collected, policy, w.surroundings.control), w.surroundings)
  }

  function Received(windows: seq<Window>, left: seq<Request>): seq<Request> {
    if windows == [] then left else windows[0].collected + Received(windows[1..], left)
  }

  // ----- Exactly one outcome -----

  lemma {:induction false} AskersConcat(a: seq<Outcome>, b: seq<Outcome>)
    ensures Askers(a + b) == Askers(a) + Askers(b)
  {}

  lemma {:induction false} StepAnswersMembers(step: Step, fate: Fate, world: World, engine: Engine)
    ensures multiset(Askers(StepLog(step, fate, world, engine))) == multiset(Members(step))
  {
    match step
    case Refused(r, code) =>
      assert Askers(StepLog(step, fate, world, engine)) == [r];
    case Dispatched(batch) =>
      match fate
      case Full =>
        assert Askers(StepLog(step, fate, world, engine)) == batch;
      case Lost =>
        assert Askers(Dropped(batch)) == batch;
      case Runs =>
        AnsweredExactlyOnce(engine, batch, world);
        var log := Execute(engine, batch, world);
        assert Askers(Replied(log)) == Requests(log);
  }

  lemma {:induction false} StepsAnswerMembers(steps: seq<Step>, around: Surroundings, t: nat)
    ensures multiset(Askers(StepsLog(steps, around, t))) == multiset(AllMembers(steps))
    decreases |steps|
  {
    if steps == [] {
    } else if around.abortedAfter == Some(t) {
      assert Askers(Dropped(AllMembers(steps))) == AllMembers(steps);
    } else {
      var here := StepLog(steps[0], around.fate(t), around.world(t), around.engine(t));
      var later := StepsLog(steps[1..], around, t + 1);
      StepAnswersMembers(steps[0], around.fate(t), around.world(t), around.engine(t));
      StepsAnswerMembers(steps[1..], around, t + 1);
      AskersConcat(here, later);
    }
  }

  /** Every request the scheduler ever received is answered once or has its sender dropped once. */
  lemma {:induction false} EachRequestOneOutcome(windows: seq<Window>, left: seq<Request>, policy: BatchPolicy,
          closing: World)
    ensures multiset(Askers(Life(windows, left, policy, closing))) == multiset(Received(windows, left))
    decreases |windows|
  {
    if windows == [] {
      assert Askers(Replied(Fail(left, ModelUnavailable, closing))) == left;
    } else {
      var w := windows[0];
      var sorted := Sorting.Sort(w.collected, BySequence);
      var steps := Round(w.collected, policy, w.surroundings.control);
      DrainPartitions(sorted, policy, w.surroundings.control, 0);
      StepsAnswerMembers(steps, w.surroundings, 0);
      var rest := Received(windows[1..], left);
      var later := if AbortsIn(steps, w.surroundings) then Dropped(rest) else Life(windows[1..], left, policy, closing);
      if AbortsIn(steps, w.surroundings) {
        assert Askers(Dropped(rest)) == rest;
      } else {
        EachRequestOneOutcome(windows[1..], left, policy, closing);
      }
      AskersConcat(StepsLog(steps, w.surroundings, 0), later);
    }
  }

  // ----- Every success is contracted -----

  ghost predicate Sound(log: seq<Outcome>) {
    forall i :: 0 <= i < |log| && log[i].answer.Sent? && log[i].answer.result.Ok? ==>
      Contracted(log[i].request, log[i].answer.result.value)
  }

  lemma {:induction false} StepSound(step: Step, fate: Fate, world: World, engine: Engine)
    ensures Sound(StepLog(step, fate, world, engine))
  {
    if step.Dispatched? && fate.Runs? {
      var log := Execute(engine, step.batch, world);
      forall i | 0 <= i < |log| && log[i].answer.Ok? ensures Contracted(log[i].request, log[i].answer.value) {
        OkIsOwnSlice(engine, step.batch, world, i);
      }
    }
  }

  lemma {:induction false} StepsSound(steps: seq<Step>, around: Surroundings, t: nat)
    ensures Sound(StepsLog(steps, around, t))
    decreases |steps|
  {
    if steps != [] && around.abortedAfter != Some(t) {
      StepSound(steps[0], around.fate(t), around.world(t), around.engine(t));
      StepsSound(steps[1..], around, t + 1);
    }
  }

  /** Over the scheduler's whole life no caller ever receives an uncontracted success. */
  lemma {:induction false} EverySuccessContracted(windows: seq<Window>, left: seq<Request>, policy: BatchPolicy,
          closing: World)
    ensures Sound(Life(windows, left, policy, closing))
    decreases |windows|
  {
    if windows != [] {
      var w := windows[0];
      StepsSound(Round(w.collected, policy, w.surroundings.control), w.surroundings, 0);
      EverySuccessContracted(windows[1..], left, policy, closing);
    }
  }

  // ----- The loop itself -----

  lemma {:induction false} Regroup<T>(a: seq<T>, b: seq<T>, c: seq<T>)
    ensures a + (b + c) == (a + b) + c
  {}

  method RunStep(step: Step, fate: Fate, world: World, engine: Engine) returns (log: seq<Outcome>)
    requires SizedEngine(engine) && forall r :: r in Members(step) ==> SizedRequest(r)
    ensures log == StepLog(step, fate, world, engine)
  {
    match step
    case Refused(r, code) => log := [Outcome(r, Sent(Err(code)))];
    case Dispatched(batch) =>
      match fate {
        case Full => log := Replied(Fail(batch, QueueFull, world));
        case Lost => log := Dropped(batch);
        case Runs =>
          var replies := ExecuteBatch(engine, batch, world);
          log := Replied(replies);
      }
  }

  lemma {:induction false} RoundMembers(w: Window, policy: BatchPolicy, t: nat, r: Request)
    requires t < |Round(w.collected, policy, w.surroundings.control)|
    requires r in Members(Round(w.collected, policy, w.surroundings.control)[t])
    ensures r in w.collected
  {
    var sorted := Sorting.Sort(w.collected, BySequence);
    DrainPartitions(sorted, policy, w.surroundings.control, 0);
    MemberOfAll(Round(w.collected, policy, w.surroundings.control), t, r);
    assert r in multiset(AllMembers(Round(w.collected, policy, w.surroundings.control)));
  }

  ghost predicate SizedWindow(w: Window) {
    && (forall t :: SizedEngine(w.surroundings.engine(t)))
    && (forall r :: r in w.collected ==> SizedRequest(r))
  }

  /** Every request the steps handle, and every engine they may call, is of a machine's size. */
  ghost predicate SizedSteps(steps: seq<Step>, around: Surroundings) {
    && (forall t :: SizedEngine(around.engine(t)))
    && (forall t, r :: 0 <= t < |steps| && r in Members(steps[t]) ==> SizedRequest(r))
  }

  method RunRound(w: Window, policy: BatchPolicy) returns (log: seq<Outcome>, aborted: bool)
    requires policy.Valid() && SizedWindow(w)
    ensures log == RoundLog(w, policy) && aborted == RoundAborts(w, policy)
  {
    var steps := DrainPending(Sorting.Sort(w.collected, BySequence), policy, w.surroundings.control);
    forall t, r | 0 <= t < |steps| && r in Members(steps[t]) ensures SizedRequest(r) {
      RoundMembers(w, policy, t, r);
    }
    log, aborted := RunSteps(steps, w.surroundings);
  }

  method RunSteps(steps: seq<Step>, around: Surroundings) returns (log: seq<Outcome>, aborted: bool)
    requires SizedSteps(steps, around)
    ensures log == StepsLog(steps, around, 0) && aborted == AbortsIn(steps, around)
  {
    aborted := around.abortedAfter.Some? && around.abortedAfter.value < |steps|;
    var end := if aborted then around.abortedAfter.value else |steps|;
    log := [];
    ghost var whole := StepsLog(steps, around, 0);
    ghost var todo := whole;
    assert steps[0..] == steps;
    for t := 0 to end
      invariant whole == log + todo && todo == StepsLog(steps[t..], around, t)
    {
      var here := RunStep(steps[t], around.fate(t), around.world(t), around.engine(t));
      ghost var next := StepsLog(steps[t + 1..], around, t + 1);
      StepsUnfold(steps, around, t, here);
      Regroup(log, here, next);
      log, todo := log + here, next;
    }
    if aborted {
      StepsAborted(steps, around, end);
      log := log + Dropped(AllMembers(steps[end..]));
    }
  }

  /** The next step of a round in front of the remaining ones. */
  lemma {:induction false} StepsUnfold(steps: seq<Step>, around: Surroundings, t: nat, here: seq<Outcome>)
    requires t < |steps| && around.abortedAfter != Some(t)
    requires here == StepLog(steps[t], around.fate(t), around.world(t), around.engine(t))
    ensures StepsLog(steps[t..], around, t) == here + StepsLog(steps[t + 1..], around, t + 1)
  {
    assert steps[t..][0] == steps[t] && steps[t..][1..] == steps[t + 1..];
  }

  /** A task aborted at a yield drops everything it has not handled. */
  lemma {:induction false} StepsAborted(steps: seq<Step>, around: Surroundings, t: nat)
    requires t < |steps| && around.abortedAfter == Some(t)
    ensures StepsLog(steps[t..], around, t) == Dropped(AllMembers(steps[t..])) && AbortsIn(steps, around)
  {}

  method RunScheduler(windows: seq<Window>, left: seq<Request>, policy: BatchPolicy, closing: World)
    returns (log: seq<Outcome>)
    requires policy.Valid() && forall i :: 0 <= i < |windows| ==> SizedWindow(windows[i])
    ensures multiset(Askers(log)) == multiset(Received(windows, left))
    ensures Sound(log)
  {
    log := RunWindows(windows, left, policy, closing);
    EachRequestOneOutcome(windows, left, policy, closing);
    EverySuccessContracted(windows, left, policy, closing);
  }

  method RunWindows(windows: seq<Window>, left: seq<Request>, policy: BatchPolicy, closing: World)
    returns (log: seq<Outcome>)
    requires policy.Valid() && forall i :: 0 <= i < |windows| ==> SizedWindow(windows[i])
    ensures log == Life(windows, left, policy, closing)
  {
    log := [];
    ghost var whole := Life(windows, left, policy, closing);
    ghost var todo := whole;
    assert windows[0..] == windows;
    for i := 0 to |windows|
      invariant whole == log + todo && todo == Life(windows[i..], left, policy, closing)
    {
      var round, aborted := RunRound(windows[i], policy);
      LifeUnfold(windows, i, left, policy, closing, round);
      if aborted {
        ghost var dropped := Dropped(Received(windows[i + 1..], left));
        Regroup(log, round, dropped);
        log := log + round + Dropped(Received(windows[i + 1..], left));
        return;
      }
      ghost var next := Life(windows[i + 1..], left, policy, closing);
      Regroup(log, round, next);
      log, todo := log + round, next;
    }
    log := log + Replied(Fail(left, ModelUnavailable, closing));
  }

  /** The next window of the scheduler's life in front of the remaining ones. */
  lemma {:induction false} LifeUnfold(windows: seq<Window>, i: nat, left: seq<Request>, policy: BatchPolicy,
          closing: World, round: seq<Outcome>)
    requires i < |windows| && round == RoundLog(windows[i], policy)
    ensures Life(windows[i..], left, policy, closing) == round +
      (if RoundAborts(windows[i], policy) then Dropped(Received(windows[i + 1..], left))
       else Life(windows[i + 1..], left, policy, closing))
  {
    assert windows[i..][0] == windows[i] && windows[i..][1..] == windows[i + 1..];
  }
}
