/**
  What a scheduler owes its callers: no request is turned away without a reason of its own or of
  the pool, and a scheduler nothing interferes with serves every request it receives.
 */
module SchedulerService {
  import opened EmbeddingCore
  import opened Scheduling
  import opened Batching
  import opened BatchAnswers
  import opened SchedulerLife
  import opened SchedulerPromises
  import Sorting

  /** The request is healthy: alone and undisturbed it is served. */
  ghost predicate Healthy(solo: Engine, r: Request) {
    Alone(solo, r).Ok?
  }

  /**
    The reasons for an outcome of iteration `t` of a round: the caller's own cancellation or
    deadline, the model's fence, a full or failing pool, an abort. Nothing else keeps a healthy
    request from its own result.
   */
  ghost predicate Reasoned(o: Outcome, around: Surroundings, t: nat, solo: Engine) {
    var r, world := o.request, around.world(t);
    match o.answer
    case SenderDropped => around.fate(t).Lost? || (around.abortedAfter.Some? && around.abortedAfter.value <= t)
    case Sent(Ok(out)) => Alone(solo, r) == Ok(out)
    case Sent(Err(code)) =>
      || around.control(t, r) == Some(code)
      || (around.fate(t).Full? && (code == QueueFull || world.control(AtFailure, r) == Some(code)))
      || (around.fate(t).Runs?
          && (Stopped(world, AtStart, r) == Some(code) || Stopped(world, AtPublish, r) == Some(code)))
  }

  /** The outcome has its reason in one of the first `n` iterations. */
  ghost predicate Within(o: Outcome, around: Surroundings, n: nat, solo: Engine) {
    exists t: nat :: t < n && Reasoned(o, around, t, solo)
  }

  ghost predicate AllWithin(log: seq<Outcome>, around: Surroundings, n: nat, solo: Engine) {
    forall i :: 0 <= i < |log| ==> Within(log[i], around, n, solo)
  }

  lemma {:induction false} AllWithinConcat(a: seq<Outcome>, b: seq<Outcome>, around: Surroundings, n: nat, solo: Engine)
    requires AllWithin(a, around, n, solo) && AllWithin(b, around, n, solo)
    ensures AllWithin(a + b, around, n, solo)
  {}

  /** What a batch of healthy requests is answered, in terms of each member alone. */
  lemma {:induction false} HealthyReplies(engine: Engine, solo: Engine, per: PerInput, identity: Identity, rows: nat,
          batch: seq<Request>, world: World, i: nat)
    requires Pointwise(engine, per, identity, rows) && Pointwise(solo, per, identity, rows)
    requires OneBatch(batch) && Items(batch) <= rows && forall r :: r in batch ==> Healthy(solo, r)
    requires i < |Execute(engine, batch, world)|
    ensures var reply := Execute(engine, batch, world)[i];
      reply.request in batch && reply == Own(solo, world, reply.request)
  {
    FewerRows(engine, per, identity, rows, Items(batch));
    forall r | r in batch ensures Alone(engine, r) == Alone(solo, r) {
      var j :| 0 <= j < |batch| && batch[j] == r;
      MemberItems(batch, j);
      FewerRows(engine, per, identity, rows, |r.inputs|);
      FewerRows(solo, per, identity, rows, |r.inputs|);
      SameAlone(solo, engine, per, identity, r);
    }
    OwnReplies(engine, per, identity, batch, world, i);
    EveryAnswerIsDue(engine, batch, world, i);
  }

  /** A reply of a batch whose members succeed alone is its member's own. */
  lemma {:induction false} OwnReplies(engine: Engine, per: PerInput, identity: Identity, requests: seq<Request>,
          world: World, i: nat)
    requires Pointwise(engine, per, identity, Items(requests)) && OneBatch(requests)
    requires forall r :: r in requests ==> Alone(engine, r).Ok?
    requires i < |Execute(engine, requests, world)|
    ensures var reply := Execute(engine, requests, world)[i]; reply == Own(engine, world, reply.request)
  {
    var away, active := TurnedAway(requests, world), Active(requests, world);
    if i < |away| {
      TurnedAwayAreStopped(requests, world, i);
    } else {
      SettledAsOwn(engine, per, identity, requests, world, i - |away|);
      SettleAnswersEach(engine(Concat(active), active[0].options), active, world);
    }
  }

  /** A step of a round whose requests are healthy and whose heads were decided by their controls. */
  ghost predicate Sensible(step: Step, control: Liveness, t: nat, solo: Engine, rows: nat) {
    match step
    case Refused(r, code) => control(t, r) == Some(code)
    case Dispatched(batch) => OneBatch(batch) && Items(batch) <= rows && forall r :: r in batch ==> Healthy(solo, r)
  }

  lemma {:induction false} StepReasoned(step: Step, around: Surroundings, t: nat, solo: Engine, per: PerInput,
          identity: Identity, rows: nat, i: nat)
    requires Pointwise(around.engine(t), per, identity, rows) && Pointwise(solo, per, identity, rows)
    requires Sensible(step, around.control, t, solo, rows)
    requires i < |StepLog(step, around.fate(t), around.world(t), around.engine(t))|
    ensures Reasoned(StepLog(step, around.fate(t), around.world(t), around.engine(t))[i], around, t, solo)
  {
    if step.Dispatched? && around.fate(t).Runs? {
      HealthyReplies(around.engine(t), solo, per, identity, rows, step.batch, around.world(t), i);
    }
  }

  lemma {:induction false} AbortReasoned(requests: seq<Request>, around: Surroundings, t: nat, solo: Engine, i: nat)
    requires around.abortedAfter == Some(t) && i < |requests|
    ensures Reasoned(Dropped(requests)[i], around, t, solo)
  {}

  lemma {:induction false} StepsReasoned(steps: seq<Step>, around: Surroundings, t: nat, n: nat, solo: Engine,
          per: PerInput, identity: Identity, rows: nat)
    requires (forall m :: Pointwise(around.engine(m), per, identity, rows)) && Pointwise(solo, per, identity, rows)
    requires forall k :: 0 <= k < |steps| ==> Sensible(steps[k], around.control, t + k, solo, rows)
    requires t + |steps| <= n
    ensures AllWithin(StepsLog(steps, around, t), around, n, solo)
    decreases |steps|
  {
    if steps != [] {
      var log := StepsLog(steps, around, t);
      if around.abortedAfter == Some(t) {
        forall i | 0 <= i < |log| ensures Within(log[i], around, n, solo) {
          AbortReasoned(AllMembers(steps), around, t, solo, i);
        }
      } else {
        var here := StepLog(steps[0], around.fate(t), around.world(t), around.engine(t));
        forall i | 0 <= i < |here| ensures Within(here[i], around, n, solo) {
          StepReasoned(steps[0], around, t, solo, per, identity, rows, i);
        }
        forall k | 0 <= k < |steps[1..]| ensures Sensible(steps[1..][k], around.control, t + 1 + k, solo, rows) {
          assert Sensible(steps[k + 1], around.control, t + (k + 1), solo, rows);
        }
        StepsReasoned(steps[1..], around, t + 1, n, solo, per, identity, rows);
        AllWithinConcat(here, StepsLog(steps[1..], around, t + 1), around, n, solo);
      }
    }
  }

  /** What a window brings: queued, healthy requests, and an engine that computes `per` at every call. */
  ghost predicate HealthyWindow(w: Window, policy: BatchPolicy, solo: Engine, per: PerInput, identity: Identity) {
    Served(w, policy, per, identity) && forall r :: r in w.collected ==> Healthy(solo, r)
  }

  ghost function Iterations(w: Window, policy: BatchPolicy): nat {
    |Round(w.collected, policy, w.surroundings.control)|
  }

  lemma {:induction false} RoundSensible(w: Window, policy: BatchPolicy, solo: Engine, k: nat)
    requires policy.Valid() && forall r :: r in w.collected ==> Queued(r, policy) && Healthy(solo, r)
    requires k < Iterations(w, policy)
    ensures var step := Round(w.collected, policy, w.surroundings.control)[k];
      Sensible(step, w.surroundings.control, k, solo, policy.maxBatchItems)
  {
    HeadDecides(Sorting.Sort(w.collected, BySequence), policy, w.surroundings.control, 0, k);
    if Round(w.collected, policy, w.surroundings.control)[k].Dispatched? {
      RoundBatches(w.collected, policy, w.surroundings.control, k);
    }
  }

  /** Over a round of healthy requests, every outcome has its reason in that round. */
  lemma {:induction false} RoundReasoned(w: Window, policy: BatchPolicy, solo: Engine, per: PerInput,
          identity: Identity)
    requires policy.Valid() && Pointwise(solo, per, identity, policy.maxBatchItems)
    requires HealthyWindow(w, policy, solo, per, identity)
    ensures AllWithin(RoundLog(w, policy), w.surroundings, Iterations(w, policy), solo)
  {
    var steps := Round(w.collected, policy, w.surroundings.control);
    forall k | 0 <= k < |steps|
      ensures Sensible(steps[k], w.surroundings.control, 0 + k, solo, policy.maxBatchItems)
    {
      RoundSensible(w, policy, solo, k);
    }
    StepsReasoned(steps, w.surroundings, 0, |steps|, solo, per, identity, policy.maxBatchItems);
  }

  // ----- A whole life -----

  /** The outcome was decided in this window. */
  ghost predicate DecidedIn(o: Outcome, w: Window, policy: BatchPolicy, solo: Engine) {
    Within(o, w.surroundings, Iterations(w, policy), solo)
  }

  /** What a request still waiting when the scheduler closes is told. */
  ghost predicate Closed(o: Outcome, left: seq<Request>, closing: World) {
    && o.request in left
    && o.answer == Sent(Err(if closing.control(AtFailure, o.request).Some?
                            then closing.control(AtFailure, o.request).value else ModelUnavailable))
  }

  ghost predicate Accounted(o: Outcome, windows: seq<Window>, left: seq<Request>, policy: BatchPolicy, closing: World,
          solo: Engine) {
    Closed(o, left, closing) || exists i :: 0 <= i < |windows| && DecidedIn(o, windows[i], policy, solo)
  }

  ghost predicate AllAccounted(log: seq<Outcome>, windows: seq<Window>, left: seq<Request>, policy: BatchPolicy,
          closing: World, solo: Engine) {
    forall i :: 0 <= i < |log| ==> Accounted(log[i], windows, left, policy, closing, solo)
  }

  lemma {:induction false} AllAccountedConcat(a: seq<Outcome>, b: seq<Outcome>, windows: seq<Window>,
          left: seq<Request>, policy: BatchPolicy, closing: World, solo: Engine)
    requires AllAccounted(a, windows, left, policy, closing, solo)
    requires AllAccounted(b, windows, left, policy, closing, solo)
    ensures AllAccounted(a + b, windows, left, policy, closing, solo)
  {}

  lemma {:induction false} AccountedLater(o: Outcome, windows: seq<Window>, left: seq<Request>, policy: BatchPolicy,
          closing: World, solo: Engine)
    requires windows != [] && Accounted(o, windows[1..], left, policy, closing, solo)
    ensures Accounted(o, windows, left, policy, closing, solo)
  {
    if !Closed(o, left, closing) {
      var i :| 0 <= i < |windows[1..]| && DecidedIn(o, windows[1..][i], policy, solo);
      assert windows[i + 1] == windows[1..][i];
    }
  }

  /** An abort drops every request that a later window would have brought. */
  lemma {:induction false} AbortDecides(w: Window, policy: BatchPolicy, requests: seq<Request>, solo: Engine, i: nat)
    requires RoundAborts(w, policy) && i < |requests|
    ensures DecidedIn(Dropped(requests)[i], w, policy, solo)
  {
    assert Reasoned(Dropped(requests)[i], w.surroundings, w.surroundings.abortedAfter.value, solo);
  }

  /** The rest of a life after its first window. */
  ghost function LaterLife(windows: seq<Window>, left: seq<Request>, policy: BatchPolicy, closing: World): seq<Outcome>
    requires windows != []
  {
    if RoundAborts(windows[0], policy) then Dropped(Received(windows[1..], left))
    else Life(windows[1..], left, policy, closing)
  }

  lemma {:induction false} FirstAccounted(windows: seq<Window>, left: seq<Request>, policy: BatchPolicy, closing: World,
          solo: Engine, per: PerInput, identity: Identity)
    requires policy.Valid() && Pointwise(solo, per, identity, policy.maxBatchItems)
    requires windows != [] && HealthyWindow(windows[0], policy, solo, per, identity)
    ensures AllAccounted(RoundLog(windows[0], policy), windows, left, policy, closing, solo)
  {
    var log := RoundLog(windows[0], policy);
    RoundReasoned(windows[0], policy, solo, per, identity);
    forall i | 0 <= i < |log| ensures Accounted(log[i], windows, left, policy, closing, solo) {
      assert DecidedIn(log[i], windows[0], policy, solo);
    }
  }

  lemma {:induction false} AbortAccounted(windows: seq<Window>, left: seq<Request>, policy: BatchPolicy, closing: World,
          solo: Engine)
    requires windows != [] && RoundAborts(windows[0], policy)
    ensures AllAccounted(LaterLife(windows, left, policy, closing), windows, left, policy, closing, solo)
  {
    var log := LaterLife(windows, left, policy, closing);
    forall i | 0 <= i < |log| ensures Accounted(log[i], windows, left, policy, closing, solo) {
      AbortDecides(windows[0], policy, Received(windows[1..], left), solo, i);
      assert DecidedIn(log[i], windows[0], policy, solo);
    }
  }

  ghost predicate AllHealthy(windows: seq<Window>, policy: BatchPolicy, solo: Engine, per: PerInput,
          identity: Identity) {
    forall k :: 0 <= k < |windows| ==> HealthyWindow(windows[k], policy, solo, per, identity)
  }

  lemma {:induction false} HealthyTail(windows: seq<Window>, policy: BatchPolicy, solo: Engine, per: PerInput,
          identity: Identity)
    requires windows != [] && AllHealthy(windows, policy, solo, per, identity)
    ensures HealthyWindow(windows[0], policy, solo, per, identity)
    ensures AllHealthy(windows[1..], policy, solo, per, identity)
  {}

  /**
    Over a scheduler's whole life, a healthy request is served as if alone unless its own control,
    the model's fence, a full or failing pool, an abort or the closing of the scheduler says
    otherwise, and then it is told exactly that.
   */
  lemma {:induction false} NobodyIsTurnedAwayForNothing(windows: seq<Window>, left: seq<Request>, policy: BatchPolicy,
          closing: World, solo: Engine, per: PerInput, identity: Identity)
    requires policy.Valid() && Pointwise(solo, per, identity, policy.maxBatchItems)
    requires AllHealthy(windows, policy, solo, per, identity)
    ensures AllAccounted(Life(windows, left, policy, closing), windows, left, policy, closing, solo)
    decreases |windows|
  {
    if windows != [] {
      var later := LaterLife(windows, left, policy, closing);
      HealthyTail(windows, policy, solo, per, identity);
      FirstAccounted(windows, left, policy, closing, solo, per, identity);
      if RoundAborts(windows[0], policy) {
        AbortAccounted(windows, left, policy, closing, solo);
      } else {
        NobodyIsTurnedAwayForNothing(windows[1..], left, policy, closing, solo, per, identity);
        forall i | 0 <= i < |later| ensures Accounted(later[i], windows, left, policy, closing, solo) {
          AccountedLater(later[i], windows, left, policy, closing, solo);
        }
      }
      AllAccountedConcat(RoundLog(windows[0], policy), later, windows, left, policy, closing, solo);
    }
  }

  /** Nothing interferes: no cancellation, fence, full pool, lost job or abort. */
  ghost predicate Undisturbed(around: Surroundings) {
    && around.abortedAfter.None?
    && (forall t, r :: around.control(t, r).None?)
    && (forall t :: around.fate(t).Runs?)
    && (forall t, phase, r :: around.world(t).accepting(phase, r) && around.world(t).control(phase, r).None?)
  }

  lemma {:induction false} UndisturbedReason(o: Outcome, around: Surroundings, n: nat, solo: Engine)
    requires Undisturbed(around) && Within(o, around, n, solo)
    ensures o.answer == Sent(Alone(solo, o.request))
  {
    var t: nat :| t < n && Reasoned(o, around, t, solo);
    assert around.fate(t).Runs? && around.control(t, o.request).None?;
    assert Stopped(around.world(t), AtStart, o.request).None? && Stopped(around.world(t), AtPublish, o.request).None?;
  }

  /** A scheduler that nothing interferes with serves every request it receives, each as if alone. */
  lemma {:induction false} EveryoneIsServed(windows: seq<Window>, policy: BatchPolicy, closing: World, solo: Engine,
          per: PerInput, identity: Identity, i: nat)
    requires policy.Valid() && Pointwise(solo, per, identity, policy.maxBatchItems)
    requires AllHealthy(windows, policy, solo, per, identity)
    requires forall k :: 0 <= k < |windows| ==> Undisturbed(windows[k].surroundings)
    requires i < |Life(windows, [], policy, closing)|
    ensures var o := Life(windows, [], policy, closing)[i]; o.answer == Sent(Alone(solo, o.request))
    ensures multiset(Askers(Life(windows, [], policy, closing))) == multiset(Received(windows, []))
  {
    var o := Life(windows, [], policy, closing)[i];
    NobodyIsTurnedAwayForNothing(windows, [], policy, closing, solo, per, identity);
    assert Accounted(o, windows, [], policy, closing, solo);
    var k :| 0 <= k < |windows| && DecidedIn(o, windows[k], policy, solo);
    UndisturbedReason(o, windows[k].surroundings, Iterations(windows[k], policy), solo);
    EachRequestOneOutcome(windows, [], policy, closing);
  }
}
