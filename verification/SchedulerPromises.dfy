/**
  The two promises made for one batch, carried over a scheduler's whole life: nobody can tell that
  requests were batched, and no native call exceeds the work bound.
 */
module SchedulerPromises {
  import opened EmbeddingCore
  import opened Scheduling
  import opened Batching
  import opened SchedulerLife
  import OnnxAdapter
  import Sorting

  /** A request as admission lets it into a scheduler. */
  ghost predicate Queued(r: Request, policy: BatchPolicy) {
    Admitted(r, policy) && SizedRequest(r)
  }

  /** A dispatched batch of queued requests shares its options and stays within both bounds. */
  lemma {:induction false} DispatchedBatch(first: Request, tail: seq<Request>, policy: BatchPolicy)
    requires policy.Valid() && Queued(first, policy) && forall r :: r in tail ==> Queued(r, policy)
    ensures OneBatch(Batch(first, tail, policy)) && Fits(Batch(first, tail, policy), policy)
    ensures forall r :: r in Batch(first, tail, policy) ==> Queued(r, policy)
  {
    var batch, mask := Batch(first, tail, policy), Scan([first], tail, policy);
    Snoc([], first);
    assert [] + [first] == [first];
    ScanFits([first], tail, policy);
    ScanSameOptions([first], tail, policy);
    forall r | r in batch ensures Queued(r, policy) && r.options == first.options {
      if r in Keep(tail, mask, true) { KeepMembers(tail, mask, true, r); }
    }
    forall i | 0 <= i < |batch| ensures SizedRequest(batch[i]) && batch[i].options == first.options {
      assert batch[i] in batch;
    }
  }

  /** Every batch a drain of queued requests dispatches is such a batch. */
  lemma {:induction false} DrainBatches(pending: seq<Request>, policy: BatchPolicy, control: Liveness, t: nat, k: nat)
    requires policy.Valid() && forall r :: r in pending ==> Queued(r, policy)
    requires k < |Drain(pending, policy, control, t)| && Drain(pending, policy, control, t)[k].Dispatched?
    ensures var batch := Drain(pending, policy, control, t)[k].batch;
      OneBatch(batch) && Fits(batch, policy) && forall r :: r in batch ==> r in pending
    decreases |pending|
  {
    var first, tail := pending[0], pending[1..];
    var step := Drain(pending, policy, control, t)[k];
    if control(t, first).Some? {
      DrainBatches(tail, policy, control, t + 1, k - 1);
    } else {
      var rest, mask := Rest(first, tail, policy), Scan([first], tail, policy);
      if k > 0 {
        forall r | r in rest ensures r in tail { KeepMembers(tail, mask, false, r); }
        DrainBatches(rest, policy, control, t + 1, k - 1);
      } else {
        DispatchedBatch(first, tail, policy);
        forall r | r in step.batch ensures r in pending {
          if r in Keep(tail, mask, true) { KeepMembers(tail, mask, true, r); }
        }
      }
    }
  }

  lemma {:induction false} RoundBatches(collected: seq<Request>, policy: BatchPolicy, control: Liveness, k: nat)
    requires policy.Valid() && forall r :: r in collected ==> Queued(r, policy)
    requires k < |Round(collected, policy, control)| && Round(collected, policy, control)[k].Dispatched?
    ensures var batch := Round(collected, policy, control)[k].batch;
      OneBatch(batch) && Fits(batch, policy) && forall r :: r in batch ==> r in collected
  {
    var sorted := Sorting.Sort(collected, BySequence);
    forall r ensures r in sorted <==> r in collected {
      assert r in sorted <==> r in multiset(sorted);
    }
    DrainBatches(sorted, policy, control, 0, k);
  }

  /** Every native call of a round stays within the padded work bound, whoever dropped out before it. */
  lemma {:induction false} RoundWorkBound(m: OnnxAdapter.Loaded, collected: seq<Request>, policy: BatchPolicy,
          control: Liveness, k: nat, world: World)
    requires policy.Valid() && forall r :: r in collected ==> Queued(r, policy) && OnnxAdapter.Costed(m, r)
    requires k < |Round(collected, policy, control)| && Round(collected, policy, control)[k].Dispatched?
    requires Active(Round(collected, policy, control)[k].batch, world) != []
    ensures var active := Active(Round(collected, policy, control)[k].batch, world);
      && OnnxAdapter.Encodable(m, Concat(active), active[0].options)
      && var es := OnnxAdapter.Encodings(m, Concat(active), active[0].options);
         |es| * OnnxAdapter.Width(es) <= policy.maxBatchTokens && |es| <= policy.maxBatchItems
  {
    var batch := Round(collected, policy, control)[k].batch;
    RoundBatches(collected, policy, control, k);
    forall i | 0 <= i < |batch| ensures OnnxAdapter.Costed(m, batch[i]) {
      assert batch[i] in batch;
    }
    OnnxAdapter.PaddedWorkBound(m, batch, policy, world);
  }

  // ----- Batching is invisible for life -----

  /** Engines that compute the same rows serve a lone request alike. */
  lemma {:induction false} SameAlone(engine: Engine, solo: Engine, per: PerInput, identity: Identity, r: Request)
    requires Pointwise(engine, per, identity, |r.inputs|) && Pointwise(solo, per, identity, |r.inputs|)
    requires SizedRequest(r) && Alone(engine, r).Ok?
    ensures Alone(solo, r) == Alone(engine, r)
  {
    AloneOkMeansDefined(engine, per, identity, r);
    AloneTotal(engine, r);
    AloneOutcome(solo, per, identity, r, Alone(engine, r).value);
  }

  lemma {:induction false} FewerRows(engine: Engine, per: PerInput, identity: Identity, rows: nat, fewer: nat)
    requires Pointwise(engine, per, identity, rows) && fewer <= rows
    ensures Pointwise(engine, per, identity, fewer)
  {
    forall inputs, options | 0 < |inputs| <= fewer ensures PointwiseAt(engine, per, identity, inputs, options) {}
  }

  /** If the outcome is a success, it is what `solo` returns for that request alone. */
  ghost predicate AsAlone(o: Outcome, solo: Engine) {
    o.answer.Sent? && o.answer.result.Ok? ==> Execute(solo, [o.request], Calm()) == [Reply(o.request, o.answer.result)]
  }

  ghost predicate AllAsAlone(log: seq<Outcome>, solo: Engine) {
    forall i :: 0 <= i < |log| ==> AsAlone(log[i], solo)
  }

  lemma {:induction false} AllAsAloneConcat(a: seq<Outcome>, b: seq<Outcome>, solo: Engine)
    requires AllAsAlone(a, solo) && AllAsAlone(b, solo)
    ensures AllAsAlone(a + b, solo)
  {}

  lemma {:induction false} DroppedAsAlone(requests: seq<Request>, solo: Engine)
    ensures AllAsAlone(Dropped(requests), solo)
  {}

  lemma {:induction false} FailedAsAlone(requests: seq<Request>, code: ErrorCode, world: World, solo: Engine)
    ensures AllAsAlone(Replied(Fail(requests, code, world)), solo)
  {}

  lemma {:induction false} ExecutedAsAlone(engine: Engine, solo: Engine, per: PerInput, identity: Identity, rows: nat,
          batch: seq<Request>, world: World)
    requires Pointwise(engine, per, identity, rows) && Pointwise(solo, per, identity, rows)
    requires OneBatch(batch) && Items(batch) <= rows
    ensures AllAsAlone(Replied(Execute(engine, batch, world)), solo)
  {
    var log := Execute(engine, batch, world);
    FewerRows(engine, per, identity, rows, Items(batch));
    forall i | 0 <= i < |log| && log[i].answer.Ok?
      ensures Execute(solo, [log[i].request], Calm()) == [Reply(log[i].request, log[i].answer)]
    {
      var r := log[i].request;
      BatchingIsInvisible(engine, per, identity, batch, world, i);
      OkIsOwnSlice(engine, batch, world, i);
      AloneIsExecuted(engine, r);
      AloneIsExecuted(solo, r);
      ActiveMembers(batch, world, r);
      var j :| 0 <= j < |batch| && batch[j] == r;
      MemberItems(batch, j);
      FewerRows(engine, per, identity, rows, |r.inputs|);
      FewerRows(solo, per, identity, rows, |r.inputs|);
      SameAlone(engine, solo, per, identity, r);
    }
  }

  /** A step that dispatches something a queued request could have been part of. */
  ghost predicate Servable(step: Step, rows: nat) {
    step.Dispatched? ==> OneBatch(step.batch) && Items(step.batch) <= rows
  }

  lemma {:induction false} StepAsAlone(step: Step, fate: Fate, world: World, engine: Engine, solo: Engine,
          per: PerInput, identity: Identity, rows: nat)
    requires Pointwise(engine, per, identity, rows) && Pointwise(solo, per, identity, rows) && Servable(step, rows)
    ensures AllAsAlone(StepLog(step, fate, world, engine), solo)
  {
    if step.Dispatched? {
      match fate
      case Full => FailedAsAlone(step.batch, QueueFull, world, solo);
      case Lost => DroppedAsAlone(step.batch, solo);
      case Runs => ExecutedAsAlone(engine, solo, per, identity, rows, step.batch, world);
    }
  }

  lemma {:induction false} StepsAsAlone(steps: seq<Step>, around: Surroundings, t: nat, solo: Engine, per: PerInput,
          identity: Identity, rows: nat)
    requires forall n :: Pointwise(around.engine(n), per, identity, rows)
    requires Pointwise(solo, per, identity, rows) && forall i :: 0 <= i < |steps| ==> Servable(steps[i], rows)
    ensures AllAsAlone(StepsLog(steps, around, t), solo)
    decreases |steps|
  {
    if steps != [] {
      if around.abortedAfter == Some(t) {
        DroppedAsAlone(AllMembers(steps), solo);
      } else {
        StepAsAlone(steps[0], around.fate(t), around.world(t), around.engine(t), solo, per, identity, rows);
        StepsAsAlone(steps[1..], around, t + 1, solo, per, identity, rows);
        AllAsAloneConcat(StepLog(steps[0], around.fate(t), around.world(t), around.engine(t)),
                         StepsLog(steps[1..], around, t + 1), solo);
      }
    }
  }

  /** What a window brings: queued requests, and an engine that computes `per` at every call. */
  ghost predicate Served(w: Window, policy: BatchPolicy, per: PerInput, identity: Identity) {
    && (forall r :: r in w.collected ==> Queued(r, policy))
    && (forall n :: Pointwise(w.surroundings.engine(n), per, identity, policy.maxBatchItems))
  }

  lemma {:induction false} RoundAsAlone(w: Window, policy: BatchPolicy, solo: Engine, per: PerInput, identity: Identity)
    requires policy.Valid() && Served(w, policy, per, identity) && Pointwise(solo, per, identity, policy.maxBatchItems)
    ensures AllAsAlone(RoundLog(w, policy), solo)
  {
    var steps := Round(w.collected, policy, w.surroundings.control);
    forall k | 0 <= k < |steps| ensures Servable(steps[k], policy.maxBatchItems) {
      if steps[k].Dispatched? { RoundBatches(w.collected, policy, w.surroundings.control, k); }
    }
    StepsAsAlone(steps, w.surroundings, 0, solo, per, identity, policy.maxBatchItems);
  }

  /**
    Over the scheduler's whole life, across stops, full pools, lost jobs, aborts and cancellations,
    every success a caller receives is what its request alone would have returned.
   */
  lemma {:induction false} BatchingIsInvisibleForLife(windows: seq<Window>, left: seq<Request>, policy: BatchPolicy,
          closing: World, solo: Engine, per: PerInput, identity: Identity)
    requires policy.Valid() && Pointwise(solo, per, identity, policy.maxBatchItems)
    requires forall i :: 0 <= i < |windows| ==> Served(windows[i], policy, per, identity)
    ensures AllAsAlone(Life(windows, left, policy, closing), solo)
    decreases |windows|
  {
    if windows == [] {
      FailedAsAlone(left, ModelUnavailable, closing, solo);
    } else {
      var rest := windows[1..];
      RoundAsAlone(windows[0], policy, solo, per, identity);
      if RoundAborts(windows[0], policy) {
        DroppedAsAlone(Received(rest, left), solo);
        AllAsAloneConcat(RoundLog(windows[0], policy), Dropped(Received(rest, left)), solo);
      } else {
        BatchingIsInvisibleForLife(rest, left, policy, closing, solo, per, identity);
        AllAsAloneConcat(RoundLog(windows[0], policy), Life(rest, left, policy, closing), solo);
      }
    }
  }
}
