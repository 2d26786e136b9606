/**
  Batch formation. The scheduler sorts its pending deque by arrival number and repeatedly pops
  the head, then rotates the rest once through the deque, taking every request that shares the
  head's options and still fits both bounds.
 */
module Scheduling {
  import opened EmbeddingCore
  import Sorting

  datatype Request = Request(
    sequence: nat,
    inputs: seq<string>,
    cost: Cost,
    contract: Contract,
    options: EmbedOptions)

  // ----- What admission establishes -----

  /** The facts `embed_inner` and the preflight job check before a request may be queued. */
  predicate Admitted(r: Request, policy: BatchPolicy) {
    && 0 < |r.inputs| == r.cost.items <= policy.maxItems
    && 0 < r.cost.maxSequence
    && r.cost.tokens <= policy.maxTokens
    && r.cost.items * r.cost.maxSequence <= policy.maxBatchTokens
    && IdentityIsComplete(r.contract.identity)
    && 0 < r.contract.nativeDimensions
  }

  /** What the preflight job saw: the control before and after, and the engine's two answers. */
  datatype PreflightJob =
    | Panicked
    | Ran(before: Option<ErrorCode>, contract: Result<Contract>, cost: Result<Cost>, after: Option<ErrorCode>)

  /** The request the job would queue is admissible and for the model asked for. */
  predicate Passes(requested: string, r: Request, policy: BatchPolicy) {
    Admitted(r, policy) && r.contract.identity.canonicalId == requested
  }

  /** The input checks of `embed_inner` and the closure run by the preflight job. */
  function Preflight(requested: string, sequence: nat, inputs: seq<string>, options: EmbedOptions, job: PreflightJob,
          policy: BatchPolicy): (r: Result<Request>)
    requires policy.Valid()
    requires job.Ran? && job.cost.Ok? ==> ValidCost(job.cost.value)
    ensures r.Ok? ==> job.Ran? && job.before.None? && job.contract.Ok? && job.cost.Ok? && job.after.None?
    ensures r.Ok? ==> r.value == Request(sequence, inputs, job.cost.value, job.contract.value, options)
    ensures r.Ok? <==>
      (&& job.Ran? && job.before.None? && job.contract.Ok? && job.cost.Ok? && job.after.None?
       && Passes(requested, Request(sequence, inputs, job.cost.value, job.contract.value, options), policy))
    ensures !(0 < |inputs| <= policy.maxItems) ==> r == Err(InvalidRequest)
    ensures 0 < |inputs| <= policy.maxItems && job.Panicked? ==> r == Err(InferenceFailed)
    ensures 0 < |inputs| <= policy.maxItems && job.Ran? ==>
      && (job.before.Some? ==> r == Err(job.before.value))
      && (job.before.None? && job.contract.Err? ==> r == Err(job.contract.code))
      && (r.Ok? || r == Err(InvalidRequest) || r == Err(InferenceFailed) || job.before == Some(r.code)
          || (job.contract.Err? && job.contract.code == r.code) || (job.cost.Err? && job.cost.code == r.code)
          || job.after == Some(r.code))
      && (r == Err(InvalidRequest) && job.before.None? && job.contract.Ok? && job.cost.Ok? && job.after.None? ==>
            !(job.cost.value.items == |inputs| && job.cost.value.tokens <= policy.maxTokens
              && job.cost.value.items * job.cost.value.maxSequence <= policy.maxBatchTokens))
  {
    if inputs == [] || |inputs| > policy.maxItems then Err(InvalidRequest)
    else if job.Panicked? then Err(InferenceFailed)
    else if job.before.Some? then Err(job.before.value)
    else if job.contract.Err? then Err(job.contract.code)
    else if job.contract.value.nativeDimensions == 0
         || job.contract.value.identity.canonicalId != requested
         || !IdentityIsComplete(job.contract.value.identity) then Err(InferenceFailed)
    else if job.cost.Err? then Err(job.cost.code)
    else if job.after.Some? then Err(job.after.value)
    else if job.cost.value.items != |inputs|
         || job.cost.value.tokens > policy.maxTokens
         || job.cost.value.items * job.cost.value.maxSequence > policy.maxBatchTokens then Err(InvalidRequest)
    else Ok(Request(sequence, inputs, job.cost.value, job.contract.value, options))
  }

  // ----- Aggregates of a batch -----

  function Items(batch: seq<Request>): nat {
    if batch == [] then 0 else Items(batch[..|batch| - 1]) + |batch[|batch| - 1].inputs|
  }

  function Longest(batch: seq<Request>): nat {
    if batch == [] then 0 else Max(Longest(batch[..|batch| - 1]), batch[|batch| - 1].cost.maxSequence)
  }

  /** Both native bounds: rows, and padded cells `rows * longest row`. */
  predicate Fits(batch: seq<Request>, policy: BatchPolicy) {
    && Items(batch) <= policy.maxBatchItems
    && Items(batch) * Longest(batch) <= policy.maxBatchTokens
  }

  lemma {:induction false} Snoc(batch: seq<Request>, r: Request)
    ensures Items(batch + [r]) == Items(batch) + |r.inputs|
    ensures Longest(batch + [r]) == Max(Longest(batch), r.cost.maxSequence)
  {}

  lemma {:induction false} Extends(batch: seq<Request>, more: seq<Request>)
    ensures Items(batch) <= Items(batch + more)
    ensures Longest(batch) <= Longest(batch + more)
  {
    if more == [] {
      assert batch + more == batch;
    } else {
      var last := more[|more| - 1];
      var init := more[..|more| - 1];
      Extends(batch, init);
      Snoc(batch + init, last);
      AppendLast(batch, more);
    }
  }

  lemma {:induction false} AppendLast<T>(a: seq<T>, b: seq<T>)
    requires b != []
    ensures a + b == (a + b[..|b| - 1]) + [b[|b| - 1]]
  {}

  lemma {:induction false} MulMono(a: nat, b: nat, c: nat, d: nat)
    requires a <= b && c <= d
    ensures a * c <= b * d
  {}

  // ----- The greedy scan -----

  predicate Compatible(batch: seq<Request>, candidate: Request, policy: BatchPolicy)
    requires batch != []
  {
    candidate.options == batch[0].options && Fits(batch + [candidate], policy)
  }

  /** Which of `pending` join `batch`, decided left to right against the batch grown so far. */
  function Scan(batch: seq<Request>, pending: seq<Request>, policy: BatchPolicy): (mask: seq<bool>)
    requires batch != []
    ensures |mask| == |pending|
    decreases |pending|
  {
    if pending == [] then []
    else if Compatible(batch, pending[0], policy) then
      [true] + Scan(batch + [pending[0]], pending[1..], policy)
    else
      [false] + Scan(batch, pending[1..], policy)
  }

  /** The subsequence of `s` where the mask has the value `bit`. */
  function Keep<T>(s: seq<T>, mask: seq<bool>, bit: bool): (r: seq<T>)
    requires |s| == |mask|
    ensures |r| <= |s|
  {
    if s == [] then []
    else
      var rest := Keep(s[1..], mask[1..], bit);
      if mask[0] == bit then [s[0]] + rest else rest
  }

  function Batch(first: Request, pending: seq<Request>, policy: BatchPolicy): seq<Request> {
    [first] + Keep(pending, Scan([first], pending, policy), true)
  }

  function Rest(first: Request, pending: seq<Request>, policy: BatchPolicy): (r: seq<Request>)
    ensures |r| <= |pending|
  {
    Keep(pending, Scan([first], pending, policy), false)
  }

  /** The batch after the scan. */
  function Grown(batch: seq<Request>, pending: seq<Request>, policy: BatchPolicy): seq<Request>
    requires batch != []
  {
    batch + Keep(pending, Scan(batch, pending, policy), true)
  }

  /** One request scanned: it joins the batch or stays behind, and the scan goes on. */
  lemma {:induction false} ScanStep(batch: seq<Request>, pending: seq<Request>, policy: BatchPolicy)
    requires batch != [] && pending != []
    ensures var x, tail := pending[0], pending[1..];
      if Compatible(batch, x, policy) then
        && Grown(batch, pending, policy) == Grown(batch + [x], tail, policy)
        && Keep(pending, Scan(batch, pending, policy), false) == Keep(tail, Scan(batch + [x], tail, policy), false)
      else
        && Grown(batch, pending, policy) == Grown(batch, tail, policy)
        && Keep(pending, Scan(batch, pending, policy), false) == [x] + Keep(tail, Scan(batch, tail, policy), false)
  {
    var mask := Scan(batch, pending, policy);
    if Compatible(batch, pending[0], policy) {
      assert mask[1..] == Scan(batch + [pending[0]], pending[1..], policy);
    } else {
      assert mask[1..] == Scan(batch, pending[1..], policy);
    }
  }

  lemma {:induction false} KeepSnoc<T>(s: seq<T>, mask: seq<bool>, x: T, taken: bool, bit: bool)
    requires |s| == |mask|
    ensures Keep(s + [x], mask + [taken], bit) == Keep(s, mask, bit) + (if taken == bit then [x] else [])
  {
    var longer, longerMask := s + [x], mask + [taken];
    if s == [] {
      assert longer[1..] == [] && longerMask[1..] == [];
    } else {
      KeepSnoc(s[1..], mask[1..], x, taken, bit);
      assert longer[1..] == s[1..] + [x];
      assert longerMask[1..] == mask[1..] + [taken];
      assert longer[0] == s[0] && longerMask[0] == mask[0];
    }
  }

  /** Scanning a prefix and then one more element is scanning the longer prefix. */
  lemma {:induction false} ScanSnoc(batch: seq<Request>, pending: seq<Request>, x: Request, policy: BatchPolicy)
    requires batch != []
    ensures Scan(batch, pending + [x], policy)
         == Scan(batch, pending, policy) + [Compatible(Grown(batch, pending, policy), x, policy)]
    decreases |pending|
  {
    if pending == [] {
      assert pending + [x] == [x] && batch + [] == batch;
    } else {
      assert (pending + [x])[1..] == pending[1..] + [x];
      ScanStep(batch, pending, policy);
      ScanSnoc(if Compatible(batch, pending[0], policy) then batch + [pending[0]] else batch, pending[1..], x, policy);
    }
  }

  /** What one more scanned request does to the batch and to the requests left behind. */
  lemma {:induction false} ScanOneMore(first: Request, pending: seq<Request>, x: Request, policy: BatchPolicy)
    ensures var batch := Batch(first, pending, policy);
      && Batch(first, pending + [x], policy) == batch + (if Compatible(batch, x, policy) then [x] else [])
      && Rest(first, pending + [x], policy)
         == Rest(first, pending, policy) + (if Compatible(batch, x, policy) then [] else [x])
  {
    var mask := Scan([first], pending, policy);
    var taken := Compatible(Batch(first, pending, policy), x, policy);
    ScanSnoc([first], pending, x, policy);
    KeepSnoc(pending, mask, x, taken, true);
    KeepSnoc(pending, mask, x, taken, false);
  }

  /** The checked arithmetic of one iteration, on the running totals. */
  predicate Joins(items: nat, longest: nat, options: EmbedOptions, candidate: Request, policy: BatchPolicy) {
    match CheckedAdd(items, |candidate.inputs|)
    case None => false
    case Some(combined) =>
      var work := CheckedMul(combined, Max(longest, candidate.cost.maxSequence));
      candidate.options == options && combined <= policy.maxBatchItems
      && work.Some? && work.value <= policy.maxBatchTokens
  }

  lemma {:induction false} JoinsIsCompatible(batch: seq<Request>, candidate: Request, policy: BatchPolicy)
    requires batch != [] && policy.Valid()
    ensures Joins(Items(batch), Longest(batch), batch[0].options, candidate, policy)
       <==> Compatible(batch, candidate, policy)
  {}

  /** The `for _ in 0..scan` loop over the rotating deque, with its running totals. */
  method FormBatch(first: Request, pending: seq<Request>, policy: BatchPolicy)
    returns (batch: seq<Request>, rest: seq<Request>)
    requires policy.Valid()
    ensures batch == Batch(first, pending, policy)
    ensures rest == Rest(first, pending, policy)
  {
    batch := [first];
    rest := pending;
    var items := |first.inputs|;
    var longest := first.cost.maxSequence;
    Snoc([], first);
    assert [] + [first] == [first] && pending[..0] == [];
    for i := 0 to |pending|
      invariant rest == pending[i..] + Rest(first, pending[..i], policy)
      invariant batch == Batch(first, pending[..i], policy)
      invariant items == Items(batch) && longest == Longest(batch)
    {
      var candidate := rest[0];
      rest := rest[1..];
      assert pending[..i + 1] == pending[..i] + [candidate];
      ScanOneMore(first, pending[..i], candidate, policy);
      JoinsIsCompatible(batch, candidate, policy);
      Snoc(batch, candidate);
      if Joins(items, longest, first.options, candidate, policy) {
        items := items + |candidate.inputs|;
        longest := Max(longest, candidate.cost.maxSequence);
        batch := batch + [candidate];
      } else {
        rest := rest + [candidate];
      }
    }
    assert pending[..|pending|] == pending;
  }

  // ----- Properties of one scan -----

  lemma {:induction false} ScanFits(batch: seq<Request>, pending: seq<Request>, policy: BatchPolicy)
    requires batch != [] && Fits(batch, policy)
    ensures Fits(Grown(batch, pending, policy), policy)
    decreases |pending|
  {
    if pending == [] {
      assert batch + [] == batch;
    } else {
      ScanStep(batch, pending, policy);
      ScanFits(if Compatible(batch, pending[0], policy) then batch + [pending[0]] else batch, pending[1..], policy);
    }
  }

  /** A batch that contains one too big to take a request cannot take it after growing either. */
  lemma {:induction false} GrowingNeverHelps(batch: seq<Request>, more: seq<Request>, x: Request, policy: BatchPolicy)
    requires !Fits(batch + [x], policy)
    ensures !Fits(batch + more + [x], policy)
  {
    Extends(batch, more);
    Snoc(batch, x);
    Snoc(batch + more, x);
    MulMono(Items(batch + [x]), Items(batch + more + [x]), Longest(batch + [x]), Longest(batch + more + [x]));
  }

  /** Maximality: nothing left behind with the head's options could still be added. */
  lemma {:induction false} ScanMaximal(batch: seq<Request>, pending: seq<Request>, policy: BatchPolicy, x: Request)
    requires batch != []
    requires x in Keep(pending, Scan(batch, pending, policy), false)
    requires x.options == batch[0].options
    ensures !Fits(Grown(batch, pending, policy) + [x], policy)
    decreases |pending|
  {
    ScanStep(batch, pending, policy);
    if Compatible(batch, pending[0], policy) {
      ScanMaximal(batch + [pending[0]], pending[1..], policy, x);
    } else if pending[0] == x {
      GrowingNeverHelps(batch, Keep(pending, Scan(batch, pending, policy), true), x, policy);
    } else {
      ScanMaximal(batch, pending[1..], policy, x);
    }
  }

  lemma {:induction false} ScanSameOptions(batch: seq<Request>, pending: seq<Request>, policy: BatchPolicy)
    requires batch != []
    ensures forall x :: x in Keep(pending, Scan(batch, pending, policy), true) ==> x.options == batch[0].options
    decreases |pending|
  {
    if pending != [] {
      if Compatible(batch, pending[0], policy) {
        ScanSameOptions(batch + [pending[0]], pending[1..], policy);
      } else {
        ScanSameOptions(batch, pending[1..], policy);
      }
    }
  }

  lemma {:induction false} KeepPartition<T>(s: seq<T>, mask: seq<bool>)
    requires |s| == |mask|
    ensures multiset(Keep(s, mask, true)) + multiset(Keep(s, mask, false)) == multiset(s)
    ensures |Keep(s, mask, true)| + |Keep(s, mask, false)| == |s|
  {
    if s != [] {
      KeepPartition(s[1..], mask[1..]);
      assert s == [s[0]] + s[1..];
    }
  }

  ghost predicate Ascending(s: seq<Request>) {
    forall i, j :: 0 <= i < j < |s| ==> s[i].sequence < s[j].sequence
  }

  lemma {:induction false} KeepMembers<T>(s: seq<T>, mask: seq<bool>, bit: bool, x: T)
    requires |s| == |mask| && x in Keep(s, mask, bit)
    ensures x in s
  {
    if s[0] != x || mask[0] != bit {
      KeepMembers(s[1..], mask[1..], bit, x);
    }
  }

  lemma {:induction false} KeepAscending(s: seq<Request>, mask: seq<bool>, bit: bool)
    requires |s| == |mask| && Ascending(s)
    ensures Ascending(Keep(s, mask, bit))
  {
    if s != [] {
      KeepAscending(s[1..], mask[1..], bit);
      var tail := Keep(s[1..], mask[1..], bit);
      forall i | 0 <= i < |tail| ensures s[0].sequence < tail[i].sequence {
        KeepMembers(s[1..], mask[1..], bit, tail[i]);
      }
    }
  }

  // ----- A whole drain -----

  datatype Step = Refused(request: Request, code: ErrorCode) | Dispatched(batch: seq<Request>)

  function Members(step: Step): seq<Request> {
    match step
    case Refused(r, _) => [r]
    case Dispatched(batch) => batch
  }

  function AllMembers(steps: seq<Step>): seq<Request> {
    if steps == [] then [] else Members(steps[0]) + AllMembers(steps[1..])
  }

  /** `ensure_active` as observed when iteration `t` pops a request: `None` while it is active. */
  type Liveness = (nat, Request) -> Option<ErrorCode>

  /** The `while !pending.is_empty()` loop, from iteration `t` on. */
  function Drain(pending: seq<Request>, policy: BatchPolicy, control: Liveness, t: nat): seq<Step>
    decreases |pending|
  {
    if pending == [] then []
    else
      var first := pending[0];
      match control(t, first)
      case Some(code) => [Refused(first, code)] + Drain(pending[1..], policy, control, t + 1)
      case None =>
        [Dispatched(Batch(first, pending[1..], policy))]
        + Drain(Rest(first, pending[1..], policy), policy, control, t + 1)
  }

  lemma {:induction false} AppendStep(done: seq<Step>, todo: seq<Step>)
    requires todo != []
    ensures done + todo == (done + [todo[0]]) + todo[1..]
  {}

  method DrainPending(queued: seq<Request>, policy: BatchPolicy, control: Liveness) returns (steps: seq<Step>)
    requires policy.Valid()
    ensures steps == Drain(queued, policy, control, 0)
  {
    var pending := queued;
    var t := 0;
    steps := [];
    while pending != []
      invariant Drain(queued, policy, control, 0) == steps + Drain(pending, policy, control, t)
      decreases |pending|
    {
      var first := pending[0];
      pending := pending[1..];
      var refused := control(t, first);
      ghost var done, left := steps, [first] + pending;
      if refused.Some? {
        steps := steps + [Refused(first, refused.value)];
      } else {
        var batch, rest := FormBatch(first, pending, policy);
        steps := steps + [Dispatched(batch)];
        pending := rest;
      }
      t := t + 1;
      AppendStep(done, Drain(left, policy, control, t - 1));
    }
  }

  function BySequence(a: Request, b: Request): bool {
    a.sequence <= b.sequence
  }

  /** One scheduling round: sort by arrival number, then drain completely. */
  function Round(collected: seq<Request>, policy: BatchPolicy, control: Liveness): seq<Step> {
    Drain(Sorting.Sort(collected, BySequence), policy, control, 0)
  }

  lemma {:induction false} SortedRound(collected: seq<Request>)
    requires forall i, j :: 0 <= i < j < |collected| ==> collected[i].sequence != collected[j].sequence
    ensures Ascending(Sorting.Sort(collected, BySequence))
  {
    var sorted := Sorting.Sort(collected, BySequence);
    Sorting.SortOrdered(collected, BySequence);
    assert |sorted| == |multiset(sorted)| == |collected|;
    forall i, j | 0 <= i < j < |sorted| ensures sorted[i].sequence < sorted[j].sequence {
      assert BySequence(sorted[i], sorted[j]);
      if sorted[i].sequence == sorted[j].sequence {
        TwoOccurrences(sorted, collected, i, j);
      }
    }
  }

  /** A permutation of distinct arrival numbers has distinct arrival numbers. */
  lemma {:induction false} TwoOccurrences(a: seq<Request>, b: seq<Request>, i: nat, j: nat)
    requires multiset(a) == multiset(b) && i < j < |a| && a[i].sequence == a[j].sequence
    ensures exists p, q :: 0 <= p < q < |b| && b[p].sequence == b[q].sequence
  {
    assert a[i] in multiset(b) && a[j] in multiset(b);
    if a[i] == a[j] {
      CountTwo(a, i, j);
      OccursTwice(b, a[i]);
    } else {
      var p :| 0 <= p < |b| && b[p] == a[i];
      var q :| 0 <= q < |b| && b[q] == a[j];
      if p < q {
        assert b[p].sequence == b[q].sequence;
      } else {
        assert b[q].sequence == b[p].sequence;
      }
    }
  }

  lemma {:induction false} CountTwo(a: seq<Request>, i: nat, j: nat)
    requires i < j < |a| && a[i] == a[j]
    ensures multiset(a)[a[i]] >= 2
  {
    assert a == a[..j] + [a[j]] + a[j + 1..];
    assert a[i] in a[..j];
  }

  lemma {:induction false} OccursTwice(b: seq<Request>, x: Request)
    requires multiset(b)[x] >= 2
    ensures exists p, q :: 0 <= p < q < |b| && b[p] == x == b[q]
  {
    assert b != [];
    assert b == [b[0]] + b[1..];
    if b[0] == x {
      assert x in multiset(b[1..]);
      var q :| 0 <= q < |b[1..]| && b[1..][q] == x;
      assert b[0] == x == b[q + 1];
    } else {
      OccursTwice(b[1..], x);
      var p, q :| 0 <= p < q < |b[1..]| && b[1..][p] == x == b[1..][q];
      assert b[p + 1] == x == b[q + 1];
    }
  }

  // ----- Main results about a drain -----

  /** Nothing is lost or duplicated: the steps partition the pending queue. */
  lemma {:induction false} DrainPartitions(pending: seq<Request>, policy: BatchPolicy, control: Liveness, t: nat)
    ensures multiset(AllMembers(Drain(pending, policy, control, t))) == multiset(pending)
    decreases |pending|
  {
    if pending != [] {
      var first := pending[0];
      var tail := pending[1..];
      assert pending == [first] + tail;
      var steps := Drain(pending, policy, control, t);
      if control(t, first).Some? {
        DrainPartitions(tail, policy, control, t + 1);
        assert steps[1..] == Drain(tail, policy, control, t + 1);
      } else {
        var rest := Rest(first, tail, policy);
        DrainPartitions(rest, policy, control, t + 1);
        KeepPartition(tail, Scan([first], tail, policy));
        assert steps[1..] == Drain(rest, policy, control, t + 1);
      }
    }
  }

  /** What every dispatched batch satisfies, whatever was cancelled along the way. */
  ghost predicate WellFormedBatch(batch: seq<Request>, policy: BatchPolicy) {
    && batch != []
    && (forall i :: 0 <= i < |batch| ==> batch[i].options == batch[0].options)
    && Ascending(batch)
    && Fits(batch, policy)
  }

  lemma {:induction false} BatchWellFormed(first: Request, tail: seq<Request>, policy: BatchPolicy)
    requires policy.Valid() && Admitted(first, policy) && Ascending([first] + tail)
    ensures WellFormedBatch(Batch(first, tail, policy), policy)
    ensures Ascending(Rest(first, tail, policy))
  {
    var mask := Scan([first], tail, policy);
    Snoc([], first);
    assert [] + [first] == [first];
    ScanFits([first], tail, policy);
    ScanSameOptions([first], tail, policy);
    KeptAfterFirst(first, tail, mask, true);
    KeptAfterFirst(first, tail, mask, false);
  }

  /** What is selected after the head of an ascending queue ascends from the head on. */
  lemma {:induction false} KeptAfterFirst(first: Request, tail: seq<Request>, mask: seq<bool>, bit: bool)
    requires |tail| == |mask| && Ascending([first] + tail)
    ensures Ascending([first] + Keep(tail, mask, bit)) && Ascending(Keep(tail, mask, bit))
  {
    var queue, kept := [first] + tail, Keep(tail, mask, bit);
    assert forall i :: 0 <= i < |tail| ==> tail[i] == queue[i + 1];
    KeepAscending(tail, mask, bit);
    forall i | 0 <= i < |kept| ensures first.sequence < kept[i].sequence {
      KeepMembers(tail, mask, bit, kept[i]);
      var k :| 0 <= k < |tail| && tail[k] == kept[i];
      assert queue[0].sequence < queue[k + 1].sequence;
    }
  }

  lemma {:induction false} DrainWellFormed(pending: seq<Request>, policy: BatchPolicy, control: Liveness, t: nat)
    requires policy.Valid() && Ascending(pending)
    requires forall i :: 0 <= i < |pending| ==> Admitted(pending[i], policy)
    ensures forall i :: 0 <= i < |Drain(pending, policy, control, t)| ==>
      var step := Drain(pending, policy, control, t)[i];
      step.Dispatched? ==> WellFormedBatch(step.batch, policy)
    decreases |pending|
  {
    if pending != [] {
      var first, tail := pending[0], pending[1..];
      assert pending == [first] + tail;
      if control(t, first).Some? {
        DrainWellFormed(tail, policy, control, t + 1);
      } else {
        BatchWellFormed(first, tail, policy);
        var rest := Rest(first, tail, policy);
        forall i | 0 <= i < |rest| ensures Admitted(rest[i], policy) {
          KeepMembers(tail, Scan([first], tail, policy), false, rest[i]);
        }
        DrainWellFormed(rest, policy, control, t + 1);
      }
    }
  }

  /** Position of the `k`-th pending request among those left behind, if it was left behind. */
  lemma {:induction false} KeepPosition<T>(s: seq<T>, mask: seq<bool>, bit: bool, k: nat)
    requires |s| == |mask| && k < |s| && mask[k] == bit
    ensures exists p :: 0 <= p <= k && p < |Keep(s, mask, bit)| && Keep(s, mask, bit)[p] == s[k]
  {
    var kept := Keep(s, mask, bit);
    if k == 0 {
      assert kept[0] == s[0];
    } else {
      KeepPosition(s[1..], mask[1..], bit, k - 1);
      var tail := Keep(s[1..], mask[1..], bit);
      var p :| 0 <= p <= k - 1 && p < |tail| && tail[p] == s[1..][k - 1];
      var shift := if mask[0] == bit then 1 else 0;
      assert kept[p + shift] == tail[p] == s[k];
    }
  }

  ghost predicate HandledBy(steps: seq<Step>, r: Request, last: nat) {
    exists j :: 0 <= j <= last && j < |steps| && r in Members(steps[j])
  }

  lemma {:induction false} LaterStep(step: Step, later: seq<Step>, r: Request, last: nat)
    requires HandledBy(later, r, last)
    ensures HandledBy([step] + later, r, last + 1)
  {
    var j :| 0 <= j <= last && j < |later| && r in Members(later[j]);
    assert ([step] + later)[j + 1] == later[j];
  }

  lemma {:induction false} HandledMono(steps: seq<Step>, r: Request, p: nat, q: nat)
    requires HandledBy(steps, r, p) && p <= q
    ensures HandledBy(steps, r, q)
  {}

  /** A scanned request is taken, or left behind no further back than it was. */
  lemma {:induction false} TakenOrLeft(first: Request, tail: seq<Request>, policy: BatchPolicy, k: nat)
    requires k < |tail|
    ensures var rest := Rest(first, tail, policy);
      tail[k] in Batch(first, tail, policy) || exists p :: 0 <= p <= k && p < |rest| && rest[p] == tail[k]
  {
    var mask := Scan([first], tail, policy);
    KeepPosition(tail, mask, mask[k], k);
    if mask[k] {
      var taken := Keep(tail, mask, true);
      var p :| 0 <= p <= k && p < |taken| && taken[p] == tail[k];
      assert Batch(first, tail, policy)[p + 1] == tail[k];
    } else {
      var rest := Rest(first, tail, policy);
      var p :| 0 <= p <= k && p < |rest| && rest[p] == tail[k];
    }
  }

  lemma {:induction false} HandledFirst(step: Step, later: seq<Step>, r: Request, last: nat)
    requires r in Members(step)
    ensures HandledBy([step] + later, r, last)
  {
    assert ([step] + later)[0] == step;
  }

  /**
    First come, first taken: a request joins exactly if it shares the head's options and fits
    together with the members that arrived before it; later arrivals never take its place.
   */
  lemma {:induction false} EarlierFirst(batch: seq<Request>, pending: seq<Request>, policy: BatchPolicy, k: nat)
    requires batch != [] && k < |pending|
    ensures var mask := Scan(batch, pending, policy);
      mask[k] <==> Compatible(batch + Keep(pending[..k], mask[..k], true), pending[k], policy)
    decreases |pending|
  {
    var mask := Scan(batch, pending, policy);
    if k == 0 {
      assert batch + Keep(pending[..0], mask[..0], true) == batch;
    } else {
      var joined := if mask[0] then batch + [pending[0]] else batch;
      EarlierFirst(joined, pending[1..], policy, k - 1);
      assert pending[..k][1..] == pending[1..][..k - 1] && mask[..k][1..] == mask[1..][..k - 1];
      assert batch + Keep(pending[..k], mask[..k], true)
          == joined + Keep(pending[1..][..k - 1], mask[1..][..k - 1], true);
    }
  }

  /** Bounded fairness: the request at position `k` is handled by iteration `k + 1` at the latest. */
  lemma {:induction false} HandledInTime(pending: seq<Request>, policy: BatchPolicy, control: Liveness, t: nat, k: nat)
    requires k < |pending|
    ensures HandledBy(Drain(pending, policy, control, t), pending[k], k)
    decreases |pending|
  {
    var first, tail, r := pending[0], pending[1..], pending[k];
    if control(t, first).Some? {
      var step, later := Refused(first, control(t, first).value), Drain(tail, policy, control, t + 1);
      if k == 0 {
        HandledFirst(step, later, r, k);
      } else {
        HandledInTime(tail, policy, control, t + 1, k - 1);
        LaterStep(step, later, r, k - 1);
      }
    } else {
      var rest := Rest(first, tail, policy);
      var step, later := Dispatched(Batch(first, tail, policy)), Drain(rest, policy, control, t + 1);
      if k > 0 { TakenOrLeft(first, tail, policy, k - 1); }
      if r in Members(step) {
        HandledFirst(step, later, r, k);
      } else {
        var p :| 0 <= p <= k - 1 && p < |rest| && rest[p] == r;
        HandledInTime(rest, policy, control, t + 1, p);
        LaterStep(step, later, r, p);
        HandledMono([step] + later, r, p + 1, k);
      }
    }
  }

  /**
    The control of the request popped at an iteration decides its fate: it is refused exactly with
    the control's own code, and otherwise heads a batch.
   */
  lemma {:induction false} HeadDecides(pending: seq<Request>, policy: BatchPolicy, control: Liveness, t: nat, k: nat)
    requires k < |Drain(pending, policy, control, t)|
    ensures match Drain(pending, policy, control, t)[k]
      case Refused(r, code) => control(t + k, r) == Some(code)
      case Dispatched(batch) => batch != [] && control(t + k, batch[0]).None?
    decreases |pending|
  {
    var first, tail := pending[0], pending[1..];
    if k > 0 {
      if control(t, first).Some? {
        HeadDecides(tail, policy, control, t + 1, k - 1);
      } else {
        HeadDecides(Rest(first, tail, policy), policy, control, t + 1, k - 1);
      }
    }
  }

  // ----- Greedy batches leave nothing behind that would still have fitted -----

  lemma {:induction false} MemberOfAll(steps: seq<Step>, t: nat, r: Request)
    requires t < |steps| && r in Members(steps[t])
    ensures r in AllMembers(steps)
    decreases t
  {
    if t > 0 {
      MemberOfAll(steps[1..], t - 1, r);
    }
  }

  /** If the step dispatched a batch for the options of `x`, then `x` would not have fitted it. */
  ghost predicate NoRoom(step: Step, x: Request, policy: BatchPolicy) {
    step.Dispatched? && (exists m :: m in step.batch && m.options == x.options) ==> !Fits(step.batch + [x], policy)
  }

  /** No request handled later than a batch would have fitted it. */
  ghost predicate Maximal(steps: seq<Step>, policy: BatchPolicy) {
    forall i, k, x :: 0 <= i < k < |steps| && x in Members(steps[k]) ==> NoRoom(steps[i], x, policy)
  }

  lemma {:induction false} MaximalCons(step: Step, later: seq<Step>, policy: BatchPolicy)
    requires Maximal(later, policy)
    requires forall k, x :: 0 <= k < |later| && x in Members(later[k]) ==> NoRoom(step, x, policy)
    ensures Maximal([step] + later, policy)
  {
    var steps := [step] + later;
    forall i, k, x | 0 <= i < k < |steps| && x in Members(steps[k]) ensures NoRoom(steps[i], x, policy) {
      assert steps[k] == later[k - 1];
      if i > 0 { assert steps[i] == later[i - 1]; }
    }
  }

  /** Over a whole drain, every batch is maximal against everything handled after it. */
  lemma {:induction false} DrainMaximal(pending: seq<Request>, policy: BatchPolicy, control: Liveness, t: nat)
    ensures Maximal(Drain(pending, policy, control, t), policy)
    decreases |pending|
  {
    if pending != [] {
      var first, tail := pending[0], pending[1..];
      if control(t, first).Some? {
        DrainMaximal(tail, policy, control, t + 1);
        MaximalCons(Refused(first, control(t, first).value), Drain(tail, policy, control, t + 1), policy);
      } else {
        var rest := Rest(first, tail, policy);
        var step, later := Dispatched(Batch(first, tail, policy)), Drain(rest, policy, control, t + 1);
        DrainMaximal(rest, policy, control, t + 1);
        forall k, x | 0 <= k < |later| && x in Members(later[k]) ensures NoRoom(step, x, policy) {
          LeftBehind(rest, policy, control, t + 1, k, x);
          NothingLeftFits(first, tail, policy, x);
        }
        MaximalCons(step, later, policy);
      }
    }
  }

  lemma {:induction false} NothingLeftFits(first: Request, tail: seq<Request>, policy: BatchPolicy, x: Request)
    requires x in Rest(first, tail, policy)
    ensures NoRoom(Dispatched(Batch(first, tail, policy)), x, policy)
  {
    ScanSameOptions([first], tail, policy);
    if first.options == x.options {
      ScanMaximal([first], tail, policy, x);
    }
  }

  lemma {:induction false} LeftBehind(pending: seq<Request>, policy: BatchPolicy, control: Liveness, t: nat, k: nat,
          x: Request)
    requires k < |Drain(pending, policy, control, t)| && x in Members(Drain(pending, policy, control, t)[k])
    ensures x in pending
  {
    DrainPartitions(pending, policy, control, t);
    MemberOfAll(Drain(pending, policy, control, t), k, x);
    assert x in multiset(AllMembers(Drain(pending, policy, control, t)));
  }
}
