/**
  Execution of one dispatched batch: drop members that can no longer use a result, run the engine
  once on the concatenated inputs, validate what came back, and hand every caller its own slice
  while cancellation and shutdown keep racing.
 */
module Batching {
  import opened EmbeddingCore
  import opened Scheduling

  datatype EngineResult = Returned(result: Result<Output>) | Panicked

  /** An arbitrary native adapter, as it behaves during the one call under study. */
  type Engine = (seq<string>, EmbedOptions) -> EngineResult

  /** The three places where a member's fate is observed. */
  datatype Phase = AtStart | AtPublish | AtFailure

  /** What the `accepting` fence and `ensure_active` answered, per phase and request. */
  datatype World = World(
    accepting: (Phase, Request) -> bool,
    control: (Phase, Request) -> Option<ErrorCode>)

  /** The error a request is answered with at a checkpoint, if it may not go on. */
  function Stopped(world: World, phase: Phase, r: Request): Option<ErrorCode> {
    if !world.accepting(phase, r) then Some(ModelUnavailable) else world.control(phase, r)
  }

  datatype Reply = Reply(request: Request, answer: Result<Output>)

  function Requests(log: seq<Reply>): seq<Request> {
    seq(|log|, i requires 0 <= i < |log| => log[i].request)
  }

  // ----- Layout of the concatenated call -----

  function Concat(requests: seq<Request>): (inputs: seq<string>)
    ensures |inputs| == Items(requests)
  {
    if requests == [] then []
    else Concat(requests[..|requests| - 1]) + requests[|requests| - 1].inputs
  }

  /** First row of member `j` in the native call. */
  function Offset(requests: seq<Request>, j: nat): nat
    requires j <= |requests|
  {
    Items(requests[..j])
  }

  lemma {:induction false} OffsetStep(requests: seq<Request>, j: nat)
    requires j < |requests|
    ensures Offset(requests, j + 1) == Offset(requests, j) + |requests[j].inputs|
  {
    assert requests[..j + 1] == requests[..j] + [requests[j]];
    Snoc(requests[..j], requests[j]);
  }

  lemma {:induction false} OffsetMono(requests: seq<Request>, j: nat, k: nat)
    requires j <= k <= |requests|
    ensures Offset(requests, j) <= Offset(requests, k)
    decreases k - j
  {
    if j < k {
      OffsetStep(requests, j);
      OffsetMono(requests, j + 1, k);
    }
  }

  /** The rows of a native result that belong to member `j`; cut short only if `s` is. */
  function Rows<T>(s: seq<T>, requests: seq<Request>, j: nat): seq<T>
    requires j < |requests|
  {
    var lo, hi := Offset(requests, j), Offset(requests, j + 1);
    if lo <= hi <= |s| then s[lo..hi] else []
  }

  lemma {:induction false} RowsInRange<T>(s: seq<T>, requests: seq<Request>, j: nat)
    requires j < |requests| && |s| == Offset(requests, |requests|)
    ensures Offset(requests, j) <= Offset(requests, j + 1) <= |s|
    ensures Rows(s, requests, j) == s[Offset(requests, j)..Offset(requests, j + 1)]
    ensures |Rows(s, requests, j)| == |requests[j].inputs|
  {
    OffsetStep(requests, j);
    OffsetMono(requests, j + 1, |requests|);
  }

  /** The rows at a member's own offset are exactly that member's inputs. */
  lemma {:induction false} SliceIsOwn(requests: seq<Request>, j: nat)
    requires j < |requests|
    ensures 0 <= Offset(requests, j) <= Offset(requests, j + 1) <= |Concat(requests)|
    ensures Concat(requests)[Offset(requests, j)..Offset(requests, j + 1)] == requests[j].inputs
  {
    var n := |requests| - 1;
    OffsetStep(requests, j);
    OffsetMono(requests, j + 1, |requests|);
    if j < n {
      var init := requests[..n];
      SliceIsOwn(init, j);
      assert init[..j] == requests[..j] && init[..j + 1] == requests[..j + 1];
    } else {
      assert requests[..n + 1] == requests;
    }
  }

  // ----- Validation of the engine's answer -----

  function ExpectedWidth(r: Request): nat {
    if r.options.dimensions.Some? then r.options.dimensions.value else r.contract.nativeDimensions
  }

  predicate WellShaped(v: Vector, width: nat) {
    |v| == width && forall i :: 0 <= i < |v| ==> v[i].Finite?
  }

  /** What a member requires of rows `lo..hi` of the output. */
  predicate MemberOk(r: Request, vectors: seq<Vector>, tokens: seq<nat>, model: Identity) {
    && r.contract.identity == model
    && Sum(tokens) == r.cost.tokens
    && forall i :: 0 <= i < |vectors| ==> WellShaped(vectors[i], ExpectedWidth(r))
  }

  ghost predicate ValidOutput(output: Output, requests: seq<Request>) {
    && |output.vectors| == |output.tokens| == Offset(requests, |requests|)
    && IdentityIsComplete(output.model)
    && forall j :: 0 <= j < |requests| ==> MemberSlice(output, requests, j)
  }

  ghost predicate MemberSlice(output: Output, requests: seq<Request>, j: nat)
    requires j < |requests|
  {
    MemberOk(requests[j], Rows(output.vectors, requests, j), Rows(output.tokens, requests, j), output.model)
  }

  /** `try_fold` with `checked_add`: overflow is reported, never wrapped. */
  method CheckedSum(values: seq<nat>, limit: nat) returns (r: Option<nat>)
    ensures r == if Sum(values) <= limit then Some(Sum(values)) else None
  {
    var total := 0;
    for i := 0 to |values|
      invariant total == Sum(values[..i]) <= limit
    {
      assert values[..i + 1] == values[..i] + [values[i]];
      SumConcat(values[..i], [values[i]]);
      if total + values[i] > limit {
        SumConcat(values[..i + 1], values[i + 1..]);
        assert values == values[..i + 1] + values[i + 1..];
        return None;
      }
      total := total + values[i];
    }
    assert values[..|values|] == values;
    r := Some(total);
  }

  method ValidEngineOutput(output: Output, requests: seq<Request>) returns (ok: bool)
    requires |output.vectors| <= USIZE_MAX
    requires forall i :: 0 <= i < |requests| ==> requests[i].cost.tokens <= U64_MAX
    ensures ok <==> ValidOutput(output, requests)
  {
    var sizes := seq(|requests|, i requires 0 <= i < |requests| => |requests[i].inputs|);
    SizesSum(requests);
    var total := CheckedSum(sizes, USIZE_MAX);
    if total.None? { return false; }
    if |output.vectors| != total.value || |output.tokens| != total.value || !IdentityIsComplete(output.model) {
      return false;
    }
    var offset := 0;
    for j := 0 to |requests|
      invariant offset == Offset(requests, j)
      invariant forall k :: 0 <= k < j ==> MemberSlice(output, requests, k)
    {
      var r := requests[j];
      OffsetStep(requests, j);
      OffsetMono(requests, j + 1, |requests|);
      var end := offset + sizes[j];
      var vectors, tokens := output.vectors[offset..end], output.tokens[offset..end];
      var actual := CheckedSum(tokens, U64_MAX);
      if r.contract.identity != output.model || actual != Some(r.cost.tokens)
         || exists i :: 0 <= i < |vectors| && !WellShaped(vectors[i], ExpectedWidth(r)) {
        assert !MemberSlice(output, requests, j);
        return false;
      }
      offset := end;
    }
    ok := true;
  }

  lemma {:induction false} SizesSum(requests: seq<Request>)
    ensures Sum(seq(|requests|, i requires 0 <= i < |requests| => |requests[i].inputs|)) == Offset(requests, |requests|)
  {
    var sizes := seq(|requests|, i requires 0 <= i < |requests| => |requests[i].inputs|);
    assert requests[..|requests|] == requests;
    if requests != [] {
      var n := |requests| - 1;
      var init := requests[..n];
      SizesSum(init);
      var initSizes := seq(|init|, i requires 0 <= i < |init| => |init[i].inputs|);
      assert sizes == initSizes + [|requests[n].inputs|];
      SumConcat(initSizes, [|requests[n].inputs|]);
      assert init[..n] == init;
    }
  }

  // ----- Publication -----

  /** One member's reply, from the rows its turn of the two iterators would yield. */
  function PublishOne(r: Request, vectors: seq<Vector>, tokens: seq<nat>, model: Identity, world: World): Reply {
    match Stopped(world, AtPublish, r)
    case Some(code) => Reply(r, Err(code))
    case None =>
      if tokens == [] || Sum(tokens) > U64_MAX then Reply(r, Err(InferenceFailed))
      else Reply(r, Ok(Output(vectors, model, tokens, Sum(tokens))))
  }

  function Publish(requests: seq<Request>, output: Output, world: World): (log: seq<Reply>)
    ensures |log| == |requests|
  {
    seq(|requests|, j requires 0 <= j < |requests| => PublishAt(requests, output, world, j))
  }

  function PublishAt(requests: seq<Request>, output: Output, world: World, j: nat): Reply
    requires j < |requests|
  {
    PublishOne(requests[j], Rows(output.vectors, requests, j), Rows(output.tokens, requests, j), output.model, world)
  }

  /** The consuming loop: a skipped member must still advance both iterators past its rows. */
  method PublishResults(requests: seq<Request>, output: Output, world: World) returns (log: seq<Reply>)
    requires |output.vectors| == |output.tokens| == Offset(requests, |requests|)
    ensures log == Publish(requests, output, world)
  {
    log := [];
    var vectors, tokens := output.vectors, output.tokens;
    for j := 0 to |requests|
      invariant |log| == j
      invariant forall k :: 0 <= k < j ==> log[k] == PublishAt(requests, output, world, k)
      invariant Offset(requests, j) <= |output.vectors|
      invariant vectors == output.vectors[Offset(requests, j)..]
      invariant tokens == output.tokens[Offset(requests, j)..]
    {
      var r, size := requests[j], |requests[j].inputs|;
      OffsetStep(requests, j);
      OffsetMono(requests, j + 1, |requests|);
      ghost var lo, hi := Offset(requests, j), Offset(requests, j + 1);
      assert vectors[..size] == output.vectors[lo..hi] && tokens[..size] == output.tokens[lo..hi];
      assert vectors[size..] == output.vectors[hi..] && tokens[size..] == output.tokens[hi..];
      if !world.accepting(AtPublish, r) {
        log := log + [Reply(r, Err(ModelUnavailable))];
        vectors, tokens := vectors[size..], tokens[size..];
      } else if world.control(AtPublish, r).Some? {
        log := log + [Reply(r, Err(world.control(AtPublish, r).value))];
        vectors, tokens := vectors[size..], tokens[size..];
      } else {
        var ownVectors, ownTokens := vectors[..size], tokens[..size];
        vectors, tokens := vectors[size..], tokens[size..];
        var total := CheckedSum(ownTokens, U64_MAX);
        if ownTokens == [] || total.None? {
          log := log + [Reply(r, Err(InferenceFailed))];
        } else {
          log := log + [Reply(r, Ok(Output(ownVectors, output.model, ownTokens, total.value)))];
        }
      }
    }
  }

  // ----- The whole batch -----

  /** `fail_requests`: a caller's own cancellation wins over the batch's failure code. */
  function Fail(requests: seq<Request>, code: ErrorCode, world: World): (log: seq<Reply>)
    ensures |log| == |requests|
  {
    seq(|requests|, i requires 0 <= i < |requests| =>
      Reply(requests[i], Err(if world.control(AtFailure, requests[i]).Some?
                             then world.control(AtFailure, requests[i]).value else code)))
  }

  function Active(requests: seq<Request>, world: World): seq<Request> {
    if requests == [] then []
    else
      var last := requests[|requests| - 1];
      var earlier := Active(requests[..|requests| - 1], world);
      if Stopped(world, AtStart, last).None? then earlier + [last] else earlier
  }

  function TurnedAway(requests: seq<Request>, world: World): seq<Reply> {
    if requests == [] then []
    else
      var last := requests[|requests| - 1];
      var earlier := TurnedAway(requests[..|requests| - 1], world);
      match Stopped(world, AtStart, last)
      case None => earlier
      case Some(code) => earlier + [Reply(last, Err(code))]
  }

  ghost function Settle(answer: EngineResult, active: seq<Request>, world: World): seq<Reply> {
    match answer
    case Panicked => Fail(active, InferenceFailed, world)
    case Returned(Err(code)) => Fail(active, code, world)
    case Returned(Ok(output)) =>
      if ValidOutput(output, active) then Publish(active, output, world)
      else Fail(active, InferenceFailed, world)
  }

  ghost function Execute(engine: Engine, requests: seq<Request>, world: World): seq<Reply> {
    var active := Active(requests, world);
    TurnedAway(requests, world)
    + (if active == [] then [] else Settle(engine(Concat(active), active[0].options), active, world))
  }

  /** A `Vec` the adapter returns has a machine-sized length. */
  ghost predicate SizedEngine(engine: Engine) {
    forall inputs, options ::
      engine(inputs, options).Returned? && engine(inputs, options).result.Ok? ==>
      |engine(inputs, options).result.value.vectors| <= USIZE_MAX
  }

  /** A queued request has at least one input and a machine-word token cost. */
  predicate SizedRequest(r: Request) {
    r.inputs != [] && r.cost.tokens <= U64_MAX
  }

  method ExecuteBatch(engine: Engine, requests: seq<Request>, world: World) returns (log: seq<Reply>)
    requires SizedEngine(engine) && forall r :: r in requests ==> SizedRequest(r)
    ensures log == Execute(engine, requests, world)
  {
    log := [];
    var active: seq<Request> := [];
    var inputs: seq<string> := [];
    for i := 0 to |requests|
      invariant active == Active(requests[..i], world) && log == TurnedAway(requests[..i], world)
      invariant inputs == Concat(active)
      invariant forall k :: 0 <= k < |active| ==> active[k] in requests
    {
      var r := requests[i];
      assert requests[..i + 1][..i] == requests[..i];
      if !world.accepting(AtStart, r) {
        log := log + [Reply(r, Err(ModelUnavailable))];
      } else if world.control(AtStart, r).Some? {
        log := log + [Reply(r, Err(world.control(AtStart, r).value))];
      } else {
        assert (active + [r])[..|active|] == active;
        active := active + [r];
        inputs := inputs + r.inputs;
      }
    }
    assert requests[..|requests|] == requests;
    if active == [] { return; }
    var answer := engine(inputs, active[0].options);
    match answer
    case Panicked => log := log + Fail(active, InferenceFailed, world);
    case Returned(Err(code)) => log := log + Fail(active, code, world);
    case Returned(Ok(output)) =>
      var valid := ValidEngineOutput(output, active);
      if valid {
        var published := PublishResults(active, output, world);
        log := log + published;
      } else {
        log := log + Fail(active, InferenceFailed, world);
      }
  }

  // ----- Exactly one reply each -----

  lemma {:induction false} RequestsConcat(a: seq<Reply>, b: seq<Reply>)
    ensures Requests(a + b) == Requests(a) + Requests(b)
  {}

  lemma {:induction false} TurnedAwayErr(requests: seq<Request>, world: World)
    ensures forall i :: 0 <= i < |TurnedAway(requests, world)| ==> TurnedAway(requests, world)[i].answer.Err?
  {
    if requests != [] {
      TurnedAwayErr(requests[..|requests| - 1], world);
    }
  }

  lemma {:induction false} SplitAtStart(requests: seq<Request>, world: World)
    ensures multiset(Requests(TurnedAway(requests, world))) + multiset(Active(requests, world)) == multiset(requests)
  {
    if requests != [] {
      var init, last := requests[..|requests| - 1], requests[|requests| - 1];
      SplitAtStart(init, world);
      assert requests == init + [last];
      var stopped := Stopped(world, AtStart, last);
      if stopped.Some? {
        var reply := Reply(last, Err(stopped.value));
        RequestsConcat(TurnedAway(init, world), [reply]);
        assert Requests([reply]) == [last];
      }
    }
  }

  lemma {:induction false} SettleAnswersEach(answer: EngineResult, active: seq<Request>, world: World)
    ensures Requests(Settle(answer, active, world)) == active
  {}

  /** Every member of a batch is answered exactly once, whatever the engine or the races do. */
  lemma {:induction false} AnsweredExactlyOnce(engine: Engine, requests: seq<Request>, world: World)
    ensures multiset(Requests(Execute(engine, requests, world))) == multiset(requests)
  {
    var active := Active(requests, world);
    SplitAtStart(requests, world);
    if active != [] {
      var settled := Settle(engine(Concat(active), active[0].options), active, world);
      SettleAnswersEach(engine(Concat(active), active[0].options), active, world);
      RequestsConcat(TurnedAway(requests, world), settled);
    } else {
      assert Execute(engine, requests, world) == TurnedAway(requests, world);
    }
  }

  // ----- An arbitrary engine -----

  /** The engine answered, member `j` of the active list got its own rows, and they check out. */
  ghost predicate OwnSlice(engine: Engine, active: seq<Request>, j: nat, out: Output)
    requires j < |active|
  {
    var answer := engine(Concat(active), active[0].options);
    && answer.Returned? && answer.result.Ok?
    && var whole := answer.result.value;
    var lo, hi := Offset(active, j), Offset(active, j + 1);
    && lo <= hi <= |Concat(active)| == |whole.vectors| == |whole.tokens|
    && Concat(active)[lo..hi] == active[j].inputs
    && out.vectors == whole.vectors[lo..hi]
    && out.tokens == whole.tokens[lo..hi]
    && out.model == whole.model
  }

  /** Everything a caller may rely on in a successful reply. */
  ghost predicate Contracted(r: Request, out: Output) {
    && |out.vectors| == |out.tokens| == |r.inputs|
    && (forall i :: 0 <= i < |out.vectors| ==> WellShaped(out.vectors[i], ExpectedWidth(r)))
    && out.model == r.contract.identity
    && out.totalTokens == Sum(out.tokens) == r.cost.tokens
  }

  lemma {:induction false} PublishedSlice(engine: Engine, active: seq<Request>, world: World, j: nat)
    requires j < |active|
    requires var answer := engine(Concat(active), active[0].options);
      answer.Returned? && answer.result.Ok? && ValidOutput(answer.result.value, active)
    ensures var whole := engine(Concat(active), active[0].options).result.value;
      var reply := PublishAt(active, whole, world, j);
      reply.request == active[j]
      && (reply.answer.Ok? ==>
            OwnSlice(engine, active, j, reply.answer.value) && Contracted(active[j], reply.answer.value))
  {
    var whole := engine(Concat(active), active[0].options).result.value;
    assert active[..|active|] == active;
    SliceIsOwn(active, j);
    RowsInRange(whole.vectors, active, j);
    RowsInRange(whole.tokens, active, j);
    assert MemberSlice(whole, active, j);
  }

  /**
    For any engine whatsoever: a successful reply is the caller's own rows of the one native
    call, with the contracted identity and width and usage that sums to its preflight cost.
   */
  lemma {:induction false} OkIsOwnSlice(engine: Engine, requests: seq<Request>, world: World, i: nat)
    requires i < |Execute(engine, requests, world)|
    requires Execute(engine, requests, world)[i].answer.Ok?
    ensures var reply := Execute(engine, requests, world)[i];
      var active := Active(requests, world);
      var j := i - |TurnedAway(requests, world)|;
      && 0 <= j < |active| && active[j] == reply.request
      && OwnSlice(engine, active, j, reply.answer.value)
      && Contracted(reply.request, reply.answer.value)
  {
    TurnedAwayErr(requests, world);
    var active := Active(requests, world);
    var j := i - |TurnedAway(requests, world)|;
    assert active != [] && j >= 0;
    PublishedSlice(engine, active, world, j);
  }

  // ----- A pointwise engine: batching is invisible -----

  type PerInput = (string, EmbedOptions) -> Option<(Vector, nat)>

  ghost predicate AllDefined(per: PerInput, inputs: seq<string>, options: EmbedOptions) {
    forall i :: 0 <= i < |inputs| ==> per(inputs[i], options).Some?
  }

  ghost predicate Rowwise(per: PerInput, identity: Identity, inputs: seq<string>, options: EmbedOptions, out: Output) {
    && |out.vectors| == |out.tokens| == |inputs|
    && out.model == identity
    && forall i :: 0 <= i < |inputs| ==> per(inputs[i], options) == Some((out.vectors[i], out.tokens[i]))
  }

  /**
    For calls of at most `rows` inputs, each output row depends on its own input only, and one
    undefined input fails the call. (An adapter may refuse tensors beyond the machine's size.)
   */
  ghost predicate Pointwise(engine: Engine, per: PerInput, identity: Identity, rows: nat) {
    forall inputs, options :: 0 < |inputs| <= rows ==> PointwiseAt(engine, per, identity, inputs, options)
  }

  ghost predicate PointwiseAt(engine: Engine, per: PerInput, identity: Identity, inputs: seq<string>,
          options: EmbedOptions) {
    var answer := engine(inputs, options);
    && (answer.Returned? && answer.result.Ok? <==> AllDefined(per, inputs, options))
    && (answer.Returned? && answer.result.Ok? ==> Rowwise(per, identity, inputs, options, answer.result.value))
  }

  /** No cancellation, no deadline, no shutdown. */
  function Calm(): World {
    World((phase, r) => true, (phase, r) => None)
  }

  /** What a request gets when it is the only one in its batch and nothing interferes. */
  ghost function Alone(engine: Engine, r: Request): Result<Output> {
    Settle(engine(r.inputs, r.options), [r], Calm())[0].answer
  }

  lemma {:induction false} AloneIsExecuted(engine: Engine, r: Request)
    ensures Execute(engine, [r], Calm()) == [Reply(r, Alone(engine, r))]
  {
    assert [r][..0] == [] && [r][|[r]| - 1] == r;
    assert Stopped(Calm(), AtStart, r) == None;
    assert Active([], Calm()) == [] && TurnedAway([], Calm()) == [];
    assert Active([r], Calm()) == [r];
    assert TurnedAway([r], Calm()) == [];
    assert Concat([r]) == r.inputs;
    SettleAnswersEach(engine(r.inputs, r.options), [r], Calm());
    assert Requests(Settle(engine(r.inputs, r.options), [r], Calm()))[0] == r;
  }

  /** Alone, a request succeeds exactly when its rows exist and satisfy its contract. */
  lemma {:induction false} AloneOutcome(engine: Engine, per: PerInput, identity: Identity, r: Request, out: Output)
    requires Pointwise(engine, per, identity, |r.inputs|) && r.inputs != []
    requires Rowwise(per, identity, r.inputs, r.options, out) && out.totalTokens == Sum(out.tokens)
    requires IdentityIsComplete(identity) && r.cost.tokens <= U64_MAX
    ensures MemberOk(r, out.vectors, out.tokens, identity) <==> Alone(engine, r) == Ok(out)
  {
    assert PointwiseAt(engine, per, identity, r.inputs, r.options);
    var whole := engine(r.inputs, r.options).result.value;
    assert whole.vectors == out.vectors && whole.tokens == out.tokens;
    assert [r][..0] == [] && [r][..1] == [r];
    OffsetStep([r], 0);
    assert Offset([r], 0) == 0 && Offset([r], 1) == |r.inputs|;
    assert whole.vectors[0..|r.inputs|] == out.vectors && whole.tokens[0..|r.inputs|] == out.tokens;
    assert ValidOutput(whole, [r]) <==> MemberOk(r, out.vectors, out.tokens, identity) by {
      assert MemberSlice(whole, [r], 0) <==> MemberOk(r, out.vectors, out.tokens, identity);
    }
  }

  lemma {:induction false} ActiveMembers(requests: seq<Request>, world: World, r: Request)
    ensures r in Active(requests, world) ==> r in requests && Stopped(world, AtStart, r).None?
  {
    if requests != [] {
      ActiveMembers(requests[..|requests| - 1], world, r);
    }
  }

  lemma {:induction false} ActiveItems(requests: seq<Request>, world: World)
    ensures Items(Active(requests, world)) <= Items(requests)
  {
    if requests != [] {
      var n := |requests| - 1;
      ActiveItems(requests[..n], world);
      assert requests == requests[..n] + [requests[n]];
      Snoc(Active(requests[..n], world), requests[n]);
    }
  }

  /** A member has no more rows than the batch it is in. */
  lemma {:induction false} MemberItems(requests: seq<Request>, j: nat)
    requires j < |requests|
    ensures |requests[j].inputs| <= Items(requests)
  {
    assert requests[..|requests|] == requests;
    OffsetStep(requests, j);
    OffsetMono(requests, j + 1, |requests|);
  }

  ghost predicate OneBatch(requests: seq<Request>) {
    && (forall i :: 0 <= i < |requests| ==> SizedRequest(requests[i]))
    && (forall i, j :: 0 <= i < |requests| && 0 <= j < |requests| ==> requests[i].options == requests[j].options)
  }

  lemma {:induction false} ActiveIsOneBatch(requests: seq<Request>, world: World)
    requires OneBatch(requests)
    ensures OneBatch(Active(requests, world))
  {
    var active := Active(requests, world);
    forall i | 0 <= i < |active| ensures active[i] in requests {
      ActiveMembers(requests, world, active[i]);
    }
  }

  lemma {:induction false} ConcatNonempty(active: seq<Request>)
    requires active != [] && OneBatch(active)
    ensures Concat(active) != []
  {}

  /** Batching is invisible: a successful reply is what the request alone would have produced. */
  lemma {:induction false} BatchingIsInvisible(engine: Engine, per: PerInput, identity: Identity,
          requests: seq<Request>, world: World, i: nat)
    requires Pointwise(engine, per, identity, Items(requests)) && OneBatch(requests)
    requires i < |Execute(engine, requests, world)| && Execute(engine, requests, world)[i].answer.Ok?
    ensures var reply := Execute(engine, requests, world)[i];
      Execute(engine, [reply.request], Calm()) == [reply]
  {
    var reply := Execute(engine, requests, world)[i];
    var active := Active(requests, world);
    OkIsOwnSlice(engine, requests, world, i);
    var j := i - |TurnedAway(requests, world)|;
    var r, out := active[j], reply.answer.value;
    ActiveIsOneBatch(requests, world);
    ActiveItems(requests, world);
    ConcatNonempty(active);
    assert PointwiseAt(engine, per, identity, Concat(active), active[0].options);
    var whole := engine(Concat(active), active[0].options).result.value;
    assert ValidOutput(whole, active);
    RowsAreRowwise(per, identity, active, j, whole, out);
    MemberItems(active, j);
    AloneOutcome(engine, per, identity, r, out);
    AloneIsExecuted(engine, r);
  }

  /** A member's rows of a rowwise result are a rowwise result for that member's inputs. */
  lemma {:induction false} RowsAreRowwise(per: PerInput, identity: Identity, active: seq<Request>, j: nat,
          whole: Output, out: Output)
    requires j < |active| && OneBatch(active)
    requires Rowwise(per, identity, Concat(active), active[0].options, whole)
    requires out.vectors == Rows(whole.vectors, active, j) && out.tokens == Rows(whole.tokens, active, j)
    requires out.model == whole.model
    ensures Rowwise(per, identity, active[j].inputs, active[j].options, out)
  {
    assert active[..|active|] == active;
    SliceIsOwn(active, j);
    RowsInRange(whole.vectors, active, j);
    RowsInRange(whole.tokens, active, j);
    var lo, hi := Offset(active, j), Offset(active, j + 1);
    forall k | 0 <= k < |active[j].inputs|
      ensures per(active[j].inputs[k], active[j].options) == Some((out.vectors[k], out.tokens[k]))
    {
      assert active[j].inputs[k] == Concat(active)[lo..hi][k] == Concat(active)[lo + k];
      assert per(Concat(active)[lo + k], active[0].options) == Some((whole.vectors[lo + k], whole.tokens[lo + k]));
    }
  }

  lemma {:induction false} RowwiseUnique(per: PerInput, identity: Identity, inputs: seq<string>, options: EmbedOptions,
          a: Output, b: Output)
    requires Rowwise(per, identity, inputs, options, a) && Rowwise(per, identity, inputs, options, b)
    ensures a.vectors == b.vectors && a.tokens == b.tokens && a.model == b.model
  {}

  // ----- The converse: a neighbour can only hurt by failing on its own -----

  lemma {:induction false} AloneOkMeansDefined(engine: Engine, per: PerInput, identity: Identity, r: Request)
    requires Pointwise(engine, per, identity, |r.inputs|) && r.inputs != [] && Alone(engine, r).Ok?
    ensures AllDefined(per, r.inputs, r.options) && IdentityIsComplete(identity)
    ensures Rowwise(per, identity, r.inputs, r.options, Alone(engine, r).value)
    ensures MemberOk(r, Alone(engine, r).value.vectors, Alone(engine, r).value.tokens, identity)
  {
    assert PointwiseAt(engine, per, identity, r.inputs, r.options);
    var whole := engine(r.inputs, r.options).result.value;
    assert [r][..0] == [] && [r][..1] == [r];
    OffsetStep([r], 0);
    assert ValidOutput(whole, [r]);
    assert MemberSlice(whole, [r], 0);
    assert whole.vectors[0..|r.inputs|] == whole.vectors && whole.tokens[0..|r.inputs|] == whole.tokens;
  }

  lemma {:induction false} DefinedTogether(per: PerInput, active: seq<Request>, k: nat) returns (j: nat)
    requires OneBatch(active) && k < |Concat(active)|
    requires forall m :: 0 <= m < |active| ==> AllDefined(per, active[m].inputs, active[m].options)
    ensures j < |active| && Offset(active, j) <= k < Offset(active, j + 1)
    ensures per(Concat(active)[k], active[0].options).Some?
  {
    j := 0;
    while Offset(active, j + 1) <= k
      invariant j < |active| && Offset(active, j) <= k
      decreases |active| - j
    {
      assert active[..|active|] == active;
      j := j + 1;
    }
    SliceIsOwn(active, j);
    var lo := Offset(active, j);
    assert Concat(active)[k] == active[j].inputs[k - lo];
  }

  lemma {:induction false} DefinedForAll(engine: Engine, per: PerInput, identity: Identity, active: seq<Request>)
    requires Pointwise(engine, per, identity, Items(active)) && OneBatch(active) && active != []
    requires forall k :: 0 <= k < |active| ==> Alone(engine, active[k]).Ok?
    ensures AllDefined(per, Concat(active), active[0].options) && IdentityIsComplete(identity)
  {
    forall k | 0 <= k < |active| ensures AllDefined(per, active[k].inputs, active[k].options) {
      MemberItems(active, k);
      AloneOkMeansDefined(engine, per, identity, active[k]);
    }
    forall k | 0 <= k < |Concat(active)| ensures per(Concat(active)[k], active[0].options).Some? {
      var _ := DefinedTogether(per, active, k);
    }
    MemberItems(active, 0);
    AloneOkMeansDefined(engine, per, identity, active[0]);
  }

  /** In a batch whose native call succeeded, a member's rows are the rows it gets alone. */
  lemma {:induction false} RowsMatchAlone(engine: Engine, per: PerInput, identity: Identity, active: seq<Request>,
          k: nat, whole: Output)
    requires Pointwise(engine, per, identity, Items(active)) && OneBatch(active) && k < |active|
    requires Alone(engine, active[k]).Ok?
    requires Rowwise(per, identity, Concat(active), active[0].options, whole)
    ensures MemberSlice(whole, active, k)
    ensures Rows(whole.vectors, active, k) == Alone(engine, active[k]).value.vectors
    ensures Rows(whole.tokens, active, k) == Alone(engine, active[k]).value.tokens
    ensures whole.model == Alone(engine, active[k]).value.model
  {
    var own := Output(Rows(whole.vectors, active, k), whole.model, Rows(whole.tokens, active, k), 0);
    RowsAreRowwise(per, identity, active, k, whole, own);
    MemberItems(active, k);
    AloneOkMeansDefined(engine, per, identity, active[k]);
    RowwiseUnique(per, identity, active[k].inputs, active[k].options, own, Alone(engine, active[k]).value);
  }

  lemma {:induction false} AllValid(engine: Engine, per: PerInput, identity: Identity, active: seq<Request>,
          whole: Output)
    requires Pointwise(engine, per, identity, Items(active)) && OneBatch(active) && IdentityIsComplete(identity)
    requires forall k :: 0 <= k < |active| ==> Alone(engine, active[k]).Ok?
    requires active != [] && Rowwise(per, identity, Concat(active), active[0].options, whole)
    ensures ValidOutput(whole, active)
  {
    assert active[..|active|] == active;
    forall k | 0 <= k < |active| ensures MemberSlice(whole, active, k) {
      RowsMatchAlone(engine, per, identity, active, k, whole);
    }
  }

  /** The call for a batch of members that succeed alone succeeds, and its output is accepted. */
  lemma {:induction false} AllServed(engine: Engine, per: PerInput, identity: Identity, active: seq<Request>)
    requires Pointwise(engine, per, identity, Items(active)) && OneBatch(active) && active != []
    requires forall k :: 0 <= k < |active| ==> Alone(engine, active[k]).Ok?
    ensures var answer := engine(Concat(active), active[0].options);
      && answer.Returned? && answer.result.Ok? && ValidOutput(answer.result.value, active)
      && Rowwise(per, identity, Concat(active), active[0].options, answer.result.value)
  {
    ConcatNonempty(active);
    DefinedForAll(engine, per, identity, active);
    assert PointwiseAt(engine, per, identity, Concat(active), active[0].options);
    AllValid(engine, per, identity, active, engine(Concat(active), active[0].options).result.value);
  }

  lemma {:induction false} AloneTotal(engine: Engine, r: Request)
    requires Alone(engine, r).Ok? && r.inputs != []
    ensures Alone(engine, r).value.tokens != []
    ensures Alone(engine, r).value.totalTokens == Sum(Alone(engine, r).value.tokens) <= U64_MAX
  {}
}
