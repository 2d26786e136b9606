/**
  What exactly each member of a batch is answered: who takes part in the native call, which error
  everyone else gets, and that for members that succeed alone a batch is the same as running them
  one by one.
 */
module BatchAnswers {
  import opened EmbeddingCore
  import opened Scheduling
  import opened Batching

  /** The request may still use a result when its batch starts. */
  predicate Live(world: World, r: Request) {
    world.accepting(AtStart, r) && world.control(AtStart, r).None?
  }

  /** Every live member takes part in the native call, as often as it was submitted, and no other. */
  lemma {:induction false} ActiveExact(requests: seq<Request>, world: World, r: Request)
    ensures multiset(Active(requests, world))[r] == if Live(world, r) then multiset(requests)[r] else 0
  {
    if requests != [] {
      var init, last := requests[..|requests| - 1], requests[|requests| - 1];
      ActiveExact(init, world, r);
      assert requests == init + [last];
    }
  }

  lemma {:induction false} ActiveIffLive(requests: seq<Request>, world: World, r: Request)
    ensures r in Active(requests, world) <==> r in requests && Live(world, r)
  {
    ActiveExact(requests, world, r);
    assert r in requests <==> multiset(requests)[r] > 0;
    assert r in Active(requests, world) <==> multiset(Active(requests, world))[r] > 0;
  }

  /** Why the native call as a whole has no result, if it has none. */
  ghost function NativeFailure(engine: Engine, active: seq<Request>): Option<ErrorCode>
    requires active != []
  {
    match engine(Concat(active), active[0].options)
    case Panicked => Some(InferenceFailed)
    case Returned(Err(code)) => Some(code)
    case Returned(Ok(output)) => if ValidOutput(output, active) then None else Some(InferenceFailed)
  }

  /** The only answer a member may get, given the races it ran into and how the native call went. */
  ghost predicate Due(engine: Engine, active: seq<Request>, world: World, r: Request, answer: Result<Output>)
    requires Live(world, r) ==> active != []
  {
    if !world.accepting(AtStart, r) then answer == Err(ModelUnavailable)
    else if world.control(AtStart, r).Some? then answer == Err(world.control(AtStart, r).value)
    else if NativeFailure(engine, active).Some? then
      answer == Err(if world.control(AtFailure, r).Some? then world.control(AtFailure, r).value
                    else NativeFailure(engine, active).value)
    else if !world.accepting(AtPublish, r) then answer == Err(ModelUnavailable)
    else if world.control(AtPublish, r).Some? then answer == Err(world.control(AtPublish, r).value)
    else answer.Ok?
  }

  lemma {:induction false} TurnedAwayAreStopped(requests: seq<Request>, world: World, i: nat)
    requires i < |TurnedAway(requests, world)|
    ensures var reply := TurnedAway(requests, world)[i];
      reply.request in requests && !Live(world, reply.request)
      && reply.answer == Err(if world.accepting(AtStart, reply.request)
                             then world.control(AtStart, reply.request).value else ModelUnavailable)
  {
    var init := requests[..|requests| - 1];
    if i < |TurnedAway(init, world)| { TurnedAwayAreStopped(init, world, i); }
  }

  /** For any engine: every reply is the one that is due, success included. */
  lemma {:induction false} EveryAnswerIsDue(engine: Engine, requests: seq<Request>, world: World, i: nat)
    requires OneBatch(requests) && i < |Execute(engine, requests, world)|
    ensures var reply := Execute(engine, requests, world)[i];
      && reply.request in requests
      && (Live(world, reply.request) ==> Active(requests, world) != [])
      && Due(engine, Active(requests, world), world, reply.request, reply.answer)
  {
    var active, away := Active(requests, world), TurnedAway(requests, world);
    var reply := Execute(engine, requests, world)[i];
    if i < |away| {
      TurnedAwayAreStopped(requests, world, i);
    } else {
      var j := i - |away|;
      var answer := engine(Concat(active), active[0].options);
      assert reply == Settle(answer, active, world)[j];
      SettleAnswersEach(answer, active, world);
      assert Requests(Settle(answer, active, world))[j] == active[j];
      ActiveIffLive(requests, world, active[j]);
      ActiveIsOneBatch(requests, world);
      if NativeFailure(engine, active).None? {
        PublishedIsDue(active, answer.result.value, world, j);
      }
    }
  }

  lemma {:induction false} PublishedIsDue(active: seq<Request>, output: Output, world: World, j: nat)
    requires OneBatch(active) && j < |active| && ValidOutput(output, active)
    ensures var answer := PublishAt(active, output, world, j).answer;
      if !world.accepting(AtPublish, active[j]) then answer == Err(ModelUnavailable)
      else if world.control(AtPublish, active[j]).Some? then answer == Err(world.control(AtPublish, active[j]).value)
      else answer.Ok?
  {
    assert active[..|active|] == active;
    RowsInRange(output.tokens, active, j);
    assert MemberSlice(output, active, j);
  }

  // ----- A batch of healthy requests is the same as one by one -----

  /** Alone, a request is served exactly if its rows meet everything it was promised. */
  lemma {:induction false} ServedAloneIff(engine: Engine, per: PerInput, identity: Identity, r: Request, out: Output)
    requires Pointwise(engine, per, identity, |r.inputs|) && SizedRequest(r) && IdentityIsComplete(identity)
    requires Rowwise(per, identity, r.inputs, r.options, out) && out.totalTokens == Sum(out.tokens)
    ensures Execute(engine, [r], Calm()) == [Reply(r, Ok(out))] <==> Contracted(r, out)
  {
    AloneOutcome(engine, per, identity, r, out);
    AloneIsExecuted(engine, r);
  }

  /** The members one after the other, each in a batch of its own, in the same world. */
  ghost function OneByOne(engine: Engine, requests: seq<Request>, world: World): seq<Reply> {
    if requests == [] then []
    else
      OneByOne(engine, requests[..|requests| - 1], world) + Execute(engine, [requests[|requests| - 1]], world)
  }

  /** What a member that succeeds alone gets in a batch of its own. */
  ghost function Own(engine: Engine, world: World, r: Request): Reply {
    match Stopped(world, AtStart, r)
    case Some(code) => Reply(r, Err(code))
    case None =>
      match Stopped(world, AtPublish, r)
      case Some(code) => Reply(r, Err(code))
      case None => Reply(r, Alone(engine, r))
  }

  /** A valid output for one request is published whole. */
  lemma {:induction false} LonePublished(r: Request, out: Output, world: World)
    requires r.inputs != [] && ValidOutput(out, [r])
    ensures Sum(out.tokens) <= U64_MAX ==>
      Publish([r], out, world) == [PublishOne(r, out.vectors, out.tokens, out.model, world)]
    ensures out.tokens != []
  {
    assert [r][..0] == [] && [r][..1] == [r];
    OffsetStep([r], 0);
    assert out.vectors[0..|r.inputs|] == out.vectors && out.tokens[0..|r.inputs|] == out.tokens;
  }

  lemma {:induction false} LoneSettled(engine: Engine, world: World, r: Request)
    requires r.inputs != [] && Alone(engine, r).Ok? && Live(world, r)
    ensures Settle(engine(r.inputs, r.options), [r], world) == [Own(engine, world, r)]
  {
    var out := engine(r.inputs, r.options).result.value;
    LonePublished(r, out, world);
    LonePublished(r, out, Calm());
    AloneTotal(engine, r);
  }

  lemma {:induction false} OwnIsExecuted(engine: Engine, world: World, r: Request)
    requires r.inputs != [] && (Live(world, r) ==> Alone(engine, r).Ok?)
    ensures Execute(engine, [r], world) == [Own(engine, world, r)]
  {
    assert [r][..0] == [] && [r][|[r]| - 1] == r;
    assert Active([], world) == [] && TurnedAway([], world) == [];
    if Live(world, r) {
      assert Active([r], world) == [r] && TurnedAway([r], world) == [];
      assert Concat([r]) == r.inputs;
      LoneSettled(engine, world, r);
    } else {
      assert Active([r], world) == [] && TurnedAway([r], world) == [Own(engine, world, r)];
    }
  }

  /** The native call hands each member what it gets in a batch of its own. */
  lemma {:induction false} SettledAsOwn(engine: Engine, per: PerInput, identity: Identity, requests: seq<Request>,
          world: World, j: nat)
    requires Pointwise(engine, per, identity, Items(requests)) && OneBatch(requests)
    requires forall r :: r in requests && Live(world, r) ==> Alone(engine, r).Ok?
    requires j < |Active(requests, world)|
    ensures var active := Active(requests, world);
      Settle(engine(Concat(active), active[0].options), active, world)[j] == Own(engine, world, active[j])
  {
    var active := Active(requests, world);
    forall k | 0 <= k < |active| ensures Alone(engine, active[k]).Ok? && Live(world, active[k]) {
      ActiveIffLive(requests, world, active[k]);
    }
    ActiveIsOneBatch(requests, world);
    ActiveItems(requests, world);
    AllServed(engine, per, identity, active);
    var whole := engine(Concat(active), active[0].options).result.value;
    RowsMatchAlone(engine, per, identity, active, j, whole);
    AloneTotal(engine, active[j]);
    assert PublishAt(active, whole, world, j) == Own(engine, world, active[j]);
  }

  /** The batch's own replies, member by member. */
  ghost function Owns(engine: Engine, world: World, requests: seq<Request>): (log: seq<Reply>)
    ensures |log| == |requests|
  {
    seq(|requests|, i requires 0 <= i < |requests| => Own(engine, world, requests[i]))
  }

  lemma {:induction false} OwnsSnoc(engine: Engine, world: World, requests: seq<Request>)
    requires requests != []
    ensures var n := |requests| - 1;
      Owns(engine, world, requests) == Owns(engine, world, requests[..n]) + [Own(engine, world, requests[n])]
  {}

  lemma {:induction false} OwnsSplit(engine: Engine, requests: seq<Request>, world: World)
    ensures multiset(TurnedAway(requests, world)) + multiset(Owns(engine, world, Active(requests, world)))
      == multiset(Owns(engine, world, requests))
  {
    if requests != [] {
      var init, last := requests[..|requests| - 1], requests[|requests| - 1];
      OwnsSplit(engine, init, world);
      OwnsSnoc(engine, world, requests);
      if Live(world, last) {
        assert Owns(engine, world, Active(requests, world))
            == Owns(engine, world, Active(init, world)) + [Own(engine, world, last)];
      }
    }
  }

  lemma {:induction false} OneByOneIsOwns(engine: Engine, requests: seq<Request>, world: World)
    requires OneBatch(requests) && forall r :: r in requests && Live(world, r) ==> Alone(engine, r).Ok?
    ensures OneByOne(engine, requests, world) == Owns(engine, world, requests)
  {
    if requests != [] {
      var init, last := requests[..|requests| - 1], requests[|requests| - 1];
      OwnsSnoc(engine, world, requests);
      OwnIsExecuted(engine, world, last);
      assert forall r :: r in init ==> r in requests;
      OneByOneIsOwns(engine, init, world);
    }
  }

  /**
    Neighbours are harmless: if every member that is live when the batch starts would succeed alone,
    the batch gives out exactly the replies that running its members one by one gives, whatever
    cancellations, deadlines and shutdowns they run into.
   */
  lemma {:induction false} HarmlessNeighbours(engine: Engine, per: PerInput, identity: Identity, requests: seq<Request>,
          world: World)
    requires Pointwise(engine, per, identity, Items(requests)) && OneBatch(requests)
    requires forall r :: r in requests && Live(world, r) ==> Execute(engine, [r], Calm())[0].answer.Ok?
    ensures multiset(Execute(engine, requests, world)) == multiset(OneByOne(engine, requests, world))
  {
    forall r | r in requests && Live(world, r) ensures Alone(engine, r).Ok? { AloneIsExecuted(engine, r); }
    var active := Active(requests, world);
    OwnsSplit(engine, requests, world);
    OneByOneIsOwns(engine, requests, world);
    if active != [] {
      var settled := Settle(engine(Concat(active), active[0].options), active, world);
      SettleAnswersEach(engine(Concat(active), active[0].options), active, world);
      assert |settled| == |Requests(settled)| == |active|;
      forall j | 0 <= j < |active| ensures settled[j] == Own(engine, world, active[j]) {
        SettledAsOwn(engine, per, identity, requests, world, j);
      }
      assert settled == Owns(engine, world, active);
    }
  }
}
