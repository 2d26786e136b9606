/**
  Queue admission for one model slot. A request's queue permit and lease travel with it through
  the preflight job, the response channel, the scheduler's channel, its pending queue and the
  native pool, and are given back wherever the request ends up, abandoned or not.
 */
module Admission {
  import opened EmbeddingCore

  datatype Stage =
    | Leased                          // lease taken, no queue permit yet
    | Admitted                        // permit taken
    | Preflighting(attached: bool)    // the pool job owns permit and lease; is the caller still there?
    | Reported(attached: bool)        // the job's result sits in the response channel
    | Prepared                        // back with the caller, about to be sent
    | InChannel
    | Pending
    | Dispatched                      // in a batch handed to the native pool
    | Executing                       // permit returned, lease kept
    | Dropping(permit: bool, lease: bool)

  predicate HoldsPermit(s: Stage) {
    match s
    case Leased => false
    case Executing => false
    case Dropping(permit, _) => permit
    case _ => true
  }

  predicate HoldsLease(s: Stage) {
    s.Dropping? ==> s.lease
  }

  type Stages = map<nat, Stage>

  function Permits(stages: Stages): set<nat> {
    set r | r in stages && HoldsPermit(stages[r])
  }

  function Leases(stages: Stages): set<nat> {
    set r | r in stages && HoldsLease(stages[r])
  }

  function Channel(stages: Stages): set<nat> {
    set r | r in stages && stages[r].InChannel?
  }

  function Backlog(stages: Stages): set<nat> {
    set r | r in stages && stages[r].Pending?
  }

  /** The slot's two atomic counters beside the requests themselves. */
  datatype State = State(queued: nat, leases: nat, stages: Stages)

  datatype Action =
    | Enter(request: nat)
    | Acquire(request: nat)
    | GiveUp(request: nat)            // inactive control, a full pool, a failed or panicked job, a closed channel
    | Submit(request: nat)
    | Abandon(request: nat)           // the caller's future is dropped
    | Report(request: nat)
    | Collect(request: nat)
    | TrySend(request: nat)
    | Receive(request: nat)
    | Dispatch(request: nat)
    | Execute(request: nat)
    | Answer(request: nat)            // or failed, or its batch dropped
    | ReturnPermit(request: nat)
    | ReturnLease(request: nat)

  /** Which stage each action on a present request starts from. */
  predicate Fits(s: State, g: Stage, a: Action) {
    match a
    case Enter(_) => false
    case Acquire(_) => g.Leased?
    case GiveUp(_) => !g.Executing? && !g.Dropping?
    case Submit(_) => g.Admitted?
    case Abandon(_) => (g.Preflighting? || g.Reported?) && g.attached
    case Report(_) => g.Preflighting?
    case Collect(_) => g.Reported? && g.attached
    case TrySend(_) => g.Prepared?
    case Receive(_) => g.InChannel?
    case Dispatch(_) => g.Pending?
    case Execute(_) => g.Dispatched? && s.queued > 0
    case Answer(_) => g.Executing?
    case ReturnPermit(_) => g.Dropping? && g.permit && s.queued > 0
    case ReturnLease(_) => g.Dropping? && g.lease && s.leases > 0
  }

  predicate Enabled(s: State, a: Action) {
    if a.Enter? then a.request !in s.stages else a.request in s.stages && Fits(s, s.stages[a.request], a)
  }

  function Move(s: State, r: nat, g: Stage): State {
    s.(stages := s.stages[r := g])
  }

  /** A request that ends here still has to give back what it holds. */
  function Drop(s: State, r: nat): State
    requires r in s.stages
  {
    Move(s, r, Dropping(HoldsPermit(s.stages[r]), HoldsLease(s.stages[r])))
  }

  predicate ChannelFull(depth: nat, s: State) {
    |Channel(s.stages)| >= depth
  }

  function After(depth: nat, s: State, a: Action): State
    requires Enabled(s, a)
  {
    var r := a.request;
    match a
    case Enter(_) => State(s.queued, s.leases + 1, s.stages[r := Leased])
    case Acquire(_) => if s.queued < depth then Move(s, r, Admitted).(queued := s.queued + 1) else Drop(s, r)
    case GiveUp(_) => Drop(s, r)
    case Submit(_) => Move(s, r, Preflighting(true))
    case Abandon(_) => if s.stages[r].Preflighting? then Move(s, r, Preflighting(false)) else Drop(s, r)
    case Report(_) => if s.stages[r].attached then Move(s, r, Reported(true)) else Drop(s, r)
    case Collect(_) => Move(s, r, Prepared)
    case TrySend(_) => if ChannelFull(depth, s) then Drop(s, r) else Move(s, r, InChannel)
    case Receive(_) => Move(s, r, Pending)
    case Dispatch(_) => Move(s, r, Dispatched)
    case Execute(_) => Move(s, r, Executing).(queued := s.queued - 1)
    case Answer(_) => Drop(s, r)
    case ReturnPermit(_) => Move(s, r, Dropping(false, s.stages[r].lease)).(queued := s.queued - 1)
    case ReturnLease(_) => Move(s, r, Dropping(s.stages[r].permit, false)).(leases := s.leases - 1)
  }

  function Run(depth: nat, actions: seq<Action>): State
    decreases |actions|
  {
    if actions == [] then State(0, 0, map[])
    else
      var s := Run(depth, actions[..|actions| - 1]);
      if Enabled(s, actions[|actions| - 1]) then After(depth, s, actions[|actions| - 1]) else s
  }

  predicate Inv(depth: nat, s: State) {
    s.queued == |Permits(s.stages)| <= depth && s.leases == |Leases(s.stages)|
  }

  /** What moving one request does to the two counts of live owners. */
  lemma {:induction false} PermitsMove(stages: Stages, r: nat, g: Stage)
    ensures |Permits(stages[r := g])| ==
      |Permits(stages)| + (if HoldsPermit(g) then 1 else 0) - if r in stages && HoldsPermit(stages[r]) then 1 else 0
  {
    SizesDifferAt(Permits(stages), Permits(stages[r := g]), r);
  }

  lemma {:induction false} LeasesMove(stages: Stages, r: nat, g: Stage)
    ensures |Leases(stages[r := g])| ==
      |Leases(stages)| + (if HoldsLease(g) then 1 else 0) - if r in stages && HoldsLease(stages[r]) then 1 else 0
  {
    SizesDifferAt(Leases(stages), Leases(stages[r := g]), r);
  }

  lemma {:induction false} StepKeepsInv(depth: nat, s: State, a: Action)
    requires Inv(depth, s) && Enabled(s, a)
    ensures Inv(depth, After(depth, s, a))
  {
    PermitsMove(s.stages, a.request, After(depth, s, a).stages[a.request]);
    LeasesMove(s.stages, a.request, After(depth, s, a).stages[a.request]);
  }

  lemma {:induction false} RunKeepsInv(depth: nat, actions: seq<Action>)
    ensures Inv(depth, Run(depth, actions))
    decreases |actions|
  {
    if actions != [] {
      var s := Run(depth, actions[..|actions| - 1]);
      RunKeepsInv(depth, actions[..|actions| - 1]);
      if Enabled(s, actions[|actions| - 1]) {
        StepKeepsInv(depth, s, actions[|actions| - 1]);
      }
    } else {
      assert Permits(map[]) == {} && Leases(map[]) == {};
    }
  }

  /**
    Admission is exact in every interleaving: the counter is the number of live permits and never
    exceeds the depth, leases are conserved, and the scheduler's backlog is bounded by the depth.
   */
  lemma {:induction false} AdmissionIsExact(depth: nat, actions: seq<Action>)
    ensures var s := Run(depth, actions);
      && s.queued == |Permits(s.stages)| <= depth
      && s.leases == |Leases(s.stages)|
      && |Channel(s.stages)| + |Backlog(s.stages)| <= depth
  {
    RunKeepsInv(depth, actions);
    var s := Run(depth, actions);
    var both := Channel(s.stages) + Backlog(s.stages);
    assert Channel(s.stages) !! Backlog(s.stages);
    SubsetSize(both, Permits(s.stages));
  }

  /** The queue-full answer of `try_send` is never given: the sender's own permit is outside the channel. */
  lemma {:induction false} ChannelNeverFull(depth: nat, actions: seq<Action>, r: nat)
    requires Enabled(Run(depth, actions), TrySend(r))
    ensures !ChannelFull(depth, Run(depth, actions))
  {
    RunKeepsInv(depth, actions);
    var s := Run(depth, actions);
    assert r in Permits(s.stages) && r !in Channel(s.stages);
    SubsetSize(Channel(s.stages) + {r}, Permits(s.stages));
  }

  /** The refusal at admission is exact: it happens only when `depth` requests really hold permits. */
  lemma {:induction false} RefusedOnlyWhenFull(depth: nat, actions: seq<Action>, r: nat)
    requires Enabled(Run(depth, actions), Acquire(r))
    ensures After(depth, Run(depth, actions), Acquire(r)).stages[r].Dropping?
       <==> |Permits(Run(depth, actions).stages)| == depth
  {
    RunKeepsInv(depth, actions);
  }

  /** How far a request has come. */
  function Progress(g: Stage): nat {
    match g
    case Leased => 0
    case Admitted => 1
    case Preflighting(_) => 2
    case Reported(_) => 3
    case Prepared => 4
    case InChannel => 5
    case Pending => 6
    case Dispatched => 7
    case Executing => 8
    case Dropping(_, _) => 9
  }

  /** The reasons for which a request ends before its answer. */
  ghost predicate Ends(depth: nat, s: State, a: Action)
    requires Enabled(s, a) && !a.Enter?
  {
    var g := s.stages[a.request];
    || a.GiveUp? || a.Answer? || a.ReturnPermit? || a.ReturnLease?
    || (a.Acquire? && |Permits(s.stages)| == depth)
    || (a.Report? && !g.attached)
    || (a.Abandon? && g.Reported?)
  }

  /**
    No request is lost on the way: a step takes it to the next stage, or ends it for one of the
    named reasons, and never touches another request.
   */
  lemma {:induction false} OneStageAtATime(depth: nat, actions: seq<Action>, a: Action)
    requires Enabled(Run(depth, actions), a) && !a.Enter?
    ensures var s, t := Run(depth, actions), After(depth, Run(depth, actions), a);
      && t.stages.Keys == s.stages.Keys
      && (forall r :: r in s.stages && r != a.request ==> t.stages[r] == s.stages[r])
      && (t.stages[a.request].Dropping? <==> Ends(depth, s, a))
      && (!Ends(depth, s, a) && !a.Abandon? ==> Progress(t.stages[a.request]) == Progress(s.stages[a.request]) + 1)
      && (!Ends(depth, s, a) && a.Abandon? ==> t.stages[a.request] == Preflighting(false))
  {
    RunKeepsInv(depth, actions);
    if a.TrySend? { ChannelNeverFull(depth, actions, a.request); }
  }

  /** A counter step is always possible for an owner: neither counter underflows. */
  lemma {:induction false} NeverUnderflows(depth: nat, actions: seq<Action>, r: nat)
    requires r in Run(depth, actions).stages
    ensures var s := Run(depth, actions);
      && (s.stages[r].Dispatched? ==> Enabled(s, Execute(r)))
      && (s.stages[r].Dropping? && s.stages[r].permit ==> Enabled(s, ReturnPermit(r)))
      && (s.stages[r].Dropping? && s.stages[r].lease ==> Enabled(s, ReturnLease(r)))
  {
    RunKeepsInv(depth, actions);
    var s := Run(depth, actions);
    assert HoldsPermit(s.stages[r]) ==> r in Permits(s.stages);
    assert HoldsLease(s.stages[r]) ==> r in Leases(s.stages);
  }

  /** When every request has been let go of completely, both counters are back at zero. */
  lemma {:induction false} EverythingIsReturned(depth: nat, actions: seq<Action>)
    requires forall r :: r in Run(depth, actions).stages ==> Run(depth, actions).stages[r] == Dropping(false, false)
    ensures Run(depth, actions).queued == 0 && Run(depth, actions).leases == 0
  {
    RunKeepsInv(depth, actions);
    assert Permits(Run(depth, actions).stages) == {} && Leases(Run(depth, actions).stages) == {};
  }
}
