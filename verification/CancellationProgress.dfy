/**
  Calls on cancellation tokens end: under every schedule the calls in progress take boundedly many
  steps, never get stuck, and leave the same tokens cancelled.
 */
module CancellationProgress {
  import opened EmbeddingCore
  import opened Cancellation

  /** The steps of calls in progress; the other actions start new calls. */
  predicate Internal(act: Action) {
    act.Advance? || act.Find? || act.Overlook? || act.WakeOne? || act.TellOne?
  }

  ghost predicate AllInternal(more: seq<Action>) {
    forall k :: 0 <= k < |more| ==> Internal(more[k])
  }

  // ----- How much is left to do -----

  function Edges(g: Graph): nat {
    if g == [] then 0 else Edges(g[..|g| - 1]) + |g[|g| - 1]|
  }

  lemma {:induction false} DegreeWithinEdges(g: Graph, i: nat)
    requires i < |g|
    ensures |g[i]| <= Edges(g)
  {
    if i < |g| - 1 { DegreeWithinEdges(g[..|g| - 1], i); }
  }

  /** `n` times `c`, one at a time. */
  function Times(n: nat, c: nat): nat {
    if n == 0 then 0 else Times(n - 1, c) + c
  }

  lemma {:induction false} TimesGrows(a: nat, b: nat, c: nat)
    requires a <= b
    ensures Times(a, c) <= Times(b, c)
  {
    if a < b { TimesGrows(a, b - 1, c); }
  }

  /** No scan has more left to do than this. */
  function ScanWork(g: Graph): nat {
    Edges(g) + 2
  }

  /** What setting a flag may still cause: a scan of every token there is. */
  function FlagWork(g: Graph): nat {
    Times(|g|, ScanWork(g) + 1) + 3
  }

  function Work(g: Graph, a: Activity): (n: nat)
    requires Placed(g, a)
    ensures n > 0
  {
    match a
    case Register(i, k) => Times(|g[i]| - k, ScanWork(g) + 3) + ScanWork(g) + 1
    case Recheck(i, k) => Times(|g[i]| - k, ScanWork(g) + 3) + ScanWork(g)
    case Scan(i, k) => |g[i]| - k + 2
    case Swap(_) => 1
    case Drain(_) => FlagWork(g)
    case Collect(_, ws) => FlagWork(g) - 1 + |ws|
    case Notify(_, ws, ds) => |ws| + Times(|ds|, ScanWork(g) + 1) + 1
    case Poll(_, _) => 6
    case Offer(_, _) => 5
    case Push(_, _) => 4
    case Confirm(_, _) => 2
    case Conclude(_, _) => 1
  }

  predicate AllPlaced(g: Graph, m: map<nat, Activity>) {
    forall id :: id in m ==> Placed(g, m[id])
  }

  /** An activity to count first. */
  ghost function First(m: map<nat, Activity>): (id: nat)
    requires m != map[]
    ensures id in m
  {
    var id :| id in m;
    id
  }

  ghost function Load(g: Graph, m: map<nat, Activity>): nat
    requires AllPlaced(g, m)
    decreases |m|
  {
    if m == map[] then 0 else Work(g, m[First(m)]) + Load(g, m - {First(m)})
  }

  lemma {:induction false} LoadWithout(g: Graph, m: map<nat, Activity>, id: nat)
    requires AllPlaced(g, m) && id in m
    ensures Load(g, m) == Work(g, m[id]) + Load(g, m - {id})
    decreases |m|
  {
    var first := First(m);
    if id != first {
      var a, b := m - {first}, m - {id};
      assert a - {id} == b - {first};
      LoadWithout(g, a, id);
      LoadWithout(g, b, first);
    }
  }

  lemma {:induction false} LoadWith(g: Graph, m: map<nat, Activity>, id: nat, a: Activity)
    requires AllPlaced(g, m) && Placed(g, a)
    ensures Load(g, m[id := a]) + (if id in m then Work(g, m[id]) else 0) == Load(g, m) + Work(g, a)
  {
    var more := m[id := a];
    LoadWithout(g, more, id);
    if id in m {
      LoadWithout(g, m, id);
      assert more - {id} == m - {id};
    } else {
      assert more - {id} == m;
    }
  }

  ghost function Unset(g: Graph, flags: set<nat>): set<nat> {
    set i | 0 <= i < |g| && i !in flags
  }

  /** An upper bound on the steps that calls in progress can still make. */
  ghost function Pending(s: State): nat
    requires Typed(s)
  {
    Load(s.graph, s.active) + Times(|Unset(s.graph, s.flags)|, FlagWork(s.graph)) + |s.waiters|
  }

  // ----- Every step lowers it -----

  lemma {:induction false} BecomeLowers(s: State, id: nat, a: Activity)
    requires Typed(s) && id in s.active && Placed(s.graph, a) && Work(s.graph, a) < Work(s.graph, s.active[id])
    ensures Typed(Become(s, id, a)) && Pending(Become(s, id, a)) < Pending(s)
  {
    LoadWith(s.graph, s.active, id, a);
  }

  lemma {:induction false} FinishLowers(s: State, id: nat)
    requires Typed(s) && id in s.active
    ensures Typed(Finish(s, id)) && Pending(Finish(s, id)) < Pending(s)
  {
    LoadWithout(s.graph, s.active, id);
  }

  lemma {:induction false} SpawnLowers(s: State, id: nat, a: Activity, spawn: nat, other: Activity)
    requires Typed(s) && id in s.active && spawn !in s.active && Placed(s.graph, a) && Placed(s.graph, other)
    requires Work(s.graph, a) + Work(s.graph, other) < Work(s.graph, s.active[id])
    ensures var t := Become(Become(s, id, a), spawn, other); Typed(t) && Pending(t) < Pending(s)
  {
    LoadWith(s.graph, s.active, id, a);
    LoadWith(s.graph, s.active[id := a], spawn, other);
  }

  lemma {:induction false} BelowSize(a: set<nat>, n: nat)
    requires forall x :: x in a ==> x < n
    ensures |a| <= n
  {
    if n == 0 {
      assert a == {};
    } else {
      BelowSize(a - {n - 1}, n - 1);
      SizesDifferAt(a, a - {n - 1}, n - 1);
    }
  }

  lemma {:induction false} ScanIsSmall(g: Graph, i: nat, k: nat)
    requires i < |g| && k <= |g[i]|
    ensures Work(g, Scan(i, k)) <= ScanWork(g)
  {
    DegreeWithinEdges(g, i);
  }

  lemma {:induction false} RegisterWork(g: Graph, i: nat, k: nat)
    requires i < |g| && k <= |g[i]|
    ensures Work(g, Register(i, |g[i]|)) == ScanWork(g) + 1
    ensures k < |g[i]| ==> Work(g, Recheck(i, k)) < Work(g, Register(i, k))
    ensures k < |g[i]| ==> Work(g, Register(i, k + 1)) + ScanWork(g) < Work(g, Recheck(i, k))
  {}

  /** An `any` token about to register with a constituent. */
  lemma {:induction false} RegisteringLowers(s: State, id: nat, spawn: nat)
    requires Typed(s) && id in s.active && s.active[id].Register? && Typed(Advanced(s, id, spawn))
    ensures Pending(Advanced(s, id, spawn)) < Pending(s)
  {
    var g, i, k := s.graph, s.active[id].token, s.active[id].k;
    var next := if k < |g[i]| then Recheck(i, k) else Scan(i, 0);
    ScanIsSmall(g, i, 0);
    RegisterWork(g, i, k);
    LoadWith(g, s.active, id, next);
    assert Advanced(s, id, spawn).active == s.active[id := next];
  }

  /** An `any` token that looks at a constituent it has just registered with. */
  lemma {:induction false} RecheckingLowers(s: State, id: nat, spawn: nat)
    requires Typed(s) && id in s.active && s.active[id].Recheck? && spawn !in s.active
    requires Typed(Advanced(s, id, spawn))
    ensures Pending(Advanced(s, id, spawn)) < Pending(s)
  {
    var g, i, k := s.graph, s.active[id].token, s.active[id].k;
    ScanIsSmall(g, i, 0);
    RegisterWork(g, i, k);
    var t := Become(s, id, Register(i, k + 1));
    if g[i][k] in s.flags {
      assert Advanced(s, id, spawn) == Become(t, spawn, Scan(i, 0));
      SpawnLowers(s, id, Register(i, k + 1), spawn, Scan(i, 0));
    } else {
      assert Advanced(s, id, spawn) == t;
      BecomeLowers(s, id, Register(i, k + 1));
    }
  }

  /** A flag is set: what that may cause was counted against the token. */
  lemma {:induction false} SwappingLowers(s: State, id: nat, spawn: nat)
    requires Typed(s) && id in s.active && s.active[id].Swap? && Typed(Advanced(s, id, spawn))
    ensures Pending(Advanced(s, id, spawn)) < Pending(s)
  {
    var g, m, i := s.graph, s.active, s.active[id].token;
    LoadWithout(g, m, id);
    LoadWith(g, m, id, Drain(i));
    if i !in s.flags {
      SizesDifferAt(Unset(g, s.flags), Unset(g, s.flags + {i}), i);
    }
  }

  lemma {:induction false} SplitWaiters(waiters: set<(nat, nat)>, i: nat)
    ensures var rest := set p | p in waiters && p.0 != i;
      |waiters| == |rest| + |Related(waiters, i)|
    decreases |waiters|
  {
    if p :| p in waiters {
      var fewer := waiters - {p};
      SplitWaiters(fewer, i);
      var rest, less := (set q | q in waiters && q.0 != i), (set q | q in fewer && q.0 != i);
      if p.0 == i {
        assert rest == less;
        SizesDifferAt(Related(waiters, i), Related(fewer, i), p.1);
      } else {
        assert rest == less + {p};
        assert Related(waiters, i) == Related(fewer, i);
      }
    }
  }

  /** The waiters of a cancelled token change hands. */
  lemma {:induction false} DrainingLowers(s: State, id: nat, spawn: nat)
    requires Typed(s) && id in s.active && s.active[id].Drain? && Typed(Advanced(s, id, spawn))
    ensures Pending(Advanced(s, id, spawn)) < Pending(s)
  {
    var i := s.active[id].token;
    SplitWaiters(s.waiters, i);
    LoadWith(s.graph, s.active, id, Collect(i, Related(s.waiters, i)));
  }

  lemma {:induction false} NotifyWork(g: Graph, i: nat, ws: set<nat>, ds: set<nat>)
    requires i < |g| && forall d :: d in ds ==> d < |g|
    ensures Work(g, Notify(i, ws, ds)) < Work(g, Collect(i, ws))
  {
    BelowSize(ds, |g|);
    TimesGrows(|ds|, |g|, ScanWork(g) + 1);
  }

  /** The dependents of a cancelled token are listed. */
  lemma {:induction false} CollectingLowers(s: State, id: nat, spawn: nat)
    requires Typed(s) && id in s.active && s.active[id].Collect? && Typed(Advanced(s, id, spawn))
    ensures Pending(Advanced(s, id, spawn)) < Pending(s)
  {
    var i, ws, ds := s.active[id].token, s.active[id].wakers, Related(s.dependents, s.active[id].token);
    NotifyWork(s.graph, i, ws, ds);
    BecomeLowers(s, id, Notify(i, ws, ds));
  }

  /** A scan that goes on to its next constituent, or ends. */
  lemma {:induction false} ScanningLowers(s: State, id: nat, spawn: nat)
    requires Typed(s) && id in s.active && s.active[id].Scan? && Typed(Advanced(s, id, spawn))
    ensures Pending(Advanced(s, id, spawn)) < Pending(s)
  {
    var i, k := s.active[id].token, s.active[id].k;
    if k < |s.graph[i]| {
      BecomeLowers(s, id, Scan(i, k + 1));
    } else {
      FinishLowers(s, id);
    }
  }

  /** The stage a poll goes on to, unless it ends. */
  function NextStage(a: Activity, seen: bool): Activity
    requires Polls(a)
  {
    match a
    case Poll(i, w) => Offer(i, w)
    case Offer(i, w) => if seen then Conclude(i, w) else Push(i, w)
    case Push(i, w) => Confirm(i, w)
    case _ => Conclude(a.token, a.waker)
  }

  predicate Polls(a: Activity) {
    a.Poll? || a.Offer? || a.Push? || a.Confirm? || a.Conclude?
  }

  /** A poll ends or goes on to its next stage; only its third lists a waiter. */
  lemma {:induction false} PollingLowers(s: State, id: nat, spawn: nat)
    requires Typed(s) && id in s.active && Polls(s.active[id]) && Typed(Advanced(s, id, spawn))
    ensures Pending(Advanced(s, id, spawn)) < Pending(s)
  {
    var a, t := s.active[id], Advanced(s, id, spawn);
    LoadWithout(s.graph, s.active, id);
    LoadWith(s.graph, s.active, id, NextStage(a, a.token in s.flags));
    assert t.active == s.active - {id} || t.active == s.active[id := NextStage(a, a.token in s.flags)];
    assert t.waiters == s.waiters || (a.Push? && t.waiters == s.waiters + {(a.token, a.waker)});
  }

  lemma {:induction false} AdvanceLowers(s: State, id: nat, spawn: nat)
    requires Typed(s) && Enabled(s, Advance(id, spawn)) && Typed(Advanced(s, id, spawn))
    ensures Pending(Advanced(s, id, spawn)) < Pending(s)
  {
    match s.active[id]
    case Register(_, _) => RegisteringLowers(s, id, spawn);
    case Recheck(_, _) => RecheckingLowers(s, id, spawn);
    case Swap(_) => SwappingLowers(s, id, spawn);
    case Drain(_) => DrainingLowers(s, id, spawn);
    case Collect(_, _) => CollectingLowers(s, id, spawn);
    case Scan(_, _) => ScanningLowers(s, id, spawn);
    case Notify(_, _, _) => FinishLowers(s, id);
    case _ => PollingLowers(s, id, spawn);
  }

  lemma {:induction false} TellWork(g: Graph, a: Activity, d: nat)
    requires a.Notify? && Placed(g, a) && d in a.dependents
    ensures Work(g, a.(dependents := a.dependents - {d})) + Work(g, Scan(d, 0)) < Work(g, a)
  {
    ScanIsSmall(g, d, 0);
  }

  /** One dependent is told: it scans, which costs less than telling it was counted for. */
  lemma {:induction false} TellOneLowers(s: State, id: nat, d: nat, spawn: nat)
    requires Typed(s) && Enabled(s, TellOne(id, d, spawn)) && Typed(After(s, TellOne(id, d, spawn)))
    ensures Pending(After(s, TellOne(id, d, spawn))) < Pending(s)
  {
    var a := s.active[id];
    TellWork(s.graph, a, d);
    SpawnLowers(s, id, a.(dependents := a.dependents - {d}), spawn, Scan(d, 0));
  }

  /** Every step of a call in progress leaves strictly less to do. */
  lemma {:induction false} StepLowers(s: State, act: Action)
    requires Typed(s) && Enabled(s, act) && Internal(act)
    ensures Typed(After(s, act)) && Pending(After(s, act)) < Pending(s)
  {
    TypedKept(s, act);
    if act.Advance? {
      AdvanceLowers(s, act.id, act.spawn);
    } else if act.TellOne? {
      TellOneLowers(s, act.id, act.dependent, act.spawn);
    } else {
      OtherLowers(s, act);
    }
  }

  lemma {:induction false} OtherLowers(s: State, act: Action)
    requires Typed(s) && Enabled(s, act) && (act.Find? || act.Overlook? || act.WakeOne?) && Typed(After(s, act))
    ensures Pending(After(s, act)) < Pending(s)
  {
    var t := After(s, act);
    LoadWithout(s.graph, s.active, act.id);
    if act.id in t.active {
      LoadWith(s.graph, s.active, act.id, t.active[act.id]);
    }
  }

  // ----- No call gets stuck -----

  lemma {:induction false} FreshId(ids: set<nat>) returns (unused: nat)
    ensures forall id :: id in ids ==> id < unused
  {
    unused := 0;
    if id :| id in ids {
      var rest := FreshId(ids - {id});
      unused := if rest <= id then id + 1 else rest;
      assert forall other :: other in ids ==> other == id || other in ids - {id};
    }
  }

  /** While a call is in progress, some call can make a step. */
  lemma {:induction false} NeverStuck(s: State) returns (act: Action)
    requires Typed(s) && s.active != map[]
    ensures Internal(act) && Enabled(s, act)
  {
    var id := First(s.active);
    var spawn := FreshId(s.active.Keys);
    var a := s.active[id];
    act := Advance(id, spawn);
    if a.Scan? && a.k < |s.graph[a.token]| && s.graph[a.token][a.k] in s.flags {
      act := Find(id);
    } else if a.Notify? && a.wakers != {} {
      var w :| w in a.wakers;
      act := WakeOne(id, w);
    } else if a.Notify? && a.dependents != {} {
      var d :| d in a.dependents;
      act := TellOne(id, d, spawn);
    }
  }

  // ----- Whole schedules -----

  lemma {:induction false} Snoc(actions: seq<Action>, more: seq<Action>)
    requires more != []
    ensures var n := |more| - 1;
      && actions + more == (actions + more[..n]) + [more[n]]
      && forall k :: 0 <= k <= n ==> more[..n][..k] == more[..k]
  {}

  lemma {:induction false} RunOn(actions: seq<Action>, act: Action)
    ensures var s := Run(actions);
      Run(actions + [act]) == if Enabled(s, act) then After(s, act) else s
  {
    assert (actions + [act])[..|actions|] == actions;
  }

  lemma {:induction false} RunLowers(actions: seq<Action>, act: Action)
    requires Enabled(Run(actions), act) && Internal(act)
    ensures Pending(Run(actions + [act])) < Pending(Run(actions))
  {
    RunOn(actions, act);
    StepLowers(Run(actions), act);
  }

  lemma {:induction false} StepKeepsRequests(s: State, act: Action)
    requires Typed(s) && Enabled(s, act) && Internal(act)
    ensures After(s, act).graph == s.graph && After(s, act).requested == s.requested
  {}

  lemma {:induction false} RunKeepsRequests(actions: seq<Action>, act: Action)
    requires Internal(act)
    ensures var s, t := Run(actions), Run(actions + [act]);
      t.graph == s.graph && t.requested == s.requested
  {
    RunOn(actions, act);
    if Enabled(Run(actions), act) { StepKeepsRequests(Run(actions), act); }
  }

  /** However they are scheduled, the calls in progress make at most `Pending` steps. */
  lemma {:induction false} EveryScheduleEnds(actions: seq<Action>, more: seq<Action>)
    requires AllInternal(more)
    requires forall k :: 0 <= k < |more| ==> Enabled(Run(actions + more[..k]), more[k])
    ensures |more| + Pending(Run(actions + more)) <= Pending(Run(actions))
    decreases |more|
  {
    if more == [] {
      assert actions + more == actions;
    } else {
      var n := |more| - 1;
      Snoc(actions, more);
      EveryScheduleEnds(actions, more[..n]);
      RunLowers(actions + more[..n], more[n]);
    }
  }

  lemma {:induction false} Cons(actions: seq<Action>, act: Action, rest: seq<Action>)
    requires Internal(act) && AllInternal(rest)
    ensures actions + ([act] + rest) == (actions + [act]) + rest && AllInternal([act] + rest)
  {}

  lemma {:induction false} RunNeverStuck(actions: seq<Action>) returns (act: Action)
    requires Run(actions).active != map[]
    ensures Internal(act) && Pending(Run(actions + [act])) < Pending(Run(actions))
  {
    act := NeverStuck(Run(actions));
    RunLowers(actions, act);
  }

  /** After any history the calls in progress can be brought to their end. */
  lemma {:induction false} CallsEnd(actions: seq<Action>) returns (more: seq<Action>)
    ensures AllInternal(more) && Run(actions + more).active == map[]
    decreases Pending(Run(actions))
  {
    if Run(actions).active == map[] {
      more := [];
      assert actions + more == actions;
    } else {
      var act := RunNeverStuck(actions);
      var rest := CallsEnd(actions + [act]);
      Cons(actions, act, rest);
      more := [act] + rest;
    }
  }

  lemma {:induction false} InternalKeepsRequests(actions: seq<Action>, more: seq<Action>)
    requires AllInternal(more)
    ensures Run(actions + more).graph == Run(actions).graph && Run(actions + more).requested == Run(actions).requested
    decreases |more|
  {
    if more == [] {
      assert actions + more == actions;
    } else {
      var n := |more| - 1;
      Snoc(actions, more);
      InternalKeepsRequests(actions, more[..n]);
      RunKeepsRequests(actions + more[..n], more[n]);
    }
  }

  /**
    Cancellation takes effect: whatever the schedule, once the calls in progress have ended, the
    cancelled tokens are those that follow from the requests made before, no more and no fewer.
   */
  lemma {:induction false} OutcomeIsDetermined(actions: seq<Action>, more: seq<Action>, i: nat)
    requires AllInternal(more) && Run(actions + more).active == map[] && i < |Run(actions).graph|
    ensures i in Run(actions + more).flags <==> Reaches(Run(actions).graph, Run(actions).requested, i)
  {
    InternalKeepsRequests(actions, more);
    PushEqualsPull(actions + more, i);
  }

  // ----- What a poll returns -----

  /** The poll with waker `w` has returned, or is still under way as call `id`. */
  ghost predicate Polling(s: State, id: nat, i: nat, w: nat) {
    || (i, w) in s.ready || (i, w) in s.parked
    || (id in s.active && Polls(s.active[id]) && s.active[id].token == i && s.active[id].waker == w)
  }

  /** A poll of a cancelled token: it has returned ready, or has yet to take its first look. */
  ghost predicate AboutToBeReady(s: State, id: nat, i: nat, w: nat) {
    i in s.flags && ((i, w) in s.ready || (id in s.active && s.active[id] == Poll(i, w)))
  }

  lemma {:induction false} PollingStep(s: State, act: Action, id: nat, i: nat, w: nat)
    requires Typed(s) && Enabled(s, act) && Internal(act)
    ensures Polling(s, id, i, w) ==> Polling(After(s, act), id, i, w)
    ensures AboutToBeReady(s, id, i, w) ==> AboutToBeReady(After(s, act), id, i, w)
  {
    if id in s.active && act.id != id { OthersKept(s, act, id); }
  }

  lemma {:induction false} PollingRun(actions: seq<Action>, act: Action, id: nat, i: nat, w: nat)
    requires Internal(act)
    ensures Polling(Run(actions), id, i, w) ==> Polling(Run(actions + [act]), id, i, w)
    ensures AboutToBeReady(Run(actions), id, i, w) ==> AboutToBeReady(Run(actions + [act]), id, i, w)
  {
    RunOn(actions, act);
    if Enabled(Run(actions), act) { PollingStep(Run(actions), act, id, i, w); }
  }

  lemma {:induction false} PollingRuns(actions: seq<Action>, more: seq<Action>, id: nat, i: nat, w: nat)
    requires AllInternal(more)
    ensures Polling(Run(actions), id, i, w) ==> Polling(Run(actions + more), id, i, w)
    ensures AboutToBeReady(Run(actions), id, i, w) ==> AboutToBeReady(Run(actions + more), id, i, w)
    decreases |more|
  {
    if more == [] {
      assert actions + more == actions;
    } else {
      var n := |more| - 1;
      Snoc(actions, more);
      PollingRuns(actions, more[..n], id, i, w);
      PollingRun(actions + more[..n], more[n], id, i, w);
    }
  }

  /**
    Every poll returns, ready or pending, and a poll of a token that was cancelled before it
    returns ready, whatever else is under way.
   */
  lemma {:induction false} CancelledPollsReady(actions: seq<Action>, i: nat, w: nat, id: nat, more: seq<Action>)
    requires Enabled(Run(actions), PollCall(i, w, id)) && AllInternal(more)
    requires Run(actions + [PollCall(i, w, id)] + more).active == map[]
    ensures var end := Run(actions + [PollCall(i, w, id)] + more);
      && ((i, w) in end.ready || (i, w) in end.parked)
      && (i in Run(actions).flags ==> (i, w) in end.ready)
  {
    RunOn(actions, PollCall(i, w, id));
    PollingRuns(actions + [PollCall(i, w, id)], more, id, i, w);
  }

  // ----- No waker is woken for nothing -----

  /** A poll of a token that is now cancelled brought this waker. */
  ghost predicate Deserved(s: State, w: nat) {
    exists i :: (i, w) in s.polled && i in s.flags
  }

  /** Everyone holding wakers took them from a cancelled token's list. */
  ghost predicate Entitled(s: State, a: Activity) {
    && (Polls(a) ==> (a.token, a.waker) in s.polled)
    && (a.Drain? || a.Collect? || a.Notify? ==> a.token in s.flags)
    && (a.Collect? || a.Notify? ==> forall w :: w in a.wakers ==> (a.token, w) in s.polled)
  }

  ghost predicate WakesAreDue(s: State) {
    && s.waiters <= s.polled
    && (forall w :: w in s.woken ==> Deserved(s, w))
    && (forall id :: id in s.active ==> Entitled(s, s.active[id]))
  }

  lemma {:induction false} PolledGrows(s: State, act: Action)
    requires Typed(s) && Enabled(s, act)
    ensures s.polled <= After(s, act).polled && s.flags <= After(s, act).flags
  {}

  lemma {:induction false} EntitledKept(s: State, act: Action, id: nat)
    requires Typed(s) && Enabled(s, act) && WakesAreDue(s) && id in After(s, act).active
    ensures Entitled(After(s, act), After(s, act).active[id])
  {
    PolledGrows(s, act);
    if id in s.active && (act.NewSingle? || act.id != id) { OthersKept(s, act, id); }
  }

  lemma {:induction false} WokenAreDeserved(s: State, act: Action, w: nat)
    requires Typed(s) && Enabled(s, act) && WakesAreDue(s) && w in After(s, act).woken
    ensures Deserved(After(s, act), w)
  {
    PolledGrows(s, act);
    if w in s.woken {
      assert Deserved(s, w);
    } else {
      var a := s.active[act.id];
      assert Entitled(s, a);
      assert (a.token, w) in s.polled && a.token in s.flags;
    }
  }

  lemma {:induction false} WaitersArePolled(s: State, act: Action)
    requires Typed(s) && Enabled(s, act) && WakesAreDue(s)
    ensures After(s, act).waiters <= After(s, act).polled
  {
    PolledGrows(s, act);
  }

  lemma {:induction false} RunWakesAreDue(actions: seq<Action>)
    ensures WakesAreDue(Run(actions))
    decreases |actions|
  {
    if actions != [] {
      var n := |actions| - 1;
      var s, act := Run(actions[..n]), actions[n];
      RunWakesAreDue(actions[..n]);
      if Enabled(s, act) { WakesStayDue(s, act); }
    }
  }

  lemma {:induction false} WakesStayDue(s: State, act: Action)
    requires Typed(s) && Enabled(s, act) && WakesAreDue(s)
    ensures WakesAreDue(After(s, act))
  {
    var t := After(s, act);
    WaitersArePolled(s, act);
    forall w | w in t.woken ensures Deserved(t, w) { WokenAreDeserved(s, act, w); }
    forall id | id in t.active ensures Entitled(t, t.active[id]) { EntitledKept(s, act, id); }
  }

  /** In any interleaving, a waker is woken only if a token it was left with has been cancelled. */
  lemma {:induction false} NoSpuriousWakeup(actions: seq<Action>, w: nat)
    requires w in Run(actions).woken
    ensures exists i :: (i, w) in Run(actions).polled && i in Run(actions).flags
  {
    RunWakesAreDue(actions);
    assert Deserved(Run(actions), w);
  }
}
