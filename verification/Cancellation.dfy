/**
  The cancellation graph: single signals and `any` signals that follow their constituents.
  Cancelling pushes a flag along registered dependents while readers pull the same answer
  recursively; construction, registration, cancellation and polling interleave freely.

  A call in progress is an activity. Nested calls are activities of their own, which allows more
  interleavings than the callers' stacks do.
 */
module Cancellation {
  /** Constituents of each token, in creation order; a single signal has none. */
  type Graph = seq<seq<nat>>

  predicate Acyclic(g: Graph) {
    forall i, k :: 0 <= i < |g| && 0 <= k < |g[i]| ==> g[i][k] < i
  }

  /** Some token below `i` (or `i` itself) is in `base`: `is_cancelled` when `base` is the set flags. */
  predicate Reaches(g: Graph, base: set<nat>, i: nat)
    requires Acyclic(g) && i < |g|
    decreases i
  {
    i in base || exists k :: 0 <= k < |g[i]| && Reaches(g, base, g[i][k])
  }

  datatype Activity =
    | Register(token: nat, k: nat)      // `any` loop, about to add itself to constituent k
    | Recheck(token: nat, k: nat)       // added, about to load that constituent's flag
    | Scan(token: nat, k: nat)          // `source_changed`, constituents below k were not set when read
    | Swap(token: nat)                  // `cancel`, about to swap the flag
    | Drain(token: nat)                 // flag set here, waiters still listed
    | Collect(token: nat, wakers: set<nat>)
    | Notify(token: nat, wakers: set<nat>, dependents: set<nat>)
    | Poll(token: nat, waker: nat)      // `cancelled`, first look
    | Offer(token: nat, waker: nat)     // `register_waiter`, first load
    | Push(token: nat, waker: nat)
    | Confirm(token: nat, waker: nat)   // `register_waiter`, second load
    | Conclude(token: nat, waker: nat)  // `cancelled`, last look

  datatype State = State(
    graph: Graph,
    flags: set<nat>,
    dependents: set<(nat, nat)>,   // (constituent, dependent)
    waiters: set<(nat, nat)>,      // (token, waker)
    requested: set<nat>,           // tokens a caller cancelled
    woken: set<nat>,
    parked: set<(nat, nat)>,       // polls that returned Pending
    ready: set<(nat, nat)>,        // polls that returned Ready
    polled: set<(nat, nat)>,       // polls ever started
    active: map<nat, Activity>)

  function Related(r: set<(nat, nat)>, i: nat): (s: set<nat>)
    ensures forall d :: d in s <==> (i, d) in r
  {
    set p | p in r && p.0 == i :: p.1
  }

  datatype Action =
    | NewSingle
    | NewAny(constituents: seq<nat>, id: nat)
    | CancelCall(token: nat, id: nat)
    | PollCall(token: nat, waker: nat, id: nat)
    | Advance(id: nat, spawn: nat)         // the activity's only way on
    | Find(id: nat)                        // a scan sees a cancelled constituent
    | Overlook(id: nat)                    // a look at a token misses a flag set behind it
    | WakeOne(id: nat, waker: nat)
    | TellOne(id: nat, dependent: nat, spawn: nat)

  predicate Usable(s: State, id: nat) {
    id !in s.active
  }

  ghost predicate CanAdvance(s: State, a: Activity, spawn: nat)
    requires a.token < |s.graph|
  {
    match a
    case Recheck(_, _) => Usable(s, spawn)
    case Scan(i, k) => k < |s.graph[i]| ==> s.graph[i][k] !in s.flags
    case Notify(_, ws, ds) => ws == {} && ds == {}
    case _ => true
  }

  ghost predicate Enabled(s: State, act: Action)
    requires Typed(s)
  {
    match act
    case NewSingle => true
    case NewAny(cs, id) => Usable(s, id) && forall k :: 0 <= k < |cs| ==> cs[k] < |s.graph|
    case CancelCall(i, id) => i < |s.graph| && Usable(s, id)
    case PollCall(i, w, id) => i < |s.graph| && Usable(s, id) && Unused(s, w)
    case Advance(id, spawn) => id in s.active && CanAdvance(s, s.active[id], spawn)
    case Find(id) =>
      id in s.active && s.active[id].Scan? &&
      (var a := s.active[id]; a.k < |s.graph[a.token]| && Reaches(s.graph, s.flags, s.graph[a.token][a.k]))
    case Overlook(id) =>
      id in s.active && (s.active[id].Poll? || s.active[id].Conclude?) && s.active[id].token !in s.flags
    case WakeOne(id, w) => id in s.active && s.active[id].Notify? && w in s.active[id].wakers
    case TellOne(id, d, spawn) =>
      && id in s.active && s.active[id].Notify? && s.active[id].wakers == {}
      && d in s.active[id].dependents && Usable(s, spawn)
  }

  /** Each poll brings a waker of its own. */
  ghost predicate Unused(s: State, w: nat) {
    && w !in s.woken && (forall i: nat :: (i, w) !in s.waiters) && (forall i: nat :: (i, w) !in s.parked)
    && (forall id :: id in s.active ==> !Carries(s.active[id], w))
  }

  predicate Carries(a: Activity, w: nat) {
    match a
    case Collect(_, ws) => w in ws
    case Notify(_, ws, _) => w in ws
    case Poll(_, v) => v == w
    case Offer(_, v) => v == w
    case Push(_, v) => v == w
    case Confirm(_, v) => v == w
    case Conclude(_, v) => v == w
    case _ => false
  }

  function Become(s: State, id: nat, a: Activity): State {
    s.(active := s.active[id := a])
  }

  function Finish(s: State, id: nat): State {
    s.(active := s.active - {id})
  }

  /** A look at a token that found no flag set: the first goes on to register, the last parks the poll. */
  function NotSeen(s: State, id: nat): State
    requires id in s.active && (s.active[id].Poll? || s.active[id].Conclude?)
  {
    match s.active[id]
    case Poll(i, w) => Become(s, id, Offer(i, w))
    case Conclude(i, w) => Finish(s, id).(parked := s.parked + {(i, w)})
  }

  function Advanced(s: State, id: nat, spawn: nat): State
    requires Typed(s) && id in s.active
  {
    match s.active[id]
    case Register(i, k) =>
      if k < |s.graph[i]| then Become(s, id, Recheck(i, k)).(dependents := s.dependents + {(s.graph[i][k], i)})
      else Become(s, id, Scan(i, 0))
    case Recheck(i, k) =>
      if s.graph[i][k] in s.flags then Become(Become(s, id, Register(i, k + 1)), spawn, Scan(i, 0))
      else Become(s, id, Register(i, k + 1))
    case Scan(i, k) => if k < |s.graph[i]| then Become(s, id, Scan(i, k + 1)) else Finish(s, id)
    case Swap(i) => if i in s.flags then Finish(s, id) else Become(s, id, Drain(i)).(flags := s.flags + {i})
    case Drain(i) =>
      Become(s, id, Collect(i, Related(s.waiters, i))).(waiters := set p | p in s.waiters && p.0 != i)
    case Collect(i, ws) => Become(s, id, Notify(i, ws, Related(s.dependents, i)))
    case Notify(_, _, _) => Finish(s, id)
    case Poll(i, w) =>
      if Reaches(s.graph, s.flags, i) then Finish(s, id).(ready := s.ready + {(i, w)}) else NotSeen(s, id)
    case Offer(i, w) =>
      if i in s.flags then Become(s, id, Conclude(i, w)).(woken := s.woken + {w}) else Become(s, id, Push(i, w))
    case Push(i, w) => Become(s, id, Confirm(i, w)).(waiters := s.waiters + {(i, w)})
    case Confirm(i, w) =>
      if i in s.flags then Become(s, id, Conclude(i, w)).(woken := s.woken + {w}) else Become(s, id, Conclude(i, w))
    case Conclude(i, w) =>
      if Reaches(s.graph, s.flags, i) then Finish(s, id).(ready := s.ready + {(i, w)}) else NotSeen(s, id)
  }

  ghost function After(s: State, act: Action): State
    requires Typed(s) && Enabled(s, act)
  {
    match act
    case NewSingle => s.(graph := s.graph + [[]])
    case NewAny(cs, id) => Become(s.(graph := s.graph + [cs]), id, Register(|s.graph|, 0))
    case CancelCall(i, id) => Become(s, id, Swap(i)).(requested := s.requested + {i})
    case PollCall(i, w, id) => Become(s, id, Poll(i, w)).(polled := s.polled + {(i, w)})
    case Advance(id, spawn) => Advanced(s, id, spawn)
    case Find(id) => Become(s, id, Swap(s.active[id].token))
    case Overlook(id) => NotSeen(s, id)
    case WakeOne(id, w) =>
      var a := s.active[id];
      Become(s, id, a.(wakers := a.wakers - {w})).(woken := s.woken + {w})
    case TellOne(id, d, spawn) =>
      var a := s.active[id];
      Become(Become(s, id, a.(dependents := a.dependents - {d})), spawn, Scan(d, 0))
  }

  // ----- Typing -----

  predicate Placed(g: Graph, a: Activity) {
    && a.token < |g|
    && match a
       case Register(i, k) => k <= |g[i]|
       case Recheck(i, k) => k < |g[i]|
       case Scan(i, k) => k <= |g[i]|
       case Notify(_, _, ds) => forall d :: d in ds ==> d < |g|
       case _ => true
  }

  predicate Typed(s: State) {
    && Acyclic(s.graph)
    && Indexed(s)
    && (forall id :: id in s.active ==> Placed(s.graph, s.active[id]))
  }

  /** The parts of the state that calls read but never shrink. */
  predicate Indexed(s: State) {
    && (forall p {:trigger p in s.dependents} :: p in s.dependents ==> p.0 < |s.graph| && p.1 < |s.graph|)
    && (forall i {:trigger i in s.flags} :: i in s.flags ==> i < |s.graph|)
    && (forall i {:trigger i in s.requested} :: i in s.requested ==> i < |s.graph|)
    && (forall p {:trigger p in s.parked} :: p in s.parked ==> p.0 < |s.graph|)
    && (forall p {:trigger p in s.ready} :: p in s.ready ==> p.0 < |s.graph|)
  }

  lemma {:induction false} IndexedAdvance(s: State, id: nat, spawn: nat)
    requires Typed(s) && Enabled(s, Advance(id, spawn))
    ensures Indexed(Advanced(s, id, spawn))
  {}

  lemma {:induction false} PlacedAdvance(s: State, id: nat, spawn: nat, other: nat)
    requires Typed(s) && Enabled(s, Advance(id, spawn)) && other in Advanced(s, id, spawn).active
    ensures Placed(s.graph, Advanced(s, id, spawn).active[other])
  {}

  lemma {:induction false} TypedKept(s: State, act: Action)
    requires Typed(s) && Enabled(s, act)
    ensures Typed(After(s, act))
  {
    if act.Advance? {
      IndexedAdvance(s, act.id, act.spawn);
      forall other | other in After(s, act).active ensures Placed(s.graph, After(s, act).active[other]) {
        PlacedAdvance(s, act.id, act.spawn, other);
      }
    } else if act.NewSingle? {
      NewTokenTyped(s, []);
    } else if act.NewAny? {
      NewTokenTyped(s, act.constituents);
    } else {
      OtherTyped(s, act);
    }
  }

  lemma {:induction false} NewTokenTyped(s: State, cs: seq<nat>)
    requires Typed(s) && forall k :: 0 <= k < |cs| ==> cs[k] < |s.graph|
    ensures Typed(s.(graph := s.graph + [cs]))
  {}

  lemma {:induction false} OtherTyped(s: State, act: Action)
    requires Typed(s) && Enabled(s, act) && !act.Advance? && !act.NewSingle? && !act.NewAny?
    ensures Typed(After(s, act))
  {}

  /** Activities other than the one that moved are still there, unchanged. */
  lemma {:induction false} OthersKept(s: State, act: Action, other: nat)
    requires Typed(s) && Enabled(s, act) && other in s.active
    requires act.NewSingle? || act.id != other
    ensures other in After(s, act).active && After(s, act).active[other] == s.active[other]
  {}

  /** Sets only grow, except the list of waiters. */
  lemma {:induction false} Grows(s: State, act: Action)
    requires Typed(s) && Enabled(s, act)
    ensures var t := After(s, act);
      && s.flags <= t.flags && s.requested <= t.requested && s.dependents <= t.dependents && s.woken <= t.woken
      && |s.graph| <= |t.graph| && (forall i :: 0 <= i < |s.graph| ==> t.graph[i] == s.graph[i])
  {}

  // ----- Registration -----

  predicate Registers(a: Activity, i: nat, k: nat) {
    (a.Register? && a.token == i && a.k <= k) || (a.Recheck? && a.token == i && a.k < k)
  }

  ghost predicate WiredAt(s: State, i: nat, k: nat)
    requires i < |s.graph| && k < |s.graph[i]|
  {
    (s.graph[i][k], i) in s.dependents || exists id :: id in s.active && Registers(s.active[id], i, k)
  }

  /** Every `any` token is a registered dependent of each constituent, or is still on its way there. */
  ghost predicate Wired(s: State) {
    forall i, k :: 0 <= i < |s.graph| && 0 <= k < |s.graph[i]| ==> WiredAt(s, i, k)
  }

  lemma {:induction false} WiredKept(s: State, act: Action, i: nat, k: nat)
    requires Typed(s) && Wired(s) && Enabled(s, act)
    requires i < |After(s, act).graph| && k < |After(s, act).graph[i]|
    ensures WiredAt(After(s, act), i, k)
  {
    var t := After(s, act);
    Grows(s, act);
    if i == |s.graph| {
      assert Registers(t.active[act.id], i, k);
    } else {
      assert WiredAt(s, i, k);
      if (s.graph[i][k], i) !in s.dependents {
        var id :| id in s.active && Registers(s.active[id], i, k);
        if act.NewSingle? || act.id != id {
          OthersKept(s, act, id);
        } else {
          assert act.Advance?;
          assert (t.graph[i][k], i) in t.dependents || Registers(t.active[id], i, k);
        }
      }
    }
  }

  // ----- Delivery -----

  /** An activity that will carry a cancellation of `c`, constituent k of `i`, on to `i`. */
  predicate Delivers(a: Activity, dependents: set<(nat, nat)>, i: nat, k: nat, c: nat) {
    match a
    case Register(j, _) => j == i
    case Recheck(j, _) => j == i
    case Scan(j, m) => j == i && m <= k
    case Swap(j) => j == i
    case Drain(j) => j == c && (c, i) in dependents
    case Collect(j, _) => j == c && (c, i) in dependents
    case Notify(j, _, ds) => j == c && i in ds
    case _ => false
  }

  ghost predicate DeliveredAt(s: State, i: nat, k: nat)
    requires i < |s.graph| && k < |s.graph[i]|
  {
    s.graph[i][k] in s.flags ==>
      i in s.flags || exists id :: id in s.active && Delivers(s.active[id], s.dependents, i, k, s.graph[i][k])
  }

  ghost predicate Delivered(s: State) {
    forall i, k :: 0 <= i < |s.graph| && 0 <= k < |s.graph[i]| ==> DeliveredAt(s, i, k)
  }

  /** The carrying activity moves on and something still carries the cancellation. */
  lemma {:induction false} CarrierMoves(s: State, act: Action, i: nat, k: nat)
    requires Typed(s) && Enabled(s, act) && !act.NewSingle? && act.id in s.active
    requires i < |s.graph| && k < |s.graph[i]| && s.graph[i][k] in s.flags && i !in s.flags
    requires Delivers(s.active[act.id], s.dependents, i, k, s.graph[i][k])
    ensures DeliveredAt(After(s, act), i, k)
  {
    var t := After(s, act);
    var c := s.graph[i][k];
    if act.Advance? {
      var a := s.active[act.id];
      if a.Swap? {
        assert i in t.flags;
      } else {
        assert Delivers(t.active[act.id], t.dependents, i, k, c);
      }
    } else if act.TellOne? && act.dependent == i {
      assert Delivers(t.active[act.spawn], t.dependents, i, k, c);
    } else {
      assert Delivers(t.active[act.id], t.dependents, i, k, c);
    }
  }

  lemma {:induction false} DeliveredKept(s: State, act: Action, i: nat, k: nat)
    requires Typed(s) && Wired(s) && Delivered(s) && Enabled(s, act)
    requires i < |After(s, act).graph| && k < |After(s, act).graph[i]|
    ensures DeliveredAt(After(s, act), i, k)
  {
    var t := After(s, act);
    Grows(s, act);
    if i == |s.graph| {
      assert Delivers(t.active[act.id], t.dependents, i, k, t.graph[i][k]);
    } else if t.graph[i][k] in t.flags && i !in t.flags {
      var c := s.graph[i][k];
      if c in s.flags {
        assert DeliveredAt(s, i, k);
        var id :| id in s.active && Delivers(s.active[id], s.dependents, i, k, c);
        if act.NewSingle? || act.id != id {
          OthersKept(s, act, id);
          assert Delivers(t.active[id], t.dependents, i, k, c);
        } else {
          CarrierMoves(s, act, i, k);
        }
      } else {
        NewlyFlagged(s, act, i, k);
      }
    }
  }

  /** The swap that sets a flag is also the start of telling everyone registered. */
  lemma {:induction false} NewlyFlagged(s: State, act: Action, i: nat, k: nat)
    requires Typed(s) && Wired(s) && Enabled(s, act) && i < |s.graph| && k < |s.graph[i]|
    requires s.graph[i][k] !in s.flags && s.graph[i][k] in After(s, act).flags
    ensures DeliveredAt(After(s, act), i, k)
  {
    var t := After(s, act);
    var c := s.graph[i][k];
    assert act.Advance? && s.active[act.id] == Swap(c);
    assert WiredAt(s, i, k);
    if (c, i) in s.dependents {
      assert Delivers(t.active[act.id], t.dependents, i, k, c);
    } else {
      var id :| id in s.active && Registers(s.active[id], i, k);
      assert id != act.id;
      assert Delivers(t.active[id], t.dependents, i, k, c);
    }
  }

  // ----- Nothing is cancelled without a request -----

  lemma {:induction false} ReachesMonotone(g: Graph, a: set<nat>, b: set<nat>, i: nat)
    requires Acyclic(g) && i < |g| && a <= b && Reaches(g, a, i)
    ensures Reaches(g, b, i)
    decreases i
  {
    if i !in a {
      var k :| 0 <= k < |g[i]| && Reaches(g, a, g[i][k]);
      ReachesMonotone(g, a, b, g[i][k]);
    }
  }

  /** Reaching tokens that themselves reach `b` is reaching `b`. */
  lemma {:induction false} ReachesThrough(g: Graph, a: set<nat>, b: set<nat>, i: nat)
    requires Acyclic(g) && i < |g| && Reaches(g, a, i)
    requires forall j :: j in a && j < |g| ==> Reaches(g, b, j)
    ensures Reaches(g, b, i)
    decreases i
  {
    if i !in a {
      var k :| 0 <= k < |g[i]| && Reaches(g, a, g[i][k]);
      ReachesThrough(g, a, b, g[i][k]);
    }
  }

  /** A token's answer depends only on tokens created no later than it. */
  lemma {:induction false} ReachesIsLocal(g: Graph, more: Graph, a: set<nat>, b: set<nat>, i: nat)
    requires Acyclic(g) && Acyclic(more) && i < |g| <= |more| && (forall j :: 0 <= j < |g| ==> more[j] == g[j])
    requires forall j :: 0 <= j <= i ==> (j in a <==> j in b)
    ensures Reaches(g, a, i) <==> Reaches(more, b, i)
    decreases i
  {
    forall k | 0 <= k < |g[i]| ensures Reaches(g, a, g[i][k]) <==> Reaches(more, b, more[i][k]) {
      ReachesIsLocal(g, more, a, b, g[i][k]);
    }
  }

  ghost predicate Justified(s: State)
    requires Typed(s)
  {
    && (forall i :: i in s.flags ==> Reaches(s.graph, s.requested, i))
    && (forall p {:trigger p in s.ready} :: p in s.ready ==> Reaches(s.graph, s.requested, p.0))
    && (forall id :: id in s.active && s.active[id].Swap? ==> Reaches(s.graph, s.requested, s.active[id].token))
  }

  lemma {:induction false} ReachesKept(s: State, act: Action, i: nat)
    requires Typed(s) && Enabled(s, act) && i < |s.graph| && Reaches(s.graph, s.requested, i)
    ensures Typed(After(s, act)) && Reaches(After(s, act).graph, After(s, act).requested, i)
  {
    var t := After(s, act);
    TypedKept(s, act);
    Grows(s, act);
    ReachesIsLocal(s.graph, t.graph, s.requested, s.requested, i);
    ReachesMonotone(t.graph, s.requested, t.requested, i);
  }

  lemma {:induction false} JustifiedSwap(s: State, act: Action, id: nat)
    requires Typed(s) && Justified(s) && Enabled(s, act)
    requires id in After(s, act).active && After(s, act).active[id].Swap?
    ensures Typed(After(s, act))
    ensures Reaches(After(s, act).graph, After(s, act).requested, After(s, act).active[id].token)
  {
    var t := After(s, act);
    TypedKept(s, act);
    if id in s.active && s.active[id].Swap? {
      assert t.active[id] == s.active[id];
      ReachesKept(s, act, s.active[id].token);
    } else if act.CancelCall? {
      assert act.token in t.requested;
    } else {
      assert act.Find? && act.id == id;
      var a := s.active[id];
      ReachesThrough(s.graph, s.flags, s.requested, s.graph[a.token][a.k]);
      assert Reaches(s.graph, s.requested, a.token);
    }
  }

  lemma {:induction false} JustifiedKept(s: State, act: Action)
    requires Typed(s) && Justified(s) && Enabled(s, act)
    ensures Typed(After(s, act)) && Justified(After(s, act))
  {
    var t := After(s, act);
    TypedKept(s, act);
    forall i | i in t.flags ensures Reaches(t.graph, t.requested, i) {
      if i !in s.flags {
        assert s.active[act.id] == Swap(i);
      }
      ReachesKept(s, act, i);
    }
    forall p | p in t.ready ensures Reaches(t.graph, t.requested, p.0) {
      if p !in s.ready {
        assert Reaches(s.graph, s.flags, p.0);
        ReachesThrough(s.graph, s.flags, s.requested, p.0);
      }
      ReachesKept(s, act, p.0);
    }
    forall id | id in t.active && t.active[id].Swap? ensures Reaches(t.graph, t.requested, t.active[id].token) {
      JustifiedSwap(s, act, id);
    }
  }

  // ----- Every request takes effect -----

  ghost predicate Honoured(s: State) {
    forall i {:trigger i in s.requested} :: i in s.requested ==>
      i in s.flags || exists id :: id in s.active && s.active[id] == Swap(i)
  }

  lemma {:induction false} HonouredKept(s: State, act: Action)
    requires Typed(s) && Honoured(s) && Enabled(s, act)
    ensures Honoured(After(s, act))
  {
    var t := After(s, act);
    Grows(s, act);
    forall i | i in t.requested && i !in t.flags ensures exists id :: id in t.active && t.active[id] == Swap(i) {
      if i in s.requested {
        var id :| id in s.active && s.active[id] == Swap(i);
        if act.NewSingle? || act.id != id { OthersKept(s, act, id); }
        assert t.active[id] == Swap(i);
      } else {
        assert t.active[act.id] == Swap(i);
      }
    }
  }

  // ----- No waker is lost -----

  predicate Holds(a: Activity, i: nat, w: nat) {
    (a.Collect? || a.Notify?) && a.token == i && w in a.wakers
  }

  /** A waker that polled `i` is woken, listed, or in the hands of the call that drained the list. */
  ghost predicate Kept(s: State, i: nat, w: nat) {
    w in s.woken || (i, w) in s.waiters || exists id :: id in s.active && Holds(s.active[id], i, w)
  }

  predicate Registered(a: Activity) {
    a.Confirm? || a.Conclude?
  }

  ghost predicate Remembered(s: State) {
    && (forall p {:trigger p in s.parked} :: p in s.parked ==> Kept(s, p.0, p.1))
    && (forall id :: id in s.active && Registered(s.active[id]) ==> Kept(s, s.active[id].token, s.active[id].waker))
  }

  lemma {:induction false} KeptStays(s: State, act: Action, i: nat, w: nat)
    requires Typed(s) && Enabled(s, act) && Kept(s, i, w)
    ensures Kept(After(s, act), i, w)
  {
    var t := After(s, act);
    Grows(s, act);
    if w !in t.woken && (i, w) !in t.waiters {
      if (i, w) in s.waiters {
        assert act.Advance? && s.active[act.id] == Drain(i);
        assert Holds(t.active[act.id], i, w);
      } else {
        var id :| id in s.active && Holds(s.active[id], i, w);
        if act.NewSingle? || act.id != id { OthersKept(s, act, id); }
        assert Holds(t.active[id], i, w);
      }
    }
  }

  /** A poll that has registered its waker is remembered until it ends. */
  lemma {:induction false} RegisteredKept(s: State, act: Action, id: nat)
    requires Typed(s) && Remembered(s) && Enabled(s, act)
    requires id in After(s, act).active && Registered(After(s, act).active[id])
    ensures var a := After(s, act).active[id]; Kept(After(s, act), a.token, a.waker)
  {
    var a := After(s, act).active[id];
    if id in s.active && Registered(s.active[id]) {
      assert s.active[id].token == a.token && s.active[id].waker == a.waker;
      KeptStays(s, act, a.token, a.waker);
    } else {
      assert act.Advance? && act.id == id;
      assert s.active[id] == Push(a.token, a.waker) || s.active[id] == Offer(a.token, a.waker);
    }
  }

  lemma {:induction false} RememberedKept(s: State, act: Action)
    requires Typed(s) && Remembered(s) && Enabled(s, act)
    ensures Remembered(After(s, act))
  {
    var t := After(s, act);
    forall p | p in t.parked ensures Kept(t, p.0, p.1) {
      if p !in s.parked {
        assert s.active[act.id] == Conclude(p.0, p.1);
      }
      KeptStays(s, act, p.0, p.1);
    }
    forall id | id in t.active && Registered(t.active[id]) ensures Kept(t, t.active[id].token, t.active[id].waker) {
      RegisteredKept(s, act, id);
    }
  }

  /** A waiter still listed on a cancelled token is woken, about to be drained, or about to look again. */
  ghost predicate ListedAt(s: State, p: (nat, nat)) {
    p.0 in s.flags ==>
      p.1 in s.woken || exists id :: id in s.active && (s.active[id] == Drain(p.0) || s.active[id] == Confirm(p.0, p.1))
  }

  ghost predicate Listed(s: State) {
    forall p {:trigger p in s.waiters} :: p in s.waiters ==> ListedAt(s, p)
  }

  lemma {:induction false} ListedKept(s: State, act: Action, p: (nat, nat))
    requires Typed(s) && Listed(s) && Enabled(s, act) && p in After(s, act).waiters
    ensures ListedAt(After(s, act), p)
  {
    var t := After(s, act);
    Grows(s, act);
    if p.0 in t.flags && p.1 !in t.woken {
      if p !in s.waiters {
        assert t.active[act.id] == Confirm(p.0, p.1);
      } else if p.0 !in s.flags {
        assert t.active[act.id] == Drain(p.0);
      } else {
        assert ListedAt(s, p);
        var id :| id in s.active && (s.active[id] == Drain(p.0) || s.active[id] == Confirm(p.0, p.1));
        if act.NewSingle? || act.id != id { OthersKept(s, act, id); }
        assert t.active[id] == s.active[id];
      }
    }
  }

  // ----- Runs -----

  ghost predicate Inv(s: State) {
    Typed(s) && Wired(s) && Delivered(s) && Justified(s) && Honoured(s) && Remembered(s) && Listed(s)
  }

  lemma {:induction false} StepKeepsInv(s: State, act: Action)
    requires Inv(s) && Enabled(s, act)
    ensures Inv(After(s, act))
  {
    var t := After(s, act);
    JustifiedKept(s, act);
    HonouredKept(s, act);
    RememberedKept(s, act);
    forall i, k | 0 <= i < |t.graph| && 0 <= k < |t.graph[i]| ensures WiredAt(t, i, k) {
      WiredKept(s, act, i, k);
    }
    forall i, k | 0 <= i < |t.graph| && 0 <= k < |t.graph[i]| ensures DeliveredAt(t, i, k) {
      DeliveredKept(s, act, i, k);
    }
    forall p | p in t.waiters ensures ListedAt(t, p) {
      ListedKept(s, act, p);
    }
  }

  function Initial(): State {
    State([], {}, {}, {}, {}, {}, {}, {}, {}, map[])
  }

  /** States reachable by some interleaving; an action that is not possible then does nothing. */
  ghost function Run(actions: seq<Action>): (s: State)
    ensures Inv(s)
    decreases |actions|
  {
    if actions == [] then Initial()
    else
      var s := Run(actions[..|actions| - 1]);
      var act := actions[|actions| - 1];
      if Enabled(s, act) then StepKeepsInv(s, act); After(s, act) else s
  }

  lemma {:induction false} QuietFlagsAreClosed(s: State, i: nat)
    requires Inv(s) && s.active == map[] && i < |s.graph|
    ensures Reaches(s.graph, s.flags, i) ==> i in s.flags
    decreases i
  {
    forall k | 0 <= k < |s.graph[i]| ensures Reaches(s.graph, s.flags, s.graph[i][k]) ==> i in s.flags {
      QuietFlagsAreClosed(s, s.graph[i][k]);
      assert DeliveredAt(s, i, k);
    }
  }

  /**
    Push equals pull: once no call is in progress, each token's flag is exactly what the
    recursive `is_cancelled` computes, and exactly the tokens that follow from the requests are
    cancelled.
   */
  lemma {:induction false} PushEqualsPull(actions: seq<Action>, i: nat)
    requires Run(actions).active == map[] && i < |Run(actions).graph|
    ensures var s := Run(actions);
      && (i in s.flags <==> Reaches(s.graph, s.flags, i))
      && (i in s.flags <==> Reaches(s.graph, s.requested, i))
  {
    var s := Run(actions);
    QuietFlagsAreClosed(s, i);
    if Reaches(s.graph, s.requested, i) {
      assert s.requested <= s.flags;
      ReachesMonotone(s.graph, s.requested, s.flags, i);
    }
  }

  /** Every poll that was left pending on a token now cancelled has been woken. */
  lemma {:induction false} EveryWaiterIsWoken(actions: seq<Action>, i: nat, w: nat)
    requires Run(actions).active == map[] && (i, w) in Run(actions).parked
    requires Reaches(Run(actions).graph, Run(actions).requested, i)
    ensures w in Run(actions).woken
  {
    var s := Run(actions);
    PushEqualsPull(actions, i);
    assert Kept(s, (i, w).0, (i, w).1);
    assert (i, w) in s.waiters ==> ListedAt(s, (i, w));
  }

  /**
    At any moment, in any interleaving, a set flag and a poll that returned ready are explained
    by requests on the token or on tokens created before it; so cancelling an `any` token never
    cancels a constituent.
   */
  lemma {:induction false} CancellationNeverFlowsDown(actions: seq<Action>, i: nat)
    requires i < |Run(actions).graph|
    requires forall j :: 0 <= j <= i ==> j !in Run(actions).requested
    ensures i !in Run(actions).flags && !Reaches(Run(actions).graph, Run(actions).flags, i)
    ensures forall w :: (i, w) !in Run(actions).ready
  {
    var s := Run(actions);
    assert forall w :: (i, w) in s.ready ==> Reaches(s.graph, s.requested, i) by {
      forall w | (i, w) in s.ready ensures Reaches(s.graph, s.requested, i) {
        assert Reaches(s.graph, s.requested, (i, w).0);
      }
    }
    ReachesIsLocal(s.graph, s.graph, s.requested, {}, i);
    NothingReachesEmpty(s.graph, i);
    if Reaches(s.graph, s.flags, i) {
      ReachesThrough(s.graph, s.flags, s.requested, i);
    }
  }

  lemma {:induction false} NothingReachesEmpty(g: Graph, i: nat)
    requires Acyclic(g) && i < |g|
    ensures !Reaches(g, {}, i)
    decreases i
  {
    forall k | 0 <= k < |g[i]| ensures !Reaches(g, {}, g[i][k]) {
      NothingReachesEmpty(g, g[i][k]);
    }
  }
}
