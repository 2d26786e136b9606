/**
  Graceful shutdown: the work coordinator, the two counters behind every work permit, the drain
  waiter with its wake-up latch, and all the callers of `shutdown` sharing one flight. Each
  atomic operation is a step, so permits drop while shutdown is being published.
 */
module Drain {
  import opened EmbeddingCore

  datatype ShutdownState = Running | Draining | Stopped

  datatype Coordinator = Coordinator(shutdown: ShutdownState, active: nat)

  function Begun(c: Coordinator): Coordinator {
    if c.active == 0 then c.(shutdown := Stopped)
    else if c.shutdown.Running? then c.(shutdown := Draining)
    else c
  }

  function Dropped(c: Coordinator): Coordinator
    requires c.active > 0
  {
    Coordinator(if c.active == 1 && c.shutdown.Draining? then Stopped else c.shutdown, c.active - 1)
  }

  function Forced(c: Coordinator): Coordinator {
    c.(shutdown := Stopped)
  }

  /** States only move forward, and draining means that work is left. */
  predicate Sound(c: Coordinator) {
    c.shutdown.Draining? ==> c.active > 0
  }

  function Order(s: ShutdownState): nat {
    match s case Running => 0 case Draining => 1 case Stopped => 2
  }

  /** `ShutdownCoordinator`, its mutex held for the length of each method. */
  class ShutdownCoordinator {
    var shutdown: ShutdownState
    var active: nat

    ghost function Value(): Coordinator
      reads this
    {
      Coordinator(shutdown, active)
    }

    constructor ()
      ensures Value() == Coordinator(Running, 0)
    {
      shutdown, active := Running, 0;
    }

    method Admit() returns (admitted: bool)
      requires Sound(Value())
      modifies this
      ensures Sound(Value()) && admitted == old(shutdown).Running?
      ensures Value() == if admitted then old(Value()).(active := old(active) + 1) else old(Value())
    {
      if shutdown != Running { return false; }
      active := active + 1;
      admitted := true;
    }

    /** Repeated calls are harmless. */
    method Begin()
      requires Sound(Value())
      modifies this
      ensures Sound(Value()) && Value() == Begun(old(Value())) && !shutdown.Running?
      ensures Order(old(shutdown)) <= Order(shutdown) && (shutdown.Stopped? <==> old(shutdown).Stopped? || active == 0)
    {
      if shutdown == Running { shutdown := Draining; }
      if active == 0 { shutdown := Stopped; }
    }

    /** Terminal without waiting for retained permits. */
    method ForceStop()
      requires Sound(Value())
      modifies this
      ensures Sound(Value()) && Value() == Forced(old(Value())) && Order(old(shutdown)) <= Order(shutdown)
    {
      shutdown := Stopped;
    }

    /** A permit going out of scope; the last one ends a drain and nothing restarts one. */
    method DropPermit()
      requires Sound(Value()) && active > 0
      modifies this
      ensures Sound(Value()) && Value() == Dropped(old(Value()))
      ensures Order(old(shutdown)) <= Order(shutdown) && (shutdown.Running? <==> old(shutdown).Running?)
    {
      active := active - 1;
      if active == 0 && shutdown == Draining { shutdown := Stopped; }
    }
  }

  // ----- The whole protocol -----

  /** A runtime work permit: being admitted under the admin lock, in use, or half way through its drop. */
  datatype Permit = Admitting | Held | Notifying | Releasing

  /** Who is inside the admin lock. */
  datatype Admin = Free | Granting(permit: nat) | Publishing(stage: nat, deadline: Option<nat>)

  datatype Waiter =
    | Absent
    | Enabling           // top of the loop
    | Reading            // registered, about to read the deadline
    | Counting(deadline: Option<nat>)
    | Parked(deadline: Option<nat>)
    | Decided(drained: bool)
    | Lost               // the flight's task ended without a result

  /** What a caller of `shutdown` was told, and why. */
  datatype Notice = ByFlight(drained: bool) | WithoutExecutor | TaskLost

  /** The returned boolean: anything but a recorded result is reported as not drained. */
  predicate Drained(t: Notice) {
    t.ByFlight? && t.drained
  }

  /** Everything behind work permits. */
  datatype Work = Work(coordinator: Coordinator, admitted: nat, permits: map<nat, Permit>)

  /** The drain waiter and its `Notify`: a stored permit, or a notification already delivered. */
  datatype Wait = Wait(latch: bool, notified: bool, waiter: Waiter)

  /** The one shutdown flight: its deadline, every caller's request, its result, what callers were told. */
  datatype Flight = Flight(
    deadline: Option<nat>,
    requests: seq<Option<nat>>,
    result: Option<bool>,
    answers: seq<Notice>)

  datatype State = State(work: Work, draining: bool, admin: Admin, wait: Wait, flight: Flight, now: nat)

  function Initial(): State {
    State(Work(Coordinator(Running, 0), 0, map[]), false, Free,
          Wait(false, false, Absent), Flight(None, [], None, []), 0)
  }

  datatype Action =
    | AdmitWork(permit: nat)        // check draining, `admit`
    | CountWork                     // the async counter, still under the lock
    | StartDrop(permit: nat)        // async counter down
    | NotifyZero(permit: nat)
    | FinishDrop(permit: nat)       // coordinator permit
    | CallShutdown(deadline: Option<nat>)
    | PublishStage
    | WaiterStep
    | DeadlineChanged
    | Tick(now: nat)
    | Finish                        // `finish_shutdown` records its result
    | LoseTask                      // the task dies before recording one
    | Answer                        // a caller returns
    | CallWithoutExecutor           // a caller polled outside the executor returns at once

  /** The earlier of two deadlines; absent means never. */
  function Tighter(a: Option<nat>, b: Option<nat>): Option<nat> {
    if a.None? then b else if b.None? || a.value <= b.value then a else b
  }

  function Tightest(requests: seq<Option<nat>>): Option<nat> {
    if requests == [] then None else Tighter(Tightest(requests[..|requests| - 1]), requests[|requests| - 1])
  }

  predicate Passed(deadline: Option<nat>, now: nat) {
    deadline.Some? && now >= deadline.value
  }

  predicate CanMove(w: Wait, now: nat) {
    || w.waiter.Enabling? || w.waiter.Reading? || w.waiter.Counting?
    || (w.waiter.Parked? && (w.notified || Passed(w.waiter.deadline, now)))
  }

  predicate Enabled(s: State, a: Action) {
    match a
    case AdmitWork(p) => s.admin.Free? && p !in s.work.permits && !s.draining && s.work.coordinator.shutdown.Running?
    case CountWork => s.admin.Granting?
    case StartDrop(p) => p in s.work.permits && s.work.permits[p].Held? && s.work.admitted > 0
    case NotifyZero(p) => p in s.work.permits && s.work.permits[p].Notifying?
    case FinishDrop(p) => p in s.work.permits && s.work.permits[p].Releasing? && s.work.coordinator.active > 0
    case CallShutdown(_) => s.admin.Free?
    case PublishStage => s.admin.Publishing?
    case WaiterStep => CanMove(s.wait, s.now)
    case DeadlineChanged => s.wait.waiter.Parked? && s.wait.waiter.deadline != s.flight.deadline
    case Tick(t) => t >= s.now
    case Finish => s.wait.waiter.Decided? && s.flight.result.None?
    case LoseTask => !s.wait.waiter.Absent? && !s.wait.waiter.Lost? && s.flight.result.None?
    case Answer => s.flight.result.Some? || s.wait.waiter.Lost?
    case CallWithoutExecutor => true
  }

  function Admitted(w: Work, p: nat): Work {
    Work(w.coordinator.(active := w.coordinator.active + 1), w.admitted, w.permits[p := Admitting])
  }

  function Counted(w: Work, p: nat): Work {
    Work(w.coordinator, w.admitted + 1, w.permits[p := Held])
  }

  function Uncounted(w: Work, p: nat): Work
    requires w.admitted > 0
  {
    Work(w.coordinator, w.admitted - 1, w.permits[p := if w.admitted == 1 then Notifying else Releasing])
  }

  function Told(w: Work, p: nat): Work {
    Work(w.coordinator, w.admitted, w.permits[p := Releasing])
  }

  function Released(w: Work, p: nat): Work
    requires w.coordinator.active > 0
  {
    Work(Dropped(w.coordinator), w.admitted, w.permits - {p})
  }

  /** `notify_one`: reach the registered waiter, or store the permit. */
  function NotifyOne(w: Wait): Wait {
    if w.waiter.Reading? || w.waiter.Counting? || w.waiter.Parked? then Wait(w.latch, true, w.waiter)
    else Wait(true, w.notified, w.waiter)
  }

  /** One step of the `wait_for_drain` loop. */
  function WaiterMoves(w: Wait, admitted: nat, deadline: Option<nat>, now: nat): Wait {
    match w.waiter
    case Enabling => Wait(false, w.latch, Reading)
    case Reading => Wait(w.latch, w.notified, if Passed(deadline, now) then Decided(false) else Counting(deadline))
    case Counting(d) => Wait(w.latch, w.notified, if admitted == 0 then Decided(true) else Parked(d))
    case Parked(d) =>
      if Passed(d, now) then Wait(w.latch, w.notified, Decided(false)) else Wait(w.latch, false, Enabling)
    case _ => w
  }

  /** Leaving the wait without consuming a notification puts it back. */
  function Leave(w: Wait): Wait {
    Wait(w.latch || w.notified, false, Enabling)
  }

  /** The first `shutdown` caller, under the admin lock: publish, begin, read the counter, spawn. */
  function Publish(s: State): State
    requires s.admin.Publishing?
  {
    if s.admin.stage == 0 then s.(draining := true, admin := Publishing(1, s.admin.deadline))
    else if s.admin.stage == 1 then
      s.(work := Work(Begun(s.work.coordinator), s.work.admitted, s.work.permits),
         admin := Publishing(2, s.admin.deadline))
    else
      s.(admin := Free, flight := Flight(s.admin.deadline, [s.admin.deadline], s.flight.result, s.flight.answers),
         wait := Wait(s.wait.latch, s.wait.notified, if s.work.admitted == 0 then Decided(true) else Enabling))
  }

  function Joined(f: Flight, d: Option<nat>): Flight {
    Flight(Tighter(f.deadline, d), f.requests + [d], f.result, f.answers)
  }

  function Heard(f: Flight, t: Notice): Flight {
    f.(answers := f.answers + [t])
  }

  function After(s: State, a: Action): State
    requires Enabled(s, a)
  {
    match a
    case AdmitWork(p) => s.(work := Admitted(s.work, p), admin := Granting(p))
    case CountWork => s.(work := Counted(s.work, s.admin.permit), admin := Free)
    case StartDrop(p) => s.(work := Uncounted(s.work, p))
    case NotifyZero(p) => s.(work := Told(s.work, p), wait := NotifyOne(s.wait))
    case FinishDrop(p) => s.(work := Released(s.work, p))
    case CallShutdown(d) =>
      if s.flight.requests == [] then s.(admin := Publishing(0, d)) else s.(flight := Joined(s.flight, d))
    case PublishStage => Publish(s)
    case WaiterStep => s.(wait := WaiterMoves(s.wait, s.work.admitted, s.flight.deadline, s.now))
    case DeadlineChanged => s.(wait := Leave(s.wait))
    case Tick(t) => s.(now := t)
    case Finish =>
      s.(flight := s.flight.(result := Some(s.wait.waiter.drained)),
         work := s.work.(coordinator := Forced(s.work.coordinator)))
    case LoseTask => s.(wait := s.wait.(waiter := Lost))
    case Answer =>
      s.(flight := Heard(s.flight, if s.flight.result.Some? then ByFlight(s.flight.result.value) else TaskLost))
    case CallWithoutExecutor => s.(flight := Heard(s.flight, WithoutExecutor))
  }

  function Run(actions: seq<Action>): State
    decreases |actions|
  {
    if actions == [] then Initial()
    else
      var s := Run(actions[..|actions| - 1]);
      if Enabled(s, actions[|actions| - 1]) then After(s, actions[|actions| - 1]) else s
  }

  // ----- Invariants -----

  function Using(permits: map<nat, Permit>): set<nat> {
    set p | p in permits && permits[p].Held?
  }

  /** Both counters count permits; a permit leaves the async counter first. */
  predicate Counts(w: Work) {
    && w.admitted == |Using(w.permits)|
    && w.coordinator.active == |w.permits.Keys|
    && Sound(w.coordinator)
  }

  /** Admission and publication exclude each other. */
  predicate Serialized(w: Work, draining: bool, admin: Admin, idle: bool) {
    && (forall p {:trigger p in w.permits} :: p in w.permits && w.permits[p].Admitting? ==> admin == Granting(p))
    && (admin.Granting? ==> admin.permit in w.permits && w.permits[admin.permit].Admitting? && !draining)
    && (draining <==> !idle || (admin.Publishing? && admin.stage > 0))
    && (admin.Publishing? ==> idle)
    && (draining && w.coordinator.shutdown.Running? ==> admin.Publishing? && admin.stage == 1)
    && (!draining ==> w.coordinator.shutdown.Running?)
  }

  /** A drain decided as complete is complete; one decided as late is late, under every caller's deadline. */
  predicate Truthful(f: Flight, waiter: Waiter, admitted: nat, now: nat) {
    && (waiter.Absent? <==> f.requests == [])
    && (f.requests != [] ==> f.deadline == Tightest(f.requests))
    && (waiter == Decided(true) ==> admitted == 0)
    && (waiter == Decided(false) ==> Passed(f.deadline, now))
    && (waiter.Counting? || waiter.Parked? ==> Tighter(waiter.deadline, f.deadline) == f.deadline)
    && (f.result.Some? ==> waiter == Decided(f.result.value))
    && (forall i {:trigger f.answers[i]} :: 0 <= i < |f.answers| ==> Fair(f.answers[i], f.result, waiter))
  }

  predicate Fair(t: Notice, result: Option<bool>, waiter: Waiter) {
    match t
    case ByFlight(drained) => result == Some(drained)
    case WithoutExecutor => true
    case TaskLost => waiter.Lost?
  }

  /** No wake-up is missed: a waiter parked at zero has been notified or is about to be. */
  predicate Awake(w: Wait, work: Work) {
    w.waiter.Parked? && work.admitted == 0 ==> w.notified || exists p :: p in work.permits && work.permits[p].Notifying?
  }

  predicate Inv(s: State) {
    && Counts(s.work) && Serialized(s.work, s.draining, s.admin, s.flight.requests == [])
    && Truthful(s.flight, s.wait.waiter, s.work.admitted, s.now) && Awake(s.wait, s.work)
    && (s.flight.result.Some? ==> s.work.coordinator.shutdown.Stopped?)
    && (s.wait.waiter.Decided? ==> s.draining)
  }

  lemma {:induction false} PermitMoves(permits: map<nat, Permit>, p: nat, stage: Permit)
    ensures |permits[p := stage].Keys| == |permits.Keys| + if p in permits then 0 else 1
    ensures |Using(permits[p := stage])| ==
      |Using(permits)| + (if stage.Held? then 1 else 0) - if p in permits && permits[p].Held? then 1 else 0
  {
    SizesDifferAt(permits.Keys, permits[p := stage].Keys, p);
    SizesDifferAt(Using(permits), Using(permits[p := stage]), p);
  }

  lemma {:induction false} PermitLeaves(permits: map<nat, Permit>, p: nat)
    requires p in permits
    ensures |(permits - {p}).Keys| == |permits.Keys| - 1
    ensures |Using(permits - {p})| == |Using(permits)| - if permits[p].Held? then 1 else 0
  {
    SizesDifferAt(permits.Keys, (permits - {p}).Keys, p);
    SizesDifferAt(Using(permits), Using(permits - {p}), p);
  }

  lemma {:induction false} CountsKept(s: State, a: Action)
    requires Inv(s) && Enabled(s, a)
    ensures Counts(After(s, a).work)
  {
    var w := s.work;
    if a.AdmitWork? {
      PermitMoves(w.permits, a.permit, Admitting);
    } else if a.CountWork? {
      PermitMoves(w.permits, s.admin.permit, Held);
    } else if a.StartDrop? {
      PermitMoves(w.permits, a.permit, if w.admitted == 1 then Notifying else Releasing);
    } else if a.NotifyZero? {
      PermitMoves(w.permits, a.permit, Releasing);
    } else if a.FinishDrop? {
      PermitLeaves(w.permits, a.permit);
    }
  }

  lemma {:induction false} SerializedKept(s: State, a: Action)
    requires Inv(s) && Enabled(s, a)
    ensures var t := After(s, a); Serialized(t.work, t.draining, t.admin, t.flight.requests == [])
  {}

  lemma {:induction false} WaiterStaysTruthful(f: Flight, w: Wait, admitted: nat, now: nat)
    requires Truthful(f, w.waiter, admitted, now) && CanMove(w, now)
    ensures Truthful(f, WaiterMoves(w, admitted, f.deadline, now).waiter, admitted, now)
  {}

  lemma {:induction false} JoiningStaysTruthful(f: Flight, d: Option<nat>, waiter: Waiter, admitted: nat, now: nat)
    requires Truthful(f, waiter, admitted, now) && f.requests != []
    ensures Truthful(Joined(f, d), waiter, admitted, now)
  {
    assert (f.requests + [d])[..|f.requests|] == f.requests;
  }

  lemma {:induction false} TruthfulKept(s: State, a: Action)
    requires Inv(s) && Enabled(s, a)
    ensures var t := After(s, a); Truthful(t.flight, t.wait.waiter, t.work.admitted, t.now)
  {
    if a.WaiterStep? {
      WaiterStaysTruthful(s.flight, s.wait, s.work.admitted, s.now);
    } else if a.CallShutdown? && s.flight.requests != [] {
      JoiningStaysTruthful(s.flight, a.deadline, s.wait.waiter, s.work.admitted, s.now);
    }
  }

  lemma {:induction false} AwakeKept(s: State, a: Action)
    requires Inv(s) && Enabled(s, a)
    ensures Awake(After(s, a).wait, After(s, a).work)
  {
    var t := After(s, a);
    if t.wait.waiter.Parked? && t.work.admitted == 0 && !t.wait.notified {
      if a.StartDrop? {
        assert t.work.permits[a.permit].Notifying?;
      } else {
        var p :| p in s.work.permits && s.work.permits[p].Notifying?;
        assert p in t.work.permits && t.work.permits[p].Notifying?;
      }
    }
  }

  lemma {:induction false} RunKeepsInv(actions: seq<Action>)
    ensures Inv(Run(actions))
    decreases |actions|
  {
    if actions != [] {
      var s, a := Run(actions[..|actions| - 1]), actions[|actions| - 1];
      RunKeepsInv(actions[..|actions| - 1]);
      if Enabled(s, a) {
        CountsKept(s, a);
        SerializedKept(s, a);
        TruthfulKept(s, a);
        AwakeKept(s, a);
      }
    }
  }

  // ----- What callers may rely on -----

  /** The coordinator never goes back, never drains without work, and covers the async counter. */
  lemma {:induction false} CoordinatorCoversWork(actions: seq<Action>)
    ensures var s := Run(actions);
      && s.work.coordinator.active >= s.work.admitted
      && (s.work.coordinator.shutdown.Draining? ==> s.work.coordinator.active > 0)
  {
    RunKeepsInv(actions);
    var s := Run(actions);
    SubsetSize(Using(s.work.permits), s.work.permits.Keys);
  }

  /** Once draining is published no step admits work or moves the coordinator back. */
  lemma {:induction false} DrainingOnlyShrinks(actions: seq<Action>, a: Action)
    requires Enabled(Run(actions), a)
    ensures var s, t := Run(actions), After(Run(actions), a);
      && Order(s.work.coordinator.shutdown) <= Order(t.work.coordinator.shutdown)
      && (s.draining ==> t.draining && t.work.admitted <= s.work.admitted && t.work.permits.Keys <= s.work.permits.Keys)
  {
    RunKeepsInv(actions);
  }

  /** Once draining with nothing in use, that stays true in every continuation. */
  lemma {:induction false} DrainedForGood(actions: seq<Action>, more: seq<Action>)
    requires Run(actions).draining && Run(actions).work.admitted == 0
    ensures Run(actions + more).draining && Run(actions + more).work.admitted == 0
    decreases |more|
  {
    if more == [] {
      assert actions + more == actions;
    } else {
      var prefix := actions + more[..|more| - 1];
      assert (actions + more)[..|actions + more| - 1] == prefix;
      DrainedForGood(actions, more[..|more| - 1]);
      if Enabled(Run(prefix), more[|more| - 1]) {
        DrainingOnlyShrinks(prefix, more[|more| - 1]);
      }
    }
  }

  /** A waiter parked with nothing left in use can move, or some permit is about to let it. */
  lemma {:induction false} NoMissedWakeup(actions: seq<Action>)
    requires Run(actions).wait.waiter.Parked? && Run(actions).work.admitted == 0
    ensures var s := Run(actions);
      Enabled(s, WaiterStep) || exists p :: Enabled(s, NotifyZero(p)) && Enabled(After(s, NotifyZero(p)), WaiterStep)
  {
    RunKeepsInv(actions);
    var s := Run(actions);
    if !s.wait.notified {
      var p :| p in s.work.permits && s.work.permits[p].Notifying?;
      assert Enabled(s, NotifyZero(p)) && Enabled(After(s, NotifyZero(p)), WaiterStep);
    }
  }

  /** The waiter taking up to `n` steps by itself. */
  function Waits(s: State, n: nat): State {
    if n == 0 then s
    else
      var m := Waits(s, n - 1);
      if Enabled(m, WaiterStep) then After(m, WaiterStep) else m
  }

  /** With nothing left in use and time left, the waiter comes to the decision that all is drained. */
  lemma {:induction false} DrainedIsNoticed(actions: seq<Action>)
    requires var s := Run(actions);
      s.work.admitted == 0 && !Passed(s.flight.deadline, s.now) && CanMove(s.wait, s.now)
    ensures Waits(Run(actions), 4).wait.waiter == Decided(true)
  {
    RunKeepsInv(actions);
    var s := Run(actions);
    assert Waits(s, 1) == After(s, WaiterStep);
    assert Waits(s, 2).flight == s.flight && Waits(s, 2).work == s.work && Waits(s, 2).now == s.now;
    assert Waits(s, 3).flight == s.flight && Waits(s, 3).work == s.work && Waits(s, 3).now == s.now;
  }

  /** Once the deadline has passed, a waiter about to look at it decides that time is up. */
  lemma {:induction false} LateIsNoticed(actions: seq<Action>)
    requires var s := Run(actions);
      Passed(s.flight.deadline, s.now) && (s.wait.waiter.Enabling? || s.wait.waiter.Reading?)
    ensures Waits(Run(actions), 2).wait.waiter == Decided(false)
  {
    var s := Run(actions);
    assert Waits(s, 1) == After(s, WaiterStep);
  }

  /** A waiter parked when the deadline passes can leave: by itself, or because the deadline it saw is outdated. */
  lemma {:induction false} ParkedWaiterLeaves(actions: seq<Action>)
    requires var s := Run(actions); Passed(s.flight.deadline, s.now) && s.wait.waiter.Parked?
    ensures var s := Run(actions);
      || (Enabled(s, WaiterStep) && After(s, WaiterStep).wait.waiter in {Decided(false), Enabling})
      || (Enabled(s, DeadlineChanged) && After(s, DeadlineChanged).wait.waiter.Enabling?)
  {}

  /** While shutdown has not been published, work is admitted as soon as the lock is free. */
  lemma {:induction false} ServingAdmits(actions: seq<Action>, p: nat)
    requires var s := Run(actions); !s.draining && s.admin.Free? && p !in s.work.permits
    ensures var s := Run(actions);
      && Enabled(s, AdmitWork(p)) && Enabled(After(s, AdmitWork(p)), CountWork)
      && var t := After(After(s, AdmitWork(p)), CountWork);
         t.admin.Free? && p in t.work.permits && t.work.permits[p].Held? && t.work.admitted == s.work.admitted + 1
  {
    RunKeepsInv(actions);
  }

  /**
    Every caller of `shutdown` that the flight answers hears the same: `true` only with nothing in
    use, and `false` only once the earliest of all requested deadlines has passed. A caller is told
    `false` otherwise only if it has no executor, or if the flight's task died, and then nobody is
    ever answered by the flight.
   */
  lemma {:induction false} OneTruthfulAnswer(actions: seq<Action>, i: nat, j: nat)
    requires i < |Run(actions).flight.answers| && j < |Run(actions).flight.answers|
    ensures var s := Run(actions);
      var told, other := s.flight.answers[i], s.flight.answers[j];
      && (told.ByFlight? && other.ByFlight? ==> told == other)
      && (told.ByFlight? ==> s.work.coordinator.shutdown.Stopped? && !other.TaskLost?)
      && (Drained(told) ==> s.work.admitted == 0)
      && (!Drained(told) ==>
            told.WithoutExecutor? || told.TaskLost? || Passed(Tightest(s.flight.requests), s.now))
  {
    RunKeepsInv(actions);
  }

  /** The flight's deadline is a lower bound of, and one of, the deadlines asked for. */
  lemma {:induction false} TightestIsMinimum(requests: seq<Option<nat>>, i: nat)
    requires i < |requests|
    ensures Tightest(requests) in requests
    ensures requests[i].Some? ==> Tightest(requests).Some? && Tightest(requests).value <= requests[i].value
  {
    var n := |requests| - 1;
    var front := requests[..n];
    if n > 0 {
      TightestIsMinimum(front, if i < n then i else 0);
      assert forall r :: r in front ==> r in requests;
    }
    assert requests[n] in requests;
    assert i < n ==> front[i] == requests[i];
    assert Tightest(requests) == Tighter(Tightest(front), requests[n]);
  }
}
