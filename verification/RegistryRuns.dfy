/** Whole lives of a runtime: any interleaving of its critical sections. */
module RegistryRuns {
  import opened EmbeddingCore
  import opened Registry

  datatype Call =
    | Register(id: string, executor: bool, started: bool)
    | BeginLoad(id: string)
    | PlaceLoad(key: nat)
    | PublishLoad(key: nat, started: bool)
    | DropLoad(key: nat)
    | TakeLease(id: string, lease: nat)
    | CopyLease(lease: nat, copy: nat)
    | DropLease(lease: nat)
    | UnloadModel(id: string)
    | Shutdown
    | Continue            // the shutdown task's next stage

  predicate Free(b: Registries, id: string) {
    b.phase.Serving? && id !in b.models && id !in b.loading
  }

  predicate Leasable(b: Registries, id: string) {
    id in b.models && b.models[id] in b.accepting
  }

  /** `unload` would take the model away: shutdown has not begun and nobody leases its slot. */
  predicate Unloadable(b: Registries, id: string) {
    b.phase.Serving? && id in b.models && Holders(b.held, b.models[id]) == {}
  }

  /** The phase after a phase of shutdown. */
  function Following(p: Phase): (q: Phase)
    ensures Progress(q) == Progress(p) + if 0 < Progress(p) < 5 then 1 else 0
  {
    match p
    case Draining => Fenced
    case Fenced => SchedulersStopped
    case SchedulersStopped => RegistriesCleared
    case RegistriesCleared => Finished
    case _ => p
  }

  function Staged(b: Registries): (r: Registries)
    ensures r.phase == Following(b.phase) && r.leases == b.leases
    ensures !b.phase.SchedulersStopped? ==> r.models == b.models && r.slots == b.slots
  {
    match b.phase
    case Draining => Fencing(b)
    case Fenced => Stopping(b)
    case SchedulersStopped => Clearing(b)
    case RegistriesCleared => Finishing(b)
    case _ => b
  }

  // What each call on loads or registrations does; calls on values that are not there do nothing.

  function Registered(b: Registries, id: string, usable: bool, started: bool): Registries {
    if !usable || !Free(b, id) then b
    else
      var spent := b.(nextKey := b.nextKey + 1);
      if started then WithSlot(spent, id, b.nextKey) else spent
  }

  function Began(b: Registries, id: string): Registries {
    if !b.phase.Serving? then b
    else b.(nextKey := b.nextKey + 1, reservations := b.reservations[b.nextKey := Reservation(id, false)])
  }

  function Entered(b: Registries, key: nat): Registries {
    if key in b.reservations && !b.reservations[key].placed && Free(b, b.reservations[key].model)
    then WithPlaced(b, key) else b
  }

  function Published(b: Registries, key: nat, started: bool): Registries {
    if key in b.reservations && b.reservations[key].placed && started && b.phase.Serving? then
      WithSlot(WithoutReservation(b, key), b.reservations[key].model, key)
    else b
  }

  function Abandoned(b: Registries, key: nat): Registries {
    if key in b.reservations then WithoutReservation(b, key) else b
  }

  function AfterLoad(b: Registries, call: Call): Registries {
    match call
    case Register(id, executor, started) => Registered(b, id, !Blank(id) && executor, started)
    case BeginLoad(id) => Began(b, id)
    case PlaceLoad(key) => Entered(b, key)
    case PublishLoad(key, started) => Published(b, key, started)
    case DropLoad(key) => Abandoned(b, key)
    case _ => b
  }

  /** What a call on leases does. */
  function AfterLease(b: Registries, call: Call): Registries {
    match call
    case TakeLease(id, lease) =>
      if lease !in b.held && Leasable(b, id) && b.models[id] in b.leases then WithLease(b, b.models[id], lease) else b
    case CopyLease(lease, copy) =>
      if lease in b.held && copy !in b.held && b.held[lease] in b.leases then WithLease(b, b.held[lease], copy) else b
    case DropLease(lease) =>
      if lease in b.held && b.held[lease] in b.leases && b.leases[b.held[lease]] > 0 then WithoutLease(b, lease) else b
    case _ => b
  }

  predicate Loads(call: Call) {
    call.Register? || call.BeginLoad? || call.PlaceLoad? || call.PublishLoad? || call.DropLoad?
  }

  predicate Counts(call: Call) {
    call.TakeLease? || call.CopyLease? || call.DropLease?
  }

  /** What any call does to the registries. */
  function After(b: Registries, call: Call): Registries {
    if Loads(call) then AfterLoad(b, call)
    else if Counts(call) then AfterLease(b, call)
    else if call.UnloadModel? then if Unloadable(b, call.id) then WithoutSlot(b, call.id) else b
    else if call.Shutdown? then if b.phase.Serving? then b.(phase := Draining) else b
    else Staged(b)
  }

  function Onward(b: Registries, calls: seq<Call>): Registries {
    if calls == [] then b else After(Onward(b, calls[..|calls| - 1]), calls[|calls| - 1])
  }

  // ----- Every call keeps the invariant -----

  lemma {:induction false} RegisteredIsGood(b: Registries, id: string, usable: bool, started: bool)
    requires Good(b)
    ensures Good(Registered(b, id, usable, started))
  {
    if usable && Free(b, id) {
      var spent := b.(nextKey := b.nextKey + 1);
      assert Good(spent);
      if started { WithSlotIsGood(spent, id, b.nextKey); }
    }
  }

  lemma {:induction false} EnteredIsGood(b: Registries, key: nat)
    requires Good(b)
    ensures Good(Entered(b, key))
  {
    if Entered(b, key) != b { WithPlacedIsGood(b, key); }
  }

  lemma {:induction false} PublishedIsGood(b: Registries, key: nat, started: bool)
    requires Good(b)
    ensures Good(Published(b, key, started))
  {
    if key in b.reservations && b.reservations[key].placed && b.phase.Serving? {
      var id := b.reservations[key].model;
      assert id in b.loading && b.loading[id] == key;
      WithoutReservationIsGood(b, key);
      WithSlotIsGood(WithoutReservation(b, key), id, key);
    }
  }

  lemma {:induction false} LoadIsGood(b: Registries, call: Call)
    requires Good(b)
    ensures Good(AfterLoad(b, call))
  {
    match call
    case Register(id, executor, started) => RegisteredIsGood(b, id, !Blank(id) && executor, started);
    case BeginLoad(id) => NewReservationIsGood(b, id);
    case PlaceLoad(key) => EnteredIsGood(b, key);
    case PublishLoad(key, started) => PublishedIsGood(b, key, started);
    case DropLoad(key) => if key in b.reservations { WithoutReservationIsGood(b, key); }
    case _ =>
  }

  lemma {:induction false} StagedIsGood(b: Registries)
    requires Good(b)
    ensures Good(Staged(b))
  {
    match b.phase
    case Draining => FencingIsGood(b);
    case Fenced => StoppingIsGood(b);
    case SchedulersStopped => ClearingIsGood(b);
    case RegistriesCleared => FinishingIsGood(b);
    case _ =>
  }

  lemma {:induction false} LeaseIsGood(b: Registries, call: Call)
    requires Good(b)
    ensures Good(AfterLease(b, call))
  {
    match call
    case TakeLease(id, lease) =>
      if lease !in b.held && Leasable(b, id) && b.models[id] in b.leases {
        assert b.models[id] in b.slots;
        WithLeaseIsGood(b, b.models[id], lease);
      }
    case CopyLease(lease, copy) =>
      if lease in b.held && copy !in b.held && b.held[lease] in b.leases { WithLeaseIsGood(b, b.held[lease], copy); }
    case DropLease(lease) => if lease in b.held { WithoutLeaseIsGood(b, lease); }
    case _ =>
  }

  lemma {:induction false} AfterIsGood(b: Registries, call: Call)
    requires Good(b)
    ensures Good(After(b, call))
  {
    if Loads(call) {
      LoadIsGood(b, call);
    } else if Counts(call) {
      LeaseIsGood(b, call);
    } else if call.UnloadModel? {
      if Unloadable(b, call.id) { WithoutSlotIsGood(b, call.id); }
    } else if call.Continue? {
      StagedIsGood(b);
    }
  }

  lemma {:induction false} OnwardIsGood(b: Registries, calls: seq<Call>)
    requires Good(b)
    ensures Good(Onward(b, calls))
    decreases |calls|
  {
    if calls != [] {
      OnwardIsGood(b, calls[..|calls| - 1]);
      AfterIsGood(Onward(b, calls[..|calls| - 1]), calls[|calls| - 1]);
    }
  }

  // ----- The runtime does what the calls mean -----

  method Perform(rt: Runtime, call: Call) returns (r: Reply)
    requires rt.Valid()
    modifies rt
    ensures rt.Valid() && rt.Book() == After(old(rt.Book()), call)
  {
    r := NotFound;
    if Loads(call) {
      r := PerformLoad(rt, call);
    } else if Counts(call) {
      r := PerformLease(rt, call);
    } else if call.UnloadModel? {
      r := rt.Unload(call.id);
    } else if call.Shutdown? {
      rt.BeginShutdown();
    } else {
      Advance(rt);
    }
  }

  method PerformLease(rt: Runtime, call: Call) returns (r: Reply)
    requires rt.Valid() && Counts(call)
    modifies rt
    ensures rt.Valid() && rt.Book() == AfterLease(old(rt.Book()), call)
  {
    r := NotFound;
    if call.TakeLease? {
      r := PerformTake(rt, call.id, call.lease);
    } else if call.CopyLease? {
      if call.lease in rt.held && call.copy !in rt.held { rt.CloneLease(call.lease, call.copy); }
    } else if call.lease in rt.held {
      rt.Release(call.lease);
    }
  }

  method PerformTake(rt: Runtime, id: string, lease: nat) returns (r: Reply)
    requires rt.Valid()
    modifies rt
    ensures rt.Valid() && rt.Book() == AfterLease(old(rt.Book()), TakeLease(id, lease))
  {
    r := NotFound;
    if lease !in rt.held {
      assert id in rt.models ==> rt.models[id] in rt.slots;
      r := rt.Lease(id, lease);
    }
  }

  method PerformLoad(rt: Runtime, call: Call) returns (r: Reply)
    requires rt.Valid() && Loads(call)
    modifies rt
    ensures rt.Valid() && rt.Book() == AfterLoad(old(rt.Book()), call)
  {
    r := NotFound;
    match call
    case Register(id, executor, started) =>
      r := PerformRegister(rt, id, executor, started);
    case PublishLoad(key, started) =>
      r := PerformPublish(rt, key, started);
    case BeginLoad(id) =>
      var key;
      r, key := rt.StartLoad(id);
    case PlaceLoad(key) =>
      r := PerformPlace(rt, key);
    case DropLoad(key) =>
      if key in rt.reservations { rt.Abandon(key); }
  }

  method PerformRegister(rt: Runtime, id: string, executor: bool, started: bool) returns (r: Reply)
    requires rt.Valid()
    modifies rt
    ensures rt.Valid() && rt.Book() == Registered(old(rt.Book()), id, !Blank(id) && executor, started)
  {
    var key;
    r, key := rt.RegisterEngine(id, executor, started);
  }

  method PerformPlace(rt: Runtime, key: nat) returns (r: Reply)
    requires rt.Valid()
    modifies rt
    ensures rt.Valid() && rt.Book() == Entered(old(rt.Book()), key)
  {
    r := NotFound;
    if key in rt.reservations && !rt.reservations[key].placed { r := rt.Reserve(key); }
  }

  method PerformPublish(rt: Runtime, key: nat, started: bool) returns (r: Reply)
    requires rt.Valid()
    modifies rt
    ensures rt.Valid() && rt.Book() == Published(old(rt.Book()), key, started)
  {
    r := NotFound;
    if key in rt.reservations && rt.reservations[key].placed { r := rt.Publish(key, started); }
  }

  /** The shutdown task's next stage, if it has one. */
  method Advance(rt: Runtime)
    requires rt.Valid()
    modifies rt
    ensures rt.Valid() && rt.Book() == Staged(old(rt.Book()))
  {
    match rt.phase
    case Draining => rt.Fence();
    case Fenced => rt.StopSchedulers();
    case SchedulersStopped => rt.ClearRegistries();
    case RegistriesCleared => rt.ClearHealth();
    case _ =>
  }

  /** A runtime that has lived through the calls. */
  method RunRuntime(calls: seq<Call>) returns (rt: Runtime)
    ensures fresh(rt) && rt.Valid() && rt.Book() == Onward(Empty(), calls)
  {
    rt := new Runtime();
    assert rt.Book() == Empty() && calls[..0] == [];
    for i := 0 to |calls|
      invariant fresh(rt) && rt.Valid() && rt.Book() == Onward(Empty(), calls[..i])
    {
      OneMoreCall(Empty(), calls, i);
      var r := Perform(rt, calls[i]);
    }
    assert calls[..|calls|] == calls;
  }

  lemma {:induction false} OneMoreCall(b: Registries, calls: seq<Call>, i: nat)
    requires i < |calls|
    ensures Onward(b, calls[..i + 1]) == After(Onward(b, calls[..i]), calls[i])
  {
    assert calls[..i + 1][..i] == calls[..i];
  }

  /**
    After any history the registries agree if shutdown has not begun, and every registered model can
    be leased; once a shutdown has finished, all four are empty; and a slot with a live lease is
    still registered until the final clearing.
   */
  lemma {:induction false} HistoryIsSound(calls: seq<Call>)
    ensures var b := Onward(Empty(), calls);
      && (b.phase.Serving? ==> Agreement(b.models, b.loading, b.schedulers, b.health))
      && (b.phase.Serving? ==> forall id :: id in b.models ==> Leasable(b, id))
      && (b.phase.Finished? ==> b.models == map[] && b.loading == map[] && b.schedulers == {} && b.health == map[])
      && (Progress(b.phase) < 4 ==> forall h :: h in b.held ==> b.held[h] in b.models.Values)
      && (forall k :: k in b.leases ==> b.leases[k] == |Holders(b.held, k)|)
  {
    assert Good(Empty());
    OnwardIsGood(Empty(), calls);
  }

  lemma {:induction false} LeaseKeepsSlots(b: Registries, call: Call)
    ensures var a := AfterLease(b, call);
      a.leases.Keys == b.leases.Keys && a.models == b.models && a.slots == b.slots && a.phase == b.phase
  {
    match call
    case TakeLease(id, lease) => if AfterLease(b, call) != b { assert Leasable(b, id); }
    case _ =>
  }

  lemma {:induction false} LoadKeepsPhase(b: Registries, call: Call)
    ensures AfterLoad(b, call).phase == b.phase
  {}

  /** Shutdown only moves forward, one stage at a time, and a finished one stays finished. */
  lemma {:induction false} ShutdownAdvances(b: Registries, call: Call)
    ensures Progress(b.phase) <= Progress(After(b, call).phase) <= Progress(b.phase) + 1
    ensures call.Continue? && 0 < Progress(b.phase) < 5 ==> Progress(After(b, call).phase) == Progress(b.phase) + 1
  {
    if Loads(call) {
      LoadKeepsPhase(b, call);
    } else if Counts(call) {
      LeaseKeepsSlots(b, call);
    }
  }

  // ----- Two reads of the registries -----

  /**
    What any call leaves alone: a slot's key never comes back, and a model keeps its slot unless it
    is unloaded or everything was cleared.
   */
  ghost predicate Moved(a: Registries, b: Registries, gone: Option<string>) {
    && Progress(a.phase) <= Progress(b.phase)
    && a.leases.Keys <= b.leases.Keys
    && (forall k {:trigger k in b.slots} :: k in b.slots && k in a.leases ==> k in a.slots)
    && (forall id {:trigger id in a.models} :: id in a.models && Progress(b.phase) < 4 && gone != Some(id) ==>
          id in b.models && b.models[id] == a.models[id])
    && (gone.Some? ==> gone.value in a.models && a.models[gone.value] !in b.slots)
  }

  lemma {:induction false} SlotMoves(a: Registries, b: Registries, id: string, key: nat)
    requires Good(a) && id !in a.models && key !in a.leases
    requires b.models == a.models && b.slots == a.slots && b.leases == a.leases && b.phase == a.phase
    ensures Moved(a, WithSlot(b, id, key), None)
  {}

  lemma {:induction false} RetireMoves(a: Registries, id: string)
    requires Good(a) && id in a.models
    ensures Moved(a, WithoutSlot(a, id), Some(id))
  {}

  lemma {:induction false} OthersMove(a: Registries, b: Registries)
    requires b.leases.Keys == a.leases.Keys && b.models == a.models && b.slots == a.slots
    requires Progress(a.phase) <= Progress(b.phase)
    ensures Moved(a, b, None)
  {}

  lemma {:induction false} ClearingMoves(a: Registries)
    requires a.phase.SchedulersStopped?
    ensures Moved(a, Clearing(a), None)
  {}

  /** The model a call takes away, if it can. */
  function Taken(call: Call, b: Registries): Option<string> {
    if call.UnloadModel? && Unloadable(b, call.id) then Some(call.id) else None
  }

  lemma {:induction false} RegisteredMoves(b: Registries, id: string, usable: bool, started: bool)
    requires Good(b)
    ensures Moved(b, Registered(b, id, usable, started), None)
  {
    if usable && Free(b, id) && started {
      SlotMoves(b, b.(nextKey := b.nextKey + 1), id, b.nextKey);
    } else {
      OthersMove(b, Registered(b, id, usable, started));
    }
  }

  lemma {:induction false} PublishedMoves(b: Registries, key: nat, started: bool)
    requires Good(b)
    ensures Moved(b, Published(b, key, started), None)
  {
    if key in b.reservations && b.reservations[key].placed && started && b.phase.Serving? {
      var id := b.reservations[key].model;
      assert id in b.loading && key !in b.leases;
      SlotMoves(b, WithoutReservation(b, key), id, key);
    } else {
      OthersMove(b, b);
    }
  }

  lemma {:induction false} LoadMoves(b: Registries, call: Call)
    requires Good(b)
    ensures Moved(b, AfterLoad(b, call), None)
  {
    match call
    case Register(id, executor, started) => RegisteredMoves(b, id, !Blank(id) && executor, started);
    case BeginLoad(id) => OthersMove(b, Began(b, id));
    case PlaceLoad(key) => OthersMove(b, Entered(b, key));
    case PublishLoad(key, started) => PublishedMoves(b, key, started);
    case DropLoad(key) => OthersMove(b, Abandoned(b, key));
    case _ => OthersMove(b, b);
  }

  lemma {:induction false} StageMoves(b: Registries)
    ensures Moved(b, Staged(b), None)
  {
    if b.phase.SchedulersStopped? { ClearingMoves(b); } else { OthersMove(b, Staged(b)); }
  }

  lemma {:induction false} LeaseMoves(b: Registries, call: Call)
    ensures Moved(b, AfterLease(b, call), None)
  {
    LeaseKeepsSlots(b, call);
    OthersMove(b, AfterLease(b, call));
  }

  lemma {:induction false} AfterMoves(b: Registries, call: Call)
    requires Good(b)
    ensures Moved(b, After(b, call), Taken(call, b))
  {
    if Loads(call) {
      LoadMoves(b, call);
    } else if Counts(call) {
      LeaseMoves(b, call);
    } else if call.UnloadModel? {
      if Unloadable(b, call.id) { RetireMoves(b, call.id); } else { OthersMove(b, b); }
    } else if call.Shutdown? {
      OthersMove(b, After(b, call));
    } else {
      StageMoves(b);
    }
  }

  /** One of the calls asked to unload the model at a moment when that was possible. */
  ghost predicate UnloadedIn(b: Registries, calls: seq<Call>, id: string) {
    exists i :: 0 <= i < |calls| && calls[i] == UnloadModel(id) && Unloadable(Onward(b, calls[..i]), id)
  }

  /** What a request that looked up slot `key` of model `id` still knows about the registries. */
  ghost predicate Remembers(b: Registries, id: string, key: nat, unloaded: bool) {
    && key in b.leases && (unloaded ==> key !in b.slots)
    && (!unloaded && Progress(b.phase) < 4 ==> id in b.models && b.models[id] == key)
  }

  lemma {:induction false} RemembersOn(a: Registries, b: Registries, call: Call, id: string, key: nat, unloaded: bool)
    requires Moved(a, b, Taken(call, a)) && Remembers(a, id, key, unloaded)
    ensures Remembers(b, id, key, unloaded || (call == UnloadModel(id) && Unloadable(a, id)))
  {}

  lemma {:induction false} UnloadedSnoc(b: Registries, calls: seq<Call>, id: string)
    requires calls != []
    ensures var n := |calls| - 1;
      UnloadedIn(b, calls, id) <==>
        UnloadedIn(b, calls[..n], id) || (calls[n] == UnloadModel(id) && Unloadable(Onward(b, calls[..n]), id))
  {
    var n := |calls| - 1;
    assert forall i :: 0 <= i <= n ==> calls[..n][..i] == calls[..i];
    if UnloadedIn(b, calls[..n], id) {
      var i :| 0 <= i < n && calls[..n][i] == UnloadModel(id) && Unloadable(Onward(b, calls[..n][..i]), id);
      assert calls[i] == UnloadModel(id) && Unloadable(Onward(b, calls[..i]), id);
    }
    if UnloadedIn(b, calls, id) {
      var i :| 0 <= i < |calls| && calls[i] == UnloadModel(id) && Unloadable(Onward(b, calls[..i]), id);
      if i < n { assert calls[..n][i] == UnloadModel(id) && Unloadable(Onward(b, calls[..n][..i]), id); }
    }
  }

  lemma {:induction false} RemembersThroughout(b: Registries, calls: seq<Call>, id: string)
    requires Good(b) && id in b.models
    ensures Remembers(Onward(b, calls), id, b.models[id], UnloadedIn(b, calls, id))
    decreases |calls|
  {
    assert b.models[id] in b.slots;
    if calls != [] {
      var n := |calls| - 1;
      var m := Onward(b, calls[..n]);
      RemembersThroughout(b, calls[..n], id);
      OnwardIsGood(b, calls[..n]);
      AfterMoves(m, calls[n]);
      UnloadedSnoc(b, calls, id);
      RemembersOn(m, After(m, calls[n]), calls[n], id, b.models[id], UnloadedIn(b, calls[..n], id));
    }
  }

  /**
    A slot looked up earlier is still the model's slot exactly if no call in between asked to unload
    the model while it was registered, unleased and shutdown had not begun.
   */
  lemma {:induction false} TwoReadsAgree(b: Registries, between: seq<Call>, id: string)
    requires Good(b) && id in b.models && id in Onward(b, between).models
    ensures Onward(b, between).models[id] == b.models[id] <==> !UnloadedIn(b, between, id)
  {
    RemembersThroughout(b, between, id);
    OnwardIsGood(b, between);
    var m := Onward(b, between);
    assert m.models[id] in m.slots;
  }

  /**
    The two registry reads of `embed_inner`, with anything in between: first the slot the request
    will use, then the lease.
   */
  method LookUpThenLease(rt: Runtime, id: string, lease: nat, between: seq<Call>)
    returns (slot: Option<nat>, leased: Option<nat>)
    requires rt.Valid()
    modifies rt
    ensures rt.Valid()
    ensures slot == if Leasable(old(rt.Book()), id) then Some(old(rt.models)[id]) else None
    ensures var m := Onward(old(rt.Book()), between);
      leased == if slot.Some? && lease !in m.held && Leasable(m, id) then Some(m.models[id]) else None
    ensures leased.Some? ==> lease in rt.held && rt.held[lease] == leased.value
    ensures leased.Some? ==> (leased == slot <==> !UnloadedIn(old(rt.Book()), between, id))
  {
    slot, leased := None, None;
    if id !in rt.models || rt.models[id] !in rt.accepting { return; }
    slot := Some(rt.models[id]);
    ghost var before := rt.Book();
    Interfere(rt, between);
    if lease in rt.held { return; }
    var r := rt.Lease(id, lease);
    if r.Okay? {
      leased := Some(rt.models[id]);
      TwoReadsAgree(before, between, id);
    }
  }

  /** Other callers' sections. */
  method Interfere(rt: Runtime, calls: seq<Call>)
    requires rt.Valid()
    modifies rt
    ensures rt.Valid() && rt.Book() == Onward(old(rt.Book()), calls)
    decreases |calls|
  {
    if calls != [] {
      var n := |calls| - 1;
      Interfere(rt, calls[..n]);
      var r := Perform(rt, calls[n]);
    }
  }

  /** The two reads can disagree: the request then runs on a slot nobody leases. */
  method LeaseOnAnotherSlot() returns (slot: Option<nat>, leased: Option<nat>)
    ensures slot == Some(1) && leased == Some(2)
  {
    var rt := new Runtime();
    assert !IsWhitespace("m"[0]) && !Blank("m");
    var r, key := rt.RegisterEngine("m", true, true);
    slot := Some(rt.models["m"]);
    assert Holders(rt.held, 1) == {};
    r := rt.Unload("m");
    r, key := rt.RegisterEngine("m", true, true);
    r := rt.Lease("m", 0);
    leased := if r.Okay? then Some(rt.models["m"]) else None;
  }
}
