/**
  The runtime's four registries (models, loading reservations, schedulers, health) and the leases
  on registered slots, through registration, loading, unloading and shutdown. Each method is one
  critical section; callers interleave them in any order.
 */
module Registry {
  import opened EmbeddingCore

  datatype Health = Loading | Ready

  /** How far shutdown has come. Everything after `Serving` is draining. */
  datatype Phase = Serving | Draining | Fenced | SchedulersStopped | RegistriesCleared | Finished

  function Progress(p: Phase): nat {
    match p
    case Serving => 0
    case Draining => 1
    case Fenced => 2
    case SchedulersStopped => 3
    case RegistriesCleared => 4
    case Finished => 5
  }

  datatype Reply = Okay | ShuttingDown | AlreadyLoaded | NotFound | InUse | LoadFailed

  /** A live load reservation: its model, and whether it has entered the registries. */
  datatype Reservation = Reservation(model: string, placed: bool)

  function Holders(held: map<nat, nat>, key: nat): set<nat> {
    set h | h in held && held[h] == key
  }

  /** The agreement the source promises between its registries. */
  ghost predicate Agreement(models: map<string, nat>, loading: map<string, nat>, schedulers: set<nat>,
          health: map<nat, Health>) {
    && models.Keys !! loading.Keys
    && schedulers == models.Values
    && (forall k :: k in health && health[k] == Ready <==> k in models.Values)
    && (forall k :: k in health && health[k] == Loading <==> k in loading.Values)
  }

  predicate Inverse(models: map<string, nat>, slots: map<nat, string>) {
    && (forall id {:trigger id in models} :: id in models ==> models[id] in slots && slots[models[id]] == id)
    && (forall k {:trigger k in slots} :: k in slots ==> slots[k] in models && models[slots[k]] == k)
  }

  /** Every loading entry is owned by the live reservation whose key it carries. */
  predicate Owned(loading: map<string, nat>, reservations: map<nat, Reservation>) {
    forall id {:trigger id in loading} :: id in loading ==>
      loading[id] in reservations && reservations[loading[id]] == Reservation(id, true)
  }

  predicate Placed(loading: map<string, nat>, reservations: map<nat, Reservation>) {
    forall k {:trigger k in reservations} :: k in reservations && reservations[k].placed ==>
      reservations[k].model in loading && loading[reservations[k].model] == k
  }

  /** Keys come from one counter and are never reused across roles. */
  predicate Allocated(nextKey: nat, slots: set<nat>, reservations: set<nat>, leases: set<nat>) {
    && (forall k {:trigger k in leases} :: k in leases ==> k < nextKey)
    && (forall k {:trigger k in reservations} :: k in reservations ==> k < nextKey && k !in leases)
    && slots <= leases
  }

  predicate Counted(held: map<nat, nat>, leases: map<nat, nat>) {
    && (forall h {:trigger h in held} :: h in held ==> held[h] in leases)
    && (forall k {:trigger k in leases} :: k in leases ==> leases[k] == |Holders(held, k)|)
  }

  /** A slot with a live lease is still registered. */
  predicate Pinned(held: map<nat, nat>, slots: set<nat>) {
    forall h {:trigger h in held} :: h in held ==> held[h] in slots
  }

  ghost predicate Healthy(health: map<nat, Health>, slots: set<nat>, reservations: map<nat, Reservation>) {
    && (forall k {:trigger k in health} {:trigger k in slots} :: k in health && health[k] == Ready <==> k in slots)
    && (forall k {:trigger k in health} {:trigger k in reservations} ::
          k in health && health[k] == Loading <==> k in reservations && reservations[k].placed)
  }

  lemma {:induction false} AddSlot(models: map<string, nat>, slots: map<nat, string>, id: string, key: nat)
    requires Inverse(models, slots) && id !in models && key !in slots
    ensures Inverse(models[id := key], slots[key := id])
    ensures slots[key := id].Keys == slots.Keys + {key}
  {}

  lemma {:induction false} RemoveSlot(models: map<string, nat>, slots: map<nat, string>, id: string)
    requires Inverse(models, slots) && id in models
    ensures Inverse(models - {id}, slots - {models[id]})
    ensures (slots - {models[id]}).Keys == slots.Keys - {models[id]}
  {}

  lemma {:induction false} SlotBecomesReady(health: map<nat, Health>, slots: set<nat>,
          reservations: map<nat, Reservation>, key: nat)
    requires Healthy(health, slots, reservations) && key !in reservations
    ensures Healthy(health[key := Ready], slots + {key}, reservations)
  {}

  lemma {:induction false} SlotLeavesHealth(health: map<nat, Health>, slots: set<nat>,
          reservations: map<nat, Reservation>, key: nat)
    requires Healthy(health, slots, reservations) && key !in reservations
    ensures Healthy(health - {key}, slots - {key}, reservations)
  {}

  lemma {:induction false} ReservationLeavesHealth(health: map<nat, Health>, slots: set<nat>,
          reservations: map<nat, Reservation>, key: nat)
    requires Healthy(health, slots, reservations) && key !in slots
    ensures Healthy(health - {key}, slots, reservations - {key})
  {}

  /** Taking a reservation and its entry out together. */
  lemma {:induction false} RemoveReservation(loading: map<string, nat>, reservations: map<nat, Reservation>, key: nat)
    requires Owned(loading, reservations) && key in reservations
    ensures var id := reservations[key].model;
      var rest := if id in loading && loading[id] == key then loading - {id} else loading;
      && Owned(rest, reservations - {key})
      && (Placed(loading, reservations) ==> Placed(rest, reservations - {key}))
      && rest == (map i | i in loading && loading[i] != key :: loading[i])
      && (reservations - {key}).Keys == reservations.Keys - {key}
  {}

  /** Everything the registries hold at one moment. */
  datatype Registries = Registries(
    models: map<string, nat>,
    loading: map<string, nat>,
    schedulers: set<nat>,
    health: map<nat, Health>,
    leases: map<nat, nat>,
    accepting: set<nat>,
    nextKey: nat,
    phase: Phase,
    reservations: map<nat, Reservation>,
    held: map<nat, nat>,
    slots: map<nat, string>)

  ghost predicate Good(b: Registries) {
    && Inverse(b.models, b.slots)
    && Owned(b.loading, b.reservations)
    && (Progress(b.phase) < 4 ==> Placed(b.loading, b.reservations))
    && Allocated(b.nextKey, b.slots.Keys, b.reservations.Keys, b.leases.Keys)
    && b.models.Keys !! b.loading.Keys
    && Counted(b.held, b.leases)
    && (Progress(b.phase) < 4 ==> Pinned(b.held, b.slots.Keys))
    && (Progress(b.phase) < 4 ==> Healthy(b.health, b.slots.Keys, b.reservations))
    && (Progress(b.phase) < 3 ==> b.schedulers == b.slots.Keys)
    && (Progress(b.phase) < 2 ==> b.accepting == b.slots.Keys)
    && Emptied(b)
  }

  /** What each completed stage of shutdown has emptied. */
  predicate Emptied(b: Registries) {
    && (Progress(b.phase) >= 2 ==> b.accepting == {})
    && (Progress(b.phase) >= 3 ==> b.schedulers == {})
    && (Progress(b.phase) >= 4 ==> b.models == map[] && b.loading == map[] && b.slots == map[])
    && (b.phase.Finished? ==> b.health == map[])
  }

  /** Publication: a slot enters every registry at once. */
  function WithSlot(b: Registries, id: string, key: nat): Registries {
    b.(schedulers := b.schedulers + {key}, models := b.models[id := key], slots := b.slots[key := id],
       leases := b.leases[key := 0], accepting := b.accepting + {key}, health := b.health[key := Ready])
  }

  function WithPlaced(b: Registries, key: nat): Registries
    requires key in b.reservations
  {
    var id := b.reservations[key].model;
    b.(loading := b.loading[id := key], health := b.health[key := Loading],
       reservations := b.reservations[key := Reservation(id, true)])
  }

  lemma {:induction false} WithPlacedIsGood(b: Registries, key: nat)
    requires Good(b) && b.phase.Serving? && key in b.reservations && !b.reservations[key].placed
    requires b.reservations[key].model !in b.models && b.reservations[key].model !in b.loading
    ensures Good(WithPlaced(b, key))
  {
    assert key !in b.leases && key !in b.slots;
    EntryPlaced(b.loading, b.reservations, key);
    EntryShown(b.health, b.slots.Keys, b.reservations, key);
  }

  lemma {:induction false} EntryPlaced(loading: map<string, nat>, reservations: map<nat, Reservation>, key: nat)
    requires Owned(loading, reservations) && Placed(loading, reservations)
    requires key in reservations && !reservations[key].placed && reservations[key].model !in loading
    ensures var id := reservations[key].model;
      var placed := reservations[key := Reservation(id, true)];
      Owned(loading[id := key], placed) && Placed(loading[id := key], placed) && placed.Keys == reservations.Keys
  {
    forall i | i in loading ensures loading[i] != key {
      assert reservations[loading[i]] == Reservation(i, true);
    }
  }

  lemma {:induction false} EntryShown(health: map<nat, Health>, slots: set<nat>, reservations: map<nat, Reservation>,
          key: nat)
    requires Healthy(health, slots, reservations) && key !in slots && key in reservations && !reservations[key].placed
    ensures Healthy(health[key := Loading], slots, reservations[key := Reservation(reservations[key].model, true)])
  {}

  lemma {:induction false} NewReservationIsGood(b: Registries, id: string)
    requires Good(b)
    ensures Good(b.(nextKey := b.nextKey + 1, reservations := b.reservations[b.nextKey := Reservation(id, false)]))
  {}

  function WithoutReservation(b: Registries, key: nat): Registries
    requires key in b.reservations
  {
    var id := b.reservations[key].model;
    b.(loading := if id in b.loading && b.loading[id] == key then b.loading - {id} else b.loading,
       health := b.health - {key},
       reservations := b.reservations - {key})
  }

  function WithoutSlot(b: Registries, id: string): Registries
    requires id in b.models
  {
    var key := b.models[id];
    b.(accepting := b.accepting - {key}, models := b.models - {id}, slots := b.slots - {key},
       schedulers := b.schedulers - {key}, health := b.health - {key})
  }

  lemma {:induction false} WithSlotIsGood(b: Registries, id: string, key: nat)
    requires Good(b) && b.phase.Serving? && id !in b.models && id !in b.loading
    requires key < b.nextKey && key !in b.leases && key !in b.reservations
    ensures Good(WithSlot(b, id, key))
  {
    CountNewSlot(b.held, b.leases, key);
    AddSlot(b.models, b.slots, id, key);
    AllocateSlot(b.nextKey, b.slots.Keys, b.reservations.Keys, b.leases, key);
    PinMore(b.held, b.slots.Keys, key);
    SlotBecomesReady(b.health, b.slots.Keys, b.reservations, key);
    assert b.models[id := key].Keys == b.models.Keys + {id};
  }

  lemma {:induction false} AllocateSlot(nextKey: nat, slots: set<nat>, reservations: set<nat>, leases: map<nat, nat>,
          key: nat)
    requires Allocated(nextKey, slots, reservations, leases.Keys) && key < nextKey && key !in reservations
    ensures Allocated(nextKey, slots + {key}, reservations, leases[key := 0].Keys)
  {
    assert leases[key := 0].Keys == leases.Keys + {key};
  }

  lemma {:induction false} PinMore(held: map<nat, nat>, slots: set<nat>, key: nat)
    requires Pinned(held, slots)
    ensures Pinned(held, slots + {key})
  {}

  lemma {:induction false} WithoutReservationIsGood(b: Registries, key: nat)
    requires Good(b) && key in b.reservations
    ensures Good(WithoutReservation(b, key))
    ensures WithoutReservation(b, key).loading == map i | i in b.loading && b.loading[i] != key :: b.loading[i]
  {
    RemoveReservation(b.loading, b.reservations, key);
    if Progress(b.phase) < 4 {
      ReservationLeavesHealth(b.health, b.slots.Keys, b.reservations, key);
    }
  }

  lemma {:induction false} WithoutSlotIsGood(b: Registries, id: string)
    requires Good(b) && b.phase.Serving? && id in b.models && Holders(b.held, b.models[id]) == {}
    ensures Good(WithoutSlot(b, id))
  {
    var key := b.models[id];
    RemoveSlot(b.models, b.slots, id);
    assert key in b.slots;
    SlotLeavesHealth(b.health, b.slots.Keys, b.reservations, key);
    assert forall h :: h in b.held && b.held[h] == key ==> h in Holders(b.held, key);
  }

  function WithLease(b: Registries, key: nat, lease: nat): (r: Registries)
    requires key in b.leases
    ensures r.leases.Keys == b.leases.Keys && r.models == b.models && r.slots == b.slots && r.phase == b.phase
  {
    b.(leases := b.leases[key := b.leases[key] + 1], held := b.held[lease := key])
  }

  lemma {:induction false} WithLeaseIsGood(b: Registries, key: nat, lease: nat)
    requires Good(b) && key in b.leases && lease !in b.held && (Progress(b.phase) < 4 ==> key in b.slots)
    ensures Good(WithLease(b, key, lease))
  {
    HoldersGrow(b.held, lease, key);
    assert b.leases[key := b.leases[key] + 1].Keys == b.leases.Keys;
  }

  function WithoutLease(b: Registries, lease: nat): (r: Registries)
    requires lease in b.held && b.held[lease] in b.leases && b.leases[b.held[lease]] > 0
    ensures r.leases.Keys == b.leases.Keys && r.models == b.models && r.slots == b.slots && r.phase == b.phase
  {
    var key := b.held[lease];
    b.(leases := b.leases[key := b.leases[key] - 1], held := b.held - {lease})
  }

  lemma {:induction false} WithoutLeaseIsGood(b: Registries, lease: nat)
    requires Good(b) && lease in b.held
    ensures b.held[lease] in b.leases && b.leases[b.held[lease]] > 0 && Good(WithoutLease(b, lease))
  {
    var key := b.held[lease];
    HoldersShrink(b.held, lease);
    assert lease in Holders(b.held, key);
    assert b.leases[key := b.leases[key] - 1].Keys == b.leases.Keys;
  }

  // The stages of `finish_shutdown`.

  function Fencing(b: Registries): (r: Registries)
    ensures r.phase == Fenced
  {
    b.(accepting := {}, phase := Fenced)
  }

  function Stopping(b: Registries): (r: Registries)
    ensures r.phase == SchedulersStopped
  {
    b.(schedulers := {}, phase := SchedulersStopped)
  }

  function Clearing(b: Registries): (r: Registries)
    ensures r.phase == RegistriesCleared
  {
    b.(models := map[], loading := map[], slots := map[], phase := RegistriesCleared)
  }

  function Finishing(b: Registries): (r: Registries)
    ensures r.phase == Finished
  {
    b.(health := map[], phase := Finished)
  }

  lemma {:induction false} FencingIsGood(b: Registries)
    requires Good(b) && b.phase.Draining?
    ensures Good(Fencing(b))
  {}

  lemma {:induction false} StoppingIsGood(b: Registries)
    requires Good(b) && b.phase.Fenced?
    ensures Good(Stopping(b))
  {}

  lemma {:induction false} ClearingIsGood(b: Registries)
    requires Good(b) && b.phase.SchedulersStopped?
    ensures Good(Clearing(b))
  {}

  lemma {:induction false} FinishingIsGood(b: Registries)
    requires Good(b) && b.phase.RegistriesCleared?
    ensures Good(Finishing(b))
  {}

  lemma {:induction false} LeaseCountDecides(b: Registries, id: string)
    requires Good(b) && id in b.models
    ensures b.models[id] in b.leases && (b.leases[b.models[id]] == 0 <==> Holders(b.held, b.models[id]) == {})
  {}

  function Empty(): Registries {
    Registries(map[], map[], {}, map[], map[], {}, 1, Serving, map[], map[], map[])
  }

  class Runtime {
    var models: map<string, nat>      // model id -> slot key
    var loading: map<string, nat>     // model id -> reserved key
    var schedulers: set<nat>
    var health: map<nat, Health>
    var leases: map<nat, nat>         // per slot, registered or not: its lease counter
    var accepting: set<nat>
    var nextKey: nat
    var phase: Phase
    var reservations: map<nat, Reservation>
    var held: map<nat, nat>           // live leases -> slot key
    /** Registered slots, by key. */
    ghost var slots: map<nat, string>

    ghost function Book(): Registries
      reads this
    {
      Registries(models, loading, schedulers, health, leases, accepting, nextKey, phase, reservations, held, slots)
    }

    ghost predicate Valid()
      reads this
    {
      Good(Book())
    }

    constructor ()
      ensures Valid() && Book() == Empty()
    {
      models, loading, schedulers, health := map[], map[], {}, map[];
      leases, accepting, nextKey, phase := map[], {}, 1, Serving;
      reservations, held, slots := map[], map[], map[];
    }

    /** While serving, the four registries agree, and every registered slot accepts requests. */
    lemma {:induction false} RegistriesAgree()
      requires Valid() && phase.Serving?
      ensures Agreement(models, loading, schedulers, health)
      ensures accepting == models.Values
    {}

    // ----- Loading -----

    /**
      `register_engine`: publish an initialized engine in one section. `executor` is whether the
      caller runs on one, `started` whether the scheduler it spawned is still alive.
     */
    method RegisterEngine(id: string, executor: bool, started: bool) returns (r: Reply, key: nat)
      requires Valid()
      modifies this
      ensures Valid()
      ensures r.Okay? <==>
        !Blank(id) && executor && old(phase).Serving? && id !in old(models) && id !in old(loading) && started
      ensures r.ShuttingDown? <==> !Blank(id) && executor && !old(phase).Serving?
      ensures r.AlreadyLoaded? <==>
        !Blank(id) && executor && old(phase).Serving? && (id in old(models) || id in old(loading))
      ensures r in {Okay, ShuttingDown, AlreadyLoaded, LoadFailed}
      ensures key == old(nextKey)
      ensures r.Okay? ==> Book() == WithSlot(old(Book()).(nextKey := key + 1), id, key)
      ensures !r.Okay? ==> Book() == old(Book()).(nextKey :=
        if r.LoadFailed? && !Blank(id) && executor then key + 1 else key)
    {
      key := nextKey;
      if Blank(id) || !executor { return LoadFailed, key; }
      if !phase.Serving? { return ShuttingDown, key; }
      if id in models || id in loading { return AlreadyLoaded, key; }
      nextKey := nextKey + 1;
      if !started { return LoadFailed, key; }
      Install(id, key);
      return Okay, key;
    }

    /** The publication block shared by both ways of registering. */
    method Install(id: string, key: nat)
      requires Valid() && phase.Serving? && id !in models && id !in loading
      requires key < nextKey && key !in leases && key !in reservations
      modifies this`models, this`schedulers, this`health, this`leases, this`accepting, this`slots
      ensures Valid() && Book() == WithSlot(old(Book()), id, key)
    {
      WithSlotIsGood(Book(), id, key);
      PlaceSlot(id, key);
    }

    method PlaceSlot(id: string, key: nat)
      modifies this`models, this`schedulers, this`health, this`leases, this`accepting, this`slots
      ensures Book() == WithSlot(old(Book()), id, key)
    {
      schedulers, models, slots := schedulers + {key}, models[id := key], slots[key := id];
      leases, accepting, health := leases[key := 0], accepting + {key}, health[key := Ready];
    }

    /** The first half of `load_with`: admission and a key, owned by a reservation not yet placed. */
    method StartLoad(id: string) returns (r: Reply, key: nat)
      requires Valid()
      modifies this`nextKey, this`reservations
      ensures Valid()
      ensures r.Okay? <==> phase.Serving?
      ensures !r.Okay? ==> r.ShuttingDown?
      ensures key == old(nextKey)
      ensures r.Okay? ==>
        Book() == old(Book()).(nextKey := key + 1, reservations := old(reservations)[key := Reservation(id, false)])
      ensures !r.Okay? ==> Book() == old(Book())
    {
      key := nextKey;
      if !phase.Serving? { return ShuttingDown, key; }
      NewReservationIsGood(Book(), id);
      reservations, nextKey := reservations[key := Reservation(id, false)], nextKey + 1;
      r := Okay;
    }

    /** The second half: enter `loading` and health, or fail leaving every registry alone. */
    method Reserve(key: nat) returns (r: Reply)
      requires Valid() && key in reservations && !reservations[key].placed
      modifies this`loading, this`health, this`reservations
      ensures Valid()
      ensures r.Okay? <==>
        phase.Serving? && old(reservations[key].model) !in models && old(reservations[key].model) !in old(loading)
      ensures r in {Okay, ShuttingDown, AlreadyLoaded} && (r.ShuttingDown? <==> !phase.Serving?)
      ensures Book() == if r.Okay? then WithPlaced(old(Book()), key) else old(Book())
    {
      var id := reservations[key].model;
      if !phase.Serving? { return ShuttingDown; }
      if id in models || id in loading { return AlreadyLoaded; }
      WithPlacedIsGood(Book(), key);
      ghost var after := WithPlaced(Book(), key);
      loading, health := loading[id := key], health[key := Loading];
      reservations := reservations[key := Reservation(id, true)];
      assert Book() == after;
      r := Okay;
    }

    /**
      `register_reserved_engine`: turn the reservation into a slot if its scheduler started. That the
      id is taken or the reservation superseded cannot happen while serving.
     */
    method Publish(key: nat, started: bool) returns (r: Reply)
      requires Valid() && key in reservations && reservations[key].placed
      modifies this
      ensures Valid()
      ensures r.Okay? <==> started && old(phase).Serving?
      ensures r in {Okay, LoadFailed, ShuttingDown} && (r.LoadFailed? <==> !started)
      ensures r.Okay? ==> Book() == WithSlot(WithoutReservation(old(Book()), key), old(reservations[key].model), key)
      ensures !r.Okay? ==> Book() == old(Book())
    {
      var id := reservations[key].model;
      if !started { return LoadFailed; }
      if !phase.Serving? { return ShuttingDown; }
      if id in models || id !in loading || loading[id] != key {
        // AlreadyLoaded, or a reservation that no longer owns its entry.
        assert false;
      }
      Abandon(key);
      Install(id, key);
      r := Okay;
    }

    /** Dropping an armed reservation removes only what it put there itself. */
    method Abandon(key: nat)
      requires Valid() && key in reservations
      modifies this`loading, this`health, this`reservations
      ensures Valid() && Book() == WithoutReservation(old(Book()), key)
      ensures loading == map id | id in old(loading) && old(loading)[id] != key :: old(loading)[id]
    {
      WithoutReservationIsGood(Book(), key);
      RemoveOwnEntries(key);
    }

    method RemoveOwnEntries(key: nat)
      requires key in reservations
      modifies this`loading, this`health, this`reservations
      ensures Book() == WithoutReservation(old(Book()), key)
    {
      var id := reservations[key].model;
      if id in loading && loading[id] == key {
        loading := loading - {id};
      }
      health, reservations := health - {key}, reservations - {key};
    }

    // ----- Leases -----

    /** `lease`: count one more user of a registered, accepting slot. */
    method Lease(id: string, lease: nat) returns (r: Reply)
      requires Valid() && lease !in held
      modifies this`leases, this`held
      ensures Valid()
      ensures r.Okay? <==> id in models && models[id] in accepting
      ensures r.Okay? ==> models[id] in old(leases) && Book() == WithLease(old(Book()), models[id], lease)
      ensures !r.Okay? ==> r.NotFound? && Book() == old(Book())
    {
      if id !in models || models[id] !in accepting { return NotFound; }
      assert models[id] in slots;
      Count(models[id], lease);
      r := Okay;
    }

    /** Cloning a lease, which pins the same slot once more. */
    method CloneLease(lease: nat, copy: nat)
      requires Valid() && lease in held && copy !in held
      modifies this`leases, this`held
      ensures Valid() && copy in held && held[copy] == old(held)[lease]
      ensures old(held[lease] in leases) && Book() == WithLease(old(Book()), old(held)[lease], copy)
    {
      Count(held[lease], copy);
    }

    method Count(key: nat, lease: nat)
      requires Valid() && key in leases && lease !in held && (Progress(phase) < 4 ==> key in slots)
      modifies this`leases, this`held
      ensures Valid() && Book() == WithLease(old(Book()), key, lease)
    {
      WithLeaseIsGood(Book(), key, lease);
      ghost var after := WithLease(Book(), key, lease);
      leases, held := leases[key := leases[key] + 1], held[lease := key];
      assert Book() == after;
    }

    /** A lease going out of scope; allowed at any time, after shutdown too. */
    method Release(lease: nat)
      requires Valid() && lease in held
      modifies this`leases, this`held
      ensures Valid()
      ensures old(held[lease] in leases && leases[held[lease]] > 0) && Book() == WithoutLease(old(Book()), lease)
    {
      WithoutLeaseIsGood(Book(), lease);
      ghost var after := WithoutLease(Book(), lease);
      var key := held[lease];
      leases, held := leases[key := leases[key] - 1], held - {lease};
      assert Book() == after;
    }

    /** `unload`: refused exactly while a lease is live, otherwise gone from every registry at once. */
    method Unload(id: string) returns (r: Reply)
      requires Valid()
      modifies this`models, this`schedulers, this`health, this`accepting, this`slots
      ensures Valid()
      ensures r.Okay? <==> phase.Serving? && id in old(models) && Holders(held, old(models)[id]) == {}
      ensures r.InUse? <==> phase.Serving? && id in old(models) && Holders(held, old(models)[id]) != {}
      ensures r.ShuttingDown? <==> !phase.Serving?
      ensures r.NotFound? <==> phase.Serving? && id !in old(models)
      ensures r.Okay? ==> Book() == WithoutSlot(old(Book()), id)
      ensures !r.Okay? ==> Book() == old(Book())
    {
      if !phase.Serving? { return ShuttingDown; }
      if id !in models { return NotFound; }
      var key := models[id];
      LeaseCountDecides(Book(), id);
      if leases[key] != 0 { return InUse; }
      Retire(id);
      r := Okay;
    }

    /** Fence the slot and take it out of all registries. */
    method Retire(id: string)
      requires Valid() && phase.Serving? && id in models && Holders(held, models[id]) == {}
      modifies this`models, this`schedulers, this`health, this`accepting, this`slots
      ensures Valid() && Book() == WithoutSlot(old(Book()), id)
    {
      WithoutSlotIsGood(Book(), id);
      RemoveSlotEntries(id);
    }

    method RemoveSlotEntries(id: string)
      requires id in models
      modifies this`models, this`schedulers, this`health, this`accepting, this`slots
      ensures Book() == WithoutSlot(old(Book()), id)
    {
      var key := models[id];
      accepting, models, slots := accepting - {key}, models - {id}, slots - {key};
      schedulers, health := schedulers - {key}, health - {key};
    }

    // ----- Shutdown -----

    /** The boundary published under the admin lock; later callers join the same shutdown. */
    method BeginShutdown()
      requires Valid()
      modifies this`phase
      ensures Valid() && Book() == old(Book()).(phase := if old(phase).Serving? then Draining else old(phase))
    {
      if phase.Serving? { phase := Draining; }
    }

    /** Reject every request still holding a slot. */
    method Fence()
      requires Valid() && phase.Draining?
      modifies this`phase, this`accepting
      ensures Valid() && Book() == Fencing(old(Book()))
    {
      FencingIsGood(Book());
      ghost var after := Fencing(Book());
      accepting, phase := {}, Fenced;
      assert Book() == after;
    }

    method StopSchedulers()
      requires Valid() && phase.Fenced?
      modifies this`phase, this`schedulers
      ensures Valid() && Book() == Stopping(old(Book()))
    {
      StoppingIsGood(Book());
      ghost var after := Stopping(Book());
      schedulers, phase := {}, SchedulersStopped;
      assert Book() == after;
    }

    method ClearRegistries()
      requires Valid() && phase.SchedulersStopped?
      modifies this`phase, this`models, this`loading, this`slots
      ensures Valid() && Book() == Clearing(old(Book()))
    {
      ClearingIsGood(Book());
      ghost var after := Clearing(Book());
      models, loading, slots, phase := map[], map[], map[], RegistriesCleared;
      assert Book() == after;
    }

    method ClearHealth()
      requires Valid() && phase.RegistriesCleared?
      modifies this`phase, this`health
      ensures Valid() && Book() == Finishing(old(Book()))
    {
      FinishingIsGood(Book());
      ghost var after := Finishing(Book());
      health, phase := map[], Finished;
      assert Book() == after;
    }
  }

  lemma {:induction false} CountNewSlot(held: map<nat, nat>, leases: map<nat, nat>, key: nat)
    requires Counted(held, leases) && key !in leases
    ensures Counted(held, leases[key := 0])
  {}

  lemma {:induction false} HoldersGrow(held: map<nat, nat>, lease: nat, key: nat)
    requires lease !in held
    ensures forall k :: |Holders(held[lease := key], k)| == |Holders(held, k)| + if k == key then 1 else 0
  {
    forall k ensures |Holders(held[lease := key], k)| == |Holders(held, k)| + if k == key then 1 else 0 {
      SizesDifferAt(Holders(held, k), Holders(held[lease := key], k), lease);
    }
  }

  lemma {:induction false} HoldersShrink(held: map<nat, nat>, lease: nat)
    requires lease in held
    ensures forall k :: |Holders(held - {lease}, k)| == |Holders(held, k)| - if k == held[lease] then 1 else 0
  {
    forall k ensures |Holders(held - {lease}, k)| == |Holders(held, k)| - if k == held[lease] then 1 else 0 {
      SizesDifferAt(Holders(held, k), Holders(held - {lease}, k), lease);
    }
  }
}
