/**
  Whole runs of the model store: any script of installs, imports, recoveries, deletions and
  machine restarts, with every filesystem call free to fail.
 */
module StoreRuns {
  import opened EmbeddingCore
  import opened Durability
  import opened Store

  /** Whatever a stopped installation left durable, recovery yields the old model or all of the new one. */
  lemma {:induction false} InstallIsAtomic(d: Disk, final: Option<Tree>, next: Tree, s: Image)
    requires InProgress(d, final, next) && s in d.possible
    ensures SameEntry(Recovered(s).final, final) || Recovered(s).final == Some(next)
  {}

  /**
    A replacement survives any number of crashes, each followed by a restart and a recovery that
    may itself fail or crash anywhere. If fewer filesystem calls fail than there are rounds, a
    recovery completes, and then the store holds the previous model untouched or the whole
    replacement with the previous model in quarantine.
   */
  method RecoverThroughCrashes(journal: Journal, answers: nat -> Io, found: Disk, nextId: nat, rounds: nat,
          ghost prev: Tree, ghost next: Tree)
    returns (r: Outcome, last: Image)
    requires Inv(found) && Bounded(found, nextId) && Replacing(found, prev, next)
    ensures (forall n :: FaultsBefore(answers, n) < rounds) ==> r.Done?
    ensures Stage(last, prev, next) <= 5
    ensures r.Done? ==> Stage(last, prev, next) == 0 || Stage(last, prev, next) == 5
    ensures r.Done? ==> !last.marker && last.backup.None?
    ensures r.Done? ==> SameEntry(last.final, Some(prev)) || last.final == Some(next)
  {
    var store := new ModelStore.At(journal, answers, found, nextId);
    r := Halted;
    var round := 0;
    while round < rounds && !r.Done?
      invariant store.Valid() && store.Sound() && Replacing(store.disk, prev, next) && store.answers == answers
      invariant r.Done? || round <= store.Faults()
      invariant r.Done? ==> Stage(store.disk.visible, prev, next) == 0 || Stage(store.disk.visible, prev, next) == 5
    {
      store.Reboot(Some((prev, next)));
      ghost var restarted := store.disk.visible;
      RecoveryIsAtomic(restarted, prev, next);
      r := store.Reconcile(Some((prev, next)));
      round := round + 1;
    }
    last := store.disk.visible;
  }

  /** One use of the store. The flags are what verification or the manifest comparison found. */
  datatype Call =
    | Put(verified: bool)
    | Bring(verified: bool)
    | Recover
    | Remove(matches: bool)
    | Restart

  predicate Installs(c: Call) {
    c.Put? || c.Bring?
  }

  predicate NoneInstalls(calls: seq<Call>, k: nat, n: nat)
    requires n <= |calls|
  {
    forall m :: k < m < n ==> !Installs(calls[m])
  }

  /** The last thing that happened to the model was a successful deletion. */
  ghost predicate DeletedSince(calls: seq<Call>, outcomes: seq<Outcome>)
    requires |outcomes| <= |calls|
  {
    exists k :: 0 <= k < |outcomes| && calls[k].Remove? && outcomes[k].Done? && NoneInstalls(calls, k, |outcomes|)
  }

  predicate Absent(i: Image) {
    !i.marker && i.final.None? && i.backup.None? && i.tombstone.None?
  }

  ghost predicate AllAbsent(d: Disk) {
    forall s :: s in d.possible ==> Absent(s)
  }

  /** The same complete tree in every image, with no transaction open. */
  ghost predicate Installed(d: Disk) {
    && d.visible.final.Some? && d.visible.final.value.complete
    && forall s :: s in d.possible ==> Holds(s, d.visible.final.value)
  }

  /** Some filesystem call let the operation down. */
  predicate Fails(r: Outcome) {
    !Sign(r).Fine?
  }

  /** What a call that got to its end has achieved. */
  ghost predicate Succeeded(call: Call, r: Outcome, before: Disk, after: Disk) {
    match r
    case Done =>
      (match call
       case Put(verified) => Installed(after) && !(verified && Recovered(before.visible).final.Some?)
       case Bring(verified) => Installed(after) && !(verified && Recovered(before.visible).final.Some?)
       case Recover => after.visible == Recovered(before.visible) && !after.visible.marker
       case Remove(matches) => AllAbsent(after) && (matches || Recovered(before.visible).final.None?)
       case Restart => after.visible in before.possible && after.possible == {after.visible})
    case AlreadyInstalled => Installs(call) && call.verified && after.visible == Recovered(before.visible)
    case Mismatch => call == Remove(false) && after.visible.final == Recovered(before.visible).final
    case _ => false
  }

  /** What one call does: it gives up on a visible hole, is let down by a filesystem call, or succeeds. */
  ghost predicate Step(call: Call, before: Disk, r: Outcome, after: Disk, journal: Journal) {
    && (r.Unrecoverable? <==> !call.Restart? && !Covered(before.visible))
    && (r.Unrecoverable? ==> after == before) && (call.Restart? ==> r.Done?)
    && (r.Unrecoverable? || Fails(r) || Succeeded(call, r, before, after))
    && (Covered(before.visible) && !call.Restart? ==> Covered(after.visible))
    && (call.Recover? ==> Recovered(after.visible) == Recovered(before.visible))
    && (Risky(after, journal) ==> Fails(r))
  }

  /** One call on a live store, under the identity's lock, from any state. */
  method Perform(store: ModelStore, call: Call) returns (r: Outcome)
    requires store.Valid()
    modifies store
    ensures store.Valid() && store.Reports(Sign(r))
    ensures Step(call, old(store.disk), r, store.disk, store.journal)
    ensures old(store.Sound() && (call.Restart? || !Risky(store.disk, store.journal))) ==> store.Sound()
    ensures !Installs(call) && old(store.Gone()) ==> store.Gone()
    ensures store.torn ==> old(store.torn) || (call.Bring? && Fails(r) && !store.NoMarker())
  {
    match call
    case Put(verified) =>
      ghost var t;
      r, t := store.Install(verified);
    case Bring(verified) =>
      ghost var t;
      r, t := store.Import(verified);
    case Recover =>
      r := store.Reconcile(None);
    case Remove(matches) =>
      var removed;
      r, removed := store.Delete(matches);
    case Restart =>
      store.Reboot(None);
      r := Done;
  }

  /**
    The retry reaches the end: from any disk without a hole, a call repeated until it succeeds does
    so if fewer filesystem calls fail than there are tries, whether the machine restarts before each
    try or not, and whatever marker, backup, staging tree or tombstone was left behind.
   */
  method Retry(journal: Journal, answers: nat -> Io, found: Disk, nextId: nat, call: Call, tries: nat, restarts: bool)
    returns (r: Outcome, last: Disk, ghost before: Disk)
    requires Inv(found) && Bounded(found, nextId)
    ensures (forall n :: FaultsBefore(answers, n) < tries) ==> !Fails(r)
    ensures Fails(r) || Succeeded(call, r, before, last)
    ensures Covered(last.visible) && (restarts ==> Inv(last))
  {
    var store := new ModelStore.At(journal, answers, found, nextId);
    r, last, before := Halted, found, found;
    var tried := 0;
    while tried < tries && Fails(r)
      invariant store.Valid() && fresh(store) && last == store.disk && store.answers == answers
      invariant Covered(last.visible) && (restarts || tried == 0 ==> store.Sound())
      invariant call.Restart? && Fails(r) ==> tried == 0
      invariant if Fails(r) then tried <= store.Faults() else Succeeded(call, r, before, last)
    {
      if restarts {
        store.Reboot(None);
      }
      before := store.disk;
      r := Perform(store, call);
      last, tried := store.disk, tried + 1;
    }
  }

  // ----- Whole runs -----

  /** A run: the disk before each call and after the last, and how many filesystem calls were made by then. */
  datatype Run = Run(
    journal: Journal,
    answers: nat -> Io,
    calls: seq<Call>,
    outcomes: seq<Outcome>,
    disks: seq<Disk>,
    clocks: seq<nat>)

  /** Some filesystem call made by call `k` did not succeed. */
  ghost predicate Faulty(run: Run, k: nat)
    requires k + 1 < |run.clocks|
  {
    FaultsBefore(run.answers, run.clocks[k]) < FaultsBefore(run.answers, run.clocks[k + 1])
  }

  /** The first calls of the run went from an empty cache through these disks. */
  ghost predicate Chronicle(run: Run) {
    var n := |run.outcomes|;
    && n <= |run.calls| && |run.disks| == |run.clocks| == n + 1
    && run.disks[0] == Disk(Nothing(), {Nothing()}) && run.clocks[0] == 0
    && forall k :: 0 <= k < n ==>
         && Step(run.calls[k], run.disks[k], run.outcomes[k], run.disks[k + 1], run.journal)
         && run.clocks[k] <= run.clocks[k + 1] && (Fails(run.outcomes[k]) <==> Faulty(run, k))
  }

  /** Call `k` meets a disk at risk and does not restart the machine first. */
  ghost predicate Exposed(run: Run, k: nat)
    requires k < |run.calls| && k < |run.disks|
  {
    !run.calls[k].Restart? && Risky(run.disks[k], run.journal)
  }

  /** Call `k` is a failed import that leaves a possible marker. */
  ghost predicate Spoils(run: Run, k: nat)
    requires k < |run.calls| && k < |run.outcomes| && k + 1 < |run.disks|
  {
    run.calls[k].Bring? && Fails(run.outcomes[k]) && exists s :: s in run.disks[k + 1].possible && s.marker
  }

  ghost predicate NoneExposed(run: Run, n: nat)
    requires n <= |run.calls| && n <= |run.disks|
  {
    forall k :: 0 <= k < n ==> !Exposed(run, k)
  }

  ghost predicate NoneSpoils(run: Run, n: nat)
    requires n <= |run.calls| && n <= |run.outcomes| && n < |run.disks|
  {
    forall k :: 0 <= k < n ==> !Spoils(run, k)
  }

  /** The run with one more call made. */
  ghost function Extended(run: Run, r: Outcome, d: Disk, clock: nat): Run {
    run.(outcomes := run.outcomes + [r], disks := run.disks + [d], clocks := run.clocks + [clock])
  }

  lemma {:induction false} ChronicleGrows(run: Run, r: Outcome, d: Disk, clock: nat)
    requires Chronicle(run) && |run.outcomes| < |run.calls|
    requires var k := |run.outcomes|;
      && Step(run.calls[k], run.disks[k], r, d, run.journal)
      && run.clocks[k] <= clock
      && (Fails(r) <==> FaultsBefore(run.answers, run.clocks[k]) < FaultsBefore(run.answers, clock))
    ensures Chronicle(Extended(run, r, d, clock))
  {
    var more := Extended(run, r, d, clock);
    forall k | 0 <= k < |more.outcomes|
      ensures Step(more.calls[k], more.disks[k], more.outcomes[k], more.disks[k + 1], more.journal)
      ensures more.clocks[k] <= more.clocks[k + 1] && (Fails(more.outcomes[k]) <==> Faulty(more, k))
    {
      if k < |run.outcomes| {
        assert Faulty(more, k) == Faulty(run, k);
      }
    }
  }

  /** What holds of a disk of a run, given what happened before it. */
  ghost predicate Kept(run: Run, n: nat)
    requires Chronicle(run) && n <= |run.outcomes|
  {
    && Orderly(run.disks[n])
    && (NoneExposed(run, n) ==> Inv(run.disks[n]))
    && (NoneSpoils(run, n) ==> Whole(run.disks[n]))
  }

  /** What is known of the earlier calls and disks of a run carries over to the longer run. */
  lemma {:induction false} EarlierKept(run: Run, r: Outcome, d: Disk, clock: nat)
    requires Chronicle(run) && |run.outcomes| < |run.calls| && Chronicle(Extended(run, r, d, clock))
    ensures var more, n := Extended(run, r, d, clock), |run.outcomes|;
      && (NoneExposed(more, n + 1) ==> NoneExposed(run, n) && !Exposed(run, n))
      && (NoneSpoils(more, n + 1) ==> NoneSpoils(run, n) && !Spoils(more, n))
      && forall k :: 0 <= k <= n && Kept(run, k) ==> Kept(more, k)
  {
    var more, n := Extended(run, r, d, clock), |run.outcomes|;
    assert forall k :: 0 <= k <= n ==> more.disks[k] == run.disks[k];
    assert forall k :: 0 <= k <= n ==> Exposed(more, k) == Exposed(run, k);
    assert forall k :: 0 <= k < n ==> Spoils(more, k) == Spoils(run, k);
    forall k | 0 <= k <= n && Kept(run, k) ensures Kept(more, k) {
      assert NoneExposed(more, k) == NoneExposed(run, k);
      assert NoneSpoils(more, k) == NoneSpoils(run, k);
    }
  }

  ghost predicate AllKept(run: Run) {
    Chronicle(run) && forall n :: 0 <= n <= |run.outcomes| ==> Kept(run, n)
  }

  lemma {:induction false} AllKeptGrows(run: Run, r: Outcome, d: Disk, clock: nat)
    requires AllKept(run) && |run.outcomes| < |run.calls| && Chronicle(Extended(run, r, d, clock))
    requires Kept(Extended(run, r, d, clock), |run.outcomes| + 1)
    ensures AllKept(Extended(run, r, d, clock))
  {
    EarlierKept(run, r, d, clock);
  }

  /** The store is where the run has got to. */
  ghost predicate At(run: Run, store: ModelStore)
    reads store
  {
    var n := |run.outcomes|;
    && store.Valid() && AllKept(run) && store.journal == run.journal && store.answers == run.answers
    && run.disks[n] == store.disk && run.clocks[n] == store.clock
    && (NoneExposed(run, n) ==> store.Sound())
    && (NoneSpoils(run, n) ==> !store.torn)
  }

  /** The next call of a run. */
  method Continue(store: ModelStore, call: Call, ghost run: Run) returns (r: Outcome, ghost more: Run)
    requires At(run, store) && |run.outcomes| < |run.calls| && run.calls[|run.outcomes|] == call
    modifies store
    ensures At(more, store) && more == Extended(run, r, store.disk, store.clock)
    ensures !Installs(call) && old(store.Gone()) ==> store.Gone()
    ensures call.Remove? && r.Done? ==> store.Gone()
  {
    r := Perform(store, call);
    more := Extended(run, r, store.disk, store.clock);
    ChronicleGrows(run, r, store.disk, store.clock);
    EarlierKept(run, r, store.disk, store.clock);
    AllKeptGrows(run, r, store.disk, store.clock);
  }

  /**
    Every run from an empty cache, crashes and restarts included. Until a call other than a restart
    meets a disk at risk, no hole appears. Until a failed import leaves a possible marker, no
    incomplete tree is installed, backed up or left to promote. In every case a deleted model stays
    deleted until something is installed again.
   */
  method RunStore(journal: Journal, answers: nat -> Io, calls: seq<Call>)
    returns (outcomes: seq<Outcome>, last: Disk, ghost run: Run)
    ensures AllKept(run) && run.journal == journal && run.answers == answers && run.calls == calls
    ensures run.outcomes == outcomes && |outcomes| == |calls| && run.disks[|calls|] == last
    ensures DeletedSince(calls, outcomes) ==> AllAbsent(last)
  {
    var store := new ModelStore(journal, answers);
    outcomes := [];
    run := Run(journal, answers, calls, [], [store.disk], [0]);
    while |outcomes| < |calls|
      invariant fresh(store) && At(run, store) && run.outcomes == outcomes && |outcomes| <= |calls|
      invariant run.journal == journal && run.answers == answers && run.calls == calls
      invariant DeletedSince(calls, outcomes) ==> store.Gone()
    {
      ghost var before := outcomes;
      var r;
      r, run := Continue(store, calls[|outcomes|], run);
      outcomes := outcomes + [r];
      if DeletedSince(calls, outcomes) { DeletedSinceStep(calls, before, r); }
    }
    last := store.disk;
  }

  /** A disk is at risk only right after a failed call, so a restart after every failure excludes exposure. */
  lemma {:induction false} ExposedOnlyAfterFailure(run: Run, k: nat)
    requires Chronicle(run) && k < |run.calls| && k <= |run.outcomes| && Exposed(run, k)
    ensures run.journal.PerDirectory? && k > 0 && Fails(run.outcomes[k - 1]) && Faulty(run, k - 1)
  {
    RiskIsPerDirectory(run.disks[k], run.journal);
    if k > 0 {
      assert Step(run.calls[k - 1], run.disks[k - 1], run.outcomes[k - 1], run.disks[k - 1 + 1], run.journal);
    }
  }

  /** Before the first exposure, a call succeeds exactly if all its filesystem calls do. */
  lemma {:induction false} SucceedsIffNoFault(run: Run, k: nat)
    requires AllKept(run) && k < |run.outcomes| && NoneExposed(run, k)
    ensures Succeeded(run.calls[k], run.outcomes[k], run.disks[k], run.disks[k + 1]) <==> !Faulty(run, k)
  {
    assert Kept(run, k) && Step(run.calls[k], run.disks[k], run.outcomes[k], run.disks[k + 1], run.journal);
  }

  /** Whoever restarts the machine after every failed call never sees a hole, on any filesystem. */
  lemma {:induction false} RestartingAfterFailures(run: Run, n: nat)
    requires AllKept(run) && n <= |run.outcomes|
    requires forall k :: 0 <= k && k + 1 < n && Fails(run.outcomes[k]) ==> run.calls[k + 1].Restart?
    ensures NoneExposed(run, n) && Inv(run.disks[n])
  {
    forall k | 0 <= k < n ensures !Exposed(run, k) {
      if Exposed(run, k) {
        ExposedOnlyAfterFailure(run, k);
      }
    }
    assert Kept(run, n);
  }

  lemma {:induction false} NoFaults(answers: nat -> Io, n: nat)
    requires forall i :: answers(i).Fine?
    ensures FaultsBefore(answers, n) == 0
  {
    if n > 0 { NoFaults(answers, n - 1); }
  }

  /** On a filesystem that never fails, every call of every run succeeds and no hole appears. */
  lemma {:induction false} FaultFreeRun(run: Run, k: nat)
    requires AllKept(run) && k < |run.outcomes| && forall n :: run.answers(n).Fine?
    ensures Inv(run.disks[k]) && Succeeded(run.calls[k], run.outcomes[k], run.disks[k], run.disks[k + 1])
  {
    forall i | 0 <= i < |run.outcomes| ensures !Fails(run.outcomes[i]) {
      NoFaults(run.answers, run.clocks[i + 1]);
      assert !Faulty(run, i);
    }
    RestartingAfterFailures(run, k);
    SucceedsIffNoFault(run, k);
  }

  lemma {:induction false} DeletedSinceStep(calls: seq<Call>, outcomes: seq<Outcome>, r: Outcome)
    requires |outcomes| < |calls| && DeletedSince(calls, outcomes + [r])
    ensures (calls[|outcomes|].Remove? && r.Done?) || (!Installs(calls[|outcomes|]) && DeletedSince(calls, outcomes))
  {}

  /**
    Import's cleanup breaks the promise that recovery installs only complete trees: it may stop
    half way through the staging tree of a replacement whose marker is still there. `SpoilExact`
    says when, for every image; this is what it does to a replacement.
   */
  lemma {:induction false} TornStagingIsPromoted(prev: Tree, next: Tree, i: Image)
    requires prev.id != next.id && 1 <= Stage(i, prev, next) <= 2
    ensures HoleFree(Apply(SpoilStaging, i)) && Recovered(Apply(SpoilStaging, i)).final == Some(Tree(next.id, false))
    ensures SameEntry(Recovered(Apply(ClearStaging, i)).final, Some(prev))
  {}
}
