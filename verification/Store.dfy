/**
  The crash-safe model store for one identity, under its exclusive lock: promotion with a marker
  and a backup, recovery, deletion through a tombstone, staging, and import cleanup. Every
  filesystem call may fail, and the machine may stop before or after any of them.
 */
module Store {
  import opened EmbeddingCore
  import opened Durability

  datatype Io = Fine | Failed | Crashed

  /** How many of the first `n` filesystem calls do not succeed. */
  ghost function FaultsBefore(answers: nat -> Io, n: nat): nat {
    if n == 0 then 0 else FaultsBefore(answers, n - 1) + if answers(n - 1).Fine? then 0 else 1
  }

  /** How many of the first `n` filesystem calls are the last ones before a crash. */
  ghost function CrashesBefore(answers: nat -> Io, n: nat): nat {
    if n == 0 then 0 else CrashesBefore(answers, n - 1) + if answers(n - 1).Crashed? then 1 else 0
  }

  /** How a store operation ends. */
  datatype Outcome =
    | Done
    | IoFailed
    | Halted
    | RolledBack
    | NeedsRecovery
    | Mismatch
    | AlreadyInstalled
    | Unrecoverable

  /** What an outcome says about the filesystem calls made for it. */
  function Sign(r: Outcome): Io {
    match r
    case Done | AlreadyInstalled | Mismatch | Unrecoverable => Fine
    case IoFailed | RolledBack | NeedsRecovery => Failed
    case Halted => Crashed
  }

  /** The replacement a caller is tracking, if any: the previous tree and the staged one. */
  type Replacement = Option<(Tree, Tree)>

  ghost predicate Tracks(d: Disk, txn: Replacement) {
    txn.Some? ==> Replacing(d, txn.value.0, txn.value.1)
  }

  /** The image of an empty cache. */
  function Nothing(): Image {
    Image(false, None, None, None, None, {})
  }

  /** Every durable image holds exactly this tree, with no transaction open. */
  predicate Holds(i: Image, t: Tree) {
    !i.marker && i.backup.None? && i.final == Some(t)
  }

  /** The images a disk may hold after one change: those it might have held, before or after it. */
  ghost predicate Reachable(a: Disk, op: Op, b: Disk) {
    forall s {:trigger s in b.possible} :: s in b.possible ==>
      s in a.possible || exists m {:trigger m in a.possible} :: m in a.possible && s == Apply(op, m)
  }

  ghost predicate AllAgree(d: Disk, dir: Dir) {
    forall s {:trigger s in d.possible} :: s in d.possible ==> AgreeOn(dir, s, d.visible)
  }

  /** A first installation either has not happened or is complete. */
  predicate Adding(i: Image, t: Tree) {
    !i.marker && i.backup.None? && (i.final.None? || i.final == Some(t))
  }

  /** An installation of `next` over `final` that stopped somewhere. */
  ghost predicate InProgress(d: Disk, final: Option<Tree>, next: Tree) {
    if final.None? then forall s :: s in d.possible ==> Adding(s, next)
    else Replacing(d, final.value, next)
  }

  /** Where a tracked replacement may lose its marker: at its end, or rolled back in every image. */
  ghost predicate Unmarkable(d: Disk, prev: Tree, next: Tree) {
    var k := Stage(d.visible, prev, next);
    k == 4 || (k == 1 && forall s :: s in d.possible ==> Stage(s, prev, next) == 1)
  }

  /** No marker is possible, and every image holds the old model's entry or all of the new one. */
  ghost predicate OldOrNew(d: Disk, final: Option<Tree>, next: Tree) {
    forall s {:trigger s in d.possible} :: s in d.possible ==>
      !s.marker && (SameEntry(s.final, final) || s.final == Some(next))
  }

  /** What a stopped import leaves: the model as it was, the import in progress, or old or new everywhere. */
  ghost predicate LeftBehind(d: Disk, final: Option<Tree>, next: Tree) {
    Recovered(d.visible).final == final || InProgress(d, final, next) || OldOrNew(d, final, next)
  }

  lemma {:induction false} StagingIsAside(d: Disk, op: Op, j: Journal, final: Option<Tree>, next: Tree)
    requires Live(d) && op in {FillStaging, SpoilStaging, ClearStaging} && OldOrNew(d, final, next)
    ensures OldOrNew(Mutated(d, op, j), final, next)
  {
    MutatedLive(d, op, j);
  }

  /** A stopped installation without any possible marker is all old or all new, image by image. */
  lemma {:induction false} WithoutMarkerOldOrNew(d: Disk, final: Option<Tree>, next: Tree)
    requires forall s {:trigger s in d.possible} :: s in d.possible ==> !s.marker
    requires InProgress(d, final, next) || (d.visible.final == final && AllAgree(d, Models))
    ensures OldOrNew(d, final, next)
  {}

  lemma {:induction false} RiskIsPerDirectory(d: Disk, j: Journal)
    ensures Risky(d, j) ==> j.PerDirectory?
  {}

  /** Everything a durable rename keeps, from the syncs before it to the syncs after it. */
  lemma {:induction false} RenameKeepsAll(d: Disk, op: Op, j: Journal, nextId: nat, torn: bool, txn: Replacement)
    requires Orderly(d) && RenameGuard(op, d) && Bounded(d, nextId) && Tracks(d, txn)
    requires txn.Some? ==> StageStep(op, Stage(d.visible, txn.value.0, txn.value.1))
    requires !torn ==> Whole(d) && (op.Promote? ==> StagedWhole(d))
    ensures var ready := Settled(d, op, j);
      var after := Mutated(ready, op, j);
      && Narrowed(d, ready) && Orderly(after) && Bounded(after, nextId) && (!torn ==> Whole(after))
      && Reachable(d, op, after)
      && (if op.Isolate? && Risky(d, j) then !torn ==> CanLose(Settled(after, op, j))
          else Tracks(after, txn) && (AllCovered(d) ==> AllCovered(after)))
      && forall s :: s in Settled(after, op, j).possible ==>
           AgreeOn(From(op), s, after.visible) && AgreeOn(To(op), s, after.visible)
  {
    var ready := Settled(d, op, j);
    RenameKeepsInv(d, op, j);
    SettledAgrees(d, op, j);
    SettledAgrees(Mutated(ready, op, j), op, j);
    MutatedLive(ready, op, j);
    ChangeKeepsBounded(ready, op, j, nextId);
    if !torn {
      NarrowedIsWhole(d, ready);
      ChangeKeepsWhole(ready, op, j);
    }
    if op.Isolate? && Risky(d, j) {
      IsolatingAtRiskCanLose(d, j);
    } else if txn.Some? {
      RenameKeepsReplacing(d, op, j, txn.value.0, txn.value.1);
    }
  }

  class ModelStore {
    const journal: Journal
    /** What each filesystem call will answer, in the order they are made. */
    const answers: nat -> Io
    /** How many filesystem calls have been made. */
    var clock: nat
    var disk: Disk
    var nextId: nat
    /** History: a failed import has started to remove a staging tree while a marker was possible. */
    ghost var torn: bool

    /** What holds whatever was called and whatever failed. */
    ghost predicate Valid()
      reads this
    {
      Orderly(disk) && Bounded(disk, nextId) && (!torn ==> Whole(disk))
    }

    /** No image a crash could leave has a marker and no model beside it. */
    ghost predicate Sound()
      reads this
    {
      AllCovered(disk)
    }

    ghost function Faults(): nat
      reads this
    {
      FaultsBefore(answers, clock)
    }

    ghost function Crashes(): nat
      reads this
    {
      CrashesBefore(answers, clock)
    }

    /** The answers met since: all fine, some failure but no crash, or a crash with nothing done after it. */
    twostate predicate Reports(io: Io)
      reads this
    {
      && old(clock) <= clock
      && match io
         case Fine => Faults() == old(Faults()) && Crashes() == old(Crashes())
         case Failed => Faults() > old(Faults()) && Crashes() == old(Crashes())
         case Crashed =>
           && Faults() > old(Faults()) && Crashes() == old(Crashes()) + 1
           && clock > 0 && answers(clock - 1).Crashed?
    }

    /** An empty cache. */
    constructor (journal: Journal, answers: nat -> Io)
      ensures Valid() && Sound() && this.journal == journal && this.answers == answers && clock == 0 && !torn
      ensures disk == Disk(Nothing(), {Nothing()})
    {
      this.journal, this.answers, clock := journal, answers, 0;
      disk := Disk(Nothing(), {Nothing()});
      nextId := 0;
      torn := false;
    }

    /** A cache found on disk in any state the invariant allows. */
    constructor At(journal: Journal, answers: nat -> Io, found: Disk, nextId: nat)
      requires Orderly(found) && Bounded(found, nextId)
      ensures Valid() && this.journal == journal && this.answers == answers && clock == 0
      ensures disk == found && this.nextId == nextId
    {
      this.journal, this.answers, clock := journal, answers, 0;
      disk := found;
      this.nextId := nextId;
      torn := !Whole(found);
    }

    function Ending(io: Io): Outcome {
      if io.Crashed? then Halted else IoFailed
    }

    // ----- Primitive calls -----

    /** The answer of the next filesystem call. */
    method Answer() returns (io: Io)
      modifies this`clock
      ensures io == answers(old(clock)) && clock == old(clock) + 1 && Reports(io)
    {
      io, clock := answers(clock), clock + 1;
    }

    method Sync(dir: Dir) returns (io: Io)
      modifies this`clock, this`disk
      ensures Reports(io)
      ensures io.Fine? ==> disk == Synced(old(disk), dir, journal)
      ensures !io.Fine? ==> disk == old(disk)
    {
      io := Answer();
      if io.Fine? {
        disk := Synced(disk, dir, journal);
      }
    }

    /** Syncing a tree's own entries can fail but changes nothing this model distinguishes. */
    method SyncInside() returns (io: Io)
      modifies this`clock
      ensures Reports(io)
    {
      io := Answer();
    }

    /** A change that crashes may have happened or not. */
    method Change(op: Op) returns (io: Io)
      modifies this`clock, this`disk
      ensures Reports(io)
      ensures io.Fine? ==> disk == Mutated(old(disk), op, journal)
      ensures io.Failed? ==> disk == old(disk)
      ensures io.Crashed? ==> disk == old(disk) || disk == Mutated(old(disk), op, journal)
    {
      var happened: bool := *;
      io := Answer();
      if io.Fine? || (io.Crashed? && happened) {
        disk := Mutated(disk, op, journal);
      }
    }

    /** A single change from where the code makes it keeps what always holds. */
    method GuardedChange(op: Op) returns (io: Io)
      requires Valid() && Guard(op, disk, journal) && (op.CreateStaging? ==> op.id < nextId)
      requires !torn ==> WholeGuard(op, disk)
      modifies this`clock, this`disk
      ensures Reports(io)
      ensures Valid() && (old(Sound() && Grounded(op, disk, journal)) ==> Sound())
      ensures io.Fine? ==> disk == Mutated(old(disk), op, journal)
      ensures io.Failed? ==> disk == old(disk)
      ensures io.Crashed? ==> disk == old(disk) || disk == Mutated(old(disk), op, journal)
    {
      ChangeKeepsOrder(disk, op, journal);
      if Sound() && Grounded(op, disk, journal) { ChangeKeepsCovered(disk, op, journal); }
      ChangeKeepsBounded(disk, op, journal, nextId);
      if !torn { ChangeKeepsWhole(disk, op, journal); }
      io := Change(op);
    }

    /** Machine restart: the disk shows one of the images it may have kept. */
    method Reboot(ghost txn: Replacement)
      requires Valid() && Tracks(disk, txn)
      modifies this`disk
      ensures Valid() && Tracks(disk, txn) && !Risky(disk, journal) && (old(Sound()) ==> Sound())
      ensures disk.visible in old(disk.possible) && disk.possible == {disk.visible}
    {
      var kept :| kept in disk.possible;
      disk := Disk(kept, {kept});
    }

    /** `durable_rename`: sync both parents, rename, sync both parents again. */
    method DurableRename(op: Op, ghost txn: Replacement) returns (io: Io)
      requires Valid() && RenameGuard(op, disk) && Tracks(disk, txn)
      requires txn.Some? ==> StageStep(op, Stage(disk.visible, txn.value.0, txn.value.1))
      requires op.Promote? && !torn ==> StagedWhole(disk)
      modifies this`clock, this`disk
      ensures Reports(io)
      ensures Valid()
      ensures !(op.Isolate? && old(Risky(disk, journal))) ==> Tracks(disk, txn) && (old(Sound()) ==> Sound())
      ensures op.Isolate? && old(Risky(disk, journal)) && !torn && io.Fine? ==> CanLose(disk)
      ensures io.Fine? ==> disk.visible == Apply(op, old(disk.visible))
      ensures io.Fine? ==> forall s :: s in disk.possible ==>
        AgreeOn(From(op), s, disk.visible) && AgreeOn(To(op), s, disk.visible)
      ensures !io.Fine? ==> disk.visible == old(disk.visible) || disk.visible == Apply(op, old(disk.visible))
      ensures !io.Fine? && disk.visible == old(disk.visible) ==> Narrowed(old(disk), disk)
      ensures Reachable(old(disk), op, disk)
    {
      RenameKeepsAll(disk, op, journal, nextId, torn, txn);
      ghost var risk := op.Isolate? && Risky(disk, journal);
      io := SyncParents(op, txn);
      if !io.Fine? { return; }
      io := RenameSettled(op, if risk then None else txn);
    }

    /** The rename itself and the syncs after it, once both parents are durable. */
    method RenameSettled(op: Op, ghost txn: Replacement) returns (io: Io)
      requires Valid() && Tracks(disk, txn)
      requires var after := Mutated(disk, op, journal);
        Orderly(after) && Bounded(after, nextId) && (!torn ==> Whole(after)) && Tracks(after, txn)
      modifies this`clock, this`disk
      ensures Reports(io)
      ensures Valid() && Tracks(disk, txn)
      ensures old(Sound()) && AllCovered(Mutated(old(disk), op, journal)) ==> Sound()
      ensures io.Fine? ==> disk == Settled(Mutated(old(disk), op, journal), op, journal)
      ensures disk == old(disk) || Narrowed(Mutated(old(disk), op, journal), disk)
    {
      io := Change(op);
      if !io.Fine? { return; }
      io := SyncParents(op, txn);
    }

    /** A tree's own entries, then the directories it leaves and enters. */
    method SyncParents(op: Op, ghost txn: Replacement) returns (io: Io)
      requires Valid() && Tracks(disk, txn)
      modifies this`clock, this`disk
      ensures Reports(io)
      ensures Valid() && Tracks(disk, txn) && Narrowed(old(disk), disk) && (old(Sound()) ==> Sound())
      ensures io.Fine? ==> disk == Settled(old(disk), op, journal)
    {
      SyncNarrows(disk, From(op), journal);
      SettledAgrees(disk, op, journal);
      io := SyncInside();
      if !io.Fine? { return; }
      io := Sync(From(op));
      if !io.Fine? { return; }
      io := Sync(To(op));
    }

    // ----- Recovery -----

    /** One of recovery's renames: it loses nothing, leads to the same end and leaves `models` durable. */
    method ResumeBy(op: Op, ghost txn: Replacement) returns (io: Io)
      requires Valid() && op in {Displace, Promote, Restore} && RecoveryStep(op, disk.visible) && Tracks(disk, txn)
      requires Covered(disk.visible)
      requires txn.Some? ==> StageStep(op, Stage(disk.visible, txn.value.0, txn.value.1))
      modifies this`clock, this`disk
      ensures Reports(io)
      ensures Valid() && Tracks(disk, txn) && (old(Sound()) ==> Sound()) && disk.visible.marker && Covered(disk.visible)
      ensures Trees(disk.visible) == old(Trees(disk.visible)) && disk.visible.tombstone == old(disk.visible.tombstone)
      ensures disk.visible == old(disk.visible) || Rank(disk.visible) < old(Rank(disk.visible))
      ensures Recovered(disk.visible) == old(Recovered(disk.visible))
      ensures io.Fine? ==> disk.visible == Apply(op, old(disk.visible)) && !Risky(disk, journal)
    {
      RecoveryDescends(op, disk.visible);
      RecoveryConfluent(op, disk.visible);
      RecoveryConserves(op, disk.visible);
      io := DurableRename(op, txn);
      if io.Fine? { SyncedModelsNotRisky(disk, journal); }
    }

    /**
      The filesystem half of `reconcile_repair`: finish or undo the interrupted renames. A marker
      with no model beside it is the one thing it gives up on.
     */
    method ResumeRenames(ghost txn: Replacement) returns (io: Io, lost: bool)
      requires Valid() && Tracks(disk, txn) && disk.visible.marker
      modifies this`clock, this`disk
      ensures Reports(io)
      ensures Valid() && Tracks(disk, txn) && (old(Sound()) ==> Sound()) && disk.visible.marker
      ensures lost <==> !Covered(old(disk.visible))
      ensures Covered(old(disk.visible)) ==> Covered(disk.visible)
      ensures lost || old(disk.visible.final.Some? && disk.visible.backup.Some?) ==> disk == old(disk) && io.Fine?
      ensures Trees(disk.visible) == old(Trees(disk.visible)) && disk.visible.tombstone == old(disk.visible.tombstone)
      ensures disk.visible == old(disk.visible) || Rank(disk.visible) < old(Rank(disk.visible))
      ensures Recovered(disk.visible) == old(Recovered(disk.visible))
      ensures io.Fine? && !lost ==> disk.visible.final.Some? && disk.visible.staging.None?
      ensures io.Fine? && !lost ==> disk == old(disk) || !Risky(disk, journal)
      ensures io.Fine? && !lost ==> Apply(RemoveMarker, Apply(Isolate, disk.visible)) == Recovered(old(disk.visible))
      ensures io.Fine? && !lost && txn.Some? ==> 3 <= Stage(disk.visible, txn.value.0, txn.value.1) <= 4
    {
      var v := disk.visible;
      io, lost := Fine, false;
      if v.final.Some? && v.staging.Some? && v.backup.None? {
        io := ResumeBy(Displace, txn);
        if !io.Fine? { return; }
        io := ResumeBy(Promote, txn);
      } else if v.final.None? && v.staging.Some? && v.backup.Some? {
        io := ResumeBy(Promote, txn);
      } else if v.final.None? && v.staging.None? && v.backup.Some? {
        io := ResumeBy(Restore, None);
      } else if v.final.None? {
        lost := true;
      }
    }

    /** `quarantine_backup`: nothing to do without one. */
    method IsolateBackup(ghost txn: Replacement) returns (io: Io)
      requires Valid() && Tracks(disk, txn) && disk.visible.marker && disk.visible.final.Some?
      requires txn.Some? ==> 3 <= Stage(disk.visible, txn.value.0, txn.value.1) <= 4
      modifies this`clock, this`disk
      ensures Reports(io)
      ensures Valid()
      ensures !old(Risky(disk, journal)) ==> Tracks(disk, txn) && (old(Sound()) ==> Sound())
      ensures old(Risky(disk, journal)) && !torn && io.Fine? ==> CanLose(disk)
      ensures disk.visible == old(disk.visible) || disk.visible == Apply(Isolate, old(disk.visible))
      ensures io.Fine? ==> disk.visible == Apply(Isolate, old(disk.visible)) && disk.visible.backup.None?
      ensures io.Fine? && txn.Some? ==> Stage(disk.visible, txn.value.0, txn.value.1) == 4
    {
      io := Fine;
      if disk.visible.backup.Some? {
        io := SyncInside();
        if !io.Fine? { return; }
        ghost var before := disk.visible;
        io := DurableRename(Isolate, txn);
        if io.Fine? && txn.Some? {
          StageMoves(Isolate, before, txn.value.0, txn.value.1);
        }
      }
    }

    /** Marker removal and the closing sync of `transactions`. */
    method DropMarker(ghost txn: Replacement) returns (io: Io)
      requires Valid() && Tracks(disk, txn) && disk.visible.final.Some? && disk.visible.backup.None?
      requires txn.Some? ==> Unmarkable(disk, txn.value.0, txn.value.1)
      modifies this`clock, this`disk
      ensures Reports(io)
      ensures Valid() && Tracks(disk, txn) && (old(Sound()) ==> Sound())
      ensures disk.visible == old(disk.visible) || disk.visible == Apply(RemoveMarker, old(disk.visible))
      ensures io.Fine? ==> disk.visible == Apply(RemoveMarker, old(disk.visible))
      ensures io.Fine? ==> forall s :: s in disk.possible ==> AgreeOn(Transactions, s, disk.visible)
      ensures Reachable(old(disk), RemoveMarker, disk)
      ensures io.Fine? && old(CanLose(disk)) && journal.PerDirectory? ==> CanLose(disk)
    {
      MutatedLive(disk, RemoveMarker, journal);
      if txn.Some? {
        MarkerRemovalKeeps(disk, journal, txn.value.0, txn.value.1);
      }
      if CanLose(disk) { UnmarkingKeepsLoss(disk, journal); }
      io := GuardedChange(RemoveMarker);
      if !io.Fine? { return; }
      SyncNarrows(disk, Transactions, journal);
      ghost var changed := disk;
      io := Sync(Transactions);
      if txn.Some? && io.Fine? {
        ReplacingNarrows(changed, disk, txn.value.0, txn.value.1);
      }
    }

    /** The end of a recovery, once a model is in place: quarantine the backup and take the marker off. */
    method FinishRecovery(ghost txn: Replacement) returns (io: Io)
      requires Valid() && Tracks(disk, txn)
      requires disk.visible.marker && disk.visible.final.Some? && disk.visible.staging.None?
      requires txn.Some? ==> 3 <= Stage(disk.visible, txn.value.0, txn.value.1) <= 4
      modifies this`clock, this`disk
      ensures Reports(io)
      ensures Valid() && Covered(disk.visible)
      ensures !old(Risky(disk, journal)) ==> Tracks(disk, txn) && (old(Sound()) ==> Sound())
      ensures old(Risky(disk, journal)) && !torn && io.Fine? ==> CanLose(disk)
      ensures Trees(disk.visible) == old(Trees(disk.visible)) && disk.visible.tombstone == old(disk.visible.tombstone)
      ensures disk.visible == old(disk.visible) || Rank(disk.visible) < old(Rank(disk.visible))
      ensures Recovered(disk.visible) == old(Recovered(disk.visible))
      ensures io.Fine? ==> disk.visible == Apply(RemoveMarker, Apply(Isolate, old(disk.visible)))
    {
      ghost var risk := Risky(disk, journal);
      RiskIsPerDirectory(disk, journal);
      IsolationAndRemoval(disk.visible);
      io := IsolateBackup(txn);
      if !io.Fine? { return; }
      io := DropMarker(if risk then None else txn);
    }

    /**
      `reconcile_repair`, from any state. It gives up exactly on a visible marker without a model
      and otherwise ends where `Recovered` says, or stops at an I/O fault with less left to do.
      No hole opens unless the disk was at risk; if it was, completing the recovery makes losing
      the model possible.
     */
    method Reconcile(ghost txn: Replacement) returns (r: Outcome)
      requires Valid() && Tracks(disk, txn)
      modifies this`clock, this`disk
      ensures Reports(Sign(r))
      ensures Valid()
      ensures !old(Risky(disk, journal)) ==> Tracks(disk, txn) && (old(Sound()) ==> Sound())
      ensures old(Risky(disk, journal)) && !torn && r.Done? ==> CanLose(disk)
      ensures r in {Done, IoFailed, Halted, Unrecoverable}
      ensures r.Unrecoverable? <==> !Covered(old(disk.visible))
      ensures Covered(old(disk.visible)) ==> Covered(disk.visible)
      ensures r.Unrecoverable? || !old(disk.visible.marker) ==> disk == old(disk)
      ensures Trees(disk.visible) == old(Trees(disk.visible)) && disk.visible.tombstone == old(disk.visible.tombstone)
      ensures disk.visible == old(disk.visible) || Rank(disk.visible) < old(Rank(disk.visible))
      ensures Recovered(disk.visible) == old(Recovered(disk.visible))
      ensures r.Done? ==> disk.visible == Recovered(old(disk.visible)) && !disk.visible.marker
      ensures !old(disk.visible.marker) ==> r.Done?
    {
      if !disk.visible.marker { return Done; }
      var io, lost := ResumeRenames(txn);
      if lost { return Unrecoverable; }
      if !io.Fine? { return Ending(io); }
      io := FinishRecovery(txn);
      r := if io.Fine? then Done else Ending(io);
    }

    // ----- Staging -----

    /** `models` and `transactions` are durable as seen, and no repair is pending. */
    ghost predicate Clean()
      reads this
    {
      && !disk.visible.marker
      && forall s {:trigger s in disk.possible} :: s in disk.possible ==>
           AgreeOn(Models, s, disk.visible) && AgreeOn(Transactions, s, disk.visible)
    }

    ghost predicate NoMarker()
      reads this
    {
      forall s {:trigger s in disk.possible} :: s in disk.possible ==> !s.marker
    }

    /** A change confined to the staging directory. */
    method ChangeStaging(op: Op) returns (io: Io)
      requires Valid() && op in {FillStaging, SpoilStaging, ClearStaging}
      requires op.SpoilStaging? && !torn ==> NoMarker()
      modifies this`clock, this`disk
      ensures Reports(io)
      ensures Valid() && (old(Clean()) ==> Clean()) && (old(Sound()) ==> Sound())
      ensures !old(NoMarker()) ==> !NoMarker()
      ensures forall final, next :: OldOrNew(old(disk), final, next) ==> OldOrNew(disk, final, next)
      ensures disk.visible == old(disk.visible) || disk.visible == Apply(op, old(disk.visible))
      ensures io.Fine? ==> disk.visible == Apply(op, old(disk.visible))
    {
      MutatedLive(disk, op, journal);
      forall final, next | OldOrNew(disk, final, next) ensures OldOrNew(Mutated(disk, op, journal), final, next) {
        StagingIsAside(disk, op, journal, final, next);
      }
      io := GuardedChange(op);
    }

    method CreateStagingTree() returns (io: Io)
      requires Valid() && Clean()
      modifies this`clock, this`disk, this`nextId
      ensures Reports(io)
      ensures Valid() && Clean() && nextId == old(nextId) + 1
      ensures disk.visible == old(disk.visible) || disk.visible == Apply(CreateStaging(old(nextId)), old(disk.visible))
      ensures io.Fine? ==> disk.visible == Apply(CreateStaging(old(nextId)), old(disk.visible))
    {
      var op := CreateStaging(nextId);
      nextId := nextId + 1;
      MutatedLive(disk, op, journal);
      io := GuardedChange(op);
    }

    method SyncQuietly(dir: Dir) returns (io: Io)
      requires Valid()
      modifies this`clock, this`disk
      ensures Reports(io)
      ensures Valid() && (old(Clean()) ==> Clean()) && (old(Sound()) ==> Sound()) && Narrowed(old(disk), disk)
      ensures io.Fine? ==> AllAgree(disk, dir)
    {
      SyncNarrows(disk, dir, journal);
      io := Sync(dir);
    }

    /** `prepare_staging`: settle the parents, drop an old staging tree, create an empty one. */
    method PrepareStaging() returns (io: Io)
      requires Valid() && !disk.visible.marker
      modifies this`clock, this`disk, this`nextId
      ensures Reports(io)
      ensures Valid() && (old(Sound()) ==> Sound())
      ensures disk.visible == old(disk.visible).(staging := disk.visible.staging)
      ensures old(nextId) <= nextId && (io.Fine? ==> old(nextId) < nextId)
      ensures io.Fine? ==> Clean() && disk.visible.staging == Some(Tree(nextId - 1, false))
      ensures disk.visible.final.Some? ==> disk.visible.final.value.id < old(nextId)
    {
      io := SettleParents();
      if !io.Fine? { return; }
      io := RemoveOldStaging();
      if !io.Fine? { return; }
      io := CreateStagingTree();
      if !io.Fine? { return; }
      io := SyncInside();
      if !io.Fine? { return; }
      io := SyncQuietly(Staging);
    }

    /** The syncs `prepare_staging` starts with. */
    method SettleParents() returns (io: Io)
      requires Valid() && !disk.visible.marker
      modifies this`clock, this`disk
      ensures Reports(io)
      ensures Valid() && (old(Sound()) ==> Sound()) && disk.visible == old(disk.visible)
      ensures io.Fine? ==> Clean()
    {
      io := SyncQuietly(Models);
      if !io.Fine? { return; }
      io := SyncQuietly(Staging);
      if !io.Fine? { return; }
      io := SyncQuietly(Transactions);
    }

    /** Removal is not atomic: a torn tree may be left when it stops half way. */
    method RemoveOldStaging() returns (io: Io)
      requires Valid() && Clean()
      modifies this`clock, this`disk
      ensures Reports(io)
      ensures Valid() && Clean()
      ensures disk.visible == old(disk.visible).(staging := disk.visible.staging)
      ensures io.Fine? ==> disk.visible.staging.None?
    {
      io := Fine;
      if disk.visible.staging.Some? {
        io := ChangeStaging(SpoilStaging);
        if !io.Fine? { return; }
        io := ChangeStaging(ClearStaging);
        if !io.Fine? { return; }
        io := SyncQuietly(Staging);
      }
    }

    // ----- Promotion -----

    /** A rename onto a directory that exists syncs both parents and then fails. */
    method BlockedRename(op: Op, ghost txn: Replacement) returns (io: Io)
      requires Valid() && Tracks(disk, txn) && IsRename(op)
      modifies this`clock, this`disk
      ensures old(clock) <= clock && old(Faults()) <= Faults()
      ensures if io.Crashed? then Reports(Crashed) else Crashes() == old(Crashes())
      ensures Valid() && Tracks(disk, txn) && disk.visible == old(disk.visible) && !io.Fine?
    {
      SyncNarrows(disk, From(op), journal);
      SyncNarrows(Synced(disk, From(op), journal), To(op), journal);
      io := Sync(From(op));
      if !io.Fine? { return; }
      io := Sync(To(op));
      if !io.Fine? { return; }
      io := Failed;
    }

    /** After the marker: displace, promote, isolate, unmark, with the source's two rollbacks. */
    method Replace(ghost prev: Tree, ghost next: Tree) returns (r: Outcome)
      requires Valid() && Replacing(disk, prev, next) && Stage(disk.visible, prev, next) == 1
      requires forall s :: s in disk.possible ==> Stage(s, prev, next) == 1
      modifies this`clock, this`disk
      ensures Reports(Sign(r))
      ensures r.NeedsRecovery? ==> disk.visible.final.Some? || Faults() >= old(Faults()) + 2
      ensures r in {IoFailed, NeedsRecovery} && Stage(disk.visible, prev, next) <= 1 ==> Faults() >= old(Faults()) + 2
      ensures Valid() && Replacing(disk, prev, next)
      ensures r in {Done, IoFailed, Halted, RolledBack, NeedsRecovery}
      ensures r.Done? ==> forall s :: s in disk.possible ==> Stage(s, prev, next) == 5
      ensures r.RolledBack? ==> forall s :: s in disk.possible ==> Stage(s, prev, next) == 0
    {
      ghost var txn := Some((prev, next));
      var io := DurableRename(Displace, txn);
      if !io.Fine? {
        // `verify_transaction_final`: without a visible final the marker must stay.
        if io.Crashed? || disk.visible.final.None? { return Ending(io); }
        r := Unmark(prev, next);
        return;
      }
      r := PromoteOver(prev, next);
    }

    /** The previous model is out of the way: promote the replacement, or put the previous one back. */
    method PromoteOver(ghost prev: Tree, ghost next: Tree) returns (r: Outcome)
      requires Valid() && Replacing(disk, prev, next) && Stage(disk.visible, prev, next) == 2
      requires !torn ==> StagedWhole(disk)
      modifies this`clock, this`disk
      ensures Reports(Sign(r))
      ensures r.NeedsRecovery? ==> disk.visible.final.Some? || Faults() >= old(Faults()) + 2
      ensures r in {IoFailed, NeedsRecovery} && Stage(disk.visible, prev, next) <= 1 ==> Faults() >= old(Faults()) + 2
      ensures Valid() && Replacing(disk, prev, next)
      ensures r in {Done, IoFailed, Halted, RolledBack, NeedsRecovery}
      ensures r.Done? ==> forall s :: s in disk.possible ==> Stage(s, prev, next) == 5
      ensures r.RolledBack? ==> forall s :: s in disk.possible ==> Stage(s, prev, next) == 0
    {
      var io := DurableRename(Promote, Some((prev, next)));
      if !io.Fine? {
        if io.Crashed? { return Halted; }
        r := PutBack(prev, next);
        return;
      }
      r := Conclude(prev, next);
    }

    /** The replacement is durably in place: quarantine the previous model and take the marker off. */
    method Conclude(ghost prev: Tree, ghost next: Tree) returns (r: Outcome)
      requires Valid() && Replacing(disk, prev, next) && Stage(disk.visible, prev, next) == 3 && AllAgree(disk, Models)
      modifies this`clock, this`disk
      ensures Reports(Sign(r))
      ensures Valid() && Replacing(disk, prev, next) && Stage(disk.visible, prev, next) >= 3
      ensures r in {Done, IoFailed, Halted}
      ensures r.Done? ==> forall s :: s in disk.possible ==> Stage(s, prev, next) == 5
    {
      ghost var txn := Some((prev, next));
      SyncedModelsNotRisky(disk, journal);
      var io := IsolateBackup(txn);
      if !io.Fine? { return Ending(io); }
      io := DropMarker(txn);
      if !io.Fine? { return Ending(io); }
      r := Done;
    }

    /** The promotion failed: return the previous model to its place, or leave that to recovery. */
    method PutBack(ghost prev: Tree, ghost next: Tree) returns (r: Outcome)
      requires Valid() && Replacing(disk, prev, next) && 2 <= Stage(disk.visible, prev, next) <= 3
      modifies this`clock, this`disk
      ensures old(disk.visible.final).None? ==> Reports(if r.RolledBack? then Fine else Sign(r))
      ensures old(disk.visible.final).Some? ==> r in {NeedsRecovery, Halted} && disk.visible == old(disk.visible)
      ensures old(clock) <= clock && old(Faults()) <= Faults()
      ensures if r.Halted? then Reports(Crashed) else Crashes() == old(Crashes())
      ensures r.IoFailed? ==> Stage(disk.visible, prev, next) <= 1
      ensures r.NeedsRecovery? ==> disk.visible.final.Some? || Faults() > old(Faults())
      ensures Valid() && Replacing(disk, prev, next)
      ensures r in {IoFailed, Halted, RolledBack, NeedsRecovery}
      ensures r.RolledBack? ==> forall s :: s in disk.possible ==> Stage(s, prev, next) == 0
    {
      ghost var txn := Some((prev, next));
      var back: Io;
      if disk.visible.final.None? {
        back := DurableRename(Restore, txn);
      } else {
        back := BlockedRename(Restore, txn);
      }
      if back.Crashed? { return Halted; }
      if !back.Fine? { return NeedsRecovery; }
      forall s | s in disk.possible ensures Stage(s, prev, next) == 1 {}
      r := Unmark(prev, next);
    }

    /** Take the marker back off after nothing was displaced, or everything was put back. */
    method Unmark(ghost prev: Tree, ghost next: Tree) returns (r: Outcome)
      requires Valid() && Replacing(disk, prev, next) && Stage(disk.visible, prev, next) == 1
      requires forall s :: s in disk.possible ==> Stage(s, prev, next) == 1
      modifies this`clock, this`disk
      ensures Reports(if r.RolledBack? then Fine else Sign(r))
      ensures Valid() && Replacing(disk, prev, next) && Stage(disk.visible, prev, next) <= 1
      ensures r in {IoFailed, Halted, RolledBack}
      ensures r.RolledBack? ==> forall s :: s in disk.possible ==> Stage(s, prev, next) == 0
    {
      var io := DropMarker(Some((prev, next)));
      if !io.Fine? { return Ending(io); }
      r := RolledBack;
    }

    /** `sync_staged_tree`: the files and directories of the staging tree, then its parent. */
    method SyncStagedTree() returns (io: Io)
      requires Valid()
      modifies this`clock, this`disk
      ensures Reports(io)
      ensures Valid() && (old(Clean()) ==> Clean()) && Narrowed(old(disk), disk)
      ensures io.Fine? ==> AllAgree(disk, StagedTree)
    {
      io := SyncQuietly(StagedTree);
      if !io.Fine? { return; }
      io := SyncQuietly(Staging);
    }

    /** Promotion where nothing is installed yet: one durable rename. */
    method AddFresh(ghost next: Tree) returns (r: Outcome)
      requires Valid() && Clean() && disk.visible.final.None? && disk.visible.staging == Some(next)
      requires next.complete && forall s :: s in disk.possible ==> s.staging == Some(next)
      modifies this`clock, this`disk
      ensures Reports(Sign(r))
      ensures Valid() && !disk.visible.marker
      ensures r in {Done, IoFailed, Halted}
      ensures forall s :: s in disk.possible ==> Adding(s, next)
      ensures r.Done? ==> forall s :: s in disk.possible ==> Holds(s, next)
    {
      ghost var before := disk;
      assert forall s :: s in before.possible ==> Adding(s, next);
      var io := DurableRename(Promote, None);
      forall s | s in disk.possible ensures Adding(s, next) {
        if s !in before.possible {
          ghost var m :| m in before.possible && s == Apply(Promote, m);
        }
      }
      if !io.Fine? { return Ending(io); }
      r := Done;
    }

    /** Promotion over an installed model: write the marker durably, then replace. */
    method ReplaceInstalled(ghost prev: Tree, ghost next: Tree) returns (r: Outcome)
      requires Valid() && Replacing(disk, prev, next)
      requires forall s :: s in disk.possible ==> Stage(s, prev, next) == 0
      modifies this`clock, this`disk
      ensures Reports(Sign(r))
      ensures r.NeedsRecovery? ==> disk.visible.final.Some? || Faults() >= old(Faults()) + 2
      ensures Valid() && Replacing(disk, prev, next)
      ensures r in {Done, IoFailed, Halted, RolledBack, NeedsRecovery}
      ensures r.Done? ==> forall s :: s in disk.possible ==> Stage(s, prev, next) == 5
      ensures r.RolledBack? ==> forall s :: s in disk.possible ==> Stage(s, prev, next) == 0
    {
      if disk.visible.backup.Some? || disk.visible.marker {
        // The source reports that the repair transaction state is not clean.
        assert false;
      }
      MutatedLive(disk, CreateMarker, journal);
      ReplacingStep(disk, CreateMarker, journal, prev, next);
      var io := GuardedChange(CreateMarker);
      if !io.Fine? { return Ending(io); }
      SyncNarrows(disk, Transactions, journal);
      ghost var marked := disk;
      io := Sync(Transactions);
      if !io.Fine? { return Ending(io); }
      ReplacingNarrows(marked, disk, prev, next);
      forall s | s in disk.possible ensures Stage(s, prev, next) == 1 {}
      r := Replace(prev, next);
    }

    /**
      `promote`, called with a complete staging tree. Whatever fails, every image a crash could
      leave is the untouched one, or one step of installing exactly the staged tree.
     */
    method PromoteStaged(ghost next: Tree) returns (r: Outcome)
      requires Valid() && Clean() && disk.visible.staging == Some(next) && next.complete
      requires disk.visible.final.Some? ==> disk.visible.final.value.id != next.id
      modifies this`clock, this`disk
      ensures Reports(Sign(r))
      ensures Valid() && Sound()
      ensures r in {Done, IoFailed, Halted, RolledBack, NeedsRecovery}
      ensures Narrowed(old(disk), disk) || InProgress(disk, old(disk.visible.final), next)
      ensures r.Done? ==> forall s :: s in disk.possible ==> Holds(s, next)
    {
      SyncedModelsNotRisky(disk, journal);
      r := Reconcile(None);
      var io := SyncStagedTree();
      if !io.Fine? { return Ending(io); }
      if disk.visible.final.None? {
        r := AddFresh(next);
      } else {
        ghost var prev := disk.visible.final.value;
        forall s | s in disk.possible ensures Stage(s, prev, next) == 0 {}
        r := ReplaceInstalled(prev, next);
      }
    }

    // ----- Installation and import -----

    /** Download into staging; it may stop anywhere, and only finishing makes the tree complete. */
    method FillStagingTree() returns (io: Io)
      requires Valid() && disk.visible.staging.Some?
      modifies this`clock, this`disk
      ensures Reports(io)
      ensures Valid() && (old(Clean()) ==> Clean())
      ensures disk.visible == old(disk.visible) || disk.visible == Apply(FillStaging, old(disk.visible))
      ensures io.Fine? ==> disk.visible == Apply(FillStaging, old(disk.visible))
    {
      io := ChangeStaging(FillStaging);
    }

    /** The first half of install and import: recover, look for a verified model, prepare staging. */
    method Begin(verified: bool) returns (r: Outcome)
      requires Valid()
      modifies this`clock, this`disk, this`nextId
      ensures Reports(Sign(r))
      ensures Valid() && old(nextId) <= nextId
      ensures old(Sound()) && !old(Risky(disk, journal)) ==> Sound()
      ensures r in {Done, AlreadyInstalled, IoFailed, Halted, Unrecoverable}
      ensures r.Done? ==> !(verified && Recovered(old(disk.visible)).final.Some?)
      ensures r.Unrecoverable? <==> !Covered(old(disk.visible))
      ensures if r.Unrecoverable? then disk == old(disk) else Covered(disk.visible)
      ensures Recovered(disk.visible).final == Recovered(old(disk.visible)).final
      ensures r.AlreadyInstalled? ==>
        verified && disk.visible == Recovered(old(disk.visible)) && disk.visible.final.Some?
      ensures r.Done? ==> Clean() && old(nextId) < nextId && disk.visible.staging == Some(Tree(nextId - 1, false))
      ensures r.Done? && disk.visible.final.Some? ==> disk.visible.final.value.id < nextId - 1
    {
      if Covered(disk.visible) { RecoveredIsSafe(disk.visible); }
      r := Reconcile(None);
      if !r.Done? { return; }
      if verified && disk.visible.final.Some? { return AlreadyInstalled; }
      var io := PrepareStaging();
      if !io.Fine? { return Ending(io); }
    }

    /** The second half: fill the staging tree and promote it. */
    method FillAndPromote(ghost next: Tree) returns (r: Outcome)
      requires Valid() && Clean() && next.complete && disk.visible.staging == Some(Tree(next.id, false))
      requires disk.visible.final.Some? ==> disk.visible.final.value.id != next.id
      modifies this`clock, this`disk
      ensures Reports(Sign(r))
      ensures Valid() && Sound()
      ensures r in {Done, IoFailed, Halted, RolledBack, NeedsRecovery}
      ensures (disk.visible.final == old(disk.visible.final) && Clean())
           || InProgress(disk, old(disk.visible.final), next)
      ensures r.Done? ==> forall s :: s in disk.possible ==> Holds(s, next)
    {
      var io := FillStagingTree();
      if !io.Fine? { return Ending(io); }
      r := PromoteStaged(next);
    }

    /**
      `install_transaction` as the filesystem sees it. `Done` means durably installed; anything
      else leaves what recovery would have installed, or this installation in progress.
     */
    method Install(verified: bool) returns (r: Outcome, ghost next: Tree)
      requires Valid()
      modifies this`clock, this`disk, this`nextId
      ensures Reports(Sign(r))
      ensures Valid() && (old(Sound()) && !old(Risky(disk, journal)) ==> Sound())
      ensures r in {Done, AlreadyInstalled, IoFailed, Halted, RolledBack, NeedsRecovery, Unrecoverable}
      ensures r.Done? ==> !(verified && Recovered(old(disk.visible)).final.Some?)
      ensures r.Unrecoverable? <==> !Covered(old(disk.visible))
      ensures if r.Unrecoverable? then disk == old(disk) else Covered(disk.visible)
      ensures r.Done? ==> next.complete && old(nextId) <= next.id && forall s :: s in disk.possible ==> Holds(s, next)
      ensures r.AlreadyInstalled? ==> verified && disk.visible == Recovered(old(disk.visible))
      ensures Recovered(disk.visible).final == Recovered(old(disk.visible)).final
           || InProgress(disk, Recovered(old(disk.visible)).final, next)
    {
      r := Begin(verified);
      if !r.Done? { return r, Tree(nextId, true); }
      next := Tree(nextId - 1, true);
      r := FillAndPromote(next);
    }

    /**
      `import`: as install, and a failed attempt removes its staging tree, ignoring errors. Unless a
      marker is possible when that happens, the old model's entry or the whole new model is what
      every image holds.
     */
    method Import(verified: bool) returns (r: Outcome, ghost next: Tree)
      requires Valid()
      modifies this`clock, this`disk, this`nextId, this`torn
      ensures Reports(Sign(r))
      ensures r in {RolledBack, NeedsRecovery} ==> disk.visible.staging.None? || Faults() >= old(Faults()) + 2
      ensures Valid() && (old(Sound()) && !old(Risky(disk, journal)) ==> Sound())
      ensures r in {Done, AlreadyInstalled, IoFailed, Halted, RolledBack, NeedsRecovery, Unrecoverable}
      ensures r.Done? ==> !(verified && Recovered(old(disk.visible)).final.Some?)
      ensures r.Unrecoverable? <==> !Covered(old(disk.visible))
      ensures if r.Unrecoverable? then disk == old(disk) else Covered(disk.visible)
      ensures r.Done? ==> next.complete && old(nextId) <= next.id && forall s :: s in disk.possible ==> Holds(s, next)
      ensures r.AlreadyInstalled? ==> verified && disk.visible == Recovered(old(disk.visible))
      ensures old(torn) ==> torn
      ensures torn && !old(torn) ==> !NoMarker() && r in {IoFailed, Halted, RolledBack, NeedsRecovery}
      ensures !torn ==> LeftBehind(disk, Recovered(old(disk.visible)).final, next)
    {
      r := Begin(verified);
      if !r.Done? { return r, Tree(nextId, true); }
      next := Tree(nextId - 1, true);
      r := FillAndPromoteOrDiscard(next);
    }

    /** Import's second half, with the cleanup after a failure. */
    method FillAndPromoteOrDiscard(ghost next: Tree) returns (r: Outcome)
      requires Valid() && Clean() && next.complete && disk.visible.staging == Some(Tree(next.id, false))
      requires disk.visible.final.Some? ==> disk.visible.final.value.id != next.id
      modifies this`clock, this`disk, this`torn
      ensures Reports(Sign(r))
      ensures Sign(r).Failed? ==> disk.visible.staging.None? || Faults() >= old(Faults()) + 2
      ensures Valid() && Sound()
      ensures r in {Done, IoFailed, Halted, RolledBack, NeedsRecovery}
      ensures r.Done? ==> forall s :: s in disk.possible ==> Holds(s, next)
      ensures old(torn) ==> torn
      ensures torn && !old(torn) ==> !NoMarker() && !r.Done?
      ensures !torn ==> LeftBehind(disk, old(disk.visible.final), next)
    {
      ghost var installed := disk.visible.final;
      r := FillAndPromote(next);
      if Sign(r).Failed? {
        r := DiscardStaging(r, installed, next);
      }
    }

    /** Import's cleanup: remove the staging tree, ignoring failures. */
    method DiscardStaging(failure: Outcome, ghost installed: Option<Tree>, ghost next: Tree) returns (r: Outcome)
      requires Valid() && Sound() && Sign(failure).Failed?
      requires InProgress(disk, installed, next) || (disk.visible.final == installed && AllAgree(disk, Models))
      modifies this`clock, this`disk, this`torn
      ensures old(clock) <= clock && old(Faults()) <= Faults()
      ensures if r.Halted? then Reports(Crashed) else Crashes() == old(Crashes())
      ensures Faults() == old(Faults()) ==> disk.visible.staging.None?
      ensures Valid() && Sound() && r in {failure, Halted}
      ensures old(torn) ==> torn
      ensures torn && !old(torn) ==> !NoMarker()
      ensures !torn ==> OldOrNew(disk, installed, next)
    {
      torn := torn || !NoMarker();
      if NoMarker() { WithoutMarkerOldOrNew(disk, installed, next); }
      var io := ChangeStaging(SpoilStaging);
      if io.Fine? {
        io := ChangeStaging(ClearStaging);
      }
      r := if io.Crashed? then Halted else failure;
    }

    // ----- Deletion -----

    /** `remove_deletion_tombstone`. */
    method RemoveTombstone() returns (io: Io)
      requires Valid() && !disk.visible.marker
      requires forall s :: s in disk.possible ==> AgreeOn(Transactions, s, disk.visible)
      modifies this`clock, this`disk
      ensures Reports(io)
      ensures Valid() && !disk.visible.marker && (old(Sound()) ==> Sound())
      ensures disk.visible == old(disk.visible) || disk.visible == Apply(ClearTombstone, old(disk.visible))
      ensures io.Fine? ==> disk.visible == Apply(ClearTombstone, old(disk.visible))
      ensures io.Fine? ==> forall s :: s in disk.possible ==> AgreeOn(Transactions, s, disk.visible)
    {
      MutatedLive(disk, ClearTombstone, journal);
      io := GuardedChange(ClearTombstone);
      if !io.Fine? { return; }
      SyncNarrows(disk, Transactions, journal);
      io := Sync(Transactions);
    }

    /** The end of a deletion, in every image a crash could leave. */
    ghost predicate Gone()
      reads this
    {
      && disk.visible.tombstone.None?
      && forall s {:trigger s in disk.possible} :: s in disk.possible ==>
           !s.marker && s.final.None? && s.backup.None? && s.tombstone.None?
    }

    /**
      `delete`. From any state a crash or failure can leave, success means no marker, model,
      backup or tombstone survives, durably; the result says whether anything was there.
      `matches` is whether the stored manifest equals the requested one.
     */
    method Delete(matches: bool) returns (r: Outcome, removed: bool)
      requires Valid()
      modifies this`clock, this`disk
      ensures Reports(Sign(r))
      ensures Valid() && (old(Sound()) && !old(Risky(disk, journal)) ==> Sound())
      ensures r in {Done, Mismatch, IoFailed, Halted, Unrecoverable}
      ensures r.Unrecoverable? <==> !Covered(old(disk.visible))
      ensures if r.Unrecoverable? then disk == old(disk) else Covered(disk.visible)
      ensures r.Done? ==> Gone()
      ensures r.Done? ==> removed == (old(disk.visible.tombstone).Some? || Recovered(old(disk.visible)).final.Some?)
      ensures r.Mismatch? ==>
        !matches && !disk.visible.marker && disk.visible.final.Some?
        && disk.visible.final == Recovered(old(disk.visible)).final
      ensures !matches ==> Recovered(disk.visible).final == Recovered(old(disk.visible)).final
      ensures !matches && r.Done? ==> Recovered(old(disk.visible)).final.None?
      ensures old(Gone()) ==> Gone()
    {
      removed := false;
      if Covered(disk.visible) { RecoveredIsSafe(disk.visible); }
      r := Reconcile(None);
      if !r.Done? { return; }
      r, removed := DeleteSettled(matches);
    }

    /** Deletion once no repair is pending: finish an earlier deletion, then make this one. */
    method DeleteSettled(matches: bool) returns (r: Outcome, removed: bool)
      requires Valid() && !disk.visible.marker
      modifies this`clock, this`disk
      ensures Reports(Sign(r))
      ensures Valid() && !disk.visible.marker && (old(Sound()) ==> Sound())
      ensures r in {Done, Mismatch, IoFailed, Halted}
      ensures r.Done? ==> Gone() && removed == (old(disk.visible.tombstone).Some? || old(disk.visible.final).Some?)
      ensures r.Mismatch? ==> !matches && disk.visible.final.Some? && disk.visible.final == old(disk.visible.final)
      ensures !matches ==> disk.visible.final == old(disk.visible.final) && (r.Done? ==> old(disk.visible.final).None?)
      ensures r.Mismatch? ==> disk.visible.tombstone.None?
      ensures old(Gone()) ==> Gone()
    {
      removed := false;
      SyncNarrows(disk, Transactions, journal);
      var io := Sync(Transactions);
      if !io.Fine? { return Ending(io), false; }
      if disk.visible.tombstone.Some? {
        removed := true;
        io := RemoveTombstone();
        if !io.Fine? { return Ending(io), removed; }
      }
      if disk.visible.final.None? { return Done, removed; }
      if !matches { return Mismatch, removed; }
      io := RemoveModel();
      if !io.Fine? { return Ending(io), removed; }
      r, removed := Done, true;
    }

    /** Move the installed tree to the tombstone and remove that. */
    method RemoveModel() returns (io: Io)
      requires Valid() && !disk.visible.marker && disk.visible.final.Some? && disk.visible.tombstone.None?
      modifies this`clock, this`disk
      ensures Reports(io)
      ensures Valid() && !disk.visible.marker && (old(Sound()) ==> Sound())
      ensures io.Fine? ==> Gone()
    {
      io := DurableRename(Entomb, None);
      if !io.Fine? { return; }
      io := RemoveTombstone();
    }
  }

  lemma {:induction false} IsolationAndRemoval(i: Image)
    requires i.marker && i.final.Some? && i.staging.None?
    ensures var a := Apply(Isolate, i);
      && Trees(a) == Trees(i) && Trees(Apply(RemoveMarker, a)) == Trees(i)
      && a.tombstone == i.tombstone && Rank(a) <= Rank(i) && Rank(Apply(RemoveMarker, a)) == 0
  {}
}
