/**
  The part of the filesystem one model identity lives in, with visible and durable state kept
  apart. A disk is the image programs see plus every image a machine crash could leave behind.
  Renames are atomic; an unsynced change to a directory may be lost, but changes to the same
  directory survive in order.
 */
module Durability {
  import opened EmbeddingCore

  /** A directory tree, by identity; `complete` once every staged file has been written. */
  datatype Tree = Tree(id: nat, complete: bool)

  datatype Image = Image(
    marker: bool,
    final: Option<Tree>,
    staging: Option<Tree>,
    backup: Option<Tree>,
    tombstone: Option<Tree>,
    quarantine: set<Tree>)

  datatype Dir = Models | Staging | StagedTree | Transactions | Quarantine

  /** Whether one sync flushes the whole history so far or only the directory it names. */
  datatype Journal = Ordered | PerDirectory

  datatype Disk = Disk(visible: Image, possible: set<Image>)

  predicate SameEntry(a: Option<Tree>, b: Option<Tree>) {
    a.Some? == b.Some? && (a.Some? ==> a.value.id == b.value.id)
  }

  predicate AgreeOn(d: Dir, a: Image, b: Image) {
    match d
    case Models => SameEntry(a.final, b.final)
    case Staging => SameEntry(a.staging, b.staging)
    case StagedTree => a.staging == b.staging
    case Transactions => a.marker == b.marker && SameEntry(a.backup, b.backup) && SameEntry(a.tombstone, b.tombstone)
    case Quarantine => a.quarantine == b.quarantine
  }

  /** The atomic changes the store makes. */
  datatype Op =
    | CreateMarker
    | RemoveMarker
    | Displace       // final -> backup
    | Promote        // staging -> final
    | Restore        // backup -> final
    | Isolate        // backup -> quarantine
    | Entomb         // final -> tombstone
    | ClearTombstone
    | CreateStaging(id: nat)
    | FillStaging
    | SpoilStaging
    | ClearStaging

  function Apply(op: Op, i: Image): Image {
    match op
    case CreateMarker => i.(marker := true)
    case RemoveMarker => i.(marker := false)
    case Displace => i.(final := None, backup := i.final)
    case Promote => i.(staging := None, final := i.staging)
    case Restore => i.(backup := None, final := i.backup)
    case Isolate =>
      if i.backup.Some? then i.(backup := None, quarantine := i.quarantine + {i.backup.value}) else i
    case Entomb => i.(final := None, tombstone := i.final)
    case ClearTombstone => i.(tombstone := None)
    case CreateStaging(id) => if i.staging.None? then i.(staging := Some(Tree(id, false))) else i
    case FillStaging => if i.staging.Some? then i.(staging := Some(Tree(i.staging.value.id, true))) else i
    case SpoilStaging => if i.staging.Some? then i.(staging := Some(Tree(i.staging.value.id, false))) else i
    case ClearStaging => i.(staging := None)
  }

  /** The directory a rename takes its entry from; for other changes, the one directory touched. */
  function From(op: Op): Dir {
    match op
    case CreateMarker => Transactions
    case RemoveMarker => Transactions
    case Displace => Models
    case Promote => Staging
    case Restore => Transactions
    case Isolate => Transactions
    case Entomb => Models
    case ClearTombstone => Transactions
    case CreateStaging(_) => Staging
    case FillStaging => Staging
    case SpoilStaging => Staging
    case ClearStaging => Staging
  }

  function To(op: Op): Dir {
    match op
    case Displace => Transactions
    case Promote => Models
    case Restore => Models
    case Isolate => Quarantine
    case Entomb => Transactions
    case _ => From(op)
  }

  predicate IsRename(op: Op) {
    op.Displace? || op.Promote? || op.Restore? || op.Isolate? || op.Entomb?
  }

  /** A rename needs its source and, onto a non-empty directory, fails. */
  predicate RenameEnabled(op: Op, i: Image) {
    match op
    case Displace => i.final.Some? && i.backup.None?
    case Promote => i.staging.Some? && i.final.None?
    case Restore => i.backup.Some? && i.final.None?
    case Isolate => i.backup.Some?
    case Entomb => i.final.Some? && i.tombstone.None?
    case _ => false
  }

  /** Possible durable images to which a change can reach the disk. */
  function Movers(d: Disk, op: Op, j: Journal): set<Image> {
    if j.Ordered? then {d.visible}
    else set s | s in d.possible && AgreeOn(From(op), s, d.visible) && AgreeOn(To(op), s, d.visible)
  }

  function Mutated(d: Disk, op: Op, j: Journal): Disk {
    Disk(Apply(op, d.visible), d.possible + set s | s in Movers(d, op, j) :: Apply(op, s))
  }

  function Synced(d: Disk, dir: Dir, j: Journal): Disk {
    Disk(d.visible,
         if j.Ordered? then {d.visible}
         else set s | s in d.possible && AgreeOn(dir, s, d.visible))
  }

  /** Both parents of a rename made durable, as `durable_rename` does before and after. */
  function Settled(d: Disk, op: Op, j: Journal): Disk {
    Synced(Synced(d, From(op), j), To(op), j)
  }

  ghost predicate Live(d: Disk) {
    d.visible in d.possible
  }

  /** Syncs only ever rule out images; nothing visible changes. */
  ghost predicate Narrowed(a: Disk, b: Disk) {
    b.visible == a.visible && b.possible <= a.possible && Live(b)
  }

  lemma {:induction false} SyncNarrows(d: Disk, dir: Dir, j: Journal)
    requires Live(d)
    ensures Narrowed(d, Synced(d, dir, j))
    ensures forall s :: s in Synced(d, dir, j).possible ==> AgreeOn(dir, s, d.visible)
  {}

  lemma {:induction false} SettledAgrees(d: Disk, op: Op, j: Journal)
    requires Live(d)
    ensures Narrowed(d, Settled(d, op, j))
    ensures forall s :: s in Settled(d, op, j).possible ==>
      AgreeOn(From(op), s, d.visible) && AgreeOn(To(op), s, d.visible)
  {}

  lemma {:induction false} MutatedLive(d: Disk, op: Op, j: Journal)
    requires Live(d)
    ensures Live(Mutated(d, op, j))
    ensures forall s :: s in Mutated(d, op, j).possible ==>
      s in d.possible || exists m :: m in Movers(d, op, j) && s == Apply(op, m)
    ensures forall m :: m in Movers(d, op, j) ==>
      m in d.possible && AgreeOn(From(op), m, d.visible) && AgreeOn(To(op), m, d.visible)
  {}

  // ----- Never a hole -----

  /** A marker always has a model beside it. */
  ghost predicate Covered(i: Image) {
    i.marker ==> i.final.Some? || i.backup.Some?
  }

  /** A backup exists only under a marker, and never beside both other trees. */
  ghost predicate Tidy(i: Image) {
    && (i.marker && i.staging.Some? ==> i.final.None? || i.backup.None?)
    && (!i.marker ==> i.backup.None?)
  }

  ghost predicate HoleFree(i: Image) {
    Covered(i) && Tidy(i)
  }

  /** A deletion that is visible cannot have been forgotten by a disk that knows the same tombstone. */
  ghost predicate NoGhost(d: Disk) {
    !d.visible.marker && d.visible.final.None? ==>
      forall s {:trigger s in d.possible} :: s in d.possible && AgreeOn(Transactions, s, d.visible) ==> s.final.None?
  }

  /** What every disk the store can produce satisfies, even after a recovery at risk. */
  ghost predicate Orderly(d: Disk) {
    Live(d) && (forall s {:trigger s in d.possible} :: s in d.possible ==> Tidy(s)) && NoGhost(d)
  }

  ghost predicate AllCovered(d: Disk) {
    forall s {:trigger s in d.possible} :: s in d.possible ==> Covered(s)
  }

  /** Free of holes, in the visible image and in every image a crash could leave. */
  ghost predicate Inv(d: Disk) {
    Orderly(d) && AllCovered(d)
  }

  lemma {:induction false} NarrowedKeeps(a: Disk, b: Disk)
    requires Orderly(a) && Narrowed(a, b)
    ensures Orderly(b) && (AllCovered(a) ==> AllCovered(b))
  {}

  /** What the code has established, in the visible image and on the disk, before each change. */
  ghost predicate Guard(op: Op, d: Disk, j: Journal) {
    var v := d.visible;
    match op
    case CreateMarker => v.final.Some? && v.backup.None?
    case RemoveMarker => v.final.Some? && v.backup.None?
    case Displace => v.marker && RenameEnabled(op, v)
    case Promote => RenameEnabled(op, v)
    case Restore => v.marker && RenameEnabled(op, v)
    case Isolate => v.marker && RenameEnabled(op, v) && v.final.Some?
    case Entomb => !v.marker && RenameEnabled(op, v) && forall s :: s in d.possible ==> AgreeOn(Transactions, s, v)
    case ClearTombstone => forall s :: s in d.possible ==> AgreeOn(Transactions, s, v)
    case CreateStaging(_) => forall m {:trigger m in Movers(d, op, j)} :: m in Movers(d, op, j) ==> !m.marker
    case _ => true
  }

  /** The images a change can land on still have a model where the change relies on one. */
  ghost predicate Grounded(op: Op, d: Disk, j: Journal) {
    op.CreateMarker? || op.Isolate? ==>
      forall m {:trigger m in Movers(d, op, j)} :: m in Movers(d, op, j) ==> m.final.Some?
  }

  lemma {:induction false} ChangeKeepsOrder(d: Disk, op: Op, j: Journal)
    requires Orderly(d) && Guard(op, d, j)
    ensures Orderly(Mutated(d, op, j))
  {
    MutatedLive(d, op, j);
    forall m | m in Movers(d, op, j) ensures Tidy(Apply(op, m)) {}
  }

  /** A grounded change opens no hole in any possible image. */
  lemma {:induction false} ChangeKeepsCovered(d: Disk, op: Op, j: Journal)
    requires Orderly(d) && AllCovered(d) && Guard(op, d, j) && Grounded(op, d, j)
    ensures AllCovered(Mutated(d, op, j))
  {
    MutatedLive(d, op, j);
    forall m | m in Movers(d, op, j) ensures Covered(Apply(op, m)) {}
  }

  /** The disks from which recovery itself can open a hole. */
  predicate Risky(d: Disk, j: Journal) {
    && d.visible.marker && d.visible.final.Some? && d.visible.backup.Some?
    && exists m {:trigger m in Movers(d, Isolate, j)} :: m in Movers(d, Isolate, j) && m.final.None?
  }

  /** An image that agrees with what is visible about the transaction but has no model left. */
  ghost predicate CanLose(d: Disk) {
    exists s {:trigger s in d.possible} ::
      s in d.possible && AgreeOn(Transactions, s, d.visible) && s.final.None? && s.backup.None?
  }

  /** The syncs before the quarantine rename do not remove the risk. */
  lemma {:induction false} RiskSurvivesSettling(d: Disk, j: Journal)
    requires Live(d)
    ensures Movers(Settled(d, Isolate, j), Isolate, j) == Movers(d, Isolate, j)
  {}

  /**
    The step recovery really makes, syncs included, opens a hole in some image a crash could
    leave exactly if the disk is at risk.
   */
  lemma {:induction false} RiskyExact(d: Disk, j: Journal)
    requires Inv(d) && d.visible.marker && d.visible.final.Some? && d.visible.backup.Some?
    ensures var after := Mutated(Settled(d, Isolate, j), Isolate, j);
      (exists s :: s in after.possible && !HoleFree(s)) <==> Risky(d, j)
  {
    var ready := Settled(d, Isolate, j);
    var after := Mutated(ready, Isolate, j);
    SettledAgrees(d, Isolate, j);
    NarrowedKeeps(d, ready);
    RiskSurvivesSettling(d, j);
    if Risky(d, j) {
      var m :| m in Movers(d, Isolate, j) && m.final.None?;
      assert Apply(Isolate, m) in after.possible && !HoleFree(Apply(Isolate, m));
    } else {
      ChangeKeepsOrder(ready, Isolate, j);
      ChangeKeepsCovered(ready, Isolate, j);
    }
  }

  lemma {:induction false} SyncedModelsNotRisky(d: Disk, j: Journal)
    requires Live(d) && (j.Ordered? || forall s :: s in d.possible ==> AgreeOn(Models, s, d.visible))
    ensures !Risky(d, j)
  {}

  /**
    The gap, concretely: the replacement is renamed into place and not synced, because the process died,
    because the rollback's syncs failed as well, or because a recovery, which has no rollback, made the
    rename and its first sync failed. A recovery in the same boot then isolates the backup. A crash may
    now keep the second rename and lose the first, leaving neither the old model nor the new one
    installed or backed up.
   */
  lemma {:induction false} UnsyncedPromotionCanLoseTheModel() returns (d: Disk, lost: Image)
    ensures Inv(d) && Risky(d, PerDirectory)
    ensures var isolated := Mutated(Settled(d, Isolate, PerDirectory), Isolate, PerDirectory);
      lost in Settled(isolated, Isolate, PerDirectory).possible
    ensures lost.marker && lost.final.None? && lost.backup.None? && !HoleFree(lost)
  {
    var displaced := Image(true, None, Some(Tree(2, true)), Some(Tree(1, true)), None, {});
    var before := Disk(displaced, {displaced});
    d := Mutated(before, Promote, PerDirectory);
    assert displaced in Movers(before, Promote, PerDirectory);
    assert d.visible == Apply(Promote, displaced) && displaced in d.possible;
    forall s | s in d.possible ensures HoleFree(s) {
      MutatedLive(before, Promote, PerDirectory);
    }
    assert displaced in Movers(d, Isolate, PerDirectory);
    var ready := Settled(d, Isolate, PerDirectory);
    assert displaced in ready.possible && displaced in Movers(ready, Isolate, PerDirectory);
    lost := Apply(Isolate, displaced);
    var isolated := Mutated(ready, Isolate, PerDirectory);
    assert lost in isolated.possible;
  }

  // ----- Only complete trees -----

  predicate Complete(t: Option<Tree>) {
    t.Some? ==> t.value.complete
  }

  /** What is installed or backed up is complete, and so is anything recovery would promote. */
  predicate Intact(i: Image) {
    Complete(i.final) && Complete(i.backup) && (i.marker ==> Complete(i.staging))
  }

  ghost predicate StagedWhole(d: Disk) {
    forall s {:trigger s in d.possible} :: s in d.possible ==> Complete(s.staging)
  }

  ghost predicate Whole(d: Disk) {
    && (forall s {:trigger s in d.possible} :: s in d.possible ==> Intact(s))
    && (d.visible.marker ==> StagedWhole(d))
  }

  /** What each change needs so that no incomplete tree can be installed, now or by a recovery. */
  ghost predicate WholeGuard(op: Op, d: Disk) {
    match op
    case CreateMarker => StagedWhole(d)
    case Promote => StagedWhole(d)
    case CreateStaging(_) => forall s {:trigger s in d.possible} :: s in d.possible ==> !s.marker
    case SpoilStaging => forall s {:trigger s in d.possible} :: s in d.possible ==> !s.marker
    case _ => true
  }

  lemma {:induction false} ChangeKeepsWhole(d: Disk, op: Op, j: Journal)
    requires Live(d) && Whole(d) && WholeGuard(op, d)
    ensures Whole(Mutated(d, op, j))
  {
    MutatedLive(d, op, j);
    assert d.visible in d.possible;
    forall m | m in Movers(d, op, j) ensures Intact(Apply(op, m)) {}
  }

  lemma {:induction false} NarrowedIsWhole(a: Disk, b: Disk)
    requires Whole(a) && Narrowed(a, b)
    ensures Whole(b) && (StagedWhole(a) ==> StagedWhole(b))
  {}

  // ----- Recovery on the visible image -----

  /** Remaining work of a recovery. */
  function Rank(i: Image): nat {
    if !i.marker then 0
    else if i.final.Some? then
      (if i.staging.Some? then 4 else if i.backup.Some? then 2 else 1)
    else if i.staging.Some? then 3
    else 2
  }

  /** The changes a recovery may make from an image, whether freshly started or under way. */
  predicate RecoveryStep(op: Op, i: Image) {
    i.marker &&
    match op
    case Displace => RenameEnabled(op, i) && i.staging.Some?
    case Promote => RenameEnabled(op, i) && i.backup.Some?
    case Restore => RenameEnabled(op, i) && i.staging.None?
    case Isolate => RenameEnabled(op, i) && i.final.Some?
    case RemoveMarker => i.final.Some? && i.staging.None? && i.backup.None?
    case _ => false
  }

  /** Each change a recovery makes leaves strictly less to do, so recoveries converge. */
  lemma {:induction false} RecoveryDescends(op: Op, i: Image)
    requires RecoveryStep(op, i) && HoleFree(i)
    ensures Rank(Apply(op, i)) < Rank(i) && HoleFree(Apply(op, i))
  {}

  /** A hole-free image with a marker always offers recovery a next change. */
  lemma {:induction false} RecoveryNeverStuck(i: Image) returns (op: Op)
    requires HoleFree(i) && i.marker
    ensures RecoveryStep(op, i)
  {
    op := if i.final.Some? then (if i.backup.Some? then Isolate else if i.staging.Some? then Displace else RemoveMarker)
          else if i.staging.Some? then Promote else Restore;
  }

  /** Where a completed recovery ends. */
  function Recovered(i: Image): Image {
    if !i.marker then i
    else if i.final.Some? && i.staging.Some? && i.backup.None? then
      Apply(RemoveMarker, Apply(Isolate, Apply(Promote, Apply(Displace, i))))
    else if i.final.Some? then Apply(RemoveMarker, Apply(Isolate, i))
    else if i.staging.Some? then Apply(RemoveMarker, Apply(Isolate, Apply(Promote, i)))
    else Apply(RemoveMarker, Apply(Restore, i))
  }

  function Held(t: Option<Tree>): set<Tree> {
    if t.Some? then {t.value} else {}
  }

  /** Every tree the identity owns outside the tombstone. */
  function Trees(i: Image): set<Tree> {
    Held(i.final) + Held(i.staging) + Held(i.backup) + i.quarantine
  }

  /** No change a recovery makes creates or destroys a tree. */
  lemma {:induction false} RecoveryConserves(op: Op, i: Image)
    requires RecoveryStep(op, i)
    ensures Trees(Apply(op, i)) == Trees(i) && Apply(op, i).tombstone == i.tombstone
  {}

  /** A completed recovery installs a tree, loses none, and prefers the staged replacement. */
  lemma {:induction false} RecoveredIsSafe(i: Image)
    requires HoleFree(i)
    ensures var r := Recovered(i);
      && Trees(r) == Trees(i) && !r.marker && r.backup.None? && r.tombstone == i.tombstone
      && (i.marker ==> r.final.Some?)
      && (i.marker && i.staging.Some? ==> r.final == i.staging && r.staging.None?)
      && (i.marker && i.staging.None? && i.final.None? ==> r.final == i.backup)
  {}

  /** From an intact image recovery ends with a complete tree installed. */
  lemma {:induction false} RecoveredIsIntact(i: Image)
    requires HoleFree(i) && Intact(i)
    ensures Intact(Recovered(i)) && (i.marker ==> Recovered(i).final.Some?)
  {}

  /** Stopping a recovery after any of its changes and starting over ends in the same place. */
  lemma {:induction false} RecoveryConfluent(op: Op, i: Image)
    requires RecoveryStep(op, i) && HoleFree(i)
    ensures Recovered(Apply(op, i)) == Recovered(i)
  {}

  // ----- One replacement, atomically -----

  /** Where a durable image stands in the replacement of `prev` by `next`; 6 means "not in it". */
  function Stage(i: Image, prev: Tree, next: Tree): nat {
    if !i.marker && SameEntry(i.final, Some(prev)) && i.staging == Some(next) && i.backup.None? then 0
    else if i.marker && SameEntry(i.final, Some(prev)) && i.staging == Some(next) && i.backup.None? then 1
    else if i.marker && i.final.None? && i.staging == Some(next) && SameEntry(i.backup, Some(prev)) then 2
    else if i.marker && i.final == Some(next) && i.staging.None? && SameEntry(i.backup, Some(prev)) then 3
    else if i.marker && i.final == Some(next) && i.staging.None? && i.backup.None? && Isolated(i, prev) then 4
    else if !i.marker && i.final == Some(next) && i.staging.None? && i.backup.None? && Isolated(i, prev) then 5
    else 6
  }

  predicate Isolated(i: Image, prev: Tree) {
    exists t :: t in i.quarantine && t.id == prev.id
  }

  /** How far a possible image may be from the visible one. */
  predicate Near(visible: nat, other: nat) {
    other <= visible + 1 && (visible <= other + 1 || (visible == 5 && other == 3))
  }

  /** All possible images are in the transaction, close to the stage that is visible. */
  ghost predicate Replacing(d: Disk, prev: Tree, next: Tree) {
    && prev.id != next.id && next.complete && Live(d)
    && Stage(d.visible, prev, next) <= 5
    && forall s :: s in d.possible ==>
         Stage(s, prev, next) <= 5 && Near(Stage(d.visible, prev, next), Stage(s, prev, next))
  }

  lemma {:induction false} ReplacingNarrows(a: Disk, b: Disk, prev: Tree, next: Tree)
    requires Replacing(a, prev, next) && Narrowed(a, b)
    ensures Replacing(b, prev, next)
  {}

  /** Which change moves a replacement from one stage to the next (or, rolling back, the previous). */
  predicate StageStep(op: Op, k: nat) {
    || (op == CreateMarker && k == 0) || (op == Displace && k == 1) || (op == Promote && k == 2)
    || (op == Isolate && k == 3) || (op == RemoveMarker && k == 4)
    || (op == Restore && k == 2) || (op == RemoveMarker && k == 1)
  }

  function NextStage(op: Op, k: nat): nat
    requires StageStep(op, k)
  {
    if op == Restore || (op == RemoveMarker && k == 1) then k - 1 else k + 1
  }

  lemma {:induction false} StageMoves(op: Op, i: Image, prev: Tree, next: Tree)
    requires prev.id != next.id && StageStep(op, Stage(i, prev, next))
    ensures Stage(Apply(op, i), prev, next) == NextStage(op, Stage(i, prev, next))
  {
    if op == Isolate {
      assert i.backup.value in Apply(op, i).quarantine;
    }
  }

  /** If every image a change can land on is at the visible stage, the replacement stays atomic. */
  lemma {:induction false} ReplacingStep(d: Disk, op: Op, j: Journal, prev: Tree, next: Tree)
    requires Replacing(d, prev, next)
    requires var k := Stage(d.visible, prev, next);
      && StageStep(op, k)
      && (forall m :: m in Movers(d, op, j) ==> Stage(m, prev, next) == k)
      && (forall s :: s in d.possible ==> Near(NextStage(op, k), Stage(s, prev, next)))
    ensures Replacing(Mutated(d, op, j), prev, next)
    ensures Stage(Apply(op, d.visible), prev, next) == NextStage(op, Stage(d.visible, prev, next))
  {
    MutatedLive(d, op, j);
    forall m | m in Movers(d, op, j)
      ensures Stage(Apply(op, m), prev, next) == NextStage(op, Stage(d.visible, prev, next))
    {
      StageMoves(op, m, prev, next);
    }
  }

  /** A completed recovery of a durable image undoes an unstarted replacement or finishes it. */
  lemma {:induction false} RecoveryIsAtomic(i: Image, prev: Tree, next: Tree)
    requires prev.id != next.id && Stage(i, prev, next) <= 5
    ensures Stage(Recovered(i), prev, next) == if Stage(i, prev, next) == 0 then 0 else 5
  {}

  /** Removing the marker lands only on images whose transaction directory already matches. */
  lemma {:induction false} MarkerRemovalKeeps(d: Disk, j: Journal, prev: Tree, next: Tree)
    requires Replacing(d, prev, next)
    requires Stage(d.visible, prev, next) == 4
      || (Stage(d.visible, prev, next) == 1 && forall s :: s in d.possible ==> Stage(s, prev, next) == 1)
    ensures Replacing(Mutated(d, RemoveMarker, j), prev, next)
  {}

  // ----- What a durable rename keeps -----

  /** The facts about the visible image each rename of the store starts from. */
  ghost predicate RenameGuard(op: Op, d: Disk) {
    RenameEnabled(op, d.visible) &&
    match op
    case Displace => d.visible.marker
    case Promote => true
    case Restore => d.visible.marker
    case Isolate => d.visible.marker && d.visible.final.Some?
    case Entomb => !d.visible.marker
    case _ => false
  }

  /** The syncs before a rename are what makes the rename itself safe. */
  lemma {:induction false} RenameKeepsInv(d: Disk, op: Op, j: Journal)
    requires Orderly(d) && RenameGuard(op, d)
    ensures Orderly(Settled(d, op, j)) && Orderly(Mutated(Settled(d, op, j), op, j))
    ensures AllCovered(d) && !(op.Isolate? && Risky(d, j)) ==> AllCovered(Mutated(Settled(d, op, j), op, j))
  {
    SettledAgrees(d, op, j);
    var ready := Settled(d, op, j);
    NarrowedKeeps(d, ready);
    ChangeKeepsOrder(ready, op, j);
    if AllCovered(d) && !(op.Isolate? && Risky(d, j)) {
      RiskSurvivesSettling(d, j);
      ChangeKeepsCovered(ready, op, j);
    }
  }

  /** Quarantining at risk leaves an image without any model, which the closing syncs keep. */
  lemma {:induction false} IsolatingAtRiskCanLose(d: Disk, j: Journal)
    requires Live(d) && Risky(d, j)
    ensures CanLose(Mutated(Settled(d, Isolate, j), Isolate, j))
    ensures Whole(d) ==> CanLose(Settled(Mutated(Settled(d, Isolate, j), Isolate, j), Isolate, j))
  {
    RiskSurvivesSettling(d, j);
    var m :| m in Movers(d, Isolate, j) && m.final.None?;
    var after := Mutated(Settled(d, Isolate, j), Isolate, j);
    var lost := Apply(Isolate, m);
    assert lost in after.possible && AgreeOn(Transactions, lost, after.visible);
    if Whole(d) {
      assert m in d.possible && Intact(m) && Intact(d.visible) && m.backup == d.visible.backup;
      assert lost in Settled(after, Isolate, j).possible;
    }
  }

  /** Taking the marker off and syncing keeps such an image. */
  lemma {:induction false} UnmarkingKeepsLoss(d: Disk, j: Journal)
    requires Live(d) && CanLose(d) && d.visible.final.Some?
    ensures j.PerDirectory? ==> CanLose(Synced(Mutated(d, RemoveMarker, j), Transactions, j))
  {
    var s :| s in d.possible && AgreeOn(Transactions, s, d.visible) && s.final.None? && s.backup.None?;
    if j.PerDirectory? {
      assert s in Movers(d, RemoveMarker, j);
      var lost := Apply(RemoveMarker, s);
      assert lost in Mutated(d, RemoveMarker, j).possible;
      assert lost in Synced(Mutated(d, RemoveMarker, j), Transactions, j).possible;
    }
  }

  lemma {:induction false} RenameKeepsReplacing(d: Disk, op: Op, j: Journal, prev: Tree, next: Tree)
    requires Replacing(d, prev, next) && IsRename(op) && StageStep(op, Stage(d.visible, prev, next))
    requires op == Isolate ==> !Risky(d, j)
    ensures Replacing(Mutated(Settled(d, op, j), op, j), prev, next)
    ensures Stage(Apply(op, d.visible), prev, next) == NextStage(op, Stage(d.visible, prev, next))
  {
    SettledAgrees(d, op, j);
    var ready := Settled(d, op, j);
    ReplacingNarrows(d, ready, prev, next);
    forall s | s in ready.possible ensures Stage(s, prev, next) == Stage(d.visible, prev, next) {
      assert op == Isolate ==> s == d.visible || s in Movers(d, op, j);
    }
    ReplacingStep(ready, op, j, prev, next);
  }

  /** Trees in use carry identities handed out so far. */
  predicate Below(i: Image, n: nat) {
    && (i.final.Some? ==> i.final.value.id < n)
    && (i.staging.Some? ==> i.staging.value.id < n)
    && (i.backup.Some? ==> i.backup.value.id < n)
  }

  ghost predicate Bounded(d: Disk, n: nat) {
    forall s :: s in d.possible ==> Below(s, n)
  }

  lemma {:induction false} ChangeKeepsBounded(d: Disk, op: Op, j: Journal, n: nat)
    requires Live(d) && Bounded(d, n) && (op.CreateStaging? ==> op.id < n)
    ensures Bounded(Mutated(d, op, j), n)
  {}

  // ----- When a promotion is at risk -----

  function SyncedAll(d: Disk, dirs: seq<Dir>, j: Journal): Disk {
    if dirs == [] then d else Synced(SyncedAll(d, dirs[..|dirs| - 1], j), dirs[|dirs| - 1], j)
  }

  /** Directories that tell a promoted replacement from one still staged. */
  predicate Tells(dir: Dir) {
    dir.Models? || dir.Staging? || dir.StagedTree?
  }

  /** Before any telling sync the state before the rename may still be what a crash leaves. */
  lemma {:induction false} UntoldSyncsKeep(d: Disk, w: Image, dirs: seq<Dir>)
    requires w in d.possible && (forall i :: 0 <= i < |dirs| ==> !Tells(dirs[i]))
    requires AgreeOn(Transactions, w, d.visible) && AgreeOn(Quarantine, w, d.visible)
    ensures SyncedAll(d, dirs, PerDirectory).visible == d.visible && w in SyncedAll(d, dirs, PerDirectory).possible
  {
    if dirs != [] {
      UntoldSyncsKeep(d, w, dirs[..|dirs| - 1]);
    }
  }

  /** An image is before or after the promotion, and any telling directory shows which. */
  predicate Promoted(s: Image, next: Tree) {
    (s.final.None? && s.staging == Some(next)) || (s.final.Some? && s.staging.None?)
  }

  lemma {:induction false} ToldSyncsDecide(d: Disk, next: Tree, dirs: seq<Dir>, j: Journal)
    requires Live(d) && d.visible.final.Some? && d.visible.staging.None?
    requires forall s {:trigger s in d.possible} :: s in d.possible ==> Promoted(s, next)
    ensures var e := SyncedAll(d, dirs, j);
      && e.visible == d.visible && Live(e)
      && (forall s {:trigger s in e.possible} :: s in e.possible ==> Promoted(s, next))
      && ((exists i :: 0 <= i < |dirs| && Tells(dirs[i])) ==>
            forall s {:trigger s in e.possible} :: s in e.possible ==> s.final.Some?)
  {
    if dirs != [] {
      ToldSyncsDecide(d, next, dirs[..|dirs| - 1], j);
    }
  }

  /**
    Whether recovery is at risk after the rename that promotes a replacement is something the code
    knows: on a filesystem that persists directories independently, exactly if neither `models` nor
    `staging` has been synced since; with an ordered journal, never.
   */
  lemma {:induction false} PromotionRisk(d: Disk, prev: Tree, next: Tree, dirs: seq<Dir>, j: Journal)
    requires Replacing(d, prev, next) && Stage(d.visible, prev, next) == 2
    ensures var renamed := Mutated(Settled(d, Promote, j), Promote, j);
      Risky(SyncedAll(renamed, dirs, j), j) <==> j.PerDirectory? && forall i :: 0 <= i < |dirs| ==> !Tells(dirs[i])
  {
    var ready := Settled(d, Promote, j);
    var renamed := Mutated(ready, Promote, j);
    SettledAgrees(d, Promote, j);
    MutatedLive(ready, Promote, j);
    forall s | s in ready.possible ensures s.final.None? && s.staging == Some(next) {
      assert Stage(s, prev, next) <= 5;
    }
    ToldSyncsDecide(renamed, next, dirs, j);
    var e := SyncedAll(renamed, dirs, j);
    if j.PerDirectory? && forall i :: 0 <= i < |dirs| ==> !Tells(dirs[i]) {
      UntoldSyncsKeep(renamed, ready.visible, dirs);
      assert ready.visible in Movers(e, Isolate, j);
    }
  }

  // ----- When a staging cleanup is harmful -----

  /** A half-removed staging tree reaches the installed model exactly through a marker. */
  lemma {:induction false} SpoilExact(i: Image)
    requires HoleFree(i) && Intact(i)
    ensures Intact(Recovered(Apply(SpoilStaging, i))) <==> !(i.marker && i.staging.Some?)
  {}
}
