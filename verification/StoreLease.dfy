/**
  Who may touch an installed model: participants share one lock file per identity, taken shared
  by loaded models and exclusively by installers, importers, deletions and recoveries. Every
  read, lock attempt and change is a step of its own, and a participant may stop at any of them.
 */
module StoreLease {
  import opened EmbeddingCore

  /** An installed directory: its stored manifest and, per artifact, the digest of its bytes. */
  datatype Directory = Directory(manifest: nat, digests: map<nat, nat>)

  datatype Files = Files(marker: bool, final: Option<Directory>)

  /** The requested manifest: its identity, its artifacts' digests, and whether it is trusted. */
  datatype Wanted = Wanted(manifest: nat, digests: seq<nat>, trusted: bool)

  predicate Matches(w: Wanted, d: Directory, k: nat)
    requires k < |w.digests|
  {
    k in d.digests && d.digests[k] == w.digests[k]
  }

  /** The complete check of `status_inner`, as of one moment. */
  predicate Loadable(w: Wanted, final: Option<Directory>) {
    && final.Some? && final.value.manifest == w.manifest && w.trusted
    && forall k :: 0 <= k < |w.digests| ==> Matches(w, final.value, k)
  }

  datatype Local =
    | Idle
    | Looking              // top of the `verified_model` loop
    | WantRepair           // saw a marker without a lock
    | Repairing            // exclusive, in `reconcile_repair`
    | WantShared
    | Sharing              // shared, about to look for the marker again
    | Opening              // shared, about to read the stored manifest
    | Verifying(next: nat) // shared, artifacts below `next` verified
    | Leased(handles: nat, checked: Directory)
    | Writing              // exclusive: install, import or delete

  datatype State = State(files: Files, exclusive: Option<nat>, shared: set<nat>, locals: map<nat, Local>)

  function LocalOf(s: State, p: nat): Local {
    if p in s.locals then s.locals[p] else Idle
  }

  datatype Action =
    | Start
    | Look
    | LockForRepair
    | Change(files: Files)
    | FinishRepair
    | LockShared
    | LookAgain
    | ReadManifest
    | VerifyArtifact
    | CloneHandle
    | DropHandle
    | LockForWriting
    | FinishWriting
    | Abandon             // an error, a timeout, or the process dying

  predicate Enabled(w: Wanted, s: State, p: nat, a: Action) {
    var l := LocalOf(s, p);
    match a
    case Start => l.Idle?
    case Look => l.Looking?
    case LockForRepair => l.WantRepair? && s.exclusive.None? && s.shared == {}
    case Change(_) => l.Repairing? || l.Writing?
    case FinishRepair => l.Repairing?
    case LockShared => l.WantShared? && s.exclusive.None?
    case LookAgain => l.Sharing?
    case ReadManifest => l.Opening?
    case VerifyArtifact => l.Verifying?
    case CloneHandle => l.Leased?
    case DropHandle => l.Leased?
    case LockForWriting => l.Idle? && s.exclusive.None? && s.shared == {}
    case FinishWriting => l.Writing?
    case Abandon => true
  }

  function Goto(s: State, p: nat, l: Local): State {
    s.(locals := s.locals[p := l])
  }

  /** Give up whatever lock is held and move on. */
  function Release(s: State, p: nat, l: Local): State {
    Goto(s, p, l).(exclusive := if s.exclusive == Some(p) then None else s.exclusive, shared := s.shared - {p})
  }

  function After(w: Wanted, s: State, p: nat, a: Action): State
    requires Enabled(w, s, p, a)
  {
    var l := LocalOf(s, p);
    match a
    case Start => Goto(s, p, Looking)
    case Look => Goto(s, p, if s.files.marker then WantRepair else WantShared)
    case LockForRepair => Goto(s, p, Repairing).(exclusive := Some(p))
    case Change(files) => s.(files := files)
    case FinishRepair => Release(s, p, WantShared)
    case LockShared => Goto(s, p, Sharing).(shared := s.shared + {p})
    case LookAgain => if s.files.marker then Release(s, p, Looking) else Goto(s, p, Opening)
    case ReadManifest =>
      if s.files.final.Some? && s.files.final.value.manifest == w.manifest then Goto(s, p, Verifying(0))
      else Release(s, p, Idle)
    case VerifyArtifact =>
      if l.next < |w.digests| then
        if s.files.final.Some? && Matches(w, s.files.final.value, l.next) then Goto(s, p, Verifying(l.next + 1))
        else Release(s, p, Idle)
      else if w.trusted && s.files.final.Some? then Goto(s, p, Leased(1, s.files.final.value))
      else Release(s, p, Idle)
    case CloneHandle => Goto(s, p, Leased(l.handles + 1, l.checked))
    case DropHandle => if l.handles > 1 then Goto(s, p, Leased(l.handles - 1, l.checked)) else Release(s, p, Idle)
    case LockForWriting => Goto(s, p, Writing).(exclusive := Some(p))
    case FinishWriting => Release(s, p, Idle)
    case Abandon => Release(s, p, Idle)
  }

  /** A schedule: who tries which action; an action that is not possible then does nothing. */
  type Schedule = seq<(nat, Action)>

  function Next(w: Wanted, s: State, e: (nat, Action)): State {
    if Enabled(w, s, e.0, e.1) then After(w, s, e.0, e.1) else s
  }

  function Run(w: Wanted, s: State, t: Schedule): State
    decreases |t|
  {
    if t == [] then s else Next(w, Run(w, s, t[..|t| - 1]), t[|t| - 1])
  }

  function Initial(files: Files): State {
    State(files, None, {}, map[])
  }

  // ----- Safety -----

  predicate Shares(l: Local) {
    l.Sharing? || l.Opening? || l.Verifying? || l.Leased?
  }

  predicate Owns(l: Local) {
    l.Repairing? || l.Writing?
  }

  /** What a participant knows about the files as they are now. */
  predicate Knows(w: Wanted, files: Files, l: Local) {
    match l
    case Opening => !files.marker
    case Verifying(next) =>
      && !files.marker && files.final.Some? && files.final.value.manifest == w.manifest
      && forall k :: 0 <= k < next && k < |w.digests| ==> Matches(w, files.final.value, k)
    case Leased(handles, checked) =>
      handles > 0 && !files.marker && files.final == Some(checked) && Loadable(w, files.final)
    case _ => true
  }

  ghost predicate Inv(w: Wanted, s: State) {
    && (s.exclusive.Some? ==> s.shared == {})
    && (forall p: nat :: Shares(LocalOf(s, p)) <==> p in s.shared)
    && (forall p: nat :: Owns(LocalOf(s, p)) <==> s.exclusive == Some(p))
    && (forall p: nat :: Knows(w, s.files, LocalOf(s, p)))
  }

  lemma {:induction false} StepKeepsInv(w: Wanted, s: State, p: nat, a: Action)
    requires Inv(w, s) && Enabled(w, s, p, a)
    ensures Inv(w, After(w, s, p, a))
  {
    var t := After(w, s, p, a);
    forall q: nat ensures Knows(w, t.files, LocalOf(t, q)) {
      if a.Change? {
        assert Owns(LocalOf(s, p)) && !Shares(LocalOf(s, q));
      } else {
        assert Knows(w, s.files, LocalOf(s, q)) && Knows(w, s.files, LocalOf(s, p));
      }
    }
    forall q: nat ensures Shares(LocalOf(t, q)) <==> q in t.shared {
      assert Shares(LocalOf(s, q)) <==> q in s.shared;
    }
    forall q: nat ensures Owns(LocalOf(t, q)) <==> t.exclusive == Some(q) {
      assert Owns(LocalOf(s, q)) <==> s.exclusive == Some(q);
      assert Owns(LocalOf(s, p)) <==> s.exclusive == Some(p);
    }
    assert Shares(LocalOf(s, p)) <==> p in s.shared;
  }

  lemma {:induction false} RunKeepsInv(w: Wanted, s: State, t: Schedule)
    requires Inv(w, s)
    ensures Inv(w, Run(w, s, t))
    decreases |t|
  {
    if t != [] {
      RunKeepsInv(w, s, t[..|t| - 1]);
      var e := t[|t| - 1];
      if Enabled(w, Run(w, s, t[..|t| - 1]), e.0, e.1) {
        StepKeepsInv(w, Run(w, s, t[..|t| - 1]), e.0, e.1);
      }
    }
  }

  /**
    In every interleaving, while a verified model is alive there is no repair marker, the
    directory is the one that was checked and it passes the complete check, nobody holds the
    lock exclusively, and nobody can take it that way.
   */
  lemma {:induction false} LeaseIsSafe(w: Wanted, files: Files, t: Schedule, p: nat, q: nat, change: Files)
    requires LocalOf(Run(w, Initial(files), t), p).Leased?
    ensures var s := Run(w, Initial(files), t);
      && !s.files.marker && s.files.final == Some(LocalOf(s, p).checked) && Loadable(w, s.files.final)
      && s.exclusive.None?
      && !Enabled(w, s, q, LockForRepair) && !Enabled(w, s, q, LockForWriting) && !Enabled(w, s, q, Change(change))
  {
    RunKeepsInv(w, Initial(files), t);
    var s := Run(w, Initial(files), t);
    assert Knows(w, s.files, LocalOf(s, p));
    assert Shares(LocalOf(s, p)) && p in s.shared;
    assert Owns(LocalOf(s, q)) <==> s.exclusive == Some(q);
  }

  /** Handles `p` made minus handles it dropped. */
  function Balance(t: Schedule, p: nat): int {
    if t == [] then 0
    else
      var e := t[|t| - 1];
      Balance(t[..|t| - 1], p)
      + (if e == (p, CloneHandle) then 1 else if e == (p, DropHandle) then -1 else 0)
  }

  /** Nothing any participant does moves the files while some handle of the lease is left. */
  lemma {:induction false} LeasePinsTheFiles(w: Wanted, s: State, t: Schedule, p: nat)
    requires Inv(w, s) && LocalOf(s, p).Leased?
    requires forall i :: 0 <= i < |t| && t[i].0 == p ==> t[i].1.CloneHandle? || t[i].1.DropHandle?
    requires forall i :: 0 <= i <= |t| ==> LocalOf(s, p).handles + Balance(t[..i], p) > 0
    ensures Run(w, s, t).files == s.files
    ensures LocalOf(Run(w, s, t), p) == Leased(LocalOf(s, p).handles + Balance(t, p), LocalOf(s, p).checked)
    decreases |t|
  {
    assert t[..|t|] == t;
    if t != [] {
      var before := t[..|t| - 1];
      assert forall i :: 0 <= i < |before| ==> before[i] == t[i];
      assert forall i :: 0 <= i <= |before| ==> before[..i] == t[..i];
      LeasePinsTheFiles(w, s, before, p);
      RunKeepsInv(w, s, before);
      var m := Run(w, s, before);
      var e := t[|t| - 1];
      assert Shares(LocalOf(m, p)) && p in m.shared;
      assert Owns(LocalOf(m, e.0)) <==> m.exclusive == Some(e.0);
    }
  }

  /** Dropping the last handle gives the lock back, and the participant can start over. */
  lemma {:induction false} LastHandleReleases(w: Wanted, s: State, p: nat)
    requires Inv(w, s) && LocalOf(s, p).Leased? && LocalOf(s, p).handles == 1
    ensures var t := Next(w, s, (p, DropHandle));
      && t.files == s.files && t.shared == s.shared - {p} && Enabled(w, t, p, Start)
      && (s.shared == {p} ==> Enabled(w, t, p, LockForWriting))
  {
    assert Shares(LocalOf(s, p)) && p in s.shared;
  }

  /** No participant waits for the exclusive lock while holding the lock shared. */
  lemma {:induction false} NeverBlocksOnItself(w: Wanted, files: Files, t: Schedule, p: nat)
    ensures var s := Run(w, Initial(files), t);
      LocalOf(s, p).WantRepair? || LocalOf(s, p).WantShared? ==> p !in s.shared && s.exclusive != Some(p)
  {
    RunKeepsInv(w, Initial(files), t);
    var s := Run(w, Initial(files), t);
    assert Shares(LocalOf(s, p)) <==> p in s.shared;
    assert Owns(LocalOf(s, p)) <==> s.exclusive == Some(p);
  }

  // ----- A lone caller gets a lease exactly when the model is loadable -----

  function Checks(p: nat, n: nat): Schedule {
    seq(n, _ => (p, VerifyArtifact))
  }

  lemma {:induction false} ChecksDecide(w: Wanted, s: State, p: nat, k: nat, n: nat)
    requires k <= |w.digests| && n == |w.digests| - k + 1
    requires s.files.final.Some? && LocalOf(s, p) == Verifying(k)
    ensures LocalOf(Run(w, s, Checks(p, n)), p) ==
      if w.trusted && (forall i :: k <= i < |w.digests| ==> Matches(w, s.files.final.value, i))
      then Leased(1, s.files.final.value) else Idle
    decreases n
  {
    var e := (p, VerifyArtifact);
    var s' := Next(w, s, e);
    RunFirst(w, s, e, Checks(p, n - 1));
    assert Checks(p, n) == [e] + Checks(p, n - 1);
    if k < |w.digests| && Matches(w, s.files.final.value, k) {
      ChecksDecide(w, s', p, k + 1, n - 1);
    } else {
      IdleStays(w, s', p, n - 1);
    }
  }

  lemma {:induction false} RunFirst(w: Wanted, s: State, e: (nat, Action), t: Schedule)
    ensures Run(w, s, [e] + t) == Run(w, Next(w, s, e), t)
    decreases |t|
  {
    var all := [e] + t;
    if t == [] {
      assert all == [e] && all[..0] == [];
      assert Run(w, s, []) == s;
    } else {
      assert all[..|all| - 1] == [e] + t[..|t| - 1];
      RunFirst(w, s, e, t[..|t| - 1]);
    }
  }

  lemma {:induction false} IdleStays(w: Wanted, s: State, p: nat, n: nat)
    requires !LocalOf(s, p).Verifying?
    ensures Run(w, s, Checks(p, n)) == s
  {
    if n > 0 {
      assert Checks(p, n)[..n - 1] == Checks(p, n - 1);
      IdleStays(w, s, p, n - 1);
    }
  }

  /** From the shared lock on: the files decide. */
  lemma {:induction false} LoneShared(w: Wanted, s: State, p: nat)
    requires s.exclusive.None? && LocalOf(s, p).WantShared? && !s.files.marker
    ensures var verify := [(p, LockShared), (p, LookAgain), (p, ReadManifest)] + Checks(p, |w.digests| + 1);
      LocalOf(Run(w, s, verify), p).Leased? <==> Loadable(w, s.files.final)
  {
    var n := |w.digests| + 1;
    var c := Checks(p, n);
    var s2 := Next(w, s, (p, LockShared));
    var s3 := Next(w, s2, (p, LookAgain));
    var s4 := Next(w, s3, (p, ReadManifest));
    RunFirst(w, s3, (p, ReadManifest), c);
    RunFirst(w, s2, (p, LookAgain), [(p, ReadManifest)] + c);
    RunFirst(w, s, (p, LockShared), [(p, LookAgain)] + ([(p, ReadManifest)] + c));
    assert [(p, LockShared), (p, LookAgain), (p, ReadManifest)] + c
        == [(p, LockShared)] + ([(p, LookAgain)] + ([(p, ReadManifest)] + c));
    if s.files.final.Some? && s.files.final.value.manifest == w.manifest {
      ChecksDecide(w, s4, p, 0, n);
    } else {
      IdleStays(w, s4, p, n);
    }
  }

  lemma {:induction false} LoneVerification(w: Wanted, s: State, p: nat)
    requires s.exclusive.None? && LocalOf(s, p).Looking? && !s.files.marker
    ensures var verify := [(p, LockShared), (p, LookAgain), (p, ReadManifest)] + Checks(p, |w.digests| + 1);
      LocalOf(Run(w, s, [(p, Look)] + verify), p).Leased? <==> Loadable(w, s.files.final)
  {
    var verify := [(p, LockShared), (p, LookAgain), (p, ReadManifest)] + Checks(p, |w.digests| + 1);
    RunFirst(w, s, (p, Look), verify);
    LoneShared(w, Next(w, s, (p, Look)), p);
  }

  /** A lone caller that finds a marker repairs first, and is leased exactly if the repaired model is loadable. */
  lemma {:induction false} LoneRepair(w: Wanted, s: State, p: nat, repaired: Files)
    requires s.exclusive.None? && s.shared == {} && LocalOf(s, p).Looking? && s.files.marker && !repaired.marker
    ensures var repair := [(p, Look), (p, LockForRepair), (p, Change(repaired)), (p, FinishRepair)];
      var verify := [(p, LockShared), (p, LookAgain), (p, ReadManifest)] + Checks(p, |w.digests| + 1);
      LocalOf(Run(w, s, repair + verify), p).Leased? <==> Loadable(w, repaired.final)
  {
    var repair := [(p, Look), (p, LockForRepair), (p, Change(repaired)), (p, FinishRepair)];
    var verify := [(p, LockShared), (p, LookAgain), (p, ReadManifest)] + Checks(p, |w.digests| + 1);
    var s1 := Next(w, s, (p, Look));
    var s2 := Next(w, s1, (p, LockForRepair));
    var s3 := Next(w, s2, (p, Change(repaired)));
    var s4 := Next(w, s3, (p, FinishRepair));
    RunFirst(w, s3, (p, FinishRepair), verify);
    RunFirst(w, s2, (p, Change(repaired)), [(p, FinishRepair)] + verify);
    RunFirst(w, s1, (p, LockForRepair), [(p, Change(repaired))] + ([(p, FinishRepair)] + verify));
    RunFirst(w, s, (p, Look), [(p, LockForRepair)] + ([(p, Change(repaired))] + ([(p, FinishRepair)] + verify)));
    assert repair + verify
        == [(p, Look)] + ([(p, LockForRepair)] + ([(p, Change(repaired))] + ([(p, FinishRepair)] + verify)));
    LoneShared(w, s4, p);
  }
}
