/**
  One install transaction racing forced shutdown: the three-state commit gate, the spawned
  installer task, the caller waiting for it, and the shutdown task. Every atomic operation is a
  step of its own.
 */
module InstallGate {
  import opened EmbeddingCore

  datatype Gate = Open | Shut | Crossed

  datatype Decision = CancelledBeforeCommit | AlreadyCommitted

  function AfterCancel(g: Gate): Gate {
    if g.Crossed? then Crossed else Shut
  }

  function Decide(g: Gate): Decision {
    if g.Crossed? then AlreadyCommitted else CancelledBeforeCommit
  }

  /** `InstallCommitGate`: one atomic cell. */
  class CommitGate {
    var state: Gate

    constructor ()
      ensures state.Open?
    {
      state := Open;
    }

    /** Atomically cancel before commit, or report that the commit owns the transaction. */
    method RequestCancel() returns (d: Decision)
      modifies this
      ensures state == AfterCancel(old(state)) && d == Decide(old(state))
      ensures !state.Open? && (d.AlreadyCommitted? <==> state.Crossed?) && (old(state).Crossed? <==> state.Crossed?)
    {
      if state == Open { state := Shut; return CancelledBeforeCommit; }
      d := if state == Shut then CancelledBeforeCommit else AlreadyCommitted;
    }

    /** Enter the durable phase; at most one call ever succeeds, and none after a cancellation. */
    method BeginCommit() returns (entered: bool)
      modifies this
      ensures entered == old(state).Open? && state == if entered then Crossed else old(state)
    {
      entered := state == Open;
      if entered { state := Crossed; }
    }
  }

  datatype Outcome = Installed | Failed | ShuttingDown

  /** `install_transaction`, by what it has still to do. */
  datatype Task =
    | Unspawned
    | Working                        // status, locks, downloads; may stop or be aborted here
    | Committing                     // past the gate, before `promote`
    | Ending(outcome: Outcome)       // result known, not yet sent
    | Finished
    | Aborted

  datatype Caller =
    | Starting                       // subscribed, about to look at the force-stop flag
    | Waiting
    | Bound                          // told that the commit owns the transaction
    | Returned(outcome: Outcome)
    | Gone                           // future dropped

  datatype State = State(
    gate: Gate,
    task: Task,
    caller: Caller,
    cancelRequested: bool,           // the cooperative token
    abortRequested: bool,
    force: bool,
    mailbox: Option<Outcome>,
    promotions: nat)

  function Initial(): State {
    State(Open, Unspawned, Starting, false, false, false, None, 0)
  }

  datatype Action =
    | CallerStarts
    | CallerReceives
    | CallerSeesForce
    | CallerDrops
    | TaskStops(outcome: Outcome)    // already installed, an error, or the cancellation observed
    | TaskCommits
    | TaskPromotes(success: bool)
    | TaskSends
    | TaskIsAborted
    | ShutdownCancels                // `cancel_before_commit` on the registered install
    | ShutdownForces

  predicate Enabled(s: State, a: Action) {
    match a
    case CallerStarts => s.caller.Starting?
    case CallerReceives => (s.caller.Waiting? || s.caller.Bound?) && (s.mailbox.Some? || s.task.Aborted?)
    case CallerSeesForce => s.caller.Waiting? && s.mailbox.None? && s.force
    case CallerDrops => s.caller.Waiting? || s.caller.Bound? || s.caller.Starting?
    case TaskStops(outcome) =>
      s.task.Working? && outcome != ShuttingDown && (outcome == Installed ==> s.promotions == 0)
    case TaskCommits => s.task.Working?
    case TaskPromotes(_) => s.task.Committing?
    case TaskSends => s.task.Ending?
    case TaskIsAborted => s.abortRequested && (s.task.Working? || s.task.Ending?)
    case ShutdownCancels => !s.task.Finished? && !s.task.Aborted?
    case ShutdownForces => true
  }

  /** `InstallControl::cancel_before_commit`. */
  function CancelBeforeCommit(s: State): State {
    s.(gate := AfterCancel(s.gate), cancelRequested := s.cancelRequested || Decide(s.gate).CancelledBeforeCommit?)
  }

  /** `InstallCallerGuard::cancel_before_commit`: the same, and abort the installer if that won. */
  function CallerCancels(s: State): State {
    CancelBeforeCommit(s).(abortRequested := s.abortRequested || Decide(s.gate).CancelledBeforeCommit?)
  }

  function After(s: State, a: Action): State
    requires Enabled(s, a)
  {
    match a
    case CallerStarts =>
      if s.force then CancelBeforeCommit(s).(caller := Returned(ShuttingDown))
      else s.(caller := Waiting, task := Working)
    case CallerReceives => s.(caller := Returned(if s.mailbox.Some? then s.mailbox.value else Failed))
    case CallerSeesForce =>
      CallerCancels(s).(caller := if Decide(s.gate).CancelledBeforeCommit? then Returned(ShuttingDown) else Bound)
    case CallerDrops => if s.caller.Starting? then s.(caller := Gone) else CallerCancels(s).(caller := Gone)
    case TaskStops(outcome) => s.(task := Ending(outcome))
    case TaskCommits => if s.gate.Open? then s.(gate := Crossed, task := Committing) else s.(task := Ending(Failed))
    case TaskPromotes(success) =>
      s.(promotions := s.promotions + 1, task := Ending(if success then Installed else Failed))
    case TaskSends => s.(mailbox := Some(s.task.outcome), task := Finished)
    case TaskIsAborted => s.(task := Aborted)
    case ShutdownCancels => CancelBeforeCommit(s)
    case ShutdownForces => s.(force := true)
  }

  /** One transaction from state `s` under a schedule; impossible actions do nothing. */
  function Run(s: State, actions: seq<Action>): State
    decreases |actions|
  {
    if actions == [] then s
    else
      var m := Run(s, actions[..|actions| - 1]);
      if Enabled(m, actions[|actions| - 1]) then After(m, actions[|actions| - 1]) else m
  }

  predicate Inv(s: State) {
    && (s.promotions > 0 || s.task.Committing? ==> s.gate.Crossed?)
    && (s.gate.Crossed? ==> !s.abortRequested && !s.task.Unspawned? && !s.task.Working? && !s.task.Aborted?)
    && (s.promotions <= 1 && (s.task.Committing? ==> s.promotions == 0))
    && (s.caller == Returned(ShuttingDown) ==> s.gate.Shut?)
    && (s.caller.Starting? ==> s.task.Unspawned? && !s.abortRequested)
    && (s.task.Unspawned? ==> s.caller.Starting? || s.caller.Gone? || s.caller == Returned(ShuttingDown))
    && (s.caller.Bound? ==> s.gate.Crossed?)
    && (s.task.Aborted? ==> s.gate.Shut?)
    && (s.abortRequested ==> s.gate.Shut?)
    && (s.mailbox.Some? <==> s.task.Finished?)
    && (s.mailbox.Some? ==> s.mailbox.value != ShuttingDown)
    && (s.task.Ending? ==> s.task.outcome != ShuttingDown)
    && (s.caller.Returned? && s.caller.outcome != ShuttingDown ==> s.mailbox == Some(s.caller.outcome))
    && (s.caller.Waiting? ==> !s.task.Aborted? && !s.abortRequested)
    && (s.cancelRequested <==> s.gate.Shut?)
    && ((s.caller.Gone? || s.caller == Returned(ShuttingDown)) && !s.task.Unspawned? ==>
          s.gate.Crossed? || (s.gate.Shut? && s.abortRequested))
  }

  lemma {:induction false} StepKeepsInv(s: State, a: Action)
    requires Inv(s) && Enabled(s, a)
    ensures Inv(After(s, a))
  {}

  lemma {:induction false} RunKeepsInv(s: State, actions: seq<Action>)
    requires Inv(s)
    ensures Inv(Run(s, actions))
    decreases |actions|
  {
    if actions != [] {
      RunKeepsInv(s, actions[..|actions| - 1]);
      var m := Run(s, actions[..|actions| - 1]);
      if Enabled(m, actions[|actions| - 1]) {
        StepKeepsInv(m, actions[|actions| - 1]);
      }
    }
  }

  /** Once the gate is shut it stays shut, and nothing is promoted from then on. */
  lemma {:induction false} ShutIsForever(s: State, more: seq<Action>)
    requires Inv(s) && s.gate.Shut?
    ensures Run(s, more).gate.Shut? && Run(s, more).promotions == 0
    decreases |more|
  {
    RunKeepsInv(s, more);
    if more != [] {
      ShutIsForever(s, more[..|more| - 1]);
    }
  }

  /**
    A caller told that the runtime is shutting down can trust it: nothing was or will be promoted,
    and the installer, if it ever ran, has been told to stop.
   */
  lemma {:induction false} ShuttingDownIsTruthful(before: seq<Action>, more: seq<Action>)
    requires Run(Initial(), before).caller == Returned(ShuttingDown)
    ensures Run(Run(Initial(), before), more).promotions == 0
    ensures var s := Run(Initial(), before); s.cancelRequested && (s.task.Unspawned? || s.abortRequested)
  {
    RunKeepsInv(Initial(), before);
    ShutIsForever(Run(Initial(), before), more);
  }

  /** A caller that goes away stops its installer, unless the commit already owns the transaction. */
  lemma {:induction false} LeavingStopsTheInstaller(before: seq<Action>, more: seq<Action>)
    requires Run(Initial(), before).caller.Gone? && !Run(Initial(), before).task.Unspawned?
    ensures var s := Run(Initial(), before);
      s.gate.Crossed? || (s.cancelRequested && s.abortRequested && Run(s, more).promotions == 0)
  {
    RunKeepsInv(Initial(), before);
    if !Run(Initial(), before).gate.Crossed? { ShutIsForever(Run(Initial(), before), more); }
  }

  /** No installer is started once shutdown is forced. */
  lemma {:induction false} NothingStartsAfterForce(s: State, more: seq<Action>)
    requires Inv(s) && s.force && s.task.Unspawned?
    ensures Run(s, more).force && Run(s, more).task.Unspawned?
    decreases |more|
  {
    if more != [] {
      NothingStartsAfterForce(s, more[..|more| - 1]);
      RunKeepsInv(s, more[..|more| - 1]);
    }
  }

  /** Once crossed: nobody aborts the installer, in any continuation, and it promotes at most once. */
  lemma {:induction false} CrossedRunsToItsEnd(before: seq<Action>, more: seq<Action>)
    requires Run(Initial(), before).gate.Crossed?
    ensures var s := Run(Run(Initial(), before), more);
      && s.gate.Crossed? && !s.abortRequested && !s.task.Aborted? && s.promotions <= 1
      && s.caller != Returned(ShuttingDown)
  {
    RunKeepsInv(Initial(), before);
    var s := Run(Initial(), before);
    RunKeepsInv(s, more);
    CrossedIsForever(s, more);
  }

  lemma {:induction false} CrossedIsForever(s: State, more: seq<Action>)
    requires Inv(s) && s.gate.Crossed?
    ensures Run(s, more).gate.Crossed?
    decreases |more|
  {
    if more != [] {
      CrossedIsForever(s, more[..|more| - 1]);
    }
  }

  /** The actions of a schedule that were possible when their turn came. */
  function Performed(s: State, actions: seq<Action>): seq<Action>
    decreases |actions|
  {
    if actions == [] then []
    else
      var before, last := actions[..|actions| - 1], actions[|actions| - 1];
      Performed(s, before) + (if Enabled(Run(s, before), last) then [last] else [])
  }

  /** The installer found or made the model durable. */
  predicate MadeIt(done: seq<Action>) {
    TaskPromotes(true) in done || TaskStops(Installed) in done
  }

  /** The installer's work ended, one way or the other. */
  predicate Ended(done: seq<Action>) {
    || TaskPromotes(true) in done || TaskPromotes(false) in done
    || TaskStops(Installed) in done || TaskStops(Failed) in done
  }

  /** What the installer reports is what it did. */
  predicate Faithful(s: State, done: seq<Action>) {
    && (s.task.Unspawned? || s.task.Working? || s.task.Committing? ==> !Ended(done))
    && (s.task.Ending? ==> (s.task.outcome == Installed <==> MadeIt(done)))
    && (s.mailbox.Some? ==> (s.mailbox.value == Installed <==> MadeIt(done)))
    && !(TaskPromotes(true) in done && TaskPromotes(false) in done)
    && (s.promotions > 0 <==> TaskPromotes(true) in done || TaskPromotes(false) in done)
    && (s.promotions > 0 ==> TaskStops(Installed) !in done)
    && (ShutdownCancels in done ==> !s.gate.Open?) && (s.force <==> ShutdownForces in done)
  }

  lemma {:induction false} StaysFaithful(s: State, done: seq<Action>, a: Action)
    requires Inv(s) && Enabled(s, a) && Faithful(s, done)
    ensures Faithful(After(s, a), done + [a])
  {
    assert forall x :: x in done + [a] <==> x in done || x == a;
  }

  lemma {:induction false} RunIsFaithful(actions: seq<Action>)
    ensures Faithful(Run(Initial(), actions), Performed(Initial(), actions))
    decreases |actions|
  {
    if actions != [] {
      var before, last := actions[..|actions| - 1], actions[|actions| - 1];
      RunIsFaithful(before);
      RunKeepsInv(Initial(), before);
      if Enabled(Run(Initial(), before), last) {
        StaysFaithful(Run(Initial(), before), Performed(Initial(), before), last);
      } else {
        assert Performed(Initial(), actions) == Performed(Initial(), before);
      }
    }
  }

  /** Once shutdown has asked, an installation that had not crossed the gate never promotes anything. */
  lemma {:induction false} ShutdownStopsUncommitted(before: seq<Action>, more: seq<Action>)
    requires ShutdownCancels in Performed(Initial(), before)
    ensures Run(Initial(), before).gate.Crossed? || Run(Run(Initial(), before), more).promotions == 0
  {
    RunIsFaithful(before);
    RunKeepsInv(Initial(), before);
    if !Run(Initial(), before).gate.Crossed? { ShutIsForever(Run(Initial(), before), more); }
  }

  /**
    A caller that returns anything else returns exactly what the installer reported: success
    exactly if the installer promoted the model or found it installed, and after a promotion
    exactly if that promotion succeeded.
   */
  lemma {:induction false} CallerHearsTheInstaller(actions: seq<Action>)
    requires Run(Initial(), actions).caller.Returned?
    ensures var s, done := Run(Initial(), actions), Performed(Initial(), actions);
      s.caller.outcome == ShuttingDown
      || (&& s.task.Finished? && s.mailbox == Some(s.caller.outcome)
          && (s.caller.outcome == Installed <==> MadeIt(done))
          && (s.promotions > 0 ==> (s.caller.outcome == Installed <==> TaskPromotes(true) in done)))
  {
    RunKeepsInv(Initial(), actions);
    RunIsFaithful(actions);
  }

  /** A waiting or bound caller is never stranded: once the installer is done it has a result to receive. */
  lemma {:induction false} NoCallerIsStranded(actions: seq<Action>)
    requires var s := Run(Initial(), actions); s.caller.Waiting? || s.caller.Bound?
    ensures var s := Run(Initial(), actions);
      && s.task != Unspawned && s.task != Aborted
      && (s.task.Finished? ==> s.mailbox.Some? && Enabled(s, CallerReceives))
  {
    RunKeepsInv(Initial(), actions);
  }

  // ----- Size limits, checked before anything is fetched -----

  datatype SizeCheck = Fits | TooManyArtifacts | OverLimit(expected: nat, actual: nat) | Overflow

  /**
    `validate_install_size`, adding 64-bit sizes one by one. It accepts exactly the manifests
    within all three limits, and names the first limit that is broken.
   */
  method ValidateInstallSize(sizes: seq<nat>, maxArtifacts: nat, maxEach: nat, maxTotal: nat) returns (r: SizeCheck)
    requires maxTotal <= U64_MAX
    ensures r.Fits? <==>
      |sizes| <= maxArtifacts && (forall i :: 0 <= i < |sizes| ==> sizes[i] <= maxEach) && Sum(sizes) <= maxTotal
    ensures r.TooManyArtifacts? <==> |sizes| > maxArtifacts
    ensures r.OverLimit? ==> r.actual > r.expected
    ensures r.OverLimit? ==>
      (r.expected == maxEach && r.actual in sizes) || (r.expected == maxTotal && r.actual == Sum(sizes))
    ensures r.Overflow? ==> Sum(sizes) > U64_MAX
  {
    if |sizes| > maxArtifacts { return TooManyArtifacts; }
    var total := 0;
    for i := 0 to |sizes|
      invariant total == Sum(sizes[..i]) <= U64_MAX
      invariant forall k :: 0 <= k < i ==> sizes[k] <= maxEach
    {
      if sizes[i] > maxEach { return OverLimit(maxEach, sizes[i]); }
      SumPrefix(sizes, i);
      if total + sizes[i] > U64_MAX { return Overflow; }
      total := total + sizes[i];
    }
    assert sizes[..|sizes|] == sizes;
    r := if total > maxTotal then OverLimit(maxTotal, total) else Fits;
  }

  lemma {:induction false} SumPrefix(s: seq<nat>, i: nat)
    requires i < |s|
    ensures Sum(s[..i + 1]) == Sum(s[..i]) + s[i] <= Sum(s)
  {
    assert s[..i + 1] == s[..i] + [s[i]];
    SumConcat(s[..i], [s[i]]);
    assert Sum([s[i]]) == s[i] + Sum([s[i]][1..]);
    assert s == s[..i + 1] + s[i + 1..];
    SumConcat(s[..i + 1], s[i + 1..]);
  }
}
