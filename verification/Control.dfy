/**
  Execution controls: a request's cancellation and deadline, and the composite that keeps a
  native batch alive while any of its members can still use the result.
 */
module Control {
  import opened EmbeddingCore

  datatype Control =
    | Single(token: nat, deadline: Option<nat>)
    | Composite(members: seq<Control>)

  /** What a check can observe: the clock and the cancelled tokens. Both only ever move forward. */
  datatype Moment = Moment(now: nat, cancelled: set<nat>)

  predicate NoEarlier(a: Moment, b: Moment) {
    a.now <= b.now && a.cancelled <= b.cancelled
  }

  predicate Expired(c: Control, m: Moment)
    requires c.Single?
  {
    c.deadline.Some? && m.now >= c.deadline.value
  }

  /** `CancellationToken::is_cancelled` of the control's token. */
  predicate TokenCancelled(c: Control, m: Moment)
    decreases c, 0
  {
    match c
    case Single(t, _) => t in m.cancelled
    case Composite(ms) => forall k :: 0 <= k < |ms| ==> Check(ms[k], m).Some?
  }

  /** `ensure_active`: the error that stops the control, if any. */
  function Check(c: Control, m: Moment): Option<ErrorCode>
    decreases c, 1
  {
    match c
    case Single(_, _) =>
      if TokenCancelled(c, m) then Some(Cancelled)
      else if Expired(c, m) then Some(DeadlineExceeded)
      else None
    case Composite(ms) =>
      if exists k :: 0 <= k < |ms| && Check(ms[k], m).None? then None
      else if exists k :: 0 <= k < |ms| && TokenCancelled(ms[k], m) then Some(Cancelled)
      else Some(DeadlineExceeded)
  }

  /** The requests under a control, however deeply composed. */
  function Leaves(c: Control): set<Control> {
    match c
    case Single(_, _) => {c}
    case Composite(ms) => set k, x | 0 <= k < |ms| && x in Leaves(ms[k]) :: x
  }

  lemma {:induction false} LeavesAreSingle(c: Control)
    ensures forall x :: x in Leaves(c) ==> x.Single?
  {
    if c.Composite? {
      forall k | 0 <= k < |c.members| ensures forall x :: x in Leaves(c.members[k]) ==> x.Single? {
        LeavesAreSingle(c.members[k]);
      }
    }
  }

  /** A control is active exactly while some request under it is neither cancelled nor expired. */
  lemma {:induction false} ActiveIffSomeRequestIs(c: Control, m: Moment)
    ensures Check(c, m).None? <==> exists x :: x in Leaves(c) && Check(x, m).None?
  {
    if c.Composite? {
      forall k | 0 <= k < |c.members|
        ensures Check(c.members[k], m).None? <==> exists x :: x in Leaves(c.members[k]) && Check(x, m).None?
      {
        ActiveIffSomeRequestIs(c.members[k], m);
      }
      if Check(c, m).None? {
        var k :| 0 <= k < |c.members| && Check(c.members[k], m).None?;
        var x :| x in Leaves(c.members[k]) && Check(x, m).None?;
        assert x in Leaves(c);
      }
    } else {
      assert c in Leaves(c);
    }
  }

  /** Once stopped, stopped for good; and once stopped by cancellation, always reported so. */
  lemma {:induction false} NeverActiveAgain(c: Control, a: Moment, b: Moment)
    requires NoEarlier(a, b) && Check(c, a).Some?
    ensures Check(c, b).Some?
    ensures Check(c, a) == Some(Cancelled) ==> Check(c, b) == Some(Cancelled)
  {
    LeavesAreSingle(c);
    ActiveIffSomeRequestIs(c, a);
    ActiveIffSomeRequestIs(c, b);
    forall x | x in Leaves(c) ensures Check(x, b).Some? {
      assert Check(x, a).Some?;
    }
    if c.Composite? {
      NestedCode(c, a);
      NestedCode(c, b);
    }
  }

  predicate Flat(c: Control) {
    c.Composite? && forall k :: 0 <= k < |c.members| ==> c.members[k].Single?
  }

  /** A stopped batch of requests reports cancellation exactly when one of them was cancelled. */
  lemma {:induction false} FlatCode(c: Control, m: Moment)
    requires Flat(c) && Check(c, m).Some?
    ensures Check(c, m) == Some(Cancelled) <==> exists k :: 0 <= k < |c.members| && c.members[k].token in m.cancelled
    ensures Check(c, m) == Some(Cancelled) || Check(c, m) == Some(DeadlineExceeded)
  {}

  /** The order in which members were collected changes nothing. */
  lemma {:induction false} OrderIsIrrelevant(a: seq<Control>, b: seq<Control>, m: Moment)
    requires forall x :: x in a <==> x in b
    ensures Check(Composite(a), m) == Check(Composite(b), m)
  {
    var ca, cb := Composite(a), Composite(b);
    MembersDecide(a, m);
    MembersDecide(b, m);
  }

  lemma {:induction false} MembersDecide(a: seq<Control>, m: Moment)
    ensures Check(Composite(a), m) ==
      if exists x :: x in a && Check(x, m).None? then None
      else if exists x :: x in a && TokenCancelled(x, m) then Some(Cancelled)
      else Some(DeadlineExceeded)
  {}

  /**
    Two levels would break the code: a stopped composite reports cancellation exactly when some
    request among its direct members was cancelled or one of them is itself a composite.
   */
  lemma {:induction false} NestedCode(c: Control, m: Moment)
    requires c.Composite? && Check(c, m).Some?
    ensures Check(c, m) == Some(Cancelled) <==>
      exists k :: 0 <= k < |c.members| && (c.members[k].Composite? || c.members[k].token in m.cancelled)
  {}

  /** A composite's token counts as cancelled exactly when the composite has stopped. */
  lemma {:induction false} CompositeTokenAgrees(c: Control, m: Moment)
    requires c.Composite?
    ensures TokenCancelled(c, m) <==> Check(c, m).Some?
  {}

  lemma {:induction false} NestedDeadlineReadsAsCancelled() returns (c: Control, m: Moment)
    ensures m.cancelled == {} && Check(c, m) == Some(Cancelled)
    ensures forall x :: x in Leaves(c) ==> Check(x, m) == Some(DeadlineExceeded)
  {
    var request := Single(0, Some(5));
    var inner := Composite([request]);
    c := Composite([inner]);
    m := Moment(5, {});
    assert Check(inner.members[0], m).Some?;
    assert Check(c.members[0], m).Some?;
    assert c.members[0].Composite?;
    NestedCode(c, m);
    assert inner.members[0] == request && Leaves(request) == {request};
    assert forall x :: x in Leaves(inner) ==> x == request;
    assert c.members[0] == inner;
    assert forall x :: x in Leaves(c) ==> x in Leaves(inner);
  }

  // ----- The check while time passes and callers cancel -----

  predicate Aging(seen: seq<Moment>) {
    forall i, j :: 0 <= i <= j < |seen| ==> NoEarlier(seen[i], seen[j])
  }

  /**
    The source's two passes over the members, each reading at a later moment than the last.
    Success means some member was active during the check; failure that none is any more at its
    end; and the code is `Cancelled` only if a member is cancelled by then.
   */
  method EnsureActive(members: seq<Control>, seen: seq<Moment>) returns (r: Option<ErrorCode>)
    requires |seen| == 2 * |members| + 1 && Aging(seen)
    ensures r.None? ==> exists k :: 0 <= k < |members| && Check(members[k], seen[k]).None?
    ensures r.Some? ==> Check(Composite(members), seen[2 * |members|]).Some?
    ensures r == Some(Cancelled) ==> Check(Composite(members), seen[2 * |members|]) == Some(Cancelled)
    ensures (forall i :: 0 <= i < |seen| ==> seen[i] == seen[0]) ==> r == Check(Composite(members), seen[0])
  {
    var n := |members|;
    ghost var c, last := Composite(members), seen[2 * n];
    for i := 0 to n
      invariant forall k :: 0 <= k < i ==> Check(members[k], seen[k]).Some?
    {
      if Check(members[i], seen[i]).None? {
        assert c.members[i] == members[i];
        return None;
      }
    }
    forall k | 0 <= k < n ensures Check(c.members[k], last).Some? {
      NeverActiveAgain(members[k], seen[k], last);
    }
    for i := 0 to n
      invariant forall k :: 0 <= k < i ==> !TokenCancelled(members[k], seen[n + k])
    {
      if TokenCancelled(members[i], seen[n + i]) {
        TokenStaysCancelled(members[i], seen[n + i], last);
        assert TokenCancelled(c.members[i], last);
        return Some(Cancelled);
      }
    }
    r := Some(DeadlineExceeded);
  }

  lemma {:induction false} TokenStaysCancelled(c: Control, a: Moment, b: Moment)
    requires NoEarlier(a, b) && TokenCancelled(c, a)
    ensures TokenCancelled(c, b)
  {
    if c.Composite? {
      CompositeTokenAgrees(c, a);
      NeverActiveAgain(c, a, b);
      CompositeTokenAgrees(c, b);
    }
  }
}
