/**
  What the adapter computes, in terms of the tokenizer and the session alone: which positions each
  pooling reads, and the whole result of a call for one text.
 */
module AdapterMeaning {
  import opened EmbeddingCore
  import opened Scheduling
  import opened Batching
  import opened OnnxAdapter

  // ----- Pooling -----

  /** How many of the first `n` positions are masked in. */
  function Count(masks: seq<int>, n: nat): nat
    requires n <= |masks|
  {
    if n == 0 then 0 else Count(masks, n - 1) + if masks[n - 1] != 0 then 1 else 0
  }

  /** The sum of component `d` over the first `n` positions that are masked in. */
  function Total(cells: seq<Vector>, masks: seq<int>, d: nat, n: nat): Scalar
    requires n <= |cells| == |masks| && forall i :: 0 <= i < |cells| ==> d < |cells[i]|
  {
    if n == 0 then Finite(0.0)
    else if masks[n - 1] != 0 then Add(Total(cells, masks, d, n - 1), cells[n - 1][d])
    else Total(cells, masks, d, n - 1)
  }

  lemma {:induction false} CountPrefix(masks: seq<int>, n: nat, k: nat)
    requires k <= n <= |masks|
    ensures Count(masks[..n], k) == Count(masks, k)
    decreases k
  {
    if k > 0 { CountPrefix(masks, n, k - 1); }
  }

  lemma {:induction false} PositionsCount(masks: seq<int>)
    ensures |Positions(masks)| == Count(masks, |masks|)
  {
    if masks != [] {
      PositionsCount(masks[..|masks| - 1]);
      CountPrefix(masks, |masks| - 1, |masks| - 1);
    }
  }

  lemma {:induction false} PositionsAll(masks: seq<int>, p: nat)
    ensures p in Positions(masks) <==> p < |masks| && masks[p] != 0
  {
    if masks != [] { PositionsAll(masks[..|masks| - 1], p); }
  }

  lemma {:induction false} PositionsAscend(masks: seq<int>, i: nat, j: nat)
    requires i < j < |Positions(masks)|
    ensures Positions(masks)[i] < Positions(masks)[j]
  {
    var n := |masks| - 1;
    if j < |Positions(masks[..n])| {
      PositionsAscend(masks[..n], i, j);
    } else {
      assert Positions(masks)[i] == Positions(masks[..n])[i];
    }
  }

  lemma {:induction false} TotalPrefix(cells: seq<Vector>, masks: seq<int>, d: nat, n: nat, k: nat)
    requires k <= n <= |cells| == |masks| && forall i :: 0 <= i < |cells| ==> d < |cells[i]|
    ensures Total(cells[..n], masks[..n], d, k) == Total(cells, masks, d, k)
    decreases k
  {
    if k > 0 { TotalPrefix(cells, masks, d, n, k - 1); }
  }

  lemma {:induction false} SumIsTotal(cells: seq<Vector>, masks: seq<int>, d: nat)
    requires |cells| == |masks| && forall i :: 0 <= i < |cells| ==> d < |cells[i]|
    ensures SumAt(cells, Positions(masks), d) == Total(cells, masks, d, |cells|)
    decreases |cells|
  {
    if cells != [] {
      var n := |cells| - 1;
      SumIsTotal(cells[..n], masks[..n], d);
      TotalPrefix(cells, masks, d, n, n);
      assert cells == cells[..n] + [cells[n]];
      PaddedSum(cells[..n], [cells[n]], Positions(masks[..n]), d);
      if masks[n] != 0 {
        assert Positions(masks)[..|Positions(masks)| - 1] == Positions(masks[..n]);
      }
    }
  }

  /** Position `k` is the first one masked in. */
  ghost predicate IsFirst(masks: seq<int>, k: nat) {
    k < |masks| && masks[k] != 0 && forall i :: 0 <= i < k ==> masks[i] == 0
  }

  /** Position `k` is the last one masked in. */
  ghost predicate IsLast(masks: seq<int>, k: nat) {
    k < |masks| && masks[k] != 0 && forall i :: k < i < |masks| ==> masks[i] == 0
  }

  /**
    Each pooling reads what it is named after: the first masked-in position, the last one, or the
    mean over all of them. It fails exactly if there is none.
   */
  lemma {:induction false} PoolExact(cells: seq<Vector>, masks: seq<int>, pooling: Pooling, hidden: nat)
    requires |cells| == |masks| && Rectangular(cells, hidden)
    ensures var r := Pool(cells, masks, pooling, hidden);
      && (r.Err? <==> forall i :: 0 <= i < |masks| ==> masks[i] == 0)
      && (r.Ok? && pooling.Cls? ==> exists k: nat :: IsFirst(masks, k) && r.value == cells[k])
      && (r.Ok? && pooling.LastToken? ==> exists k: nat :: IsLast(masks, k) && r.value == cells[k])
  {
    var ps := Positions(masks);
    if ps != [] {
      FirstAndLast(masks);
    } else {
      forall i | 0 <= i < |masks| ensures masks[i] == 0 { PositionsAll(masks, i); }
    }
  }

  lemma {:induction false} FirstAndLast(masks: seq<int>)
    requires Positions(masks) != []
    ensures var ps := Positions(masks); IsFirst(masks, ps[0]) && IsLast(masks, ps[|ps| - 1])
  {
    var ps := Positions(masks);
    forall i: nat | i < |masks| && masks[i] != 0 ensures ps[0] <= i <= ps[|ps| - 1] {
      PositionsAll(masks, i);
      var k :| 0 <= k < |ps| && ps[k] == i;
      if k > 0 { PositionsAscend(masks, 0, k); }
      if k < |ps| - 1 { PositionsAscend(masks, k, |ps| - 1); }
    }
  }

  lemma {:induction false} MeanExact(cells: seq<Vector>, masks: seq<int>, hidden: nat, d: nat)
    requires |cells| == |masks| && Rectangular(cells, hidden) && d < hidden && Pool(cells, masks, Mean, hidden).Ok?
    ensures var v := Pool(cells, masks, Mean, hidden).value;
      && |v| == hidden && Count(masks, |masks|) > 0
      && match Total(cells, masks, d, |cells|)
         case Finite(total) => v[d] == Finite(total / (Count(masks, |masks|) as real))
         case NonFinite => v[d] == NonFinite
  {
    PositionsCount(masks);
    SumIsTotal(cells, masks, d);
  }

  // ----- One text -----

  function Ids(e: Encoding): seq<int> {
    seq(|e|, c requires 0 <= c < |e| => e[c].id)
  }

  function Kinds(e: Encoding): seq<int> {
    seq(|e|, c requires 0 <= c < |e| => e[c].kind)
  }

  /** The tensors of a call for one text are its own encoding, without padding. */
  lemma {:induction false} LonePack(e: Encoding, pad: int)
    requires e != []
    ensures Width([e]) == |e| && Pack([e], pad) == Tensor(1, |e|, Ids(e), Masks(e), Kinds(e))
  {
    assert [e][..0] == [];
    assert Longest1([e]) == Max(Longest1([]), Max(|e|, 1));
    WidthCovers([e]);
    assert PadRows([e], |e|, pad, (t: Token) => t.id) == Ids(e);
    assert PadRows([e], |e|, 0, (t: Token) => t.mask) == Masks(e);
    assert PadRows([e], |e|, 0, (t: Token) => t.kind) == Kinds(e);
  }

  /** The text as the tokenizer sees it: the prefix of its task, exactly once. */
  ghost predicate Prepared(m: Loaded, text: string, task: EmbeddingTask, prepared: string) {
    var prefix := match task case Query => m.queryPrefix case Document => m.documentPrefix;
    prepared == if |prefix| <= |text| && text[..|prefix|] == prefix then text else prefix + text
  }

  /** `v` is the session's answer for the one row of a call, pooled if it is given per token. */
  ghost predicate Answered(a: Adapter, e: Encoding, v: Vector) {
    match a.session(Tensor(1, |e|, Ids(e), Masks(e), Kinds(e)))
    case None => false
    case Some(Sentences(rows)) => rows == [v] && |v| == a.model.native
    case Some(PerToken(rows)) =>
      && |rows| == 1 && |rows[0]| == |e| && Rectangular(rows[0], a.model.native)
      && Pool(rows[0], Masks(e), a.model.pooling, a.model.native) == Ok(v)
  }

  /** `w` is what the caller gets for `v`: cut to the dimensions asked for, and only then normalized. */
  ghost predicate Finished(a: Adapter, options: EmbedOptions, v: Vector, w: Vector) {
    var d := if options.dimensions.Some? then options.dimensions.value else |v|;
    && d <= |v| && (forall i :: 0 <= i < |v| ==> v[i].Finite?)
    && (if options.normalize == Some(true) || (options.normalize.None? && a.model.normalizes)
        then a.normalizer(v[..d]) == Ok(w) else w == v[..d])
  }

  lemma {:induction false} FinishedIsFinish(a: Adapter, options: EmbedOptions, v: Vector, w: Vector)
    requires Finished(a, options, v, w)
    ensures Finish(a.model, a.normalizer, v, options) == Ok(w)
  {
    assert v[..|v|] == v;
  }

  lemma {:induction false} LoneShape(a: Adapter, e: Encoding, raw: Raw, v: Vector)
    requires a.session(Tensor(1, |e|, Ids(e), Masks(e), Kinds(e))) == Some(raw) && Answered(a, e, v)
    ensures ShapeOk(raw, 1, |e|, a.model.native)
  {}

  lemma {:induction false} LoneRow(a: Adapter, e: Encoding, raw: Raw, options: EmbedOptions, v: Vector, w: Vector)
    requires e != [] && Width([e]) == |e| && ShapeOk(raw, 1, |e|, a.model.native) && Finished(a, options, v, w)
    requires a.session(Tensor(1, |e|, Ids(e), Masks(e), Kinds(e))) == Some(raw) && Answered(a, e, v)
    ensures RowVector(a.model, a.normalizer, raw, [e], 0, options) == Ok(w)
  {
    FinishedIsFinish(a, options, v, w);
    if raw.PerToken? { LoneMask(e); }
  }

  lemma {:induction false} LoneMask(e: Encoding)
    requires e != []
    ensures Width([e]) == |e| && PadRow(e, Width([e]), 0, (t: Token) => t.mask) == Masks(e)
  {
    LonePack(e, 0);
  }

  lemma {:induction false} LoneRun(a: Adapter, e: Encoding, options: EmbedOptions, v: Vector, w: Vector)
    requires e != [] && |e| <= USIZE_MAX && Answered(a, e, v) && Finished(a, options, v, w)
    ensures Run(a, [e], options) == Ok([w])
  {
    LonePack(e, a.model.padTokenId);
    var raw := a.session(Tensor(1, |e|, Ids(e), Masks(e), Kinds(e))).value;
    LoneShape(a, e, raw, v);
    LoneRow(a, e, raw, options, v, w);
    assert |[e]| * Width([e]) == |e|;
    assert Run(a, [e], options).Ok?;
    assert Run(a, [e], options).value == [w];
  }

  /**
    A call for one text from end to end: prefix, tokenizer, tensors, session, pooling, truncation
    and normalization, with its real token count as usage.
   */
  lemma {:induction false} OneText(a: Adapter, text: string, prepared: string, e: Encoding, options: EmbedOptions,
          v: Vector, w: Vector)
    requires Prepared(a.model, text, options.task, prepared) && a.model.tokenizer(prepared, options.truncation) == Ok(e)
    requires 0 < |e| <= a.model.maxTokens && |e| <= U64_MAX && |e| <= USIZE_MAX
    requires options.dimensions.Some? && options.dimensions.value != a.model.native ==>
      options.dimensions.value in a.model.matryoshka
    requires Answered(a, e, v) && Finished(a, options, v, w)
    ensures Embed(a, [text], options) == Returned(Ok(Output([w], a.model.identity, [|e|], |e|)))
  {
    assert ApplyPrefix(text, Prefix(a.model, options.task)) == prepared;
    assert Encode(a.model, text, options) == Ok(e);
    assert Encodings(a.model, [text], options) == [e];
    assert Lengths([e]) == [|e|] && Sum([|e|]) == |e| + Sum([|e|][1..]);
    LoneRun(a, e, options, v, w);
  }

  /** A text that cannot be tokenized, or is longer than the model allows, is refused before any inference. */
  lemma {:induction false} OneTextRefused(a: Adapter, text: string, prepared: string, options: EmbedOptions)
    requires Prepared(a.model, text, options.task, prepared)
    requires match a.model.tokenizer(prepared, options.truncation)
      case Err(_) => true
      case Ok(e) => |e| > a.model.maxTokens
    ensures Embed(a, [text], options) == Returned(Err(InvalidRequest))
  {
    assert ApplyPrefix(text, Prefix(a.model, options.task)) == prepared;
    assert Encode(a.model, [text][0], options).Err?;
  }
}
