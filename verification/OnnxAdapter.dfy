/**
  The ONNX adapter: prefixing and tokenization, the preflight cost, the padded tensor layout,
  pooling under the attention mask, and the link back to the scheduler's arithmetic. The native
  session and the tokenizer are arbitrary functions.
 */
module OnnxAdapter {
  import opened EmbeddingCore
  import opened Scheduling
  import opened Batching

  datatype Token = Token(id: int, mask: int, kind: int)

  type Encoding = seq<Token>

  type Tokenizer = (string, Truncation) -> Result<Encoding>

  datatype Pooling = Cls | LastToken | Mean

  datatype Loaded = Loaded(
    identity: Identity,
    native: nat,
    matryoshka: seq<nat>,
    maxTokens: nat,
    queryPrefix: string,
    documentPrefix: string,
    padTokenId: int,
    normalizes: bool,
    pooling: Pooling,
    tokenizer: Tokenizer)

  // ----- Tokenization -----

  function Prefix(m: Loaded, task: EmbeddingTask): string {
    if task.Query? then m.queryPrefix else m.documentPrefix
  }

  /** Prepends the task prefix unless the text already carries it. */
  function ApplyPrefix(text: string, prefix: string): (r: string)
    ensures prefix <= r
    ensures prefix <= text ==> r == text
  {
    if prefix <= text then text else prefix + text
  }

  function Encode(m: Loaded, text: string, options: EmbedOptions): Result<Encoding> {
    match m.tokenizer(ApplyPrefix(text, Prefix(m, options.task)), options.truncation)
    case Err(code) => Err(InvalidRequest)
    case Ok(e) => if |e| > m.maxTokens then Err(InvalidRequest) else Ok(e)
  }

  predicate Encodable(m: Loaded, inputs: seq<string>, options: EmbedOptions) {
    forall i :: 0 <= i < |inputs| ==> Encode(m, inputs[i], options).Ok?
  }

  function Encodings(m: Loaded, inputs: seq<string>, options: EmbedOptions): (es: seq<Encoding>)
    requires Encodable(m, inputs, options)
    ensures |es| == |inputs|
  {
    seq(|inputs|, i requires 0 <= i < |inputs| => Encode(m, inputs[i], options).value)
  }

  predicate DimensionsAllowed(m: Loaded, requested: Option<nat>) {
    requested.None? || requested.value == m.native || requested.value in m.matryoshka
  }

  // ----- Cost arithmetic -----

  function Lengths(es: seq<Encoding>): (r: seq<nat>)
    ensures |r| == |es|
  {
    seq(|es|, i requires 0 <= i < |es| => |es[i]|)
  }

  /** The preflight counts an empty encoding as one token. */
  function Billed(es: seq<Encoding>): (r: seq<nat>)
    ensures |r| == |es|
  {
    seq(|es|, i requires 0 <= i < |es| => Max(|es[i]|, 1))
  }

  function Longest1(es: seq<Encoding>): nat {
    if es == [] then 0 else Max(Longest1(es[..|es| - 1]), Max(|es[|es| - 1]|, 1))
  }

  function PreflightCost(es: seq<Encoding>): Cost {
    Cost(|es|, Sum(Billed(es)), Longest1(es))
  }

  /** `preflight_with_options`: the running totals, with every overflow refused. */
  method PreflightWithOptions(m: Loaded, inputs: seq<string>, options: EmbedOptions) returns (r: Result<Cost>)
    requires 0 < m.maxTokens
    ensures r.Ok? <==>
      (&& DimensionsAllowed(m, options.dimensions) && Encodable(m, inputs, options)
       && ValidCost(PreflightCost(Encodings(m, inputs, options))))
    ensures r.Ok? ==> r.value == PreflightCost(Encodings(m, inputs, options))
  {
    if !DimensionsAllowed(m, options.dimensions) { return Err(InvalidRequest); }
    var tokens, longest := 0, 0;
    ghost var es: seq<Encoding> := [];
    for i := 0 to |inputs|
      invariant Encodable(m, inputs[..i], options) && es == Encodings(m, inputs[..i], options)
      invariant tokens == Sum(Billed(es)) && longest == Longest1(es)
    {
      var encoding := Encode(m, inputs[i], options);
      if encoding.Err? { return Err(encoding.code); }
      var length := Max(|encoding.value|, 1);
      if length > m.maxTokens { return Err(InvalidRequest); }
      OneMoreEncoding(es, encoding.value);
      PrefixEncodings(m, inputs, options, i);
      es := es + [encoding.value];
      if tokens + length > USIZE_MAX {
        if Encodable(m, inputs, options) {
          OverflowIsInvalid(m, inputs, options, i + 1);
        }
        return Err(InvalidRequest);
      }
      tokens := tokens + length;
      longest := Max(longest, length);
    }
    assert inputs[..|inputs|] == inputs;
    r := NewCost(|inputs|, tokens, longest);
  }

  lemma {:induction false} PrefixEncodings(m: Loaded, inputs: seq<string>, options: EmbedOptions, i: nat)
    requires i < |inputs| && Encodable(m, inputs[..i], options) && Encode(m, inputs[i], options).Ok?
    ensures Encodable(m, inputs[..i + 1], options)
    ensures Encodings(m, inputs[..i + 1], options)
         == Encodings(m, inputs[..i], options) + [Encode(m, inputs[i], options).value]
  {}

  /** Real tokens never exceed the padded rectangle. */
  lemma {:induction false} BilledWithinPadding(es: seq<Encoding>)
    ensures Sum(Billed(es)) <= |es| * Longest1(es)
  {
    if es != [] {
      var init, last := es[..|es| - 1], es[|es| - 1];
      BilledWithinPadding(init);
      OneMoreEncoding(init, last);
      assert es == init + [last];
      WidenPadding(|init|, Longest1(init), Longest1(es));
    }
  }

  lemma {:induction false} WidenPadding(n: nat, a: nat, b: nat)
    requires a <= b
    ensures n * a + b <= (n + 1) * b
  {
    MulMono(n, n, a, b);
  }

  lemma {:induction false} OverflowIsInvalid(m: Loaded, inputs: seq<string>, options: EmbedOptions, i: nat)
    requires i <= |inputs| && Encodable(m, inputs, options)
    requires Encodable(m, inputs[..i], options) && Sum(Billed(Encodings(m, inputs[..i], options))) > USIZE_MAX
    ensures !ValidCost(PreflightCost(Encodings(m, inputs, options)))
  {
    var part, whole := Encodings(m, inputs[..i], options), Encodings(m, inputs, options);
    assert Billed(whole) == Billed(part) + Billed(whole)[i..];
    SumConcat(Billed(part), Billed(whole)[i..]);
    BilledWithinPadding(whole);
  }

  lemma {:induction false} OneMoreEncoding(es: seq<Encoding>, e: Encoding)
    ensures Sum(Billed(es + [e])) == Sum(Billed(es)) + Max(|e|, 1)
    ensures Sum(Lengths(es + [e])) == Sum(Lengths(es)) + |e|
    ensures Longest1(es + [e]) == Max(Longest1(es), Max(|e|, 1))
  {
    assert Billed(es + [e]) == Billed(es) + [Max(|e|, 1)];
    SumConcat(Billed(es), [Max(|e|, 1)]);
    assert Lengths(es + [e]) == Lengths(es) + [|e|];
    SumConcat(Lengths(es), [|e|]);
    assert (es + [e])[..|es|] == es;
  }

  // ----- The padded tensor -----

  datatype Tensor = Tensor(rows: nat, width: nat, ids: seq<int>, masks: seq<int>, kinds: seq<int>)

  function PadRow(e: Encoding, width: nat, pad: int, field: Token -> int): (r: seq<int>)
    requires |e| <= width
    ensures |r| == width
  {
    seq(width, c requires 0 <= c < width => if c < |e| then field(e[c]) else pad)
  }

  function PadRows(es: seq<Encoding>, width: nat, pad: int, field: Token -> int): (r: seq<int>)
    requires forall i :: 0 <= i < |es| ==> |es[i]| <= width
    ensures |r| == |es| * width
  {
    if es == [] then [] else PadRows(es[..|es| - 1], width, pad, field) + PadRow(es[|es| - 1], width, pad, field)
  }

  function Width(es: seq<Encoding>): (w: nat)
    ensures w >= 1
  {
    Max(Longest1(es), 1)
  }

  lemma {:induction false} WidthCovers(es: seq<Encoding>)
    ensures forall i :: 0 <= i < |es| ==> |es[i]| <= Width(es)
    ensures es != [] ==> Width(es) == Longest1(es)
  {
    if es != [] {
      WidthCovers(es[..|es| - 1]);
    }
  }

  /** The three `[rows, width]` tensors handed to the session. */
  ghost function Pack(es: seq<Encoding>, pad: int): Tensor {
    WidthCovers(es);
    Tensor(|es|, Width(es),
           PadRows(es, Width(es), pad, (t: Token) => t.id),
           PadRows(es, Width(es), 0, (t: Token) => t.mask),
           PadRows(es, Width(es), 0, (t: Token) => t.kind))
  }

  lemma {:induction false} RowBound(row: nat, rows: nat, width: nat)
    requires row < rows
    ensures row * width + width <= rows * width
  {
    MulMono(row + 1, rows, width, width);
    assert (row + 1) * width == row * width + width;
  }

  /** One row copied over a stripe that still holds the fill value. */
  method CopyRow(cells: array<int>, base: nat, width: nat, pad: int, e: Encoding, field: Token -> int)
    requires |e| <= width && base + width <= cells.Length
    requires forall k :: base <= k < base + width ==> cells[k] == pad
    modifies cells
    ensures cells[..] == old(cells[..base]) + PadRow(e, width, pad, field) + old(cells[base + width..])
  {
    for column := 0 to |e|
      invariant forall k :: 0 <= k < base || base + width <= k < cells.Length ==> cells[k] == old(cells[k])
      invariant forall k :: base <= k < base + column ==> cells[k] == field(e[k - base])
      invariant forall k :: base + column <= k < base + width ==> cells[k] == pad
    {
      cells[base + column] := field(e[column]);
    }
  }

  lemma {:induction false} OneMoreRow(es: seq<Encoding>, width: nat, pad: int, field: Token -> int, row: nat)
    requires row < |es| && forall i :: 0 <= i < |es| ==> |es[i]| <= width
    ensures PadRows(es[..row + 1], width, pad, field)
         == PadRows(es[..row], width, pad, field) + PadRow(es[row], width, pad, field)
  {
    assert es[..row + 1][..row] == es[..row];
  }

  /** Fill one of the three tensors row by row. */
  method FillTensor(es: seq<Encoding>, width: nat, pad: int, field: Token -> int) returns (flat: seq<int>)
    requires forall i :: 0 <= i < |es| ==> |es[i]| <= width
    ensures flat == PadRows(es, width, pad, field)
  {
    var cells := new int[|es| * width](_ => pad);
    var base := 0;
    assert es[..0] == [];
    for row := 0 to |es|
      invariant base == row * width <= cells.Length
      invariant cells[..base] == PadRows(es[..row], width, pad, field)
      invariant forall k :: base <= k < cells.Length ==> cells[k] == pad
    {
      RowBound(row, |es|, width);
      OneMoreRow(es, width, pad, field, row);
      ghost var before := cells[..];
      CopyRow(cells, base, width, pad, es[row], field);
      assert before[..base] == PadRows(es[..row], width, pad, field);
      base := base + width;
      assert cells[..][..base] == PadRows(es[..row + 1], width, pad, field);
      forall k | base <= k < cells.Length ensures cells[k] == pad {
        assert cells[k] == cells[..][k] == before[k];
      }
      assert (row + 1) * width == row * width + width;
    }
    assert es[..|es|] == es;
    flat := cells[..];
  }

  /** `run`'s tensor layout: the rectangle is refused only if its cell count overflows. */
  method PackTensors(es: seq<Encoding>, pad: int) returns (r: Option<Tensor>)
    ensures r == if |es| * Width(es) <= USIZE_MAX then Some(Pack(es, pad)) else None
  {
    WidthCovers(es);
    var capacity := CheckedMul(|es|, Width(es));
    if capacity.None? { return None; }
    var ids := FillTensor(es, Width(es), pad, (t: Token) => t.id);
    var masks := FillTensor(es, Width(es), 0, (t: Token) => t.mask);
    var kinds := FillTensor(es, Width(es), 0, (t: Token) => t.kind);
    r := Some(Tensor(|es|, Width(es), ids, masks, kinds));
  }

  /** Reading the tensor back: the stripe of row `r` is that row's encoding, padded. */
  lemma {:induction false} RowOfTensor(es: seq<Encoding>, width: nat, pad: int, field: Token -> int, r: nat)
    requires r < |es| && forall i :: 0 <= i < |es| ==> |es[i]| <= width
    ensures 0 <= r * width <= r * width + width <= |PadRows(es, width, pad, field)|
    ensures PadRows(es, width, pad, field)[r * width..r * width + width] == PadRow(es[r], width, pad, field)
  {
    var n := |es| - 1;
    RowBound(r, |es|, width);
    if r < n {
      RowBound(r, n, width);
      RowOfTensor(es[..n], width, pad, field, r);
    }
  }

  // ----- Pooling -----

  function Positions(masks: seq<int>): (r: seq<nat>)
    ensures forall i :: 0 <= i < |r| ==> r[i] < |masks| && masks[r[i]] != 0
  {
    if masks == [] then []
    else
      var n := |masks| - 1;
      if masks[n] != 0 then Positions(masks[..n]) + [n] else Positions(masks[..n])
  }

  function Add(a: Scalar, b: Scalar): Scalar {
    if a.Finite? && b.Finite? then Finite(a.value + b.value) else NonFinite
  }

  function SumAt(cells: seq<Vector>, positions: seq<nat>, d: nat): Scalar
    requires forall i :: 0 <= i < |positions| ==> positions[i] < |cells| && d < |cells[positions[i]]|
  {
    if positions == [] then Finite(0.0)
    else
      var n := |positions| - 1;
      Add(SumAt(cells, positions[..n], d), cells[positions[n]][d])
  }

  function MeanAt(cells: seq<Vector>, positions: seq<nat>, d: nat): Scalar
    requires positions != []
    requires forall i :: 0 <= i < |positions| ==> positions[i] < |cells| && d < |cells[positions[i]]|
  {
    match SumAt(cells, positions, d)
    case Finite(total) => Finite(total / (|positions| as real))
    case NonFinite => NonFinite
  }

  ghost predicate Rectangular(cells: seq<Vector>, hidden: nat) {
    forall i :: 0 <= i < |cells| ==> |cells[i]| == hidden
  }

  ghost function Pool(cells: seq<Vector>, masks: seq<int>, pooling: Pooling, hidden: nat): Result<Vector>
    requires |cells| == |masks| && Rectangular(cells, hidden)
  {
    var positions := Positions(masks);
    if positions == [] then Err(InferenceFailed)
    else match pooling
      case Cls => Ok(cells[positions[0]])
      case LastToken => Ok(cells[positions[|positions| - 1]])
      case Mean => Ok(seq(hidden, d requires 0 <= d < hidden => MeanAt(cells, positions, d)))
  }

  lemma {:induction false} PaddedPositions(masks: seq<int>, zeros: seq<int>)
    requires forall i :: 0 <= i < |zeros| ==> zeros[i] == 0
    ensures Positions(masks + zeros) == Positions(masks)
  {
    if zeros == [] {
      assert masks + zeros == masks;
    } else {
      var n := |zeros| - 1;
      PaddedPositions(masks, zeros[..n]);
      assert (masks + zeros)[..|masks + zeros| - 1] == masks + zeros[..n];
    }
  }

  lemma {:induction false} PaddedSum(cells: seq<Vector>, extra: seq<Vector>, positions: seq<nat>, d: nat)
    requires forall i :: 0 <= i < |positions| ==> positions[i] < |cells| && d < |cells[positions[i]]|
    ensures forall i :: 0 <= i < |positions| ==> (cells + extra)[positions[i]] == cells[positions[i]]
    ensures SumAt(cells + extra, positions, d) == SumAt(cells, positions, d)
  {
    if positions != [] {
      PaddedSum(cells, extra, positions[..|positions| - 1], d);
    }
  }

  /** Columns added only to reach the batch's width never change a row's pooled vector. */
  lemma {:induction false} PaddingIsInvisible(cells: seq<Vector>, extra: seq<Vector>, masks: seq<int>, zeros: seq<int>,
          pooling: Pooling, hidden: nat)
    requires |cells| == |masks| && |extra| == |zeros|
    requires Rectangular(cells, hidden) && Rectangular(extra, hidden)
    requires forall i :: 0 <= i < |zeros| ==> zeros[i] == 0
    ensures Rectangular(cells + extra, hidden)
    ensures Pool(cells + extra, masks + zeros, pooling, hidden) == Pool(cells, masks, pooling, hidden)
  {
    PaddedPositions(masks, zeros);
    var positions := Positions(masks);
    if positions != [] && pooling.Mean? {
      forall d | 0 <= d < hidden ensures MeanAt(cells + extra, positions, d) == MeanAt(cells, positions, d) {
        PaddedSum(cells, extra, positions, d);
      }
      assert Pool(cells + extra, masks + zeros, pooling, hidden).value == Pool(cells, masks, pooling, hidden).value;
    }
  }

  // ----- One native call -----

  /** The two output shapes the adapter accepts: one vector per row, or one per token. */
  datatype Raw = Sentences(rows: seq<Vector>) | PerToken(cells: seq<seq<Vector>>)

  type Session = Tensor -> Option<Raw>

  type Normalizer = Vector -> Result<Vector>

  /** `valid_runtime_output_shape`. */
  ghost predicate ShapeOk(raw: Raw, batch: nat, width: nat, native: nat) {
    match raw
    case Sentences(rows) => |rows| == batch && Rectangular(rows, native)
    case PerToken(rows) =>
      |rows| == batch && forall r :: 0 <= r < |rows| ==> |rows[r]| == width && Rectangular(rows[r], native)
  }

  /** Finiteness, then Matryoshka truncation, then normalization. */
  function Finish(m: Loaded, normalizer: Normalizer, v: Vector, options: EmbedOptions): Result<Vector> {
    if exists i :: 0 <= i < |v| && v[i].NonFinite? then Err(InferenceFailed)
    else if options.dimensions.Some? && options.dimensions.value > |v| then Err(InferenceFailed)
    else
      var cut := if options.dimensions.Some? then v[..options.dimensions.value] else v;
      var normalize := if options.normalize.Some? then options.normalize.value else m.normalizes;
      if normalize then normalizer(cut) else Ok(cut)
  }

  function Masks(e: Encoding): (r: seq<int>)
    ensures |r| == |e|
  {
    seq(|e|, c requires 0 <= c < |e| => e[c].mask)
  }

  ghost function RowVector(m: Loaded, normalizer: Normalizer, raw: Raw, es: seq<Encoding>, r: nat,
          options: EmbedOptions): Result<Vector>
    requires r < |es| && ShapeOk(raw, |es|, Width(es), m.native)
  {
    match raw
    case Sentences(rows) => Finish(m, normalizer, rows[r], options)
    case PerToken(rows) =>
      WidthCovers(es);
      match Pool(rows[r], PadRow(es[r], Width(es), 0, (t: Token) => t.mask), m.pooling, m.native)
      case Err(code) => Err(code)
      case Ok(v) => Finish(m, normalizer, v, options)
  }

  datatype Adapter = Adapter(model: Loaded, session: Session, normalizer: Normalizer)

  /** `LoadedModel::run`: pack, infer, check the shape, then pool and finish every row. */
  ghost function Run(a: Adapter, es: seq<Encoding>, options: EmbedOptions): Result<seq<Vector>> {
    if |es| * Width(es) > USIZE_MAX then Err(InvalidRequest)
    else
      var raw := a.session(Pack(es, a.model.padTokenId));
      if raw.None? || !ShapeOk(raw.value, |es|, Width(es), a.model.native) then Err(InferenceFailed)
      else if exists r :: 0 <= r < |es| && RowVector(a.model, a.normalizer, raw.value, es, r, options).Err? then
        Err(InferenceFailed)
      else
        Ok(seq(|es|, r requires 0 <= r < |es| => RowVector(a.model, a.normalizer, raw.value, es, r, options).value))
  }

  /** `embed_with_options` for a control that stays active. */
  ghost function Embed(a: Adapter, inputs: seq<string>, options: EmbedOptions): EngineResult {
    if !DimensionsAllowed(a.model, options.dimensions) || !Encodable(a.model, inputs, options) then
      Returned(Err(InvalidRequest))
    else
      var es := Encodings(a.model, inputs, options);
      if es == [] || Sum(Lengths(es)) > U64_MAX then Returned(Err(InferenceFailed))
      else match Run(a, es, options)
        case Err(code) => Returned(Err(code))
        case Ok(vectors) => Returned(Ok(Output(vectors, a.model.identity, Lengths(es), Sum(Lengths(es)))))
  }

  ghost function EngineOf(a: Adapter): Engine {
    (inputs, options) => Embed(a, inputs, options)
  }

  // ----- A row-local session makes the adapter pointwise -----

  /** What the network computes for one sequence, independently of its neighbours and padding. */
  datatype Kernel = SentenceKernel(row: Encoding -> Vector) | TokenKernel(cell: (Encoding, nat) -> Vector)

  ghost predicate KernelSized(kernel: Kernel, native: nat) {
    match kernel
    case SentenceKernel(row) => forall e :: |row(e)| == native
    case TokenKernel(cell) => forall e, c :: |cell(e, c)| == native
  }

  ghost predicate ComputesRow(raw: Raw, kernel: Kernel, es: seq<Encoding>, r: nat)
    requires r < |es|
  {
    match kernel
    case SentenceKernel(row) => raw.Sentences? && |raw.rows| == |es| && raw.rows[r] == row(es[r])
    case TokenKernel(cell) =>
      raw.PerToken? && |raw.cells| == |es|
      && forall c :: 0 <= c < |es[r]| ==> c < |raw.cells[r]| && raw.cells[r][c] == cell(es[r], c)
  }

  /** Attention respects the mask: a row's own positions never see padding or other rows. */
  ghost predicate RowLocal(a: Adapter, kernel: Kernel) {
    && KernelSized(kernel, a.model.native)
    && forall es: seq<Encoding> :: es != [] && |es| * Width(es) <= USIZE_MAX ==> LocalAt(a, kernel, es)
  }

  ghost predicate LocalAt(a: Adapter, kernel: Kernel, es: seq<Encoding>) {
    var raw := a.session(Pack(es, a.model.padTokenId));
    && raw.Some? && ShapeOk(raw.value, |es|, Width(es), a.model.native)
    && forall r :: 0 <= r < |es| ==> ComputesRow(raw.value, kernel, es, r)
  }

  /** The vector of one encoding, computed from the kernel alone. */
  ghost function Own(a: Adapter, kernel: Kernel, e: Encoding, options: EmbedOptions): Result<Vector>
    requires KernelSized(kernel, a.model.native)
  {
    match kernel
    case SentenceKernel(row) => Finish(a.model, a.normalizer, row(e), options)
    case TokenKernel(cell) =>
      match Pool(seq(|e|, c requires 0 <= c < |e| => cell(e, c)), Masks(e), a.model.pooling, a.model.native)
      case Err(code) => Err(code)
      case Ok(v) => Finish(a.model, a.normalizer, v, options)
  }

  ghost function PerOf(a: Adapter, kernel: Kernel): PerInput
    requires KernelSized(kernel, a.model.native)
  {
    (text, options) => PerText(a, kernel, text, options)
  }

  ghost function PerText(a: Adapter, kernel: Kernel, text: string, options: EmbedOptions): Option<(Vector, nat)>
    requires KernelSized(kernel, a.model.native)
  {
    match Encode(a.model, text, options)
    case Err(_) => None
    case Ok(e) =>
      if !DimensionsAllowed(a.model, options.dimensions) || Own(a, kernel, e, options).Err? then None
      else Some((Own(a, kernel, e, options).value, |e|))
  }

  lemma {:induction false} RowIsOwn(a: Adapter, kernel: Kernel, es: seq<Encoding>, r: nat, options: EmbedOptions)
    requires KernelSized(kernel, a.model.native) && r < |es| && LocalAt(a, kernel, es)
    ensures RowVector(a.model, a.normalizer, a.session(Pack(es, a.model.padTokenId)).value, es, r, options)
         == Own(a, kernel, es[r], options)
  {
    var raw := a.session(Pack(es, a.model.padTokenId)).value;
    assert ComputesRow(raw, kernel, es, r);
    if kernel.TokenKernel? {
      var e, width, row := es[r], Width(es), raw.cells[r];
      WidthCovers(es);
      var cells := seq(|e|, c requires 0 <= c < |e| => kernel.cell(e, c));
      var masks := PadRow(e, width, 0, (t: Token) => t.mask);
      assert row == cells + row[|e|..] && masks == Masks(e) + masks[|e|..];
      PaddingIsInvisible(cells, row[|e|..], Masks(e), masks[|e|..], a.model.pooling, a.model.native);
    }
  }

  lemma {:induction false} LengthsBounded(m: Loaded, inputs: seq<string>, options: EmbedOptions)
    requires Encodable(m, inputs, options) && 0 < m.maxTokens
    ensures var es := Encodings(m, inputs, options);
      Width(es) <= m.maxTokens && Sum(Lengths(es)) <= |es| * m.maxTokens
  {
    var es := Encodings(m, inputs, options);
    LengthsCapped(es, m.maxTokens);
  }

  lemma {:induction false} OneMoreTimes(n: nat, k: nat)
    ensures (n + 1) * k == n * k + k
  {}

  lemma {:induction false} LengthsCapped(es: seq<Encoding>, cap: nat)
    requires 0 < cap && forall i :: 0 <= i < |es| ==> |es[i]| <= cap
    ensures Longest1(es) <= cap && Sum(Lengths(es)) <= |es| * cap
  {
    if es != [] {
      var init, last := es[..|es| - 1], es[|es| - 1];
      LengthsCapped(init, cap);
      OneMoreEncoding(init, last);
      assert es == init + [last];
      OneMoreTimes(|init|, cap);
    }
  }

  /**
    The adapter meets the hypothesis of the batching theorem: over a session whose rows are local,
    every call small enough for the machine computes each input on its own.
   */
  lemma {:induction false} AdapterIsPointwise(a: Adapter, kernel: Kernel, rows: nat)
    requires RowLocal(a, kernel) && 0 < a.model.maxTokens && rows * a.model.maxTokens <= USIZE_MAX
    ensures Pointwise(EngineOf(a), PerOf(a, kernel), a.model.identity, rows)
  {
    forall inputs, options | 0 < |inputs| <= rows
      ensures PointwiseAt(EngineOf(a), PerOf(a, kernel), a.model.identity, inputs, options)
    {
      AdapterPointwiseAt(a, kernel, rows, inputs, options);
    }
  }

  ghost predicate AllOwn(a: Adapter, kernel: Kernel, es: seq<Encoding>, options: EmbedOptions)
    requires KernelSized(kernel, a.model.native)
  {
    forall r :: 0 <= r < |es| ==> Own(a, kernel, es[r], options).Ok?
  }

  /** The call succeeds exactly when every row does, and then returns the rows' own vectors. */
  lemma {:induction false} RunIsRows(a: Adapter, kernel: Kernel, es: seq<Encoding>, options: EmbedOptions)
    requires KernelSized(kernel, a.model.native) && LocalAt(a, kernel, es) && |es| * Width(es) <= USIZE_MAX
    ensures var run := Run(a, es, options);
      && (run.Ok? <==> AllOwn(a, kernel, es, options))
      && (run.Ok? ==> |run.value| == |es|)
      && (run.Ok? ==> forall r :: 0 <= r < |es| ==> Own(a, kernel, es[r], options) == Ok(run.value[r]))
  {
    var raw := a.session(Pack(es, a.model.padTokenId)).value;
    forall r | 0 <= r < |es|
      ensures RowVector(a.model, a.normalizer, raw, es, r, options) == Own(a, kernel, es[r], options)
    {
      RowIsOwn(a, kernel, es, r, options);
    }
  }

  lemma {:induction false} PerIsOwn(a: Adapter, kernel: Kernel, inputs: seq<string>, options: EmbedOptions, i: nat)
    requires KernelSized(kernel, a.model.native) && i < |inputs|
    requires DimensionsAllowed(a.model, options.dimensions) && Encodable(a.model, inputs, options)
    ensures var e := Encodings(a.model, inputs, options)[i];
      PerOf(a, kernel)(inputs[i], options)
      == if Own(a, kernel, e, options).Ok? then Some((Own(a, kernel, e, options).value, |e|)) else None
  {}

  lemma {:induction false} RefusedCall(a: Adapter, kernel: Kernel, inputs: seq<string>, options: EmbedOptions)
    requires KernelSized(kernel, a.model.native) && inputs != []
    requires !DimensionsAllowed(a.model, options.dimensions) || !Encodable(a.model, inputs, options)
    ensures !AllDefined(PerOf(a, kernel), inputs, options)
  {
    var i := if DimensionsAllowed(a.model, options.dimensions)
             then var i :| 0 <= i < |inputs| && Encode(a.model, inputs[i], options).Err?; i else 0;
    assert PerText(a, kernel, inputs[i], options).None?;
    assert PerOf(a, kernel)(inputs[i], options).None?;
  }

  lemma {:induction false} ServedCall(a: Adapter, kernel: Kernel, inputs: seq<string>, options: EmbedOptions)
    requires KernelSized(kernel, a.model.native) && inputs != []
    requires DimensionsAllowed(a.model, options.dimensions) && Encodable(a.model, inputs, options)
    requires LocalAt(a, kernel, Encodings(a.model, inputs, options))
    requires |inputs| * Width(Encodings(a.model, inputs, options)) <= USIZE_MAX
    requires Sum(Lengths(Encodings(a.model, inputs, options))) <= U64_MAX
    ensures PointwiseAt(EngineOf(a), PerOf(a, kernel), a.model.identity, inputs, options)
  {
    var es, per := Encodings(a.model, inputs, options), PerOf(a, kernel);
    RunIsRows(a, kernel, es, options);
    forall i | 0 <= i < |inputs|
      ensures per(inputs[i], options)
           == if Own(a, kernel, es[i], options).Ok? then Some((Own(a, kernel, es[i], options).value, |es[i]|)) else None
    {
      PerIsOwn(a, kernel, inputs, options, i);
    }
    assert AllOwn(a, kernel, es, options) <==> AllDefined(per, inputs, options);
    assert EngineOf(a)(inputs, options) == Embed(a, inputs, options);
  }

  lemma {:induction false} AdapterPointwiseAt(a: Adapter, kernel: Kernel, rows: nat, inputs: seq<string>,
          options: EmbedOptions)
    requires RowLocal(a, kernel) && 0 < a.model.maxTokens && rows * a.model.maxTokens <= USIZE_MAX
    requires 0 < |inputs| <= rows
    ensures PointwiseAt(EngineOf(a), PerOf(a, kernel), a.model.identity, inputs, options)
  {
    if DimensionsAllowed(a.model, options.dimensions) && Encodable(a.model, inputs, options) {
      var es := Encodings(a.model, inputs, options);
      LengthsBounded(a.model, inputs, options);
      MulMono(|es|, rows, Width(es), a.model.maxTokens);
      MulMono(|es|, rows, a.model.maxTokens, a.model.maxTokens);
      ServedCall(a, kernel, inputs, options);
    } else {
      RefusedCall(a, kernel, inputs, options);
      assert EngineOf(a)(inputs, options) == Embed(a, inputs, options);
    }
  }

  // ----- Back to the scheduler's arithmetic -----

  /** The request's cost is what the adapter's preflight reported for its inputs. */
  ghost predicate Costed(m: Loaded, r: Request) {
    Encodable(m, r.inputs, r.options) && r.cost == PreflightCost(Encodings(m, r.inputs, r.options))
  }

  lemma {:induction false} LongestConcat(x: seq<Encoding>, y: seq<Encoding>)
    ensures Longest1(x + y) == Max(Longest1(x), Longest1(y))
  {
    if y == [] {
      assert x + y == x;
    } else {
      var init, last := y[..|y| - 1], y[|y| - 1];
      LongestConcat(x, init);
      assert x + y == (x + init) + [last];
      OneMoreEncoding(x + init, last);
      OneMoreEncoding(init, last);
      assert y == init + [last];
    }
  }

  lemma {:induction false} EncodingsConcat(m: Loaded, x: seq<string>, y: seq<string>, options: EmbedOptions)
    requires Encodable(m, x, options) && Encodable(m, y, options)
    ensures Encodable(m, x + y, options)
    ensures Encodings(m, x + y, options) == Encodings(m, x, options) + Encodings(m, y, options)
  {}

  /** The tensor's width is the scheduler's longest sequence, its rows the scheduler's item count. */
  lemma {:induction false} CallShape(m: Loaded, batch: seq<Request>, options: EmbedOptions)
    requires forall i :: 0 <= i < |batch| ==> Costed(m, batch[i]) && batch[i].options == options
    ensures Encodable(m, Concat(batch), options)
    ensures |Encodings(m, Concat(batch), options)| == Items(batch)
    ensures Longest1(Encodings(m, Concat(batch), options)) == Longest(batch)
  {
    if batch != [] {
      var n := |batch| - 1;
      var init, last := batch[..n], batch[n];
      CallShape(m, init, options);
      assert Costed(m, last) && last.options == options;
      assert Concat(batch) == Concat(init) + last.inputs;
      EncodingsConcat(m, Concat(init), last.inputs, options);
      LongestConcat(Encodings(m, Concat(init), options), Encodings(m, last.inputs, options));
    }
  }

  lemma {:induction false} ActiveLongest(requests: seq<Request>, world: World)
    ensures Longest(Active(requests, world)) <= Longest(requests)
  {
    if requests != [] {
      var n := |requests| - 1;
      ActiveLongest(requests[..n], world);
      Snoc(Active(requests[..n], world), requests[n]);
      assert requests == requests[..n] + [requests[n]];
      Snoc(requests[..n], requests[n]);
    }
  }

  /**
    Across the two crates: the native tensor of a dispatched batch never exceeds the scheduler's
    cell bound, even after inactive members are dropped, and is exactly the scheduler's own
    product when none is dropped.
   */
  lemma {:induction false} PaddedWorkBound(m: Loaded, batch: seq<Request>, policy: BatchPolicy, world: World)
    requires Fits(batch, policy) && OneBatch(batch) && Active(batch, world) != []
    requires forall i :: 0 <= i < |batch| ==> Costed(m, batch[i])
    ensures var active := Active(batch, world);
      && Encodable(m, Concat(active), active[0].options)
      && var es := Encodings(m, Concat(active), active[0].options);
      && |es| * Width(es) <= policy.maxBatchTokens
      && |es| <= policy.maxBatchItems
      && (active == batch ==> |es| * Width(es) == Items(batch) * Longest(batch))
  {
    var active := Active(batch, world);
    ActiveIsOneBatch(batch, world);
    forall i | 0 <= i < |active| ensures Costed(m, active[i]) && active[i].options == active[0].options {
      ActiveMembers(batch, world, active[i]);
    }
    CallShape(m, active, active[0].options);
    ConcatNonempty(active);
    var es := Encodings(m, Concat(active), active[0].options);
    WidthCovers(es);
    ActiveItems(batch, world);
    ActiveLongest(batch, world);
    MulMono(Items(active), Items(batch), Longest(active), Longest(batch));
  }

  /** The usage reported by a call equals the preflight's token count iff no encoding is empty. */
  lemma {:induction false} UsageMatchesPreflight(es: seq<Encoding>)
    ensures Sum(Lengths(es)) <= Sum(Billed(es))
    ensures Sum(Lengths(es)) == Sum(Billed(es)) <==> forall i :: 0 <= i < |es| ==> es[i] != []
  {
    if es != [] {
      var init, last := es[..|es| - 1], es[|es| - 1];
      UsageMatchesPreflight(init);
      OneMoreEncoding(init, last);
      assert es == init + [last];
      assert (forall i :: 0 <= i < |es| ==> es[i] != [])
        <==> (last != [] && forall i :: 0 <= i < |init| ==> init[i] != []) by {
        if forall i :: 0 <= i < |es| ==> es[i] != [] {
          assert forall i :: 0 <= i < |init| ==> init[i] == es[i];
        }
      }
    }
  }

  lemma {:induction false} EncodingsSlice(m: Loaded, all: seq<string>, own: seq<string>, options: EmbedOptions, lo: nat,
          hi: nat)
    requires Encodable(m, all, options) && lo <= hi <= |all| && all[lo..hi] == own
    ensures Encodable(m, own, options) && Encodings(m, all, options)[lo..hi] == Encodings(m, own, options)
  {
    assert forall i :: 0 <= i < |own| ==> own[i] == all[lo + i];
  }

  lemma {:induction false} LengthsSlice(es: seq<Encoding>, lo: nat, hi: nat)
    requires lo <= hi <= |es|
    ensures Lengths(es)[lo..hi] == Lengths(es[lo..hi])
  {}

  ghost predicate NonEmpty(es: seq<Encoding>) {
    forall i :: 0 <= i < |es| ==> es[i] != []
  }

  /** A member of a batch costed under the options of the call. */
  ghost predicate Asked(m: Loaded, r: Request, options: EmbedOptions) {
    Costed(m, r) && r.options == options
  }

  /** The usage reported at a member's rows of a batch call is that of its own inputs. */
  lemma {:induction false} MemberUsage(m: Loaded, active: seq<Request>, options: EmbedOptions, j: nat)
    requires j < |active| && Asked(m, active[j], options) && Encodable(m, Concat(active), options)
    ensures Rows(Lengths(Encodings(m, Concat(active), options)), active, j)
         == Lengths(Encodings(m, active[j].inputs, options))
  {
    var all, lo, hi := Concat(active), Offset(active, j), Offset(active, j + 1);
    SliceIsOwn(active, j);
    EncodingsSlice(m, all, active[j].inputs, options, lo, hi);
    LengthsSlice(Encodings(m, all, options), lo, hi);
  }

  /**
    The scheduler's token check on the adapter's own output, whatever the network computed: a
    member of any batch passes it exactly if none of its encodings is empty.
   */
  lemma {:induction false} TokenCheckPassesIffNonEmpty(a: Adapter, active: seq<Request>, options: EmbedOptions, j: nat,
          out: Output)
    requires j < |active| && Asked(a.model, active[j], options)
    requires Embed(a, Concat(active), options) == Returned(Ok(out))
    ensures Sum(Rows(out.tokens, active, j)) == active[j].cost.tokens
       <==> NonEmpty(Encodings(a.model, active[j].inputs, options))
  {
    MemberUsage(a.model, active, options, j);
    UsageMatchesPreflight(Encodings(a.model, active[j].inputs, options));
  }

  /** A success anywhere in a batch means that no member of it has an empty encoding. */
  lemma {:induction false} ServedMeansNonEmpty(a: Adapter, requests: seq<Request>, world: World, i: nat, j: nat)
    requires OneBatch(requests) && i < |Execute(EngineOf(a), requests, world)|
    requires Execute(EngineOf(a), requests, world)[i].answer.Ok?
    requires j < |Active(requests, world)| && Costed(a.model, Active(requests, world)[j])
    ensures var r := Active(requests, world)[j]; NonEmpty(Encodings(a.model, r.inputs, r.options))
  {
    var active := Active(requests, world);
    var options := active[0].options;
    OkIsOwnSlice(EngineOf(a), requests, world, i);
    ActiveIsOneBatch(requests, world);
    var out := EngineOf(a)(Concat(active), options).result.value;
    assert ValidOutput(out, active) && MemberSlice(out, active, j);
    TokenCheckPassesIffNonEmpty(a, active, options, j, out);
  }

  /**
    A request admitted with an empty encoding cannot be served, alone or not: its one billed token
    never shows up in the usage, so every member of its batch is refused, whatever the network does.
   */
  lemma {:induction false} EmptyEncodingNeverServed(a: Adapter, requests: seq<Request>, world: World, j: nat)
    requires OneBatch(requests) && j < |Active(requests, world)| && Costed(a.model, Active(requests, world)[j])
    requires var r := Active(requests, world)[j]; !NonEmpty(Encodings(a.model, r.inputs, r.options))
    ensures forall i :: 0 <= i < |Execute(EngineOf(a), requests, world)| ==>
      Execute(EngineOf(a), requests, world)[i].answer.Err?
  {
    forall i | 0 <= i < |Execute(EngineOf(a), requests, world)|
      ensures Execute(EngineOf(a), requests, world)[i].answer.Err?
    {
      if Execute(EngineOf(a), requests, world)[i].answer.Ok? {
        ServedMeansNonEmpty(a, requests, world, i, j);
      }
    }
  }

  /** Such a request exists: an empty text under a tokenizer without special tokens. */
  lemma {:induction false} EmptyEncodingIsAdmitted(m: Loaded, options: EmbedOptions)
    requires Encode(m, "", options) == Ok([])
    ensures Encodable(m, [""], options)
    ensures ValidCost(PreflightCost(Encodings(m, [""], options)))
    ensures PreflightCost(Encodings(m, [""], options)).tokens == 1 != Sum(Lengths(Encodings(m, [""], options)))
  {
    var es := Encodings(m, [""], options);
    assert es == [[]];
    assert Billed(es) == [1] && Lengths(es) == [0];
    assert Sum([1]) == 1 && Sum([0]) == 0;
    OneMoreEncoding([], []);
    assert [] + [[]] == es;
  }
}
