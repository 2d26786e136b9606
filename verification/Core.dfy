/**
  Engine-neutral vocabulary shared by every component: error codes, request options, the
  tokenization cost of a batch, and the bounded machine arithmetic the source writes with
  `checked_add` and `checked_mul`.
 */
module EmbeddingCore {

  datatype Option<+T> = None | Some(value: T)

  datatype ErrorCode =
    | InvalidRequest
    | ModelUnavailable
    | QueueFull
    | Cancelled
    | DeadlineExceeded
    | InferenceFailed
    | Internal

  datatype Result<+T> = Ok(value: T) | Err(code: ErrorCode)

  type Byte = b: int | 0 <= b < 256

  const USIZE_MAX: nat := 0xFFFF_FFFF_FFFF_FFFF
  const U64_MAX: nat := 0xFFFF_FFFF_FFFF_FFFF

  function CheckedAdd(a: nat, b: nat): (r: Option<nat>) {
    if a + b <= USIZE_MAX then Some(a + b) else None
  }

  function CheckedMul(a: nat, b: nat): (r: Option<nat>) {
    if a * b <= USIZE_MAX then Some(a * b) else None
  }

  function Max(a: nat, b: nat): nat {
    if a < b then b else a
  }

  datatype EmbeddingTask = Query | Document

  datatype Truncation = Reject | Truncate

  datatype EmbedOptions = EmbedOptions(
    task: EmbeddingTask,
    truncation: Truncation,
    dimensions: Option<nat>,
    normalize: Option<bool>)

  /** Exact post-tokenization cost of a batch: rows, real tokens, longest row. */
  datatype Cost = Cost(items: nat, tokens: nat, maxSequence: nat)

  /** The values `EmbeddingBatchCost::new` lets exist. */
  predicate ValidCost(c: Cost) {
    0 < c.items && 0 < c.maxSequence && c.tokens <= c.items * c.maxSequence <= USIZE_MAX
  }

  /** Construction rejects empty batches, empty rows and impossible token totals. */
  function NewCost(items: nat, tokens: nat, maxSequence: nat): (r: Result<Cost>)
    ensures r.Ok? <==> ValidCost(Cost(items, tokens, maxSequence))
    ensures r.Ok? ==> r.value == Cost(items, tokens, maxSequence)
  {
    match CheckedMul(items, maxSequence)
    case None => Err(InvalidRequest)
    case Some(padded) =>
      if items == 0 || maxSequence == 0 || tokens > padded then Err(InvalidRequest)
      else Ok(Cost(items, tokens, maxSequence))
  }

  /** A floating-point result; only finiteness matters to the server. */
  datatype Scalar = Finite(value: real) | NonFinite

  type Vector = seq<Scalar>

  /** The five reproducibility fields of a resolved model. */
  datatype Identity = Identity(
    canonicalId: string,
    revision: string,
    runtime: string,
    artifactFingerprint: string,
    semanticFingerprint: string)

  /** Unicode `White_Space`, the set Rust's `str::trim` removes. */
  predicate IsWhitespace(c: char) {
    var n := c as int;
    || 9 <= n <= 13 || n == 32 || n == 0x85 || n == 0xA0 || n == 0x1680
    || 0x2000 <= n <= 0x200A || n == 0x2028 || n == 0x2029 || n == 0x202F
    || n == 0x205F || n == 0x3000
  }

  predicate Blank(s: string) {
    forall i :: 0 <= i < |s| ==> IsWhitespace(s[i])
  }

  predicate IdentityIsComplete(identity: Identity) {
    && !Blank(identity.canonicalId)
    && !Blank(identity.revision)
    && !Blank(identity.runtime)
    && !Blank(identity.artifactFingerprint)
    && !Blank(identity.semanticFingerprint)
  }

  /** What a slot promised before a request was queued. */
  datatype Contract = Contract(identity: Identity, nativeDimensions: nat)

  datatype Output = Output(vectors: seq<Vector>, model: Identity, tokens: seq<nat>, totalTokens: nat)

  function Sum(s: seq<nat>): nat {
    if s == [] then 0 else s[0] + Sum(s[1..])
  }

  lemma {:induction false} SumConcat(a: seq<nat>, b: seq<nat>)
    ensures Sum(a + b) == Sum(a) + Sum(b)
  {
    if a == [] {
      assert a + b == b;
    } else {
      SumConcat(a[1..], b);
      assert (a + b)[1..] == a[1..] + b;
    }
  }

  datatype BatchPolicy = BatchPolicy(
    queueDepth: nat,
    maxItems: nat,
    maxInputBytes: nat,
    maxRequestBytes: nat,
    maxTokens: nat,
    maxBatchItems: nat,
    maxBatchTokens: nat,
    blockingConcurrency: nat)
  {
    /** `BatchPolicy::validate`, with each field a machine word. */
    predicate Valid() {
      && 0 < queueDepth && 0 < maxItems && 0 < maxInputBytes && 0 < maxRequestBytes
      && 0 < maxTokens && 0 < blockingConcurrency
      && maxItems <= maxBatchItems <= USIZE_MAX
      && maxInputBytes <= maxRequestBytes
      && maxTokens <= maxBatchTokens <= USIZE_MAX
    }
  }

  /** Two sets that agree everywhere but at one element. */
  lemma {:induction false} SizesDifferAt(a: set<nat>, b: set<nat>, x: nat)
    requires forall y :: y != x ==> (y in a <==> y in b)
    ensures |b| == |a| + (if x in b then 1 else 0) - if x in a then 1 else 0
  {
    if x in b {
      assert b == (a - {x}) + {x};
    } else {
      assert b == a - {x};
    }
    if x in a {
      assert a == (a - {x}) + {x};
    } else {
      assert a == a - {x};
    }
  }

  lemma {:induction false} SubsetSize(a: set<nat>, b: set<nat>)
    requires a <= b
    ensures |a| <= |b|
  {
    assert b == a + (b - a);
  }
}
