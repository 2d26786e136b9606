/**
  The byte stream behind an artifact fingerprint: identifier, revision and the sorted artifacts,
  separated by zero bytes, with fixed-width little-endian sizes. A parser undoes it, so equal
  streams mean equal identities, whatever order a manifest declares its artifacts in.
 */
module ArtifactIdentity {
  import opened EmbeddingCore
  import opened ManifestRules
  import opened Sorting

  const SIZE_LIMIT: nat := 0x1_0000_0000_0000_0000

  /** What the fingerprint covers of an artifact. */
  datatype Entry = Entry(path: Text, sha256: Text, size: nat)

  datatype Manifest = Manifest(id: Text, revision: Text, artifacts: seq<Artifact>)

  function EntryOf(a: Artifact): Entry {
    Entry(a.path, a.sha256, a.size)
  }

  function Entries(artifacts: seq<Artifact>): (r: seq<Entry>)
    ensures |r| == |artifacts| && forall i :: 0 <= i < |r| ==> r[i] == EntryOf(artifacts[i])
  {
    seq(|artifacts|, i requires 0 <= i < |artifacts| => EntryOf(artifacts[i]))
  }

  /** A manifest that passed validation, with 64-bit sizes. */
  predicate Validated(m: Manifest) {
    && ValidId(m.id) && ValidRevision(m.revision) && ValidArtifacts(m.artifacts)
    && forall i :: 0 <= i < |m.artifacts| ==> m.artifacts[i].size < SIZE_LIMIT
  }

  // ----- Order -----

  /** Byte-wise lexicographic order. */
  predicate Lex(a: Text, b: Text) {
    a == [] || (b != [] && (a[0] < b[0] || (a[0] == b[0] && Lex(a[1..], b[1..]))))
  }

  predicate EntryLeq(x: Entry, y: Entry) {
    if x.path != y.path then Lex(x.path, y.path)
    else if x.sha256 != y.sha256 then Lex(x.sha256, y.sha256)
    else x.size <= y.size
  }

  lemma {:induction false} LexTotal(a: Text, b: Text)
    ensures Lex(a, b) || Lex(b, a)
  {
    if a != [] && b != [] && a[0] == b[0] { LexTotal(a[1..], b[1..]); }
  }

  lemma {:induction false} LexAntisymmetric(a: Text, b: Text)
    requires Lex(a, b) && Lex(b, a)
    ensures a == b
  {
    if a != [] {
      LexAntisymmetric(a[1..], b[1..]);
      assert a == [a[0]] + a[1..] && b == [b[0]] + b[1..];
    }
  }

  lemma {:induction false} LexTransitive(a: Text, b: Text, c: Text)
    requires Lex(a, b) && Lex(b, c)
    ensures Lex(a, c)
  {
    if a != [] && a[0] == b[0] == c[0] { LexTransitive(a[1..], b[1..], c[1..]); }
  }

  /** The comparator leaves no ties between different entries, so sorting has one result. */
  lemma {:induction false} EntryOrder()
    ensures TotalPreorder(EntryLeq) && Antisymmetric(EntryLeq)
  {
    forall x: Entry, y: Entry ensures EntryLeq(x, y) || EntryLeq(y, x) {
      LexTotal(x.path, y.path);
      LexTotal(x.sha256, y.sha256);
    }
    forall x: Entry, y: Entry | EntryLeq(x, y) && EntryLeq(y, x) ensures x == y {
      if x.path != y.path { LexAntisymmetric(x.path, y.path); }
      else if x.sha256 != y.sha256 { LexAntisymmetric(x.sha256, y.sha256); }
    }
    forall x: Entry, y: Entry, z: Entry | EntryLeq(x, y) && EntryLeq(y, z) ensures EntryLeq(x, z) {
      EntryTransitive(x, y, z);
    }
  }

  lemma {:induction false} EntryTransitive(x: Entry, y: Entry, z: Entry)
    requires EntryLeq(x, y) && EntryLeq(y, z)
    ensures EntryLeq(x, z)
  {
    if x.path != y.path && y.path != z.path {
      LexTransitive(x.path, y.path, z.path);
      if x.path == z.path { LexAntisymmetric(x.path, y.path); }
    } else if x.path == y.path == z.path {
      if x.sha256 != y.sha256 && y.sha256 != z.sha256 {
        LexTransitive(x.sha256, y.sha256, z.sha256);
        if x.sha256 == z.sha256 { LexAntisymmetric(x.sha256, y.sha256); }
      }
    }
  }

  // ----- Little-endian sizes -----

  function LittleEndian(n: nat, width: nat): (r: Text)
    ensures |r| == width
  {
    if width == 0 then [] else [n % 256] + LittleEndian(n / 256, width - 1)
  }

  function FromLittleEndian(s: Text): nat {
    if s == [] then 0 else s[0] + 256 * FromLittleEndian(s[1..])
  }

  function Power(width: nat): nat {
    if width == 0 then 1 else 256 * Power(width - 1)
  }

  lemma {:induction false} SizeRoundTrip(n: nat, width: nat)
    requires n < Power(width)
    ensures FromLittleEndian(LittleEndian(n, width)) == n
  {
    if width > 0 {
      SizeRoundTrip(n / 256, width - 1);
      assert LittleEndian(n, width)[1..] == LittleEndian(n / 256, width - 1);
    }
  }

  /** The least significant byte comes first. */
  lemma {:induction false} LittleEndianAt(n: nat, width: nat, i: nat)
    requires i < width
    ensures Power(i) > 0 && LittleEndian(n, width)[i] == n / Power(i) % 256
  {
    if i > 0 {
      LittleEndianAt(n / 256, width - 1, i - 1);
      DivideTwice(n, Power(i - 1));
    }
  }

  lemma {:induction false} DivideTwice(n: nat, p: nat)
    requires p > 0
    ensures n / 256 / p == n / (256 * p)
  {
    var u, a := n / 256, n % 256;
    var v, b := u / p, u % p;
    assert u == p * v + b && 256 * b + a < 256 * p;
    assert (256 * p) * v == 256 * (p * v);
    DivideExact(256 * p, v, 256 * b + a);
  }

  lemma {:induction false} DivideExact(p: nat, q: nat, r: nat)
    requires r < p
    ensures (p * q + r) / p == q
  {
    var d := (p * q + r) / p;
    assert p * q + r == p * d + (p * q + r) % p;
    if d < q { NextMultiple(p, d, q); }
    if d > q { NextMultiple(p, q, d); }
  }

  lemma {:induction false} NextMultiple(p: nat, a: nat, b: nat)
    requires a < b
    ensures p * a + p <= p * b
  {
    assert p * (a + 1) <= p * b;
  }

  lemma {:induction false} EightBytes()
    ensures Power(8) == SIZE_LIMIT
  {}

  // ----- The stream and its parser -----

  function Record(e: Entry): Text {
    [0] + e.path + [0] + e.sha256 + [0] + LittleEndian(e.size, 8)
  }

  function Records(entries: seq<Entry>): Text {
    if entries == [] then [] else Record(entries[0]) + Records(entries[1..])
  }

  function Canonical(m: Manifest): seq<Entry> {
    Sort(Entries(m.artifacts), EntryLeq)
  }

  /** Everything fed to the digest, in order. */
  function Encode(m: Manifest): Text {
    m.id + [0] + m.revision + Records(Canonical(m))
  }

  function ParseRecords(s: Text): Option<seq<Entry>>
    decreases |s|
  {
    if s == [] then Some([])
    else if s[0] != 0 then None
    else
      var t := s[1..];
      var n := Find(0, t);
      if n + 74 > |t| then None
      else
        var e := Entry(t[..n], t[n + 1..n + 65], FromLittleEndian(t[n + 66..n + 74]));
        match ParseRecords(t[n + 74..])
        case None => None
        case Some(more) => Some([e] + more)
  }

  function Parse(s: Text): Option<(Text, Text, seq<Entry>)> {
    var n := Find(0, s);
    if n + 41 > |s| then None
    else
      match ParseRecords(s[n + 41..])
      case None => None
      case Some(entries) => Some((s[..n], s[n + 1..n + 41], entries))
  }

  predicate Encodable(e: Entry) {
    0 !in e.path && |e.sha256| == 64 && e.size < SIZE_LIMIT
  }

  lemma {:induction false} FindFirst(b: Byte, s: Text, n: nat)
    requires n < |s| && s[n] == b && forall i :: 0 <= i < n ==> s[i] != b
    ensures Find(b, s) == n
  {}

  /** The pieces of a record, found again by position. */
  lemma {:induction false} Pieces(path: Text, sha256: Text, size: Text, rest: Text)
    requires |sha256| == 64 && |size| == 8
    ensures var t, n := path + [0] + sha256 + [0] + size + rest, |path|;
      && n + 74 <= |t| && t[n] == 0 && t[..n] == path && t[n + 1..n + 65] == sha256
      && t[n + 66..n + 74] == size && t[n + 74..] == rest
  {}

  /** A record and what follows it, without the leading separator. */
  function Body(e: Entry, rest: Text): Text {
    e.path + [0] + e.sha256 + [0] + LittleEndian(e.size, 8) + rest
  }

  lemma {:induction false} RecordBody(e: Entry, rest: Text)
    ensures Record(e) + rest == [0] + Body(e, rest) && (Record(e) + rest)[1..] == Body(e, rest)
  {}

  lemma {:induction false} PathEnds(e: Entry, rest: Text)
    requires Encodable(e)
    ensures Find(0, Body(e, rest)) == |e.path|
  {
    var t := Body(e, rest);
    assert forall i :: 0 <= i < |e.path| ==> t[i] == e.path[i];
    FindFirst(0, t, |e.path|);
  }

  lemma {:induction false} ParseRecord(e: Entry, rest: Text)
    requires Encodable(e) && ParseRecords(rest).Some?
    ensures ParseRecords(Record(e) + rest) == Some([e] + ParseRecords(rest).value)
  {
    RecordBody(e, rest);
    PathEnds(e, rest);
    Pieces(e.path, e.sha256, LittleEndian(e.size, 8), rest);
    EightBytes();
    SizeRoundTrip(e.size, 8);
  }

  lemma {:induction false} ParseAllRecords(entries: seq<Entry>)
    requires forall i :: 0 <= i < |entries| ==> Encodable(entries[i])
    ensures ParseRecords(Records(entries)) == Some(entries)
  {
    if entries != [] {
      ParseAllRecords(entries[1..]);
      ParseRecord(entries[0], Records(entries[1..]));
      assert [entries[0]] + entries[1..] == entries;
    }
  }

  lemma {:induction false} HeaderPieces(id: Text, revision: Text, rest: Text)
    requires |revision| == 40
    ensures var s, n := id + [0] + revision + rest, |id|;
      n + 41 <= |s| && s[n] == 0 && s[..n] == id && s[n + 1..n + 41] == revision && s[n + 41..] == rest
  {}

  lemma {:induction false} ParseHeader(id: Text, revision: Text, rest: Text)
    requires 0 !in id && |revision| == 40 && ParseRecords(rest).Some?
    ensures Parse(id + [0] + revision + rest) == Some((id, revision, ParseRecords(rest).value))
  {
    var s := id + [0] + revision + rest;
    HeaderPieces(id, revision, rest);
    assert forall i :: 0 <= i < |id| ==> s[i] == id[i];
    FindFirst(0, s, |id|);
  }

  lemma {:induction false} EntriesAreEncodable(m: Manifest, e: Entry)
    requires Validated(m) && e in multiset(Entries(m.artifacts))
    ensures Encodable(e)
  {
    var k :| 0 <= k < |m.artifacts| && Entries(m.artifacts)[k] == e;
    assert ValidAlone(m.artifacts[k]);
    PartsArePlain(e.path);
  }

  lemma {:induction false} CanonicalIsEncodable(m: Manifest)
    requires Validated(m)
    ensures forall i :: 0 <= i < |Canonical(m)| ==> Encodable(Canonical(m)[i])
  {
    var entries := Canonical(m);
    forall i | 0 <= i < |entries| ensures Encodable(entries[i]) {
      assert entries[i] in multiset(entries);
      EntriesAreEncodable(m, entries[i]);
    }
  }

  /** The parser recovers identifier, revision and the sorted artifacts from the stream. */
  lemma {:induction false} ParseUndoesEncode(m: Manifest)
    requires Validated(m)
    ensures Parse(Encode(m)) == Some((m.id, m.revision, Canonical(m)))
  {
    var entries := Canonical(m);
    CanonicalIsEncodable(m);
    ParseAllRecords(entries);
    PartsArePlain(m.id);
    ParseHeader(m.id, m.revision, Records(entries));
  }

  // ----- Identity -----

  function EntrySet(m: Manifest): set<Entry> {
    set e | e in Entries(m.artifacts)
  }

  lemma {:induction false} SetIsMultiset(m: Manifest, e: Entry)
    requires ValidArtifacts(m.artifacts)
    ensures multiset(Entries(m.artifacts))[e] == if e in EntrySet(m) then 1 else 0
  {
    var entries := Entries(m.artifacts);
    forall i, j | 0 <= i < j < |entries| ensures entries[i] != entries[j] {
      PathsAreDistinct(m.artifacts, i, j);
    }
    DistinctCount(entries, e);
  }

  lemma {:induction false} DistinctCount(s: seq<Entry>, e: Entry)
    requires forall i, j :: 0 <= i < j < |s| ==> s[i] != s[j]
    ensures multiset(s)[e] == if e in s then 1 else 0
  {
    if s != [] {
      var rest := s[1..];
      assert s == [s[0]] + rest;
      DistinctCount(rest, e);
      assert s[0] !in rest;
    }
  }

  /**
    Two validated manifests feed the digest the same bytes exactly when they have the same
    identifier, the same revision and the same set of (path, digest, size) triples.
   */
  lemma {:induction false} SameStreamIffSameIdentity(a: Manifest, b: Manifest)
    requires Validated(a) && Validated(b)
    ensures Encode(a) == Encode(b) <==> a.id == b.id && a.revision == b.revision && EntrySet(a) == EntrySet(b)
  {
    if Encode(a) == Encode(b) {
      ParseUndoesEncode(a);
      ParseUndoesEncode(b);
      SameSortedSameSet(a, b);
    }
    if a.id == b.id && a.revision == b.revision && EntrySet(a) == EntrySet(b) {
      SameSetSameSorted(a, b);
    }
  }

  lemma {:induction false} SameSortedSameSet(a: Manifest, b: Manifest)
    requires Validated(a) && Validated(b) && Canonical(a) == Canonical(b)
    ensures EntrySet(a) == EntrySet(b)
  {
    forall e ensures e in EntrySet(a) <==> e in EntrySet(b) {
      SetIsMultiset(a, e);
      SetIsMultiset(b, e);
    }
  }

  lemma {:induction false} SameSetSameSorted(a: Manifest, b: Manifest)
    requires Validated(a) && Validated(b) && EntrySet(a) == EntrySet(b)
    ensures Canonical(a) == Canonical(b)
  {
    var x, y := Entries(a.artifacts), Entries(b.artifacts);
    forall e ensures multiset(x)[e] == multiset(y)[e] {
      SetIsMultiset(a, e);
      SetIsMultiset(b, e);
    }
    assert multiset(x) == multiset(y);
    EntryOrder();
    SortOrdered(x, EntryLeq);
    SortOrdered(y, EntryLeq);
    OrderedUnique(Canonical(a), Canonical(b), EntryLeq);
  }

  /** Neither declared order nor anything but the covered triples matters, validated or not. */
  lemma {:induction false} OrderIsIrrelevant(m: Manifest, artifacts: seq<Artifact>)
    requires multiset(Entries(artifacts)) == multiset(Entries(m.artifacts))
    ensures Encode(m.(artifacts := artifacts)) == Encode(m)
  {
    EntryOrder();
    SortOrdered(Entries(artifacts), EntryLeq);
    SortOrdered(Entries(m.artifacts), EntryLeq);
    OrderedUnique(Canonical(m.(artifacts := artifacts)), Canonical(m), EntryLeq);
  }

  /** Distinct paths are needed: a repeated artifact changes the stream but not the set. */
  lemma {:induction false} RepetitionChangesTheStream(m: Manifest, a: Artifact)
    requires m.artifacts == [a]
    ensures var twice := m.(artifacts := [a, a]);
      EntrySet(twice) == EntrySet(m) && Encode(twice) != Encode(m) && !ValidArtifacts(twice.artifacts)
  {
    var twice := m.(artifacts := [a, a]);
    var e := EntryOf(a);
    assert Entries(m.artifacts) == [e] && Entries(twice.artifacts) == [e, e];
    assert EntrySet(m) == {e} && EntrySet(twice) == {e};
    assert [e, e][1..] == [e] && [e][1..] == [];
    assert Sort([e], EntryLeq) == [e];
    assert Sort([e, e], EntryLeq) == [e, e];
    assert |Encode(twice)| == |Encode(m)| + |Record(e)|;
    assert !Compatible(twice.artifacts[0].path, twice.artifacts[1].path);
  }

  // ----- Feeding the digest -----

  /** `artifact_fingerprint` up to the hash: sort, then feed piece by piece. */
  method FeedDigest(m: Manifest) returns (fed: Text)
    ensures fed == Encode(m)
  {
    var artifacts := Sort(Entries(m.artifacts), EntryLeq);
    fed := m.id + [0] + m.revision;
    ghost var header := fed;
    for i := 0 to |artifacts|
      invariant fed == header + Records(artifacts[..i])
    {
      NextRecord(header, artifacts, i);
      fed := FeedRecord(fed, artifacts[i]);
    }
    assert artifacts[..|artifacts|] == artifacts;
  }

  method FeedRecord(before: Text, e: Entry) returns (fed: Text)
    ensures fed == before + Record(e)
  {
    FedRecord(before, e);
    fed := before + [0] + e.path;
    fed := fed + [0] + e.sha256;
    fed := fed + [0] + LittleEndian(e.size, 8);
  }

  lemma {:induction false} FedRecord(fed: Text, e: Entry)
    ensures fed + [0] + e.path + [0] + e.sha256 + [0] + LittleEndian(e.size, 8) == fed + Record(e)
  {}

  lemma {:induction false} NextRecord(header: Text, entries: seq<Entry>, i: nat)
    requires i < |entries|
    ensures header + Records(entries[..i]) + Record(entries[i]) == header + Records(entries[..i + 1])
  {
    RecordsSnoc(entries[..i], entries[i]);
    assert entries[..i + 1] == entries[..i] + [entries[i]];
  }

  lemma {:induction false} RecordsSnoc(entries: seq<Entry>, e: Entry)
    ensures Records(entries + [e]) == Records(entries) + Record(e)
  {
    if entries == [] {
      assert [e][1..] == [] && entries + [e] == [e];
    } else {
      RecordsSnoc(entries[1..], e);
      assert (entries + [e])[1..] == entries[1..] + [e];
    }
  }
}
