/**
  The manifest checks that give artifact identities their shape: identifiers, revisions, digests,
  relative paths, and the rules between the paths of one manifest. Texts are byte strings.
 */
module ManifestRules {
  import opened EmbeddingCore

  type Text = seq<Byte>

  const SLASH: Byte := 47
  const DOT: Byte := 46
  const SPACE: Byte := 32

  /** `urlAccepted` is what the URL checks of an artifact concluded. */
  datatype Artifact = Artifact(path: Text, sha256: Text, size: nat, urlAccepted: bool)

  predicate IsDigit(b: Byte) { 48 <= b <= 57 }
  predicate IsUpper(b: Byte) { 65 <= b <= 90 }
  predicate IsLower(b: Byte) { 97 <= b <= 122 }

  predicate IsLowerHex(b: Byte) {
    IsDigit(b) || 97 <= b <= 102
  }

  /** Letters, digits, `-`, `_` and `.`. */
  predicate IsNameByte(b: Byte) {
    IsDigit(b) || IsUpper(b) || IsLower(b) || b == 45 || b == 95 || b == DOT
  }

  predicate All(p: Byte -> bool, s: Text) {
    forall i :: 0 <= i < |s| ==> p(s[i])
  }

  function ToLower(b: Byte): Byte {
    if IsUpper(b) then b + 32 else b
  }

  function Lowercase(s: Text): (r: Text)
    ensures |r| == |s| && forall i :: 0 <= i < |s| ==> r[i] == ToLower(s[i])
  {
    seq(|s|, i requires 0 <= i < |s| => ToLower(s[i]))
  }

  function Ascii(s: string): (r: Text)
    ensures |r| == |s|
  {
    seq(|s|, i requires 0 <= i < |s| => (s[i] as int) % 256)
  }

  function Find(b: Byte, s: Text): (n: nat)
    ensures n <= |s| && (n < |s| ==> s[n] == b) && forall i :: 0 <= i < n ==> s[i] != b
  {
    if s == [] || s[0] == b then 0 else 1 + Find(b, s[1..])
  }

  function Split(s: Text): (parts: seq<Text>)
    ensures parts != []
    decreases |s|
  {
    var n := Find(SLASH, s);
    if n < |s| then [s[..n]] + Split(s[n + 1..]) else [s]
  }

  predicate ValidIdPart(part: Text) {
    part != [] && part != [DOT] && part != [DOT, DOT] && All(IsNameByte, part)
  }

  /** `validate_id`. */
  predicate ValidId(id: Text) {
    && 0 < |id| <= 200 && id[0] != SLASH && id[|id| - 1] != SLASH
    && forall i :: 0 <= i < |Split(id)| ==> ValidIdPart(Split(id)[i])
  }

  predicate ValidRevision(revision: Text) {
    |revision| == 40 && All(IsLowerHex, revision)
  }

  predicate ValidDigest(sha256: Text) {
    |sha256| == 64 && All(IsLowerHex, sha256)
  }

  const DEVICES: seq<string> := ["con", "prn", "aux", "nul",
    "com1", "com2", "com3", "com4", "com5", "com6", "com7", "com8", "com9",
    "lpt1", "lpt2", "lpt3", "lpt4", "lpt5", "lpt6", "lpt7", "lpt8", "lpt9"]

  predicate IsDeviceName(part: Text) {
    exists i :: 0 <= i < |DEVICES| && Lowercase(part[..Find(DOT, part)]) == Ascii(DEVICES[i])
  }

  predicate ValidPathPart(part: Text) {
    && 0 < |part| <= 255 && part[|part| - 1] != DOT && part[|part| - 1] != SPACE
    && All(IsNameByte, part) && !IsDeviceName(part)
  }

  /** `validate_relative_path`. */
  predicate ValidPath(path: Text) {
    0 < |path| <= 1024 && forall i :: 0 <= i < |Split(path)| ==> ValidPathPart(Split(path)[i])
  }

  /** `is_path_ancestor`. */
  predicate IsAncestor(parent: Text, child: Text) {
    |parent| < |child| && child[..|parent|] == parent && child[|parent|] == SLASH
  }

  // ----- Character facts -----

  predicate Plain(b: Byte) {
    IsNameByte(b) || b == SLASH
  }

  lemma {:induction false} PartsArePlain(s: Text)
    requires forall i :: 0 <= i < |Split(s)| ==> All(IsNameByte, Split(s)[i])
    ensures All(Plain, s)
    decreases |s|
  {
    var n := Find(SLASH, s);
    if n < |s| {
      var rest := s[n + 1..];
      assert Split(s) == [s[..n]] + Split(rest);
      assert Split(s)[0] == s[..n];
      forall i | 0 <= i < |Split(rest)| ensures All(IsNameByte, Split(rest)[i]) {
        assert Split(rest)[i] == Split(s)[i + 1];
      }
      PartsArePlain(rest);
      forall i | 0 <= i < |s| ensures Plain(s[i]) {
        if i < n { assert s[i] == s[..n][i]; }
        if i > n { assert s[i] == rest[i - n - 1]; }
      }
    } else {
      assert Split(s)[0] == s;
    }
  }

  /** Validated identifiers, revisions, digests and paths never contain the separator byte. */
  lemma {:induction false} ValidTextHasNoZero(id: Text, revision: Text, path: Text, sha256: Text)
    requires ValidId(id) && ValidRevision(revision) && ValidPath(path) && ValidDigest(sha256)
    ensures 0 !in id && 0 !in revision && 0 !in path && 0 !in sha256
  {
    PartsArePlain(id);
    PartsArePlain(path);
  }

  // ----- What the path rules mean -----

  /** One path is an ancestor of another exactly if its components are a proper prefix of the other's. */
  lemma {:induction false} AncestorIsPrefix(parent: Text, child: Text)
    ensures IsAncestor(parent, child) <==>
      |Split(parent)| < |Split(child)| && Split(child)[..|Split(parent)|] == Split(parent)
    decreases |parent|
  {
    var n, m := Find(SLASH, parent), Find(SLASH, child);
    if n < |parent| && m < |child| {
      var p, c := parent[n + 1..], child[m + 1..];
      AncestorIsPrefix(p, c);
      StripFirst(parent, child, n, m);
      assert Split(child)[1..] == Split(c) && Split(parent)[1..] == Split(p);
      ConsPrefix(parent[..n], Split(p), child[..m], Split(c));
    } else if n == |parent| && m < |child| {
      LoneParent(parent, child, m);
    } else if n < |parent| {
      LoneChild(parent, child, n);
    }
  }

  lemma {:induction false} ConsPrefix(x: Text, xs: seq<Text>, y: Text, ys: seq<Text>)
    requires xs != []
    ensures (|[x] + xs| < |[y] + ys| && ([y] + ys)[..|[x] + xs|] == [x] + xs) <==>
      x == y && |xs| < |ys| && ys[..|xs|] == xs
  {
    if |xs| < |ys| {
      assert ([y] + ys)[..1 + |xs|] == [y] + ys[..|xs|];
      assert ([x] + xs)[0] == x && ([x] + xs)[1..] == xs;
      assert ([y] + ys[..|xs|])[0] == y && ([y] + ys[..|xs|])[1..] == ys[..|xs|];
    }
  }

  lemma {:induction false} StripFirst(parent: Text, child: Text, n: nat, m: nat)
    requires n < |parent| && parent[n] == SLASH && forall i :: 0 <= i < n ==> parent[i] != SLASH
    requires m < |child| && child[m] == SLASH && forall i :: 0 <= i < m ==> child[i] != SLASH
    ensures IsAncestor(parent, child) <==> parent[..n] == child[..m] && IsAncestor(parent[n + 1..], child[m + 1..])
  {
    var p, c := parent[n + 1..], child[m + 1..];
    if IsAncestor(parent, child) {
      assert forall i :: 0 <= i < |parent| ==> child[i] == parent[i] by {
        assert forall i :: 0 <= i < |parent| ==> child[..|parent|][i] == parent[i];
      }
      assert n == m;
      assert c[..|p|] == p;
    }
    if parent[..n] == child[..m] && IsAncestor(p, c) {
      assert n == m;
      assert parent == parent[..n] + [SLASH] + p && child == child[..n] + [SLASH] + c;
      assert child[..|parent|] == parent;
    }
  }

  lemma {:induction false} LoneParent(parent: Text, child: Text, m: nat)
    requires SLASH !in parent && m < |child| && child[m] == SLASH && forall i :: 0 <= i < m ==> child[i] != SLASH
    ensures IsAncestor(parent, child) <==> child[..m] == parent
  {
    if IsAncestor(parent, child) {
      assert forall i :: 0 <= i < |parent| ==> child[i] == parent[i] by {
        assert forall i :: 0 <= i < |parent| ==> child[..|parent|][i] == parent[i];
      }
      assert m == |parent|;
    }
  }

  lemma {:induction false} LoneChild(parent: Text, child: Text, n: nat)
    requires n < |parent| && parent[n] == SLASH && SLASH !in child
    ensures !IsAncestor(parent, child)
  {}

  /** An accepted path stays inside its directory: relative, and no component is empty, `.` or `..`. */
  lemma {:induction false} PathsStayInside(path: Text, i: nat)
    requires ValidPath(path) && i < |Split(path)|
    ensures path[0] != SLASH && Split(path)[i] !in {[], [DOT], [DOT, DOT]} && All(Plain, path)
  {
    assert ValidPathPart(Split(path)[i]) && ValidPathPart(Split(path)[0]);
    assert path[0] == SLASH ==> Find(SLASH, path) == 0;
    PartsArePlain(path);
  }

  // ----- One manifest's artifacts together -----

  predicate ValidAlone(a: Artifact) {
    && ValidPath(a.path) && Lowercase(a.path) != Ascii("manifest.json")
    && a.urlAccepted && ValidDigest(a.sha256) && a.size != 0
  }

  /** Two artifacts that can be installed side by side on any supported filesystem. */
  predicate Compatible(a: Text, b: Text) {
    var x, y := Lowercase(a), Lowercase(b);
    x != y && !IsAncestor(x, y) && !IsAncestor(y, x)
  }

  predicate ValidArtifacts(artifacts: seq<Artifact>) {
    && (forall i :: 0 <= i < |artifacts| ==> ValidAlone(artifacts[i]))
    && (forall i, j :: 0 <= i < j < |artifacts| ==> Compatible(artifacts[i].path, artifacts[j].path))
  }

  /** The test of one path against those already accepted. */
  method Clashes(paths: set<Text>, portable: Text) returns (clash: bool)
    ensures clash <==> exists p :: p in paths && p != portable && (IsAncestor(p, portable) || IsAncestor(portable, p))
  {
    var rest := paths;
    while rest != {}
      invariant rest <= paths
      invariant forall p :: p in paths - rest && p != portable ==> !IsAncestor(p, portable) && !IsAncestor(portable, p)
      decreases |rest|
    {
      var p :| p in rest;
      if p != portable && (IsAncestor(p, portable) || IsAncestor(portable, p)) { return true; }
      rest := rest - {p};
    }
    clash := false;
  }

  /** `validate_artifacts`, one pass with a set of portable paths; accepts exactly the valid lists. */
  method ValidateArtifacts(artifacts: seq<Artifact>) returns (accepted: bool)
    ensures accepted <==> ValidArtifacts(artifacts)
  {
    var paths: set<Text> := {};
    for i := 0 to |artifacts|
      invariant ValidArtifacts(artifacts[..i])
      invariant forall p :: p in paths <==> exists k :: 0 <= k < i && Lowercase(artifacts[k].path) == p
    {
      var a := artifacts[i];
      var portable := Lowercase(a.path);
      if !ValidPath(a.path) || portable == Ascii("manifest.json") { return false; }
      if portable in paths {
        ghost var k :| 0 <= k < i && Lowercase(artifacts[k].path) == portable;
        assert !Compatible(artifacts[k].path, artifacts[i].path);
        return false;
      }
      paths := paths + {portable};
      var clash := Clashes(paths, portable);
      if clash {
        ghost var p :| p in paths && p != portable && (IsAncestor(p, portable) || IsAncestor(portable, p));
        ghost var k :| 0 <= k < i && Lowercase(artifacts[k].path) == p;
        assert !Compatible(artifacts[k].path, artifacts[i].path);
        return false;
      }
      if !a.urlAccepted || !ValidDigest(a.sha256) || a.size == 0 { return false; }
      forall k | 0 <= k < i ensures Compatible(artifacts[k].path, a.path) {
        assert Lowercase(artifacts[k].path) in paths;
      }
      OneMore(artifacts, i);
    }
    assert artifacts[..|artifacts|] == artifacts;
    accepted := true;
  }

  lemma {:induction false} OneMore(artifacts: seq<Artifact>, i: nat)
    requires i < |artifacts| && ValidArtifacts(artifacts[..i]) && ValidAlone(artifacts[i])
    requires forall k :: 0 <= k < i ==> Compatible(artifacts[k].path, artifacts[i].path)
    ensures ValidArtifacts(artifacts[..i + 1])
  {}

  /** Accepted lists never repeat a path, even ignoring case. */
  lemma {:induction false} PathsAreDistinct(artifacts: seq<Artifact>, i: nat, j: nat)
    requires ValidArtifacts(artifacts) && i < j < |artifacts|
    ensures artifacts[i].path != artifacts[j].path
  {}
}
