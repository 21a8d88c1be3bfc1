/** Portable names for the entries of a snapshot: only incompatible and colliding names are replaced. */
module SnapshotPaths {
  import opened Wrappers
  import opened VaultPaths

  const PREFIX := "~kb1-"

  /** The platform functions: SHA-256 in hexadecimal, normalisation with lower-casing, and lower-casing. */
  datatype Platform = Platform(hash: string -> string, fold: string -> string, lower: string -> string)

  predicate IsDigit(c: char) { '0' <= c <= '9' }
  predicate IsHex(c: char) { IsDigit(c) || 'a' <= c <= 'f' }
  predicate IsAlnum(c: char) { IsDigit(c) || 'a' <= c <= 'z' || 'A' <= c <= 'Z' }
  predicate IsAscii(text: string) { forall i :: 0 <= i < |text| ==> text[i] < 128 as char }

  function AsciiLower(text: string): (lower: string)
    ensures |lower| == |text|
    ensures forall i :: 0 <= i < |text| ==> lower[i] == LowerChar(text[i])
  {
    seq(|text|, i requires 0 <= i < |text| => LowerChar(text[i]))
  }

  function LowerChar(c: char): char {
    if 'A' <= c <= 'Z' then c + 32 as char else c
  }

  /** What is known of the platform. A folded name can only start with the reserved prefix if the
      lower-cased name does. */
  ghost predicate Lawful(p: Platform) {
    && (forall s: string :: |p.hash(s)| == 64 && forall i :: 0 <= i < 64 ==> IsHex(p.hash(s)[i]))
    && (forall s: string :: IsAscii(s) ==> p.fold(s) == AsciiLower(s))
    && (forall s: string :: PREFIX <= p.fold(s) || PREFIX <= s ==> PREFIX <= p.lower(s))
  }

  /** No two of the names have the same hash. */
  predicate HashSeparates(p: Platform, names: set<string>) {
    forall s, t :: s in names && t in names && p.hash(s) == p.hash(t) ==> s == t
  }

  // ---------------------------------------------------------------------------
  // Names
  // ---------------------------------------------------------------------------

  predicate SafeSegment(segment: string) {
    segment != "" && segment != "." && segment != ".." && '/' !in segment && '\\' !in segment && '\0' !in segment
  }

  /** What `assertSafeSnapshotPath` accepts. */
  predicate SafePath(path: Path) { path != [] && forall i :: 0 <= i < |path| ==> SafeSegment(path[i]) }

  predicate IsInvalidChar(c: char) { c in {'<', '>', ':', '\"', '\\', '|', '?', '*'} || c < 32 as char }

  const RESERVED: set<string> := {"con", "prn", "aux", "nul"}

  predicate IsReservedBase(base: string) {
    var lower := AsciiLower(base);
    || lower in RESERVED
    || (|lower| == 4 && (lower[..3] == "com" || lower[..3] == "lpt")
        && ('1' <= lower[3] <= '9' || lower[3] in {'\U{00B9}', '\U{00B2}', '\U{00B3}'}))
  }

  function BaseName(segment: string): string {
    var dot := IndexOfDot(segment);
    if dot == -1 then segment else segment[..dot]
  }

  predicate IsPortableSnapshotSegment(segment: string) {
    && (forall i :: 0 <= i < |segment| ==> !IsInvalidChar(segment[i]))
    && (segment != "" ==> segment[|segment| - 1] != '.' && segment[|segment| - 1] != ' ')
    && !IsReservedBase(BaseName(segment))
  }

  function LastDot(name: string): (r: int)
    ensures -1 <= r < |name|
    ensures r >= 0 ==> name[r] == '.'
  {
    if name == "" then -1
    else if name[|name| - 1] == '.' then |name| - 1
    else LastDot(name[..|name| - 1])
  }

  function ExtName(segment: string): string {
    var dot := LastDot(segment);
    if dot <= 0 then "" else segment[dot..]
  }

  predicate IsShortExtension(extension: string) {
    2 <= |extension| <= 11 && extension[0] == '.' && forall i :: 1 <= i < |extension| ==> IsAlnum(extension[i])
  }

  function Generated(p: Platform, segment: string): string {
    PREFIX + p.hash(segment) + if IsShortExtension(ExtName(segment)) then ExtName(segment) else ""
  }

  predicate Shared(p: Platform, siblings: set<string>, segment: string) {
    exists other :: other in siblings && other != segment && p.fold(other) == p.fold(segment)
  }

  predicate NeedsMapping(p: Platform, siblings: set<string>, segment: string) {
    !IsPortableSnapshotSegment(segment) || Shared(p, siblings, segment) || PREFIX <= p.lower(segment)
  }

  function PortableName(p: Platform, siblings: set<string>, segment: string): string {
    if NeedsMapping(p, siblings, segment) then Generated(p, segment) else segment
  }

  predicate Collides(p: Platform, siblings: set<string>) {
    exists a, b :: a in siblings && b in siblings && a != b
      && p.fold(PortableName(p, siblings, a)) == p.fold(PortableName(p, siblings, b))
  }

  // ---------------------------------------------------------------------------
  // The tree of names
  // ---------------------------------------------------------------------------

  /** The names directly below `parent`. */
  function Siblings(paths: seq<Path>, parent: Path): set<string> {
    set path | path in paths && parent < path :: path[|parent|]
  }

  /** `path` or something below it was given. */
  predicate Occurs(paths: seq<Path>, path: Path) {
    path != [] && exists q :: q in paths && path <= q
  }

  function MapPath(p: Platform, paths: seq<Path>, path: Path): (mapped: Path)
    ensures |mapped| == |path|
  {
    if path == [] then []
    else
      var parent := path[..|path| - 1];
      MapPath(p, paths, parent) + [PortableName(p, Siblings(paths, parent), path[|path| - 1])]
  }

  ghost predicate AnyCollision(p: Platform, paths: seq<Path>) {
    exists parent: Path :: Collides(p, Siblings(paths, parent))
  }

  predicate HasDuplicates(paths: seq<Path>) {
    exists i, j :: 0 <= i < j < |paths| && paths[i] == paths[j]
  }

  datatype Error = Unsafe | Duplicate | Collision

  // ---------------------------------------------------------------------------
  // Counting folded names
  // ---------------------------------------------------------------------------

  ghost predicate Counted(p: Platform, names: set<string>, counts: map<string, nat>) {
    && (forall s :: s in names ==> p.fold(s) in counts && (counts[p.fold(s)] > 1 <==> Shared(p, names, s)))
    && (forall k :: k in counts ==> counts[k] > 0 && exists s :: s in names && p.fold(s) == k)
  }

  function CountedOnce(counts: map<string, nat>, key: string): map<string, nat> {
    counts[key := (if key in counts then counts[key] else 0) + 1]
  }

  lemma CountOneMore(p: Platform, names: set<string>, segment: string, counts: map<string, nat>, s: string)
    requires segment !in names && Counted(p, names, counts) && s in names + {segment}
    ensures var next := CountedOnce(counts, p.fold(segment));
      p.fold(s) in next && (next[p.fold(s)] > 1 <==> Shared(p, names + {segment}, s))
  {
    SharedWithMore(p, names, segment, s);
    var key := p.fold(segment);
    if s == segment {
      if key in counts {
        var other :| other in names && p.fold(other) == key;
        assert Shared(p, names + {segment}, s) by { assert other in names + {segment}; }
      }
      hide Shared;
    }
  }

  lemma CountOne(p: Platform, names: set<string>, segment: string, counts: map<string, nat>)
    requires segment !in names && Counted(p, names, counts)
    ensures Counted(p, names + {segment}, CountedOnce(counts, p.fold(segment)))
  {
    var key, more := p.fold(segment), names + {segment};
    var next := CountedOnce(counts, key);
    forall k | k in next
      ensures next[k] > 0 && exists s :: s in more && p.fold(s) == k
    {
      if k == key {
        assert segment in more;
      } else {
        var s :| s in names && p.fold(s) == k;
        assert s in more;
      }
    }
    forall s | s in more
      ensures p.fold(s) in next && (next[p.fold(s)] > 1 <==> Shared(p, more, s))
    {
      CountOneMore(p, names, segment, counts, s);
    }
    hide Shared, CountedOnce;
  }

  lemma CountedMeans(p: Platform, names: set<string>, counts: map<string, nat>)
    ensures Counted(p, {}, map[])
    ensures Counted(p, names, counts) ==>
      forall s :: s in names ==> p.fold(s) in counts && (counts[p.fold(s)] > 1 <==> Shared(p, names, s))
  {
    hide Shared;
  }

  lemma SharedWithMore(p: Platform, names: set<string>, segment: string, s: string)
    requires segment !in names && s in names + {segment}
    ensures Shared(p, names + {segment}, s) <==>
      Shared(p, names, s) || (s != segment && p.fold(s) == p.fold(segment))
  {
    if Shared(p, names, s) {
      var other :| other in names && other != s && p.fold(other) == p.fold(s);
      assert other in names + {segment};
    }
    if s != segment && p.fold(s) == p.fold(segment) {
      assert segment in names + {segment};
    }
  }

  /** How often each folded name occurs among the siblings: more than once exactly for a shared name. */
  method CountFolded(p: Platform, siblings: set<string>) returns (counts: map<string, nat>)
    ensures forall s :: s in siblings ==> p.fold(s) in counts && (counts[p.fold(s)] > 1 <==> Shared(p, siblings, s))
  {
    hide Counted, Shared;
    counts := map[];
    var rest := siblings;
    CountedMeans(p, {}, counts);
    assert siblings - rest == {};
    while rest != {}
      invariant rest <= siblings && Counted(p, siblings - rest, counts)
      decreases rest
    {
      var segment :| segment in rest;
      CountOne(p, siblings - rest, segment, counts);
      assert siblings - (rest - {segment}) == (siblings - rest) + {segment};
      var key := p.fold(segment);
      counts := counts[key := (if key in counts then counts[key] else 0) + 1];
      rest := rest - {segment};
    }
    assert siblings - rest == siblings;
    CountedMeans(p, siblings, counts);
  }

  // ---------------------------------------------------------------------------
  // Visiting the tree
  // ---------------------------------------------------------------------------

  /** The original paths strictly below `parent` through one of `segments`. */
  ghost predicate Under(paths: seq<Path>, parent: Path, segments: set<string>, path: Path) {
    Occurs(paths, path) && parent < path && path[|parent|] in segments
  }

  /** Names of a directory strictly below `parent` through one of `segments` collide. */
  ghost predicate CollisionUnder(p: Platform, paths: seq<Path>, parent: Path, segments: set<string>) {
    exists q: Path :: parent < q && q[|parent|] in segments && Collides(p, Siblings(paths, q))
  }

  /** `result` is `mapped` with every path below `parent` through `segments` mapped. */
  ghost predicate Filled(p: Platform, paths: seq<Path>, parent: Path, segments: set<string>,
                         mapped: map<Path, Path>, result: map<Path, Path>) {
    && (forall q: Path :: q in result <==> q in mapped || Under(paths, parent, segments, q))
    && (forall q :: q in result ==>
          result[q] == if Under(paths, parent, segments, q) then MapPath(p, paths, q) else mapped[q])
  }

  ghost predicate AllDistinct(p: Platform, siblings: set<string>, names: set<string>, used: set<string>) {
    && (forall s :: s in names ==> p.fold(PortableName(p, siblings, s)) in used)
    && (forall k :: k in used ==> exists s :: s in names && p.fold(PortableName(p, siblings, s)) == k)
    && (forall a, b :: a in names && b in names && a != b ==>
          p.fold(PortableName(p, siblings, a)) != p.fold(PortableName(p, siblings, b)))
  }

  lemma UseName(p: Platform, siblings: set<string>, names: set<string>, used: set<string>, segment: string)
    requires AllDistinct(p, siblings, names, used) && names <= siblings && segment in siblings - names
    ensures var key := p.fold(PortableName(p, siblings, segment));
      if key in used then Collides(p, siblings) else AllDistinct(p, siblings, names + {segment}, used + {key})
  {
    hide PortableName;
    var key := p.fold(PortableName(p, siblings, segment));
    if key in used {
      var s :| s in names && p.fold(PortableName(p, siblings, s)) == key;
      assert s in siblings && segment in siblings && s != segment;
    } else {
      forall k | k in used + {key}
        ensures exists s :: s in names + {segment} && p.fold(PortableName(p, siblings, s)) == k
      {
        if k != key {
          var s :| s in names && p.fold(PortableName(p, siblings, s)) == k;
          assert s in names + {segment};
        } else {
          assert segment in names + {segment};
        }
      }
    }
  }

  /** Everything below `parent` through one more name is that name's path and everything below it. */
  lemma UnderOneMore(paths: seq<Path>, parent: Path, names: set<string>, segment: string, q: Path)
    requires segment in Siblings(paths, parent)
    ensures Under(paths, parent, names + {segment}, q) <==>
      Under(paths, parent, names, q) || q == parent + [segment]
      || Under(paths, parent + [segment], Siblings(paths, parent + [segment]), q)
  {
    var original := parent + [segment];
    var path :| path in paths && parent < path && path[|parent|] == segment;
    assert original <= path && original[|parent|] == segment && parent < original;
    if Occurs(paths, q) && parent < q && q[|parent|] == segment && q != original {
      assert original < q;
      var r :| r in paths && q <= r;
      assert original < r && r[|original|] == q[|original|];
    }
  }

  lemma CollisionOneMore(p: Platform, paths: seq<Path>, parent: Path, names: set<string>, segment: string)
    ensures CollisionUnder(p, paths, parent, names + {segment}) <==>
      CollisionUnder(p, paths, parent, names) || Collides(p, Siblings(paths, parent + [segment]))
      || CollisionUnder(p, paths, parent + [segment], Siblings(paths, parent + [segment]))
  {
    hide Collides;
    var original := parent + [segment];
    assert parent < original && original[|parent|] == segment;
    if CollisionUnder(p, paths, parent, names + {segment}) {
      var q :| parent < q && q[|parent|] in names + {segment} && Collides(p, Siblings(paths, q));
      if q[|parent|] == segment && q != original {
        assert original < q;
        CollidingIsInhabited(p, paths, q);
        var r :| r in paths && q < r;
        assert r[|original|] == q[|original|];
      }
    }
    if CollisionUnder(p, paths, original, Siblings(paths, original)) {
      var q :| original < q && q[|original|] in Siblings(paths, original) && Collides(p, Siblings(paths, q));
      assert parent < q && q[|parent|] == segment;
    }
  }

  lemma CollidingIsInhabited(p: Platform, paths: seq<Path>, q: Path)
    requires Collides(p, Siblings(paths, q))
    ensures exists r :: r in paths && q < r
  {
    var a :| a in Siblings(paths, q);
  }

  lemma FillOneMore(p: Platform, paths: seq<Path>, parent: Path, names: set<string>, segment: string,
                    mapped: map<Path, Path>, result: map<Path, Path>, deeper: map<Path, Path>)
    requires segment in Siblings(paths, parent) - names && Filled(p, paths, parent, names, mapped, result)
    requires var original := parent + [segment];
      Filled(p, paths, original, Siblings(paths, original), result[original := MapPath(p, paths, original)], deeper)
    ensures Filled(p, paths, parent, names + {segment}, mapped, deeper)
  {
    var original := parent + [segment];
    forall q: Path
      ensures q in deeper <==> q in mapped || Under(paths, parent, names + {segment}, q)
      ensures q in deeper ==>
        deeper[q] == if Under(paths, parent, names + {segment}, q) then MapPath(p, paths, q) else mapped[q]
    {
      UnderOneMore(paths, parent, names, segment, q);
      hide Under, MapPath, Siblings;
    }
  }

  method Visit(p: Platform, children: map<Path, set<string>>, parent: Path, mappedParent: Path, mapped: map<Path, Path>,
               ghost paths: seq<Path>, ghost depth: nat)
    returns (r: Result<map<Path, Path>, Error>)
    requires forall q: Path :: Siblings(paths, q) == if q in children then children[q] else {}
    requires forall q :: q in paths ==> |q| <= depth
    requires |parent| <= depth && mappedParent == MapPath(p, paths, parent)
    ensures r.Ok? <==> !Collides(p, Siblings(paths, parent))
                       && !CollisionUnder(p, paths, parent, Siblings(paths, parent))
    ensures r.Err? ==> r.error == Collision
    ensures r.Ok? ==> Filled(p, paths, parent, Siblings(paths, parent), mapped, r.value)
    decreases depth - |parent|
  {
    hide AllDistinct, CollisionUnder, Filled, Collides, Siblings, Generated, Shared, IsPortableSnapshotSegment;
    hide Under, Occurs, MapPath;
    var siblings := if parent in children then children[parent] else {};
    var counts := CountFolded(p, siblings);
    var used: set<string> := {};
    var rest := siblings;
    var result := mapped;
    NothingVisited(p, paths, parent, siblings, mapped);
    assert siblings - rest == {};
    while rest != {}
      invariant rest <= siblings
      invariant AllDistinct(p, siblings, siblings - rest, used)
      invariant !CollisionUnder(p, paths, parent, siblings - rest)
      invariant Filled(p, paths, parent, siblings - rest, mapped, result)
      decreases rest
    {
      var segment :| segment in rest;
      var needsMapping := !IsPortableSnapshotSegment(segment) || counts[p.fold(segment)] > 1 || PREFIX <= p.lower(segment);
      var portable := if needsMapping then Generated(p, segment) else segment;
      assert portable == PortableName(p, siblings, segment);
      var key := p.fold(portable);
      UseName(p, siblings, siblings - rest, used, segment);
      if key in used {
        return Err(Collision);
      }
      used := used + {key};
      var original, mappedPath := parent + [segment], mappedParent + [portable];
      ChildOf(p, paths, parent, segment, depth);
      CollisionOneMore(p, paths, parent, siblings - rest, segment);
      assert siblings - (rest - {segment}) == (siblings - rest) + {segment};
      var deeper := Visit(p, children, original, mappedPath, result[original := mappedPath], paths, depth);
      if deeper.Err? {
        CollisionMonotone(p, paths, parent, (siblings - rest) + {segment}, siblings);
        return deeper;
      }
      FillOneMore(p, paths, parent, siblings - rest, segment, mapped, result, deeper.value);
      result := deeper.value;
      rest := rest - {segment};
    }
    assert siblings - rest == siblings;
    DistinctDoNotCollide(p, siblings, used);
    r := Ok(result);
  }

  lemma NothingVisited(p: Platform, paths: seq<Path>, parent: Path, siblings: set<string>, mapped: map<Path, Path>)
    ensures AllDistinct(p, siblings, {}, {}) && !CollisionUnder(p, paths, parent, {})
    ensures Filled(p, paths, parent, {}, mapped, mapped)
  {
    hide Occurs, MapPath, Collides;
  }

  lemma DistinctDoNotCollide(p: Platform, siblings: set<string>, used: set<string>)
    requires AllDistinct(p, siblings, siblings, used)
    ensures !Collides(p, siblings)
  {
    hide PortableName;
  }

  lemma CollisionMonotone(p: Platform, paths: seq<Path>, parent: Path, names: set<string>, more: set<string>)
    requires names <= more && CollisionUnder(p, paths, parent, names)
    ensures CollisionUnder(p, paths, parent, more)
  {
  }

  lemma ChildOf(p: Platform, paths: seq<Path>, parent: Path, segment: string, depth: nat)
    requires segment in Siblings(paths, parent) && forall q :: q in paths ==> |q| <= depth
    ensures |parent| < depth
    ensures MapPath(p, paths, parent + [segment]) ==
      MapPath(p, paths, parent) + [PortableName(p, Siblings(paths, parent), segment)]
  {
    var original := parent + [segment];
    assert original[..|original| - 1] == parent;
  }

  // ---------------------------------------------------------------------------
  // The whole mapping
  // ---------------------------------------------------------------------------

  /** The names of `children` are those of `paths`, and of the first `upto` segments of `path`. */
  ghost predicate ChildrenAre(children: map<Path, set<string>>, paths: seq<Path>, path: Path, upto: nat) {
    forall q: Path ::
      (if q in children then children[q] else {}) ==
        Siblings(paths, q) + if q < path && |q| < upto then {path[|q|]} else {}
  }

  lemma SiblingsGrow(paths: seq<Path>, path: Path, q: Path)
    ensures Siblings(paths + [path], q) == Siblings(paths, q) + if q < path then {path[|q|]} else {}
  {
  }

  lemma ChildrenGrow(children: map<Path, set<string>>, paths: seq<Path>, path: Path)
    requires ChildrenAre(children, paths, path, |path|)
    ensures forall next :: ChildrenAre(children, paths + [path], next, 0)
  {
    forall q: Path
      ensures Siblings(paths + [path], q) == Siblings(paths, q) + if q < path then {path[|q|]} else {}
    {
      SiblingsGrow(paths, path, q);
    }
    hide Siblings;
  }

  lemma AddChild(children: map<Path, set<string>>, paths: seq<Path>, path: Path, k: nat)
    requires k < |path| && ChildrenAre(children, paths, path, k)
    ensures var siblings := (if path[..k] in children then children[path[..k]] else {}) + {path[k]};
      ChildrenAre(children[path[..k] := siblings], paths, path, k + 1)
  {
    hide Siblings;
    forall q: Path | q < path && |q| == k
      ensures q == path[..k]
    {
    }
  }

  function MaxLength(paths: seq<Path>): (n: nat)
    ensures forall q :: q in paths ==> |q| <= n
  {
    if paths == [] then 0
    else
      var rest := MaxLength(paths[1..]);
      assert paths == [paths[0]] + paths[1..];
      if |paths[0]| > rest then |paths[0]| else rest
  }

  lemma CollisionAnywhere(p: Platform, paths: seq<Path>)
    ensures AnyCollision(p, paths) <==>
      Collides(p, Siblings(paths, [])) || CollisionUnder(p, paths, [], Siblings(paths, []))
  {
    if AnyCollision(p, paths) {
      var parent: Path :| Collides(p, Siblings(paths, parent));
      if parent != [] {
        CollidingIsInhabited(p, paths, parent);
        var r :| r in paths && parent < r;
        assert [] < r && r[0] == parent[0];
        assert parent[0] in Siblings(paths, []);
        assert [] < parent;
      }
    }
  }

  lemma UnderTheTop(paths: seq<Path>, q: Path)
    ensures Under(paths, [], Siblings(paths, []), q) <==> Occurs(paths, q)
  {
    if Occurs(paths, q) {
      var r :| r in paths && q <= r;
      assert [] < r && r[0] == q[0];
    }
  }

  lemma NoDuplicatesSoFar(paths: seq<Path>, n: nat)
    requires n < |paths| && !HasDuplicates(paths[..n])
    ensures HasDuplicates(paths[..n + 1]) <==> paths[n] in paths[..n]
  {
    var more := paths[..n + 1];
    assert forall i :: 0 <= i < n ==> more[i] == paths[..n][i];
    if paths[n] in paths[..n] {
      var i :| 0 <= i < n && paths[..n][i] == paths[n];
      assert more[i] == more[n];
    }
  }

  lemma DuplicatesStay(paths: seq<Path>, n: nat)
    requires n <= |paths| && HasDuplicates(paths[..n])
    ensures HasDuplicates(paths)
  {
    var i, j :| 0 <= i < j < n && paths[..n][i] == paths[..n][j];
    assert paths[i] == paths[j];
  }

  /** The names below each directory, for safe and distinct paths only. */
  method CollectChildren(paths: seq<Path>) returns (r: Result<map<Path, set<string>>, Error>)
    ensures r.Ok? <==> (forall q :: q in paths ==> SafePath(q)) && !HasDuplicates(paths)
    ensures r.Err? ==> r.error != Collision
    ensures r.Ok? ==> forall q: Path :: Siblings(paths, q) == if q in r.value then r.value[q] else {}
  {
    hide Siblings, HasDuplicates, ChildrenAre, SafePath;
    var children: map<Path, set<string>> := map[];
    var declared: set<Path> := {};
    NoChildren();
    for n := 0 to |paths|
      invariant forall next :: ChildrenAre(children, paths[..n], next, 0)
      invariant declared == set q | q in paths[..n]
      invariant forall q :: q in paths[..n] ==> SafePath(q)
      invariant !HasDuplicates(paths[..n])
    {
      var path := paths[n];
      if !SafePath(path) {
        return Err(Unsafe);
      }
      NoDuplicatesSoFar(paths, n);
      if path in declared {
        DuplicatesStay(paths, n + 1);
        return Err(Duplicate);
      }
      declared := declared + {path};
      children := AddPath(children, path, paths[..n]);
      assert paths[..n + 1] == paths[..n] + [path];
    }
    assert paths[..|paths|] == paths;
    ChildrenDone(children, paths);
    r := Ok(children);
  }

  method AddPath(before: map<Path, set<string>>, path: Path, ghost paths: seq<Path>) returns (children: map<Path, set<string>>)
    requires ChildrenAre(before, paths, path, 0)
    ensures forall next :: ChildrenAre(children, paths + [path], next, 0)
  {
    hide ChildrenAre;
    children := before;
    var parent: Path := [];
    for k := 0 to |path|
      invariant parent == path[..k]
      invariant ChildrenAre(children, paths, path, k)
    {
      AddChild(children, paths, path, k);
      var siblings := (if parent in children then children[parent] else {}) + {path[k]};
      children := children[parent := siblings];
      parent := parent + [path[k]];
    }
    ChildrenGrow(children, paths, path);
  }

  /** The mapping succeeds exactly for safe, distinct paths without colliding names. Its domain is exactly
      the paths that occur, that is all non-empty prefixes of the given ones. */
  method PortableSnapshotPaths(p: Platform, paths: seq<Path>) returns (r: Result<map<Path, Path>, Error>)
    ensures r.Ok? <==> (forall q :: q in paths ==> SafePath(q)) && !HasDuplicates(paths) && !AnyCollision(p, paths)
    ensures r.Ok? ==> forall q: Path :: q in r.value <==> Occurs(paths, q)
    ensures r.Ok? ==> forall q :: q in r.value ==> r.value[q] == MapPath(p, paths, q)
  {
    hide Siblings, Occurs, Under, Collides, MapPath, HasDuplicates, CollisionUnder, AnyCollision, SafePath, Filled;
    var collected := CollectChildren(paths);
    if collected.Err? {
      return Err(collected.error);
    }
    EmptyIsRoot(p, paths);
    r := Visit(p, collected.value, [], [], map[], paths, MaxLength(paths));
    CollisionAnywhere(p, paths);
    if r.Ok? {
      VisitedAll(p, paths, r.value);
    }
  }

  lemma NoChildren()
    ensures forall next :: ChildrenAre(map[], [], next, 0)
    ensures !HasDuplicates([])
  {
  }

  lemma ChildrenDone(children: map<Path, set<string>>, paths: seq<Path>)
    requires forall next :: ChildrenAre(children, paths, next, 0)
    ensures forall q: Path :: Siblings(paths, q) == if q in children then children[q] else {}
  {
    hide Siblings;
    assert ChildrenAre(children, paths, [], 0);
  }

  lemma EmptyIsRoot(p: Platform, paths: seq<Path>)
    ensures MapPath(p, paths, []) == []
  {
  }

  lemma VisitedAll(p: Platform, paths: seq<Path>, mapped: map<Path, Path>)
    requires Filled(p, paths, [], Siblings(paths, []), map[], mapped)
    ensures forall q: Path :: q in mapped <==> Occurs(paths, q)
    ensures forall q :: q in mapped ==> mapped[q] == MapPath(p, paths, q)
  {
    forall q: Path
      ensures Under(paths, [], Siblings(paths, []), q) <==> Occurs(paths, q)
    {
      UnderTheTop(paths, q);
    }
    hide Under, Occurs, MapPath, Siblings;
  }

  // ---------------------------------------------------------------------------
  // What the mapping guarantees
  // ---------------------------------------------------------------------------

  function FoldPath(p: Platform, path: Path): (folded: Path)
    ensures |folded| == |path| && forall i :: 0 <= i < |path| ==> folded[i] == p.fold(path[i])
  {
    seq(|path|, i requires 0 <= i < |path| => p.fold(path[i]))
  }

  /** The image of a path continues the image of each of its prefixes: the mapping is a map of trees. */
  lemma {:induction false} ImageOfPrefix(p: Platform, paths: seq<Path>, path: Path, k: nat)
    requires k <= |path|
    ensures MapPath(p, paths, path)[..k] == MapPath(p, paths, path[..k])
  {
    var image := MapPath(p, paths, path);
    if k == |path| {
      assert path[..k] == path && image[..k] == image;
    } else {
      var parent := path[..|path| - 1];
      ImageOfPrefix(p, paths, parent, k);
      assert parent[..k] == path[..k];
      assert image[..k] == MapPath(p, paths, parent)[..k];
    }
  }

  lemma OccursBefore(paths: seq<Path>, path: Path)
    requires Occurs(paths, path)
    ensures var parent := path[..|path| - 1];
      path[|path| - 1] in Siblings(paths, parent) && (parent != [] ==> Occurs(paths, parent))
  {
    var q :| q in paths && path <= q;
    var parent := path[..|path| - 1];
    assert parent < q && q[|parent|] == path[|path| - 1];
  }

  /** Different originals stay different, even on a file system that ignores case and normalises names. */
  lemma {:induction false} ImagesStayDistinct(p: Platform, paths: seq<Path>, a: Path, b: Path)
    requires !AnyCollision(p, paths) && Occurs(paths, a) && Occurs(paths, b) && a != b
    ensures FoldPath(p, MapPath(p, paths, a)) != FoldPath(p, MapPath(p, paths, b))
    decreases |a|
  {
    if |a| == |b| {
      var n := |a| - 1;
      var up, other := a[..n], b[..n];
      assert a == up + [a[n]] && b == other + [b[n]];
      OccursBefore(paths, a);
      OccursBefore(paths, b);
      var left, right := FoldPath(p, MapPath(p, paths, a)), FoldPath(p, MapPath(p, paths, b));
      assert left[..n] == FoldPath(p, MapPath(p, paths, up));
      assert right[..n] == FoldPath(p, MapPath(p, paths, other));
      if up != other {
        ImagesStayDistinct(p, paths, up, other);
      } else {
        assert !Collides(p, Siblings(paths, up));
        hide Collides, Siblings;
        NotColliding(p, Siblings(paths, up), a[n], b[n]);
        assert left[n] != right[n];
      }
    }
  }

  lemma NotColliding(p: Platform, siblings: set<string>, a: string, b: string)
    requires !Collides(p, siblings) && a in siblings && b in siblings && a != b
    ensures p.fold(PortableName(p, siblings, a)) != p.fold(PortableName(p, siblings, b))
  {
    hide PortableName;
  }

  lemma GeneratedParts(p: Platform, segment: string)
    requires Lawful(p)
    ensures var g, extension := Generated(p, segment), ExtName(segment);
      && |g| >= 69 && g[..5] == PREFIX && g[5..69] == p.hash(segment)
      && (IsShortExtension(extension) ==> g[69..] == extension)
      && (!IsShortExtension(extension) ==> |g| == 69)
  {
    hide IsShortExtension, ExtName;
    var g := Generated(p, segment);
    assert g == PREFIX + (p.hash(segment) + if IsShortExtension(ExtName(segment)) then ExtName(segment) else "");
  }

  predicate IsGeneratedChar(c: char) { IsAlnum(c) || c == '~' || c == '-' || c == '.' }

  lemma GeneratedChars(p: Platform, segment: string)
    requires Lawful(p)
    ensures var g := Generated(p, segment);
      && (forall i :: 0 <= i < |g| ==> IsGeneratedChar(g[i]))
      && (g[|g| - 1] != '.') && IsAscii(g)
  {
    GeneratedParts(p, segment);
    var g := Generated(p, segment);
    hide ExtName;
    forall i | 0 <= i < |g|
      ensures IsGeneratedChar(g[i]) && (i == |g| - 1 ==> g[i] != '.')
    {
      if i < 5 {
        assert g[i] == g[..5][i];
      } else if i < 69 {
        assert g[i] == g[5..69][i - 5];
        assert IsHex(p.hash(segment)[i - 5]);
      } else {
        assert g[i] == g[69..][i - 69];
      }
    }
  }

  lemma BaseStarts(name: string)
    requires |name| >= 5 && name[..5] == PREFIX
    ensures |BaseName(name)| >= 5 && BaseName(name)[0] == '~'
  {
    assert forall i :: 0 <= i < 5 ==> name[i] == PREFIX[i];
    var dot := IndexOfDot(name);
  }

  lemma TildeIsNotReserved(base: string)
    requires base != "" && base[0] == '~'
    ensures !IsReservedBase(base)
  {
    var lower := AsciiLower(base);
    assert lower[0] == '~';
    hide AsciiLower;
    assert |lower| == 4 ==> lower[..3][0] == '~';
  }

  /** Every output name can be used on every common file system. */
  lemma OutputIsPortable(p: Platform, siblings: set<string>, segment: string)
    requires Lawful(p)
    ensures IsPortableSnapshotSegment(PortableName(p, siblings, segment))
  {
    if NeedsMapping(p, siblings, segment) {
      var g := Generated(p, segment);
      GeneratedParts(p, segment);
      GeneratedChars(p, segment);
      BaseStarts(g);
      hide Generated, BaseName, IsReservedBase, NeedsMapping;
      TildeIsNotReserved(BaseName(g));
      assert IsGeneratedChar(g[|g| - 1]);
    }
  }

  /** The reserved prefix marks exactly the generated names, so no literal name can pass for one. */
  lemma PrefixMarksGenerated(p: Platform, siblings: set<string>, segment: string)
    requires Lawful(p)
    ensures PREFIX <= PortableName(p, siblings, segment) <==> NeedsMapping(p, siblings, segment)
    ensures !NeedsMapping(p, siblings, segment) ==> PortableName(p, siblings, segment) == segment
  {
    if NeedsMapping(p, siblings, segment) {
      GeneratedParts(p, segment);
    }
  }

  lemma FoldedGenerated(p: Platform, segment: string)
    requires Lawful(p)
    ensures var folded := p.fold(Generated(p, segment));
      |folded| >= 69 && folded[..5] == PREFIX && folded[5..69] == p.hash(segment)
  {
    GeneratedParts(p, segment);
    GeneratedChars(p, segment);
    var g := Generated(p, segment);
    var folded := p.fold(g);
    assert folded == AsciiLower(g);
    hide Generated, IsGeneratedChar;
    forall i | 0 <= i < 69
      ensures folded[i] == g[i]
    {
      if i < 5 {
        assert g[i] == g[..5][i];
      } else {
        assert g[i] == g[5..69][i - 5];
        assert IsHex(p.hash(segment)[i - 5]);
      }
    }
  }

  /** With a hash that tells the names apart, the collision error cannot occur. */
  lemma CollisionIsUnreachable(p: Platform, siblings: set<string>)
    requires Lawful(p) && HashSeparates(p, siblings)
    ensures !Collides(p, siblings)
  {
    forall a, b | a in siblings && b in siblings && a != b
      ensures p.fold(PortableName(p, siblings, a)) != p.fold(PortableName(p, siblings, b))
    {
      FoldedGenerated(p, a);
      FoldedGenerated(p, b);
      hide Generated;
      if p.fold(a) == p.fold(b) {
        assert Shared(p, siblings, a) && Shared(p, siblings, b);
      }
      hide Shared, IsPortableSnapshotSegment;
      assert !NeedsMapping(p, siblings, a) ==> !(PREFIX <= p.fold(a));
      assert !NeedsMapping(p, siblings, b) ==> !(PREFIX <= p.fold(b));
    }
  }

  /** The output names are safe ZIP names as well. */
  lemma OutputIsSafe(p: Platform, siblings: set<string>, segment: string)
    requires Lawful(p) && SafeSegment(segment)
    ensures SafeSegment(PortableName(p, siblings, segment))
  {
    if NeedsMapping(p, siblings, segment) {
      GeneratedChars(p, segment);
      GeneratedParts(p, segment);
    }
  }
}
