/** Folder metadata follows the folders: rekeying a subtree when it moves, dropping it when it is removed. */
module FolderMetadata {
  import opened Wrappers
  import opened VaultPaths

  type Metadata = map<Path, string>

  /** Segment lists stand for the texts that are compared with `relativeDescendantPath`. */
  predicate AtOrBelow(folder: Path, path: Path) { folder <= path }

  lemma AtOrBelowReadsText(folder: Path, path: Path)
    requires folder != [] && path != [] && SlashFree(folder) && SlashFree(path)
    ensures AtOrBelow(folder, path) <==> RelativeDescendantPath(Join(folder), Join(path)).Some?
  {
    RelativeDescendantIsPrefix(folder, path);
  }

  function MovedPath(from: Path, to: Path, path: Path): Path
    requires AtOrBelow(from, path)
  {
    to + path[|from|..]
  }

  predicate Apart(from: Path, to: Path) { !AtOrBelow(from, to) && !AtOrBelow(to, from) }

  /** What the metadata of a path is after the move, told from the path itself. */
  function After(metadata: Metadata, from: Path, to: Path, path: Path): Option<string> {
    if AtOrBelow(to, path) then
      var source := from + path[|to|..];
      if source in metadata then Some(metadata[source]) else None
    else if AtOrBelow(from, path) || path !in metadata then None
    else Some(metadata[path])
  }

  /** `next` is the metadata after the move, at every path. */
  ghost predicate IsMove(metadata: Metadata, from: Path, to: Path, next: Metadata) {
    forall q :: (if q in next then Some(next[q]) else None) == After(metadata, from, to, q)
  }

  /** Every key at or below the source is rewritten, those at or below the target are dropped, and the others
      stay; the order of the entries plays no part. */
  method MoveFolderMetadataSubtree(metadata: Metadata, from: Path, to: Path) returns (next: Metadata)
    requires Apart(from, to)
    ensures IsMove(metadata, from, to, next)
  {
    next := map[];
    var rest := metadata;
    while rest != map[]
      invariant rest.Keys <= metadata.Keys && forall q :: q in rest ==> rest[q] == metadata[q]
      invariant IsMove(map p | p in metadata && p !in rest :: metadata[p], from, to, next)
      decreases rest.Keys
    {
      var path :| path in rest;
      ghost var done := map p | p in metadata && p !in rest :: metadata[p];
      OneEntry(done, from, to, path, metadata[path]);
      if AtOrBelow(from, path) {
        next := next[MovedPath(from, to, path) := rest[path]];
      } else if !AtOrBelow(to, path) {
        next := next[path := rest[path]];
      }
      rest := rest - {path};
      assert done[path := metadata[path]] == map p | p in metadata && p !in rest :: metadata[p];
    }
    assert metadata == map p | p in metadata && p !in rest :: metadata[p];
  }

  /** The effect of one more entry. */
  function AfterOne(done: Metadata, from: Path, to: Path, path: Path, value: string, q: Path): Option<string> {
    if AtOrBelow(from, path) then if q == MovedPath(from, to, path) then Some(value) else After(done, from, to, q)
    else if AtOrBelow(to, path) then After(done, from, to, q)
    else if q == path then Some(value) else After(done, from, to, q)
  }

  lemma OneEntry(done: Metadata, from: Path, to: Path, path: Path, value: string)
    requires Apart(from, to) && path !in done
    ensures var more := done[path := value];
      forall q :: After(more, from, to, q) == AfterOne(done, from, to, path, value, q)
  {
    forall q
      ensures After(done[path := value], from, to, q) == AfterOne(done, from, to, path, value, q)
    {
      if AtOrBelow(to, q) && from + q[|to|..] == path {
        assert path[|from|..] == q[|to|..];
        assert q == to + q[|to|..];
      }
      if AtOrBelow(from, path) && q == MovedPath(from, to, path) {
        assert q[|to|..] == path[|from|..];
        assert from + path[|from|..] == path;
      }
    }
  }

  /** No two keys end up as one: different paths at or below the source move to different paths. */
  lemma MovesAreInjective(from: Path, to: Path, p: Path, q: Path)
    requires AtOrBelow(from, p) && AtOrBelow(from, q) && MovedPath(from, to, p) == MovedPath(from, to, q)
    ensures p == q
  {
    assert p[|from|..] == MovedPath(from, to, p)[|to|..] && q[|from|..] == MovedPath(from, to, q)[|to|..];
    assert p == from + p[|from|..] && q == from + q[|from|..];
  }

  /** Moving back restores the metadata exactly when the target had none of its own. */
  lemma MovingBackRestores(metadata: Metadata, from: Path, to: Path, next: Metadata, back: Metadata)
    requires Apart(from, to) && IsMove(metadata, from, to, next) && IsMove(next, to, from, back)
    ensures back == metadata <==> forall p :: p in metadata ==> !AtOrBelow(to, p)
  {
    forall q
      ensures (if q in back then Some(back[q]) else None) == if q in metadata && !AtOrBelow(to, q) then Some(metadata[q]) else None
    {
      assert (if q in back then Some(back[q]) else None) == After(next, to, from, q);
      if AtOrBelow(from, q) {
        var there := to + q[|from|..];
        assert (if there in next then Some(next[there]) else None) == After(metadata, from, to, there);
        assert there[|to|..] == q[|from|..] && from + q[|from|..] == q;
      } else {
        assert (if q in next then Some(next[q]) else None) == After(metadata, from, to, q);
      }
    }
    if forall p :: p in metadata ==> !AtOrBelow(to, p) {
      assert forall q :: q in back <==> q in metadata;
      assert back == metadata;
    }
  }

  /** Removing a folder removes exactly its subtree. */
  function RemoveFolderMetadataSubtree(metadata: Metadata, deleted: Path): (next: Metadata)
    ensures forall q :: q in next <==> q in metadata && !AtOrBelow(deleted, q)
    ensures forall q :: q in next ==> next[q] == metadata[q]
  {
    map q | q in metadata && q != deleted && !AtOrBelow(deleted, q) :: metadata[q]
  }

  /** Removing a folder drops exactly the entries whose path texts `relativeDescendantPath` finds at or below it. */
  lemma RemovalFollowsText(metadata: Metadata, deleted: Path, path: Path)
    requires deleted != [] && path != [] && SlashFree(deleted) && SlashFree(path) && path in metadata
    ensures path in RemoveFolderMetadataSubtree(metadata, deleted)
      <==> RelativeDescendantPath(Join(deleted), Join(path)).None?
  {
    AtOrBelowReadsText(deleted, path);
  }

  /** A folder that is removed after a move takes with it what the move brought, and nothing else. */
  lemma RemovingTheMoved(metadata: Metadata, from: Path, to: Path, next: Metadata)
    requires Apart(from, to) && IsMove(metadata, from, to, next)
    ensures RemoveFolderMetadataSubtree(next, to) ==
      RemoveFolderMetadataSubtree(RemoveFolderMetadataSubtree(metadata, from), to)
  {
    var left := RemoveFolderMetadataSubtree(next, to);
    var right := RemoveFolderMetadataSubtree(RemoveFolderMetadataSubtree(metadata, from), to);
    forall q
      ensures (q in left <==> q in right) && (q in left ==> left[q] == right[q])
    {
      assert (if q in next then Some(next[q]) else None) == After(metadata, from, to, q);
    }
  }
}
