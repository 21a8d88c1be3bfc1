/** Planning a snapshot and restoring it gives back the source tree. */
module SnapshotRoundTrip {
  import opened Wrappers
  import opened VaultPaths
  import opened SnapshotPaths
  import opened SnapshotRestore

  /** What a walk of the two roots finds: safe names, every path once, nothing below a file. */
  ghost predicate SourceTree(directories: seq<Path>, files: seq<SourceFile>) {
    && (forall d :: d in directories ==> RestoreRootOk(d))
    && (forall f :: f in files ==> RestoreRootOk(f.path) && |f.path| >= 2)
    && !HasDuplicates(directories) && !HasDuplicates(FilePaths(files))
    && (forall f, d :: f in files && d in directories ==> !(f.path <= d))
    && (forall f, g :: f in files && g in files ==> !(f.path < g.path))
  }

  // ---------------------------------------------------------------------------
  // Planning succeeds
  // ---------------------------------------------------------------------------

  lemma ConcatHasNoDuplicates(left: seq<Path>, right: seq<Path>)
    requires !HasDuplicates(left) && !HasDuplicates(right) && forall q :: q in left ==> q !in right
    ensures !HasDuplicates(left + right)
  {
    var whole := left + right;
    forall i, j | 0 <= i < j < |whole|
      ensures whole[i] != whole[j]
    {
      if j >= |left| && i < |left| {
        assert whole[i] in left && whole[j] in right;
      } else if i >= |left| {
        assert whole[i] == right[i - |left|] && whole[j] == right[j - |left|];
      } else {
        assert whole[i] == left[i] && whole[j] == left[j];
      }
    }
  }

  /** The tree under the two roots can be planned: the only way to fail is a hash collision of siblings. */
  lemma PlanningSucceeds(p: Platform, directories: seq<Path>, files: seq<SourceFile>)
    requires Lawful(p) && SourceTree(directories, files)
    requires forall parent: Path :: HashSeparates(p, Siblings(AllPaths(directories, files), parent))
    ensures var paths := AllPaths(directories, files);
      (forall q :: q in paths ==> SafePath(q)) && !HasDuplicates(paths) && !AnyCollision(p, paths)
  {
    var paths, meta := AllPaths(directories, files), [MANIFEST, COMPLETION, HELP];
    forall q | q in paths
      ensures SafePath(q)
    {
      assert q in meta || q in directories || q in FilePaths(files);
    }
    hide SafePath, HasDuplicates;
    assert !HasDuplicates(meta) by { MetaIsDistinct(); }
    forall d | d in directories
      ensures d !in FilePaths(files) && d !in meta
    {
      assert RestoreRootOk(d);
    }
    forall q | q in FilePaths(files)
      ensures q !in meta
    {
    }
    ConcatHasNoDuplicates(meta, directories);
    ConcatHasNoDuplicates(meta + directories, FilePaths(files));
    forall parent: Path
      ensures !Collides(p, Siblings(paths, parent))
    {
      CollisionIsUnreachable(p, Siblings(paths, parent));
    }
  }

  lemma MetaIsDistinct()
    ensures !HasDuplicates([MANIFEST, COMPLETION, HELP])
  {
    assert MANIFEST[0] != COMPLETION[0] && MANIFEST[0] != HELP[0] && COMPLETION[0] != HELP[0];
  }

  // ---------------------------------------------------------------------------
  // The archive
  // ---------------------------------------------------------------------------

  /** What is known of a planned archive of a source tree. */
  ghost predicate Context(p: Platform, directories: seq<Path>, files: seq<SourceFile>, createdAt: string, archive: Archive) {
    && Lawful(p) && SourceTree(directories, files) && !AnyCollision(p, AllPaths(directories, files))
    && Planned(p, AllPaths(directories, files), directories, files, createdAt, archive)
  }

  lemma ListedCounts(p: Platform, directories: seq<Path>, files: seq<SourceFile>, createdAt: string, archive: Archive)
    requires Context(p, directories, files, createdAt, archive)
    ensures |archive.manifest.directories| == |directories| && |archive.manifest.files| == |files|
  {
    hide MapPath, SourceTree, AnyCollision, Lawful, AllPaths;
  }

  /** The restore path of every item is the path it was planned for. */
  lemma DirectoryKept(p: Platform, directories: seq<Path>, files: seq<SourceFile>, createdAt: string, archive: Archive, i: nat)
    requires Context(p, directories, files, createdAt, archive) && i < |directories|
    ensures |archive.manifest.directories| == |directories|
    ensures var item := archive.manifest.directories[i];
      && RestorePath(item) == directories[i] && item.isDirectory
      && item.path == MapPath(p, AllPaths(directories, files), directories[i])
      && directories[i] in directories && RestoreRootOk(directories[i])
  {
    hide MapPath, AnyCollision, Lawful, AllPaths, RestoreRootOk;
  }

  lemma FileKept(p: Platform, directories: seq<Path>, files: seq<SourceFile>, createdAt: string, archive: Archive, i: nat)
    requires Context(p, directories, files, createdAt, archive) && i < |files|
    ensures |archive.manifest.files| == |files|
    ensures var item := archive.manifest.files[i];
      && RestorePath(item) == files[i].path && !item.isDirectory
      && item.path == MapPath(p, AllPaths(directories, files), files[i].path)
      && item.sizeBytes == |files[i].content| && item.sha256 == p.hash(files[i].content)
      && files[i] in files && RestoreRootOk(files[i].path) && |files[i].path| >= 2
  {
    hide MapPath, AnyCollision, Lawful, AllPaths, RestoreRootOk;
  }

  lemma {:induction false} ImageIsSafe(p: Platform, paths: seq<Path>, path: Path)
    requires Lawful(p) && SafePath(path)
    ensures SafePath(MapPath(p, paths, path))
    decreases |path|
  {
    var n := |path| - 1;
    var parent := path[..n];
    OutputIsSafe(p, Siblings(paths, parent), path[n]);
    if parent != [] {
      assert SafePath(parent);
      ImageIsSafe(p, paths, parent);
    }
    hide SafeSegment, PortableName, Siblings;
  }

  lemma GivenOnce(p: Platform, directories: seq<Path>, files: seq<SourceFile>, a: Path, b: Path)
    requires SourceTree(directories, files) && !AnyCollision(p, AllPaths(directories, files)) && a != b
    requires a in directories || a in FilePaths(files)
    requires b in directories || b in FilePaths(files)
    ensures MapPath(p, AllPaths(directories, files), a) != MapPath(p, AllPaths(directories, files), b)
  {
    var paths := AllPaths(directories, files);
    assert a in paths && b in paths;
    assert SafePath(a) && SafePath(b);
    OccursItself(paths, a);
    OccursItself(paths, b);
    ImagesStayDistinct(p, paths, a, b);
  }

  ghost predicate AllBut(zip: seq<ZipEntry>, other: seq<ZipEntry>) {
    forall e, o :: e in zip && o in other ==> e.name != o.name
  }

  lemma ConcatNames(left: seq<ZipEntry>, right: seq<ZipEntry>)
    requires !HasDuplicateNames(left) && !HasDuplicateNames(right) && AllBut(left, right)
    ensures !HasDuplicateNames(left + right)
  {
    var whole := left + right;
    forall i, j | 0 <= i < j < |whole|
      ensures whole[i].name != whole[j].name
    {
      if j >= |left| && i < |left| {
        assert whole[i] in left && whole[j] in right;
      } else if i >= |left| {
        assert whole[i] == right[i - |left|] && whole[j] == right[j - |left|];
      } else {
        assert whole[i] == left[i] && whole[j] == left[j];
      }
    }
  }

  lemma DirectoryNames(p: Platform, directories: seq<Path>, files: seq<SourceFile>, createdAt: string, archive: Archive)
    requires Context(p, directories, files, createdAt, archive)
    ensures !HasDuplicateNames(DirectoryEntries(archive.manifest.directories))
    ensures forall e :: e in DirectoryEntries(archive.manifest.directories) ==> e.name.isDirectory && SafePath(e.name.path)
  {
    ListedCounts(p, directories, files, createdAt, archive);
    var items, paths := archive.manifest.directories, AllPaths(directories, files);
    assert SourceTree(directories, files) && !AnyCollision(p, paths) && Lawful(p);
    assert !HasDuplicates(directories);
    hide Context, SourceTree, RestorePath, MapPath, Lawful, AnyCollision, SafePath;
    forall i, j | 0 <= i < j < |items|
      ensures items[i].path != items[j].path
    {
      DirectoryKept(p, directories, files, createdAt, archive, i);
      DirectoryKept(p, directories, files, createdAt, archive, j);
      GivenOnce(p, directories, files, directories[i], directories[j]);
    }
    forall i | 0 <= i < |items|
      ensures SafePath(items[i].path) && items[i].isDirectory
    {
      DirectoryKept(p, directories, files, createdAt, archive, i);
      ImageIsSafe(p, paths, directories[i]);
    }
  }

  lemma FileNames(p: Platform, directories: seq<Path>, files: seq<SourceFile>, createdAt: string, archive: Archive)
    requires Context(p, directories, files, createdAt, archive)
    ensures |archive.manifest.files| == |files|
    ensures !HasDuplicateNames(FileEntries(archive.manifest.files, files))
    ensures forall e :: e in FileEntries(archive.manifest.files, files) ==>
      !e.name.isDirectory && SafePath(e.name.path) && |e.name.path| >= 2
  {
    ListedCounts(p, directories, files, createdAt, archive);
    var items, paths := archive.manifest.files, AllPaths(directories, files);
    assert SourceTree(directories, files) && !AnyCollision(p, paths) && Lawful(p);
    assert !HasDuplicates(FilePaths(files));
    hide Context, SourceTree, RestorePath, MapPath, Lawful, AnyCollision, SafePath;
    forall i, j | 0 <= i < j < |items|
      ensures items[i].path != items[j].path
    {
      FileKept(p, directories, files, createdAt, archive, i);
      FileKept(p, directories, files, createdAt, archive, j);
      assert FilePaths(files)[i] != FilePaths(files)[j];
      GivenOnce(p, directories, files, files[i].path, files[j].path);
    }
    forall i | 0 <= i < |items|
      ensures SafePath(items[i].path) && |items[i].path| >= 2 && !items[i].isDirectory
    {
      FileKept(p, directories, files, createdAt, archive, i);
      ImageIsSafe(p, paths, files[i].path);
    }
  }

  function Head(): seq<ZipEntry> { [ZipEntry(Name(MANIFEST, false), ""), ZipEntry(Name(HELP, false), "")] }

  function Tail(createdAt: string): seq<ZipEntry> { [ZipEntry(Name(COMPLETION, false), createdAt + "\n")] }

  lemma MetaIsSafe()
    ensures SafePath(MANIFEST) && SafePath(HELP) && SafePath(COMPLETION)
  {
  }

  lemma MetaNames(createdAt: string)
    ensures !HasDuplicateNames(Head()) && !HasDuplicateNames(Tail(createdAt)) && AllBut(Head(), Tail(createdAt))
    ensures forall e :: e in Head() + Tail(createdAt) ==> SafePath(e.name.path) && |e.name.path| == 1 && !e.name.isDirectory
  {
    MetaIsSafe();
    hide SafePath;
    assert MANIFEST[0] != COMPLETION[0] && MANIFEST[0] != HELP[0] && COMPLETION[0] != HELP[0];
  }

  /** The entries of the archive are safe and pairwise different. */
  lemma ZipIsClean(p: Platform, directories: seq<Path>, files: seq<SourceFile>, createdAt: string, archive: Archive)
    requires Context(p, directories, files, createdAt, archive)
    ensures |archive.manifest.files| == |files|
    ensures archive.zip == Head() + DirectoryEntries(archive.manifest.directories)
      + FileEntries(archive.manifest.files, files) + Tail(createdAt)
    ensures !HasDuplicateNames(archive.zip) && forall e :: e in archive.zip ==> SafePath(e.name.path)
  {
    DirectoryNames(p, directories, files, createdAt, archive);
    FileNames(p, directories, files, createdAt, archive);
    MetaNames(createdAt);
    var head, tail := Head(), Tail(createdAt);
    var middle, last := DirectoryEntries(archive.manifest.directories), FileEntries(archive.manifest.files, files);
    assert archive.zip == head + middle + last + tail;
    hide SafePath, HasDuplicateNames, Context;
    hide Head, Tail, DirectoryEntries, FileEntries;
    assert AllBut(head, middle) && AllBut(head + middle, last) && AllBut(head + middle + last, tail);
    hide AllBut;
    ConcatNames(head, middle);
    ConcatNames(head + middle, last);
    ConcatNames(head + middle + last, tail);
  }

  lemma ZipHolds(zip: seq<ZipEntry>, e: ZipEntry)
    requires e in zip && !HasDuplicateNames(zip)
    ensures e.name in IndexOf(zip) && IndexOf(zip)[e.name] == e.content
  {
    IndexHolds(zip);
    var i :| 0 <= i < |zip| && zip[i] == e;
  }

  /** Every listed item has its entry, with the content it was planned with. */
  lemma DirectoryHasEntry(p: Platform, directories: seq<Path>, files: seq<SourceFile>, createdAt: string, archive: Archive, i: nat)
    requires Context(p, directories, files, createdAt, archive) && i < |directories|
    ensures |archive.manifest.directories| == |directories|
    ensures EntryName(archive.manifest.directories[i]) in IndexOf(archive.zip)
  {
    ListedCounts(p, directories, files, createdAt, archive);
    ZipIsClean(p, directories, files, createdAt, archive);
    hide Context, IndexOf, HasDuplicateNames, SafePath;
    ZipHolds(archive.zip, DirectoryEntries(archive.manifest.directories)[i]);
  }

  lemma FileHasEntry(p: Platform, directories: seq<Path>, files: seq<SourceFile>, createdAt: string, archive: Archive, i: nat)
    requires Context(p, directories, files, createdAt, archive) && i < |files|
    ensures |archive.manifest.files| == |files|
    ensures var name := EntryName(archive.manifest.files[i]);
      name in IndexOf(archive.zip) && IndexOf(archive.zip)[name] == files[i].content
  {
    ZipIsClean(p, directories, files, createdAt, archive);
    hide Context, IndexOf, HasDuplicateNames, SafePath;
    ZipHolds(archive.zip, FileEntries(archive.manifest.files, files)[i]);
  }

  lemma MetaHaveEntries(p: Platform, directories: seq<Path>, files: seq<SourceFile>, createdAt: string, archive: Archive)
    requires Context(p, directories, files, createdAt, archive)
    ensures var entries := IndexOf(archive.zip);
      && Name(MANIFEST, false) in entries
      && Name(COMPLETION, false) in entries && entries[Name(COMPLETION, false)] == createdAt + "\n"
  {
    ZipIsClean(p, directories, files, createdAt, archive);
    hide Context, IndexOf, HasDuplicateNames, SafePath;
    ZipHolds(archive.zip, Head()[0]);
    ZipHolds(archive.zip, Tail(createdAt)[0]);
  }

  lemma ListedIsOk(entries: map<Name, string>, item: Item, image: Path, original: Path)
    requires item.path == image && SafePath(image) && RestorePath(item) == original && RestoreRootOk(original)
    requires EntryName(item) in entries && (item.isDirectory || |image| >= 2)
    requires !item.isDirectory ==> |entries[EntryName(item)]| == item.sizeBytes
    ensures ItemOk(entries, item)
  {
    hide SafePath, RestorePath, RestoreRootOk;
  }

  lemma DirectoryOk(p: Platform, directories: seq<Path>, files: seq<SourceFile>, createdAt: string, archive: Archive, i: nat)
    requires Context(p, directories, files, createdAt, archive) && i < |directories|
    ensures |archive.manifest.directories| == |directories|
    ensures ItemOk(IndexOf(archive.zip), archive.manifest.directories[i])
  {
    DirectoryKept(p, directories, files, createdAt, archive, i);
    DirectoryHasEntry(p, directories, files, createdAt, archive, i);
    var paths := AllPaths(directories, files);
    assert Lawful(p);
    hide Context, IndexOf, Lawful, ItemOk, AllPaths, MapPath;
    ImageIsSafe(p, paths, directories[i]);
    ListedIsOk(IndexOf(archive.zip), archive.manifest.directories[i], MapPath(p, paths, directories[i]), directories[i]);
  }

  lemma FileOk(p: Platform, directories: seq<Path>, files: seq<SourceFile>, createdAt: string, archive: Archive, i: nat)
    requires Context(p, directories, files, createdAt, archive) && i < |files|
    ensures |archive.manifest.files| == |files|
    ensures ItemOk(IndexOf(archive.zip), archive.manifest.files[i])
  {
    FileKept(p, directories, files, createdAt, archive, i);
    FileHasEntry(p, directories, files, createdAt, archive, i);
    var paths := AllPaths(directories, files);
    assert Lawful(p);
    hide Context, IndexOf, Lawful, ItemOk, AllPaths, MapPath;
    ImageIsSafe(p, paths, files[i].path);
    ListedIsOk(IndexOf(archive.zip), archive.manifest.files[i], MapPath(p, paths, files[i].path), files[i].path);
  }

  /** The path an item was planned for. */
  function OriginalAt(directories: seq<Path>, files: seq<SourceFile>, k: nat): Path
    requires k < |directories| + |files|
  {
    if k < |directories| then directories[k] else files[k - |directories|].path
  }

  lemma OriginalsDiffer(directories: seq<Path>, files: seq<SourceFile>, i: nat, j: nat)
    requires SourceTree(directories, files) && i < j < |directories| + |files|
    ensures OriginalAt(directories, files, i) != OriginalAt(directories, files, j)
  {
    var n := |directories|;
    hide RestoreRootOk;
    if i >= n {
      assert FilePaths(files)[i - n] != FilePaths(files)[j - n];
    } else if j >= n {
      assert directories[i] in directories && files[j - n] in files;
      assert !(files[j - n].path <= directories[i]);
    }
  }

  /** What is known of the item that was planned for `original`. */
  ghost predicate PlannedFor(p: Platform, directories: seq<Path>, files: seq<SourceFile>, archive: Archive, item: Item, original: Path) {
    && RestorePath(item) == original && item.path == MapPath(p, AllPaths(directories, files), original)
    && (original in directories || original in FilePaths(files))
    && ItemOk(IndexOf(archive.zip), item)
  }

  lemma DirectoryItemAt(p: Platform, directories: seq<Path>, files: seq<SourceFile>, createdAt: string, archive: Archive, i: nat)
    requires Context(p, directories, files, createdAt, archive) && i < |directories|
    ensures |archive.manifest.directories| == |directories|
    ensures PlannedFor(p, directories, files, archive, archive.manifest.directories[i], directories[i])
  {
    DirectoryKept(p, directories, files, createdAt, archive, i);
    DirectoryOk(p, directories, files, createdAt, archive, i);
    hide Context, ItemOk, IndexOf, MapPath, AllPaths, RestorePath, RestoreRootOk;
  }

  lemma FileItemAt(p: Platform, directories: seq<Path>, files: seq<SourceFile>, createdAt: string, archive: Archive, i: nat)
    requires Context(p, directories, files, createdAt, archive) && i < |files|
    ensures |archive.manifest.files| == |files|
    ensures PlannedFor(p, directories, files, archive, archive.manifest.files[i], files[i].path)
  {
    FileKept(p, directories, files, createdAt, archive, i);
    FileOk(p, directories, files, createdAt, archive, i);
    hide Context, ItemOk, IndexOf, MapPath, AllPaths, RestorePath, RestoreRootOk;
    assert FilePaths(files)[i] in FilePaths(files);
  }

  lemma ItemAt(p: Platform, directories: seq<Path>, files: seq<SourceFile>, createdAt: string, archive: Archive, k: nat)
    requires Context(p, directories, files, createdAt, archive) && k < |directories| + |files|
    ensures |Items(archive.manifest)| == |directories| + |files|
    ensures PlannedFor(p, directories, files, archive, Items(archive.manifest)[k], OriginalAt(directories, files, k))
  {
    hide Context, PlannedFor;
    ListedCounts(p, directories, files, createdAt, archive);
    var m := archive.manifest;
    assert Items(m)[k] == if k < |directories| then m.directories[k] else m.files[k - |directories|];
    hide Items;
    if k < |directories| {
      DirectoryItemAt(p, directories, files, createdAt, archive, k);
    } else {
      FileItemAt(p, directories, files, createdAt, archive, k - |directories|);
    }
  }

  lemma TwoItemsApart(p: Platform, directories: seq<Path>, files: seq<SourceFile>, createdAt: string, archive: Archive, i: nat, j: nat)
    requires Context(p, directories, files, createdAt, archive) && i < j < |directories| + |files|
    ensures |Items(archive.manifest)| == |directories| + |files|
    ensures Apart(Items(archive.manifest)[i], Items(archive.manifest)[j])
  {
    ItemAt(p, directories, files, createdAt, archive, i);
    ItemAt(p, directories, files, createdAt, archive, j);
    assert SourceTree(directories, files) && !AnyCollision(p, AllPaths(directories, files));
    hide Context, SourceTree, AnyCollision, ItemOk, IndexOf, MapPath, AllPaths, RestorePath;
    OriginalsDiffer(directories, files, i, j);
    GivenOnce(p, directories, files, OriginalAt(directories, files, i), OriginalAt(directories, files, j));
  }

  lemma PlannedItemsOk(p: Platform, directories: seq<Path>, files: seq<SourceFile>, createdAt: string, archive: Archive)
    requires Context(p, directories, files, createdAt, archive)
    ensures ItemsOk(IndexOf(archive.zip), Items(archive.manifest))
  {
    ListedCounts(p, directories, files, createdAt, archive);
    var items, entries := Items(archive.manifest), IndexOf(archive.zip);
    hide Context, ItemOk, ItemsOk, IndexOf, Apart;
    forall k | 0 <= k < |items|
      ensures ItemOk(entries, items[k])
    {
      ItemAt(p, directories, files, createdAt, archive, k);
    }
    forall i, j | 0 <= i < j < |items|
      ensures Apart(items[i], items[j])
    {
      TwoItemsApart(p, directories, files, createdAt, archive, i, j);
    }
    ItemsAreDistinct(entries, items);
  }

  lemma EntryIsListed(m: Manifest, files: seq<SourceFile>, createdAt: string, e: ZipEntry)
    requires |m.files| == |files|
    requires e in Head() + DirectoryEntries(m.directories) + FileEntries(m.files, files) + Tail(createdAt)
    ensures e.name in META + Names(Items(m))
  {
    if e in DirectoryEntries(m.directories) {
      var i :| 0 <= i < |m.directories| && DirectoryEntries(m.directories)[i] == e;
      assert m.directories[i] in Items(m);
    } else if e in FileEntries(m.files, files) {
      var i :| 0 <= i < |m.files| && FileEntries(m.files, files)[i] == e;
      assert m.files[i] in Items(m);
    } else {
      assert e in Head() || e in Tail(createdAt);
    }
  }

  /** The archive holds nothing that is not accounted for. */
  lemma NothingUnlisted(p: Platform, directories: seq<Path>, files: seq<SourceFile>, createdAt: string, archive: Archive)
    requires Context(p, directories, files, createdAt, archive)
    ensures forall n :: n in IndexOf(archive.zip) ==> n in META + Names(Items(archive.manifest))
  {
    ZipIsClean(p, directories, files, createdAt, archive);
    var m, zip := archive.manifest, archive.zip;
    IndexHolds(zip);
    hide Context, IndexOf, HasDuplicateNames, SafePath, Names, Items;
    forall n | n in IndexOf(zip)
      ensures n in META + Names(Items(m))
    {
      var k :| 0 <= k < |zip| && zip[k].name == n;
      EntryIsListed(m, files, createdAt, zip[k]);
    }
  }

  /** All non-empty prefixes of the directories and all proper ones of the files. */
  ghost predicate IsFolderOf(directories: seq<Path>, files: seq<SourceFile>, q: Path) {
    q != [] && (LeadsToSome(directories, 0, q) || LeadsToSome(FilePaths(files), 1, q))
  }

  ghost predicate LeadsToSome(paths: seq<Path>, below: nat, q: Path) {
    exists path :: path in paths && q <= path && (below == 1 ==> q != path)
  }

  ghost predicate ListedAs(items: seq<Item>, paths: seq<Path>) {
    |items| == |paths| && forall i :: 0 <= i < |items| ==> RestorePath(items[i]) == paths[i]
  }

  lemma LeadingIs(items: seq<Item>, paths: seq<Path>, below: nat, q: Path)
    requires below <= 1 && ListedAs(items, paths)
    ensures q in Leading(items, below) <==> q != [] && LeadsToSome(paths, below, q)
  {
    hide RestorePath;
    if q != [] && LeadsToSome(paths, below, q) {
      var path :| path in paths && q <= path && (below == 1 ==> q != path);
      var i :| 0 <= i < |paths| && paths[i] == path;
      assert q == RestorePath(items[i])[..|q|];
      assert q in LeadingTo(items[i], below);
    }
    if q in Leading(items, below) {
      var item :| item in items && q in LeadingTo(item, below);
      var i :| 0 <= i < |items| && items[i] == item;
      assert paths[i] in paths;
    }
  }

  lemma RestorePathsListed(items: seq<Item>, paths: seq<Path>)
    requires ListedAs(items, paths)
    ensures forall q :: q in RestorePaths(items) <==> q in paths
  {
    hide RestorePath;
    forall q
      ensures q in RestorePaths(items) <==> q in paths
    {
      if q in paths {
        var i :| 0 <= i < |paths| && paths[i] == q;
        assert items[i] in items;
      }
      if q in RestorePaths(items) {
        var f :| f in items && RestorePath(f) == q;
        var i :| 0 <= i < |items| && items[i] == f;
      }
    }
  }

  lemma AllListed(p: Platform, directories: seq<Path>, files: seq<SourceFile>, createdAt: string, archive: Archive)
    requires Context(p, directories, files, createdAt, archive)
    ensures ListedAs(archive.manifest.directories, directories) && ListedAs(archive.manifest.files, FilePaths(files))
  {
    ListedCounts(p, directories, files, createdAt, archive);
    hide Context, RestorePath, MapPath, RestoreRootOk;
    forall i | 0 <= i < |directories|
      ensures RestorePath(archive.manifest.directories[i]) == directories[i]
    {
      DirectoryKept(p, directories, files, createdAt, archive, i);
    }
    forall i | 0 <= i < |files|
      ensures RestorePath(archive.manifest.files[i]) == FilePaths(files)[i]
    {
      FileKept(p, directories, files, createdAt, archive, i);
    }
  }

  lemma RestoredFolders(p: Platform, directories: seq<Path>, files: seq<SourceFile>, createdAt: string, archive: Archive, q: Path)
    requires Context(p, directories, files, createdAt, archive)
    ensures q in DirectoryPaths(archive.manifest) <==> IsFolderOf(directories, files, q)
  {
    AllListed(p, directories, files, createdAt, archive);
    hide Context, RestorePath, Leading, LeadsToSome;
    LeadingIs(archive.manifest.directories, directories, 0, q);
    LeadingIs(archive.manifest.files, FilePaths(files), 1, q);
  }

  lemma FileIsNoFolder(directories: seq<Path>, files: seq<SourceFile>, i: nat)
    requires SourceTree(directories, files) && i < |files|
    ensures !IsFolderOf(directories, files, files[i].path)
  {
    hide RestoreRootOk, HasDuplicates;
    assert files[i] in files;
    forall path | path in FilePaths(files)
      ensures !(files[i].path < path)
    {
      var j :| 0 <= j < |files| && files[j].path == path;
      assert files[j] in files;
    }
  }

  lemma FilesAreFine(p: Platform, directories: seq<Path>, files: seq<SourceFile>, createdAt: string, archive: Archive)
    requires Context(p, directories, files, createdAt, archive)
    ensures forall f :: f in archive.manifest.files ==> RestorePath(f) !in DirectoryPaths(archive.manifest)
    ensures HashesMatch(p, IndexOf(archive.zip), archive.manifest.files)
  {
    ListedCounts(p, directories, files, createdAt, archive);
    var m := archive.manifest;
    assert SourceTree(directories, files);
    hide Context, IndexOf, MapPath, RestorePath, DirectoryPaths, RestoreRootOk, SourceTree, IsFolderOf;
    forall f | f in m.files
      ensures RestorePath(f) !in DirectoryPaths(m) && HashMatches(p, IndexOf(archive.zip), f)
    {
      var i :| 0 <= i < |m.files| && m.files[i] == f;
      FileKept(p, directories, files, createdAt, archive, i);
      FileHasEntry(p, directories, files, createdAt, archive, i);
      RestoredFolders(p, directories, files, createdAt, archive, files[i].path);
      FileIsNoFolder(directories, files, i);
    }
  }

  /** Whatever is planned can be restored: every check of the restore passes. */
  lemma PlannedIsRestorable(p: Platform, directories: seq<Path>, files: seq<SourceFile>, createdAt: string, archive: Archive)
    requires Context(p, directories, files, createdAt, archive)
    ensures Restorable(p, archive.zip, archive.manifest)
  {
    ZipIsClean(p, directories, files, createdAt, archive);
    MetaHaveEntries(p, directories, files, createdAt, archive);
    PlannedItemsOk(p, directories, files, createdAt, archive);
    NothingUnlisted(p, directories, files, createdAt, archive);
    FilesAreFine(p, directories, files, createdAt, archive);
    hide IndexOf, MapPath, RestorePath, ItemsOk, HasDuplicateNames, SafePath, Names, DirectoryPaths, TotalBytes, AllPaths;
    hide HashesMatch, SourceTree, Items, AnyCollision, Lawful;
  }

  /** Snapshot, then restore, is the identity on trees: exactly the same files with the same contents, and
      exactly the same directories once those that lead to the roots are counted in. */
  lemma RestoreUndoesSnapshot(p: Platform, directories: seq<Path>, files: seq<SourceFile>, createdAt: string, archive: Archive,
                              disk: Disk)
    requires Context(p, directories, files, createdAt, archive)
    requires RestoredTo(archive.zip, archive.manifest, disk)
    ensures forall q :: q in disk.directories <==> IsFolderOf(directories, files, q)
    ensures forall q :: q in disk.files <==> q in FilePaths(files)
    ensures forall f :: f in files ==> f.path in disk.files && disk.files[f.path] == f.content
  {
    AllListed(p, directories, files, createdAt, archive);
    RestorePathsListed(archive.manifest.files, FilePaths(files));
    ListedCounts(p, directories, files, createdAt, archive);
    var m := archive.manifest;
    hide IndexOf, MapPath, RestorePath, DirectoryPaths, Context, RestorePaths, IsFolderOf, RestoreRootOk;
    forall q: Path
      ensures q in DirectoryPaths(m) <==> IsFolderOf(directories, files, q)
    {
      RestoredFolders(p, directories, files, createdAt, archive, q);
    }
    forall f | f in files
      ensures f.path in disk.files && disk.files[f.path] == f.content
    {
      var i :| 0 <= i < |files| && files[i] == f;
      FileKept(p, directories, files, createdAt, archive, i);
      FileHasEntry(p, directories, files, createdAt, archive, i);
      assert m.files[i] in m.files;
    }
  }

  /** When the walk listed every directory that leads to something, the directories are the same. */
  lemma SameDirectories(directories: seq<Path>, files: seq<SourceFile>, disk: Disk)
    requires forall q :: q in disk.directories <==> IsFolderOf(directories, files, q)
    requires forall d, q :: d in directories && q != [] && q <= d ==> q in directories
    requires forall f, q :: f in FilePaths(files) && q != [] && q < f ==> q in directories
    requires forall d :: d in directories ==> d != []
    ensures disk.directories == set d | d in directories
  {
    forall q
      ensures q in disk.directories <==> q in directories
    {
      if q in directories {
        assert q <= q;
        assert IsFolderOf(directories, files, q);
      }
    }
  }

  /** The two together, as the program runs them. */
  method SnapshotAndRestore(p: Platform, directories: seq<Path>, files: seq<SourceFile>, createdAt: string) returns (disk: Disk)
    requires Lawful(p) && SourceTree(directories, files)
    requires forall parent: Path :: HashSeparates(p, Siblings(AllPaths(directories, files), parent))
    ensures forall q :: q in disk.directories <==> IsFolderOf(directories, files, q)
    ensures forall q :: q in disk.files <==> q in FilePaths(files)
    ensures forall f :: f in files ==> f.path in disk.files && disk.files[f.path] == f.content
  {
    PlanningSucceeds(p, directories, files);
    var planned := PlanSnapshot(p, directories, files, createdAt);
    PlannedIsRestorable(p, directories, files, createdAt, planned.value);
    var restored := RestoreSnapshotArchive(p, planned.value.zip, planned.value.manifest);
    RestoreUndoesSnapshot(p, directories, files, createdAt, planned.value, restored.value);
    disk := restored.value;
  }
}
