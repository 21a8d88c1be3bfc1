/** Planning a snapshot archive under portable names, and restoring one into a new home. */
module SnapshotRestore {
  import opened Wrappers
  import opened VaultPaths
  import opened SnapshotPaths

  const MANIFEST: Path := ["kb1-snapshot.json"]
  const COMPLETION: Path := ["kb1-snapshot.complete"]
  const HELP: Path := ["kb1-restore.txt"]
  const ROOTS: set<string> := {"vaults", ".trash"}

  /** The name of a ZIP entry; a directory's ends in a slash. */
  datatype Name = Name(path: Path, isDirectory: bool)

  datatype ZipEntry = ZipEntry(name: Name, content: string)

  /** A manifest item: its name in the archive and, where that was replaced, its original name. */
  datatype Item = Item(path: Path, originalPath: Option<Path>, isDirectory: bool, sizeBytes: nat, sha256: string)

  datatype Manifest = Manifest(createdAt: string, directories: seq<Item>, files: seq<Item>, totalFiles: nat, totalBytes: nat)

  function RestorePath(item: Item): Path {
    if item.originalPath.Some? then item.originalPath.value else item.path
  }

  function EntryName(item: Item): Name { Name(item.path, item.isDirectory) }

  function TotalBytes(files: seq<Item>): nat {
    if files == [] then 0 else TotalBytes(files[..|files| - 1]) + files[|files| - 1].sizeBytes
  }

  // ---------------------------------------------------------------------------
  // Planning
  // ---------------------------------------------------------------------------

  datatype SourceFile = SourceFile(path: Path, content: string)

  datatype Archive = Archive(zip: seq<ZipEntry>, manifest: Manifest)

  function FilePaths(files: seq<SourceFile>): (paths: seq<Path>)
    ensures |paths| == |files| && forall i :: 0 <= i < |files| ==> paths[i] == files[i].path
  {
    seq(|files|, i requires 0 <= i < |files| => files[i].path)
  }

  function AllPaths(directories: seq<Path>, files: seq<SourceFile>): seq<Path> {
    [MANIFEST, COMPLETION, HELP] + directories + FilePaths(files)
  }

  function Renamed(original: Path, portable: Path): Option<Path> {
    if portable != original then Some(original) else None
  }

  function DirectoryItem(portable: Path, original: Path): Item {
    Item(portable, Renamed(original, portable), true, 0, "")
  }

  function FileItem(p: Platform, portable: Path, file: SourceFile): Item {
    Item(portable, Renamed(file.path, portable), false, |file.content|, p.hash(file.content))
  }

  function DirectoryEntries(items: seq<Item>): (entries: seq<ZipEntry>)
    ensures |entries| == |items| && forall i :: 0 <= i < |items| ==> entries[i] == ZipEntry(EntryName(items[i]), "")
  {
    seq(|items|, i requires 0 <= i < |items| => ZipEntry(EntryName(items[i]), ""))
  }

  function FileEntries(items: seq<Item>, files: seq<SourceFile>): (entries: seq<ZipEntry>)
    requires |items| == |files|
    ensures |entries| == |items|
    ensures forall i :: 0 <= i < |items| ==> entries[i] == ZipEntry(EntryName(items[i]), files[i].content)
  {
    seq(|items|, i requires 0 <= i < |items| => ZipEntry(EntryName(items[i]), files[i].content))
  }

  /** What an archive lists and holds, given the portable name of every path. */
  ghost predicate Planned(p: Platform, paths: seq<Path>, directories: seq<Path>, files: seq<SourceFile>,
                          createdAt: string, archive: Archive) {
    var m := archive.manifest;
    && m.createdAt == createdAt && m.totalFiles == |files| && m.totalBytes == TotalBytes(m.files)
    && |m.directories| == |directories| && |m.files| == |files|
    && (forall i :: 0 <= i < |directories| ==>
          m.directories[i] == DirectoryItem(MapPath(p, paths, directories[i]), directories[i]))
    && (forall i :: 0 <= i < |files| ==> m.files[i] == FileItem(p, MapPath(p, paths, files[i].path), files[i]))
    && archive.zip == [ZipEntry(Name(MANIFEST, false), ""), ZipEntry(Name(HELP, false), "")]
         + DirectoryEntries(m.directories) + FileEntries(m.files, files)
         + [ZipEntry(Name(COMPLETION, false), createdAt + "\n")]
  }

  /** Every given path is replaced by its portable name, and the original is noted where they differ. */
  method ListFiles(p: Platform, mapped: map<Path, Path>, files: seq<SourceFile>) returns (items: seq<Item>, bytes: nat)
    requires forall i :: 0 <= i < |files| ==> files[i].path in mapped
    ensures |items| == |files| && bytes == TotalBytes(items)
    ensures forall i :: 0 <= i < |files| ==> items[i] == FileItem(p, mapped[files[i].path], files[i])
  {
    items, bytes := [], 0;
    for i := 0 to |files|
      invariant |items| == i && bytes == TotalBytes(items)
      invariant forall k :: 0 <= k < i ==> items[k] == FileItem(p, mapped[files[k].path], files[k])
    {
      var item := FileItem(p, mapped[files[i].path], files[i]);
      assert (items + [item])[..i] == items;
      items := items + [item];
      bytes := bytes + item.sizeBytes;
    }
  }

  method ListDirectories(mapped: map<Path, Path>, directories: seq<Path>) returns (items: seq<Item>)
    requires forall i :: 0 <= i < |directories| ==> directories[i] in mapped
    ensures |items| == |directories|
    ensures forall i :: 0 <= i < |directories| ==> items[i] == DirectoryItem(mapped[directories[i]], directories[i])
  {
    items := [];
    for i := 0 to |directories|
      invariant |items| == i
      invariant forall k :: 0 <= k < i ==> items[k] == DirectoryItem(mapped[directories[k]], directories[k])
    {
      items := items + [DirectoryItem(mapped[directories[i]], directories[i])];
    }
  }

  method PlanSnapshot(p: Platform, directories: seq<Path>, files: seq<SourceFile>, createdAt: string)
    returns (r: Result<Archive, Error>)
    ensures var paths := AllPaths(directories, files);
      && (r.Ok? <==> (forall q :: q in paths ==> SafePath(q)) && !HasDuplicates(paths) && !AnyCollision(p, paths))
      && (r.Ok? ==> Planned(p, paths, directories, files, createdAt, r.value))
  {
    hide AnyCollision, HasDuplicates, MapPath, SafePath, AllPaths, Occurs, TotalBytes;
    var paths := AllPaths(directories, files);
    var mapped := PortableSnapshotPaths(p, paths);
    if mapped.Err? {
      return Err(mapped.error);
    }
    GivenOccur(directories, files);
    var listedFiles, bytes := ListFiles(p, mapped.value, files);
    var listed := ListDirectories(mapped.value, directories);
    hide FileItem, DirectoryItem;
    r := Ok(Archive([ZipEntry(Name(MANIFEST, false), ""), ZipEntry(Name(HELP, false), "")]
      + DirectoryEntries(listed) + FileEntries(listedFiles, files) + [ZipEntry(Name(COMPLETION, false), createdAt + "\n")],
      Manifest(createdAt, listed, listedFiles, |files|, bytes)));
  }

  lemma OccursItself(paths: seq<Path>, path: Path)
    requires path in paths && SafePath(path)
    ensures Occurs(paths, path)
  {
  }

  lemma GivenOccur(directories: seq<Path>, files: seq<SourceFile>)
    requires forall q :: q in AllPaths(directories, files) ==> SafePath(q)
    ensures forall i :: 0 <= i < |directories| ==> Occurs(AllPaths(directories, files), directories[i])
    ensures forall i :: 0 <= i < |files| ==> Occurs(AllPaths(directories, files), files[i].path)
  {
    var paths := AllPaths(directories, files);
    hide SafePath, Occurs;
    forall i | 0 <= i < |directories|
      ensures Occurs(paths, directories[i])
    {
      assert paths[3 + i] == directories[i];
      OccursItself(paths, directories[i]);
    }
    forall i | 0 <= i < |files|
      ensures Occurs(paths, files[i].path)
    {
      assert paths[3 + |directories| + i] == FilePaths(files)[i];
      OccursItself(paths, files[i].path);
    }
  }

  // ---------------------------------------------------------------------------
  // What can be restored
  // ---------------------------------------------------------------------------

  predicate RestoreRootOk(path: Path) { SafePath(path) && path[0] in ROOTS }

  function Items(m: Manifest): seq<Item> { m.directories + m.files }

  const META: set<Name> := {Name(MANIFEST, false), Name(COMPLETION, false), Name(HELP, false)}

  predicate HasDuplicateNames(zip: seq<ZipEntry>) {
    exists i, j :: 0 <= i < j < |zip| && zip[i].name == zip[j].name
  }

  function IndexOf(zip: seq<ZipEntry>): map<Name, string> {
    if zip == [] then map[]
    else IndexOf(zip[..|zip| - 1])[zip[|zip| - 1].name := zip[|zip| - 1].content]
  }

  predicate ItemOk(entries: map<Name, string>, item: Item) {
    && SafePath(item.path) && RestoreRootOk(RestorePath(item))
    && EntryName(item) !in META && EntryName(item) in entries
    && (!item.isDirectory ==> |entries[EntryName(item)]| == item.sizeBytes)
  }

  function RestorePaths(items: seq<Item>): set<Path> { set item | item in items :: RestorePath(item) }

  function Names(items: seq<Item>): set<Name> { set item | item in items :: EntryName(item) }

  /** Each item is well placed, and no two share a restore path or an entry. */
  predicate ItemsOk(entries: map<Name, string>, items: seq<Item>) {
    items == [] ||
    (var front, last := items[..|items| - 1], items[|items| - 1];
     && ItemsOk(entries, front) && ItemOk(entries, last)
     && RestorePath(last) !in RestorePaths(front) && EntryName(last) !in Names(front))
  }

  predicate Apart(a: Item, b: Item) { RestorePath(a) != RestorePath(b) && EntryName(a) != EntryName(b) }

  ghost predicate AllApart(items: seq<Item>) {
    forall i, j :: 0 <= i < j < |items| ==> Apart(items[i], items[j])
  }

  ghost predicate AllPlaced(entries: map<Name, string>, items: seq<Item>) {
    forall i :: 0 <= i < |items| ==> ItemOk(entries, items[i])
  }

  lemma ApartFromAll(items: seq<Item>, item: Item)
    ensures RestorePath(item) !in RestorePaths(items) && EntryName(item) !in Names(items)
      <==> forall i :: 0 <= i < |items| ==> Apart(items[i], item)
  {
    assert forall i :: 0 <= i < |items| ==> RestorePath(items[i]) in RestorePaths(items) && EntryName(items[i]) in Names(items);
    hide RestorePath;
  }

  /** Checking the items one after another is checking that all are well placed and pairwise apart. */
  lemma {:induction false} ItemsAreDistinct(entries: map<Name, string>, items: seq<Item>)
    ensures ItemsOk(entries, items) <==> AllPlaced(entries, items) && AllApart(items)
  {
    hide ItemOk, RestorePath, RestorePaths, Names, Apart;
    if items != [] {
      var n := |items| - 1;
      var front := items[..n];
      ItemsAreDistinct(entries, front);
      ApartFromAll(front, items[n]);
      assert forall i :: 0 <= i < n ==> front[i] == items[i];
      assert AllPlaced(entries, items) <==> AllPlaced(entries, front) && ItemOk(entries, items[n]);
      assert AllApart(items) <==> AllApart(front) && forall i :: 0 <= i < n ==> Apart(front[i], items[n]) by {
        LastApart(items);
      }
    }
  }

  lemma LastApart(items: seq<Item>)
    requires items != []
    ensures var n := |items| - 1;
      AllApart(items) <==> AllApart(items[..n]) && forall i :: 0 <= i < n ==> Apart(items[..n][i], items[n])
  {
    hide Apart;
    var n := |items| - 1;
    if AllApart(items[..n]) && forall i :: 0 <= i < n ==> Apart(items[..n][i], items[n]) {
      forall i, j | 0 <= i < j < |items|
        ensures Apart(items[i], items[j])
      {
        assert items[i] == items[..n][i];
        if j < n {
          assert items[j] == items[..n][j];
        }
      }
    }
    if AllApart(items) {
      forall i, j | 0 <= i < j < n
        ensures Apart(items[..n][i], items[..n][j])
      {
        assert Apart(items[i], items[j]);
      }
    }
  }

  /** The non-empty prefixes of a path of at most `upto` segments. */
  function Prefixes(path: Path, upto: int): set<Path>
    requires upto <= |path|
  {
    set k | 1 <= k <= upto :: path[..k]
  }

  /** What leads to an item, its own path included unless `below` is 1. */
  function LeadingTo(item: Item, below: nat): set<Path> { Prefixes(RestorePath(item), |RestorePath(item)| - below) }

  function Leading(items: seq<Item>, below: nat): set<Path> {
    set item, q | item in items && q in LeadingTo(item, below) :: q
  }

  /** Every directory that the restore creates: the listed ones and whatever leads to a listed item. */
  function DirectoryPaths(m: Manifest): set<Path> { Leading(m.directories, 0) + Leading(m.files, 1) }

  ghost predicate Restorable(p: Platform, zip: seq<ZipEntry>, m: Manifest) {
    var entries := IndexOf(zip);
    && (forall e :: e in zip ==> SafePath(e.name.path)) && !HasDuplicateNames(zip)
    && Name(MANIFEST, false) in entries
    && Name(COMPLETION, false) in entries && entries[Name(COMPLETION, false)] == m.createdAt + "\n"
    && m.totalFiles == |m.files| && m.totalBytes == TotalBytes(m.files)
    && ItemsOk(entries, Items(m))
    && (forall n :: n in entries ==> n in META + Names(Items(m)))
    && (forall f :: f in m.files ==> RestorePath(f) !in DirectoryPaths(m))
    && HashesMatch(p, entries, m.files)
  }

  predicate HashMatches(p: Platform, entries: map<Name, string>, item: Item) {
    EntryName(item) in entries && p.hash(entries[EntryName(item)]) == item.sha256
  }

  ghost predicate HashesMatch(p: Platform, entries: map<Name, string>, files: seq<Item>) {
    forall f :: f in files ==> HashMatches(p, entries, f)
  }

  /** What is on disk after a restore. */
  ghost predicate RestoredTo(zip: seq<ZipEntry>, m: Manifest, disk: Disk) {
    var entries := IndexOf(zip);
    && disk.directories == DirectoryPaths(m)
    && disk.files.Keys == RestorePaths(m.files)
    && (forall f :: f in m.files ==>
          EntryName(f) in entries && RestorePath(f) in disk.files && disk.files[RestorePath(f)] == entries[EntryName(f)])
  }

  // ---------------------------------------------------------------------------
  // Restoring
  // ---------------------------------------------------------------------------

  datatype Disk = Disk(directories: set<Path>, files: map<Path, string>)

  predicate Creatable(disk: Disk, path: Path) {
    && path != [] && path !in disk.directories && path !in disk.files
    && (|path| > 1 ==> path[..|path| - 1] in disk.directories)
  }

  /** `mkdir` without recursion: the parent is there, and nothing is at the path. */
  function Mkdir(disk: Disk, path: Path): Disk
    requires Creatable(disk, path)
  {
    disk.(directories := disk.directories + {path})
  }

  /** Creating a file with flag `wx`. */
  function CreateFile(disk: Disk, path: Path, content: string): Disk
    requires Creatable(disk, path)
  {
    disk.(files := disk.files[path := content])
  }

  datatype RestoreError = UnsafeName | DuplicateEntry | Incomplete | WrongTotals | OutsideRoots
    | DuplicatePath | MissingEntry | WrongSize | Unlisted | Conflict | WrongHash

  method IndexEntries(zip: seq<ZipEntry>) returns (r: Result<map<Name, string>, RestoreError>)
    ensures r.Ok? <==> (forall e :: e in zip ==> SafePath(e.name.path)) && !HasDuplicateNames(zip)
    ensures r.Ok? ==> r.value == IndexOf(zip)
  {
    hide SafePath, IndexOf, HasDuplicateNames;
    var entries: map<Name, string> := map[];
    NothingIndexed();
    for i := 0 to |zip|
      invariant forall k :: 0 <= k < i ==> SafePath(zip[k].name.path)
      invariant !HasDuplicateNames(zip[..i])
      invariant entries == IndexOf(zip[..i])
    {
      var e := zip[i];
      if !SafePath(e.name.path) {
        return Err(UnsafeName);
      }
      IndexOne(zip, i);
      if e.name in entries {
        return Err(DuplicateEntry);
      }
      entries := entries[e.name := e.content];
    }
    assert zip[..|zip|] == zip;
    r := Ok(entries);
  }

  lemma NothingIndexed()
    ensures IndexOf([]) == map[] && !HasDuplicateNames([])
  {
  }

  /** The index holds exactly the names of the entries, and without duplicates each with its content. */
  lemma {:induction false} IndexHolds(zip: seq<ZipEntry>)
    ensures forall i :: 0 <= i < |zip| ==> zip[i].name in IndexOf(zip)
    ensures forall n :: n in IndexOf(zip) ==> exists i :: 0 <= i < |zip| && zip[i].name == n
    ensures !HasDuplicateNames(zip) ==> forall i :: 0 <= i < |zip| ==> IndexOf(zip)[zip[i].name] == zip[i].content
  {
    if zip != [] {
      var n := |zip| - 1;
      var front := zip[..n];
      IndexHolds(front);
      var before, last := IndexOf(front), zip[n];
      assert IndexOf(zip) == before[last.name := last.content];
      hide IndexOf;
      assert forall i :: 0 <= i < n ==> front[i] == zip[i];
      if !HasDuplicateNames(zip) {
        assert forall i :: 0 <= i < n ==> zip[i].name != zip[n].name;
      }
    }
  }

  lemma IndexOne(zip: seq<ZipEntry>, i: nat)
    requires i < |zip| && !HasDuplicateNames(zip[..i])
    ensures zip[i].name in IndexOf(zip[..i]) ==> HasDuplicateNames(zip)
    ensures zip[i].name !in IndexOf(zip[..i]) ==> !HasDuplicateNames(zip[..i + 1])
    ensures IndexOf(zip[..i + 1]) == IndexOf(zip[..i])[zip[i].name := zip[i].content]
  {
    var front, more := zip[..i], zip[..i + 1];
    IndexHolds(front);
    assert more[..i] == front && more[i] == zip[i];
    if zip[i].name in IndexOf(front) {
      var k :| 0 <= k < |front| && front[k].name == zip[i].name;
      assert zip[k].name == zip[i].name;
    } else {
      assert forall k :: 0 <= k < i ==> more[k] == front[k];
      forall k, j | 0 <= k < j < |more|
        ensures more[k].name != more[j].name
      {
        assert front[k].name in IndexOf(front);
        if j < i {
          assert front[k].name != front[j].name;
        }
      }
    }
  }

  lemma OneMoreItem(entries: map<Name, string>, items: seq<Item>, i: nat)
    requires i < |items|
    ensures ItemsOk(entries, items[..i + 1]) <==>
      && ItemsOk(entries, items[..i]) && ItemOk(entries, items[i])
      && RestorePath(items[i]) !in RestorePaths(items[..i]) && EntryName(items[i]) !in Names(items[..i])
  {
    assert items[..i + 1][..i] == items[..i];
  }

  lemma {:induction false} ItemsOkBefore(entries: map<Name, string>, items: seq<Item>, i: nat)
    requires i <= |items| && ItemsOk(entries, items)
    ensures ItemsOk(entries, items[..i])
  {
    if i == |items| {
      assert items[..i] == items;
    } else {
      var front := items[..|items| - 1];
      ItemsOkBefore(entries, front, i);
      assert front[..i] == items[..i];
    }
  }

  /** The checks on what the manifest lists, and the entries it accounts for. */
  method CheckItems(entries: map<Name, string>, items: seq<Item>) returns (r: Result<set<Name>, RestoreError>)
    ensures r.Ok? <==> ItemsOk(entries, items)
    ensures r.Ok? ==> r.value == META + Names(items)
  {
    hide ItemsOk, Names, RestorePaths;
    var expected, restorePaths: set<Path> := META, {};
    NoItems(entries);
    for i := 0 to |items|
      invariant ItemsOk(entries, items[..i])
      invariant restorePaths == RestorePaths(items[..i]) && expected == META + Names(items[..i])
    {
      var item := items[i];
      OneMoreItem(entries, items, i);
      if ItemsOk(entries, items) {
        ItemsOkBefore(entries, items, i + 1);
      }
      if !SafePath(item.path) { return Err(UnsafeName); }
      var path := RestorePath(item);
      if !SafePath(path) { return Err(UnsafeName); }
      if path[0] !in ROOTS { return Err(OutsideRoots); }
      if path in restorePaths { return Err(DuplicatePath); }
      var entryName := EntryName(item);
      if entryName in expected { return Err(DuplicatePath); }
      if entryName !in entries { return Err(MissingEntry); }
      if !item.isDirectory && |entries[entryName]| != item.sizeBytes { return Err(WrongSize); }
      SetsGrow(items, i);
      restorePaths := restorePaths + {path};
      expected := expected + {entryName};
    }
    assert items[..|items|] == items;
    r := Ok(expected);
  }

  lemma NoItems(entries: map<Name, string>)
    ensures ItemsOk(entries, []) && RestorePaths([]) == {} && Names([]) == {}
  {
  }

  lemma SetsGrow(items: seq<Item>, i: nat)
    requires i < |items|
    ensures RestorePaths(items[..i + 1]) == RestorePaths(items[..i]) + {RestorePath(items[i])}
    ensures Names(items[..i + 1]) == Names(items[..i]) + {EntryName(items[i])}
  {
    assert items[..i + 1] == items[..i] + [items[i]];
  }

  // ---------------------------------------------------------------------------
  // Directories
  // ---------------------------------------------------------------------------

  method AddParents(paths: set<Path>, path: Path) returns (more: set<Path>)
    requires path != []
    ensures more == paths + Prefixes(path, |path| - 1)
  {
    more := paths;
    for length := 1 to |path|
      invariant more == paths + Prefixes(path, length - 1)
    {
      assert Prefixes(path, length) == Prefixes(path, length - 1) + {path[..length]};
      more := more + {path[..length]};
    }
  }

  lemma LeadingGrows(items: seq<Item>, i: nat, below: nat)
    requires i < |items|
    ensures Leading(items[..i + 1], below) ==
      Leading(items[..i], below) + LeadingTo(items[i], below)
  {
    hide LeadingTo;
    assert items[..i + 1] == items[..i] + [items[i]];
  }

  lemma PrefixesOfChild(path: Path)
    ensures Prefixes(path + ["child"], |path|) == Prefixes(path, |path|)
  {
    assert forall k :: 1 <= k <= |path| ==> (path + ["child"])[..k] == path[..k];
  }

  method CollectDirectories(m: Manifest) returns (paths: set<Path>)
    requires forall f :: f in m.files ==> RestorePath(f) != []
    ensures paths == DirectoryPaths(m)
  {
    hide Leading, Prefixes, RestorePath;
    paths := {};
    assert Leading([], 0) == {} && Leading([], 1) == {} by { NothingLeads(); }
    for i := 0 to |m.directories|
      invariant paths == Leading(m.directories[..i], 0)
    {
      LeadingGrows(m.directories, i, 0);
      PrefixesOfChild(RestorePath(m.directories[i]));
      paths := AddParents(paths, RestorePath(m.directories[i]) + ["child"]);
    }
    assert m.directories[..|m.directories|] == m.directories;
    for i := 0 to |m.files|
      invariant paths == Leading(m.directories, 0) + Leading(m.files[..i], 1)
    {
      LeadingGrows(m.files, i, 1);
      paths := AddParents(paths, RestorePath(m.files[i]));
    }
    assert m.files[..|m.files|] == m.files;
  }

  lemma NothingLeads()
    ensures Leading([], 0) == {} && Leading([], 1) == {}
  {
  }

  ghost predicate ClosedUpwards(paths: set<Path>) {
    forall q :: q in paths ==> q != [] && (|q| > 1 ==> q[..|q| - 1] in paths)
  }

  lemma DirectoriesAreClosed(m: Manifest)
    ensures ClosedUpwards(DirectoryPaths(m))
    ensures forall f :: f in m.files && |RestorePath(f)| > 1 ==>
      RestorePath(f)[..|RestorePath(f)| - 1] in DirectoryPaths(m)
  {
    hide RestorePath;
    forall q | q in DirectoryPaths(m) && |q| > 1
      ensures q[..|q| - 1] in DirectoryPaths(m)
    {
      var below := if q in Leading(m.directories, 0) then 0 else 1;
      var items := if below == 0 then m.directories else m.files;
      var item :| item in items && q in LeadingTo(item, below);
      assert q[..|q| - 1] == RestorePath(item)[..|q| - 1];
      assert q[..|q| - 1] in LeadingTo(item, below);
    }
    forall f | f in m.files && |RestorePath(f)| > 1
      ensures RestorePath(f)[..|RestorePath(f)| - 1] in DirectoryPaths(m)
    {
      assert RestorePath(f)[..|RestorePath(f)| - 1] in LeadingTo(f, 1);
    }
  }

  lemma {:induction false} SomeShallowest(paths: set<Path>) returns (path: Path)
    requires paths != {}
    ensures path in paths && forall q :: q in paths ==> |path| <= |q|
    decreases |paths|
  {
    path :| path in paths;
    if paths != {path} {
      var other := SomeShallowest(paths - {path});
      if |other| < |path| {
        path := other;
      }
    }
  }

  /** Creating the shallower directories first, every directory is created once and after its parent. */
  method MakeDirectories(paths: set<Path>) returns (disk: Disk)
    requires ClosedUpwards(paths)
    ensures disk == Disk(paths, map[])
  {
    disk := Disk({}, map[]);
    var rest := paths;
    while rest != {}
      invariant rest <= paths && disk == Disk(paths - rest, map[])
      decreases rest
    {
      ghost var shallowest := SomeShallowest(rest);
      var path :| path in rest && forall q :: q in rest ==> |path| <= |q|;
      disk := Mkdir(disk, path);
      rest := rest - {path};
      assert disk.directories == paths - rest;
    }
    assert paths - rest == paths;
  }

  /** `files` have been created in `disk`, each with the content of its entry. */
  ghost predicate Written(entries: map<Name, string>, files: seq<Item>, start: Disk, disk: Disk) {
    && disk.directories == start.directories && disk.files.Keys == RestorePaths(files)
    && forall f :: f in files ==>
         EntryName(f) in entries && RestorePath(f) in disk.files && disk.files[RestorePath(f)] == entries[EntryName(f)]
  }

  lemma NotYetWritten(files: seq<Item>, i: nat)
    requires i < |files| && AllApart(files)
    ensures RestorePath(files[i]) !in RestorePaths(files[..i])
    ensures forall f :: f in files[..i] ==> RestorePath(f) != RestorePath(files[i])
  {
    hide RestorePath;
    forall f | f in files[..i]
      ensures RestorePath(f) != RestorePath(files[i])
    {
      var k :| 0 <= k < i && files[k] == f;
      assert Apart(files[k], files[i]);
    }
  }

  lemma WriteOne(entries: map<Name, string>, files: seq<Item>, i: nat, start: Disk, disk: Disk)
    requires i < |files| && AllApart(files) && start.files == map[] && Written(entries, files[..i], start, disk)
    requires Creatable(start, RestorePath(files[i])) && EntryName(files[i]) in entries
    ensures Creatable(disk, RestorePath(files[i]))
    ensures Written(entries, files[..i + 1], start, CreateFile(disk, RestorePath(files[i]), entries[EntryName(files[i])]))
  {
    NotYetWritten(files, i);
    SetsGrow(files, i);
    hide RestorePath, AllApart, RestorePaths, EntryName;
    assert files[..i + 1] == files[..i] + [files[i]];
    var next := CreateFile(disk, RestorePath(files[i]), entries[EntryName(files[i])]);
    assert next.files.Keys == RestorePaths(files[..i + 1]);
    forall f | f in files[..i + 1]
      ensures EntryName(f) in entries && RestorePath(f) in next.files
      ensures next.files[RestorePath(f)] == entries[EntryName(f)]
    {
      assert f in files[..i] || f == files[i];
    }
  }

  lemma HashOne(p: Platform, entries: map<Name, string>, files: seq<Item>, i: nat)
    requires i < |files| && HashesMatch(p, entries, files[..i])
    ensures HashMatches(p, entries, files[i]) ==> HashesMatch(p, entries, files[..i + 1])
    ensures !HashMatches(p, entries, files[i]) ==> !HashesMatch(p, entries, files)
  {
    hide HashMatches;
    assert files[..i + 1] == files[..i] + [files[i]];
    assert files[i] in files;
  }

  /** Files are created in directories that are there, and none twice; their contents are verified. */
  method WriteFiles(p: Platform, start: Disk, entries: map<Name, string>, files: seq<Item>) returns (r: Result<Disk, RestoreError>)
    requires start.files == map[] && AllApart(files)
    requires forall i :: 0 <= i < |files| ==> Creatable(start, RestorePath(files[i])) && EntryName(files[i]) in entries
    ensures r.Ok? <==> HashesMatch(p, entries, files)
    ensures r.Ok? ==> Written(entries, files, start, r.value)
  {
    var disk := start;
    assert Written(entries, files[..0], start, disk) && HashesMatch(p, entries, files[..0]);
    hide RestorePath, Written, AllApart, Creatable, HashesMatch;
    for i := 0 to |files|
      invariant Written(entries, files[..i], start, disk)
      invariant HashesMatch(p, entries, files[..i])
    {
      var file := files[i];
      WriteOne(entries, files, i, start, disk);
      HashOne(p, entries, files, i);
      var content := entries[EntryName(file)];
      disk := CreateFile(disk, RestorePath(file), content);
      if p.hash(content) != file.sha256 {
        return Err(WrongHash);
      }
    }
    assert files[..|files|] == files;
    r := Ok(disk);
  }

  /** A restore succeeds exactly for a complete and consistent archive, and then creates exactly what the
      manifest lists, under the original names. Nothing is ever created twice or before its parent. */
  method RestoreSnapshotArchive(p: Platform, zip: seq<ZipEntry>, m: Manifest) returns (r: Result<Disk, RestoreError>)
    ensures r.Ok? <==> Restorable(p, zip, m)
    ensures r.Ok? ==> RestoredTo(zip, m, r.value)
  {
    hide IndexOf, TotalBytes, HasDuplicateNames, SafePath, DirectoryPaths, Names, RestorePath, RestorePaths, HashesMatch, AllApart;
    var indexed := IndexEntries(zip);
    if indexed.Err? { return Err(indexed.error); }
    var entries := indexed.value;
    if Name(MANIFEST, false) !in entries { return Err(Incomplete); }
    if Name(COMPLETION, false) !in entries || entries[Name(COMPLETION, false)] != m.createdAt + "\n" {
      return Err(Incomplete);
    }
    if m.totalFiles != |m.files| || m.totalBytes != TotalBytes(m.files) { return Err(WrongTotals); }
    var checked := CheckItems(entries, Items(m));
    if checked.Err? { return Err(checked.error); }
    if exists n :: n in entries && n !in checked.value { return Err(Unlisted); }
    PlacedFiles(entries, m);
    var paths := CollectDirectories(m);
    if exists f :: f in m.files && RestorePath(f) in paths { return Err(Conflict); }
    DirectoriesAreClosed(m);
    var disk := MakeDirectories(paths);
    r := WriteFiles(p, disk, entries, m.files);
  }

  lemma PlacedFiles(entries: map<Name, string>, m: Manifest)
    requires ItemsOk(entries, Items(m))
    ensures forall f :: f in m.files ==> RestorePath(f) != [] && EntryName(f) in entries
    ensures AllApart(m.files)
  {
    ItemsAreDistinct(entries, Items(m));
    hide ItemsOk, RestorePath;
    var n := |m.directories|;
    assert forall i :: 0 <= i < |m.files| ==> Items(m)[n + i] == m.files[i];
    forall i, j | 0 <= i < j < |m.files|
      ensures Apart(m.files[i], m.files[j])
    {
      assert Apart(Items(m)[n + i], Items(m)[n + j]);
    }
    forall f | f in m.files
      ensures RestorePath(f) != [] && EntryName(f) in entries
    {
      var i :| 0 <= i < |m.files| && m.files[i] == f;
      assert ItemOk(entries, Items(m)[n + i]);
    }
  }
}
