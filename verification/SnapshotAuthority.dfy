/** What a restore can be made to write: only what the manifest lists, with the contents that it lists, and only below
    the two roots. */
module SnapshotAuthority {
  import opened Wrappers
  import opened VaultPaths
  import opened SnapshotPaths
  import opened SnapshotRestore
  import FilePaths

  /** `assertSafeSnapshotPath`, on the text of a path. */
  predicate AcceptsText(text: string) {
    '\\' !in text && '\0' !in text && forall segment :: segment in Split(text) ==> segment !in {"", ".", ".."}
  }

  /** The segment lists stand for the texts: a path is safe exactly if its text is accepted, and an accepted text is
      that of a safe path. */
  lemma SafePathIff(text: string)
    ensures SafePath(Split(text)) <==> AcceptsText(text)
  {
    var path := Split(text);
    JoinSplit(text);
    FilePaths.CharInJoin(path, '\\');
    FilePaths.CharInJoin(path, '\0');
    hide Split, Join;
    forall i | 0 <= i < |path|
      ensures SafeSegment(path[i]) <==> path[i] !in {"", ".", ".."} && '\\' !in path[i] && '\0' !in path[i]
    {
    }
    assert forall i :: 0 <= i < |path| ==> path[i] in path;
  }

  lemma PrefixesAreFronts(path: Path, upto: int, q: Path)
    requires upto <= |path| && q in Prefixes(path, upto)
    ensures q != [] && q <= path
  {
  }

  lemma SafeFront(front: Path, path: Path)
    requires SafePath(path) && path[0] in ROOTS && front != [] && front <= path
    ensures SafePath(front) && front[0] in ROOTS
  {
  }

  /** Whatever an archive says, a restore only writes below the two roots, and no segment of a path leads elsewhere. */
  lemma RestoreStaysInRoots(p: Platform, zip: seq<ZipEntry>, m: Manifest, disk: Disk, path: Path)
    requires Restorable(p, zip, m) && RestoredTo(zip, m, disk) && (path in disk.directories || path in disk.files)
    ensures path != [] && (path[0] == "vaults" || path[0] == ".trash")
    ensures forall i :: 0 <= i < |path| ==> path[i] !in {"", ".", ".."} && '/' !in path[i] && '\\' !in path[i] && '\0' !in path[i]
  {
    var entries, items := IndexOf(zip), Items(m);
    ItemsAreDistinct(entries, items);
    hide IndexOf, ItemsOk, AllApart, HashesMatch, Prefixes;
    var k :| 0 <= k < |items| && path <= RestorePath(items[k]) && path != [] by {
      WrittenIsListed(zip, m, disk, path);
    }
    assert ItemOk(entries, items[k]);
    SafeFront(path, RestorePath(items[k]));
  }

  lemma WrittenIsListed(zip: seq<ZipEntry>, m: Manifest, disk: Disk, path: Path)
    requires RestoredTo(zip, m, disk) && (path in disk.directories || path in disk.files)
    requires forall item :: item in Items(m) ==> RestorePath(item) != []
    ensures exists k :: 0 <= k < |Items(m)| && path <= RestorePath(Items(m)[k]) && path != []
  {
    hide IndexOf, RestorePath, Prefixes;
    var item :| item in Items(m) && path <= RestorePath(item) && path != [] by {
      if path in disk.directories {
        if path in Leading(m.directories, 0) {
          var item :| item in m.directories && path in LeadingTo(item, 0);
          PrefixesAreFronts(RestorePath(item), |RestorePath(item)|, path);
          assert item in Items(m);
        } else {
          var item :| item in m.files && path in LeadingTo(item, 1);
          PrefixesAreFronts(RestorePath(item), |RestorePath(item)| - 1, path);
          assert item in Items(m);
        }
      } else {
        var item :| item in m.files && RestorePath(item) == path;
        assert item in Items(m);
      }
    }
  }

  function Contents(zip: seq<ZipEntry>): set<string> { set e | e in zip :: e.content }

  lemma IndexedIsContent(zip: seq<ZipEntry>, name: Name)
    requires !HasDuplicateNames(zip) && name in IndexOf(zip)
    ensures IndexOf(zip)[name] in Contents(zip)
  {
    IndexHolds(zip);
    var i :| 0 <= i < |zip| && zip[i].name == name;
    assert zip[i] in zip;
  }

  /** The manifest decides: two archives that are both accepted under one manifest are restored to the same files with
      the same contents, unless two of their contents have the same hash. */
  lemma ManifestDecidesRestore(p: Platform, zip: seq<ZipEntry>, other: seq<ZipEntry>, m: Manifest, disk: Disk, otherDisk: Disk)
    requires Restorable(p, zip, m) && RestoredTo(zip, m, disk)
    requires Restorable(p, other, m) && RestoredTo(other, m, otherDisk)
    requires HashSeparates(p, Contents(zip) + Contents(other))
    ensures disk == otherDisk
  {
    forall path | path in disk.files
      ensures path in otherDisk.files && disk.files[path] == otherDisk.files[path]
    {
      assert path in RestorePaths(m.files);
      var f :| f in m.files && RestorePath(f) == path;
      assert HashMatches(p, IndexOf(zip), f) && HashMatches(p, IndexOf(other), f);
      IndexedIsContent(zip, EntryName(f));
      IndexedIsContent(other, EntryName(f));
      hide IndexOf, Contents, DirectoryPaths, ItemsOk;
    }
    hide Restorable, IndexOf;
    assert disk.files.Keys == otherDisk.files.Keys;
  }

  lemma EntryIsListed(p: Platform, zip: seq<ZipEntry>, m: Manifest, e: ZipEntry)
    requires Restorable(p, zip, m) && e in zip
    ensures e.name in {Name(["kb1-snapshot.json"], false), Name(["kb1-snapshot.complete"], false), Name(["kb1-restore.txt"], false)}
      || exists item :: item in m.directories + m.files && e.name == Name(item.path, item.isDirectory)
  {
    IndexHolds(zip);
    var i :| 0 <= i < |zip| && zip[i] == e;
    assert zip[i].name in IndexOf(zip);
    hide IndexOf, ItemsOk, DirectoryPaths, HashesMatch, HasDuplicateNames;
    if e.name !in META {
      assert e.name in Names(Items(m));
    }
  }

  lemma ItemIsThere(p: Platform, zip: seq<ZipEntry>, m: Manifest, item: Item) returns (e: ZipEntry)
    requires Restorable(p, zip, m) && item in Items(m)
    ensures e in zip && e.name == Name(item.path, item.isDirectory)
    ensures e.name in IndexOf(zip) && IndexOf(zip)[e.name] == e.content && ItemOk(IndexOf(zip), item)
  {
    IndexHolds(zip);
    ItemsAreDistinct(IndexOf(zip), Items(m));
    hide IndexOf, ItemsOk, DirectoryPaths, HashesMatch, HasDuplicateNames, AllApart;
    var k :| 0 <= k < |Items(m)| && Items(m)[k] == item;
    assert ItemOk(IndexOf(zip), Items(m)[k]);
    var i :| 0 <= i < |zip| && zip[i].name == EntryName(item);
    e := zip[i];
  }

  lemma FileIsAsListed(p: Platform, zip: seq<ZipEntry>, m: Manifest, f: Item, e: ZipEntry)
    requires Restorable(p, zip, m) && f in m.files && !f.isDirectory && e in zip && e.name == Name(f.path, false)
    ensures |e.content| == f.sizeBytes && p.hash(e.content) == f.sha256
  {
    assert f in Items(m) && HashMatches(p, IndexOf(zip), f);
    var there := ItemIsThere(p, zip, m, f);
    IndexHolds(zip);
    hide IndexOf, ItemsOk, DirectoryPaths, HashesMatch, HasDuplicateNames;
    var i :| 0 <= i < |zip| && zip[i] == e;
    assert IndexOf(zip)[zip[i].name] == zip[i].content;
  }

  /** An accepted archive holds no more and no less than its manifest says: the entries are those of the listed items
      beside the three of the archive itself, each once and with a safe name, no item stands for one of those three,
      and sizes, totals and completion mark agree. */
  lemma AcceptedIsComplete(p: Platform, zip: seq<ZipEntry>, m: Manifest)
    requires Restorable(p, zip, m)
    ensures forall i, k :: 0 <= i < k < |zip| ==> zip[i].name != zip[k].name
    ensures forall e :: e in zip ==>
      e.name in {Name(["kb1-snapshot.json"], false), Name(["kb1-snapshot.complete"], false), Name(["kb1-restore.txt"], false)}
      || exists item :: item in m.directories + m.files && e.name == Name(item.path, item.isDirectory)
    ensures forall item :: item in m.directories + m.files ==> exists e :: e in zip && e.name == Name(item.path, item.isDirectory)
    ensures forall f, e :: f in m.files && e in zip && !f.isDirectory && e.name == Name(f.path, false) ==>
      |e.content| == f.sizeBytes && p.hash(e.content) == f.sha256
    ensures ZipEntry(Name(["kb1-snapshot.complete"], false), m.createdAt + "\n") in zip
    ensures exists e :: e in zip && e.name == Name(["kb1-snapshot.json"], false)
    ensures m.totalFiles == |m.files| && m.totalBytes == TotalBytes(m.files)
    ensures forall e :: e in zip ==> SafePath(e.name.path)
    ensures forall item :: item in m.directories + m.files && !item.isDirectory ==>
      item.path !in {["kb1-snapshot.json"], ["kb1-snapshot.complete"], ["kb1-restore.txt"]}
  {
    forall e | e in zip
      ensures e.name in {Name(["kb1-snapshot.json"], false), Name(["kb1-snapshot.complete"], false), Name(["kb1-restore.txt"], false)}
        || exists item :: item in m.directories + m.files && e.name == Name(item.path, item.isDirectory)
    {
      EntryIsListed(p, zip, m, e);
    }
    forall item | item in m.directories + m.files
      ensures exists e :: e in zip && e.name == Name(item.path, item.isDirectory)
      ensures EntryName(item) !in META
    {
      var e := ItemIsThere(p, zip, m, item);
    }
    forall f, e | f in m.files && e in zip && !f.isDirectory && e.name == Name(f.path, false)
      ensures |e.content| == f.sizeBytes && p.hash(e.content) == f.sha256
    {
      FileIsAsListed(p, zip, m, f, e);
    }
    MarksAreThere(p, zip, m);
    hide IndexOf, ItemsOk, DirectoryPaths, HashesMatch;
  }

  lemma MarksAreThere(p: Platform, zip: seq<ZipEntry>, m: Manifest)
    requires Restorable(p, zip, m)
    ensures ZipEntry(Name(COMPLETION, false), m.createdAt + "\n") in zip
    ensures exists e :: e in zip && e.name == Name(MANIFEST, false)
  {
    IndexHolds(zip);
    hide IndexOf, ItemsOk, DirectoryPaths, HashesMatch;
    var i :| 0 <= i < |zip| && zip[i].name == Name(COMPLETION, false);
    assert zip[i] in zip && IndexOf(zip)[zip[i].name] == zip[i].content;
    var k :| 0 <= k < |zip| && zip[k].name == Name(MANIFEST, false);
    assert zip[k] in zip;
  }
}
