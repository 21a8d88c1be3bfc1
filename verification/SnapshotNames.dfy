/** Which names a snapshot keeps: every segment of a path that is portable and alone, and no other. */
module SnapshotNames {
  import opened Wrappers
  import opened VaultPaths
  import opened SnapshotPaths
  import opened SnapshotRestore

  /** Another given path has, in the same place, a different name that folds to the same. */
  predicate Clashes(p: Platform, paths: seq<Path>, path: Path, i: nat)
    requires i < |path|
  {
    exists q :: q in paths && path[..i] < q && q[i] != path[i] && p.fold(q[i]) == p.fold(path[i])
  }

  /** Nothing speaks against the name at `i`. */
  predicate Fine(p: Platform, paths: seq<Path>, path: Path, i: nat)
    requires i < |path|
  {
    IsPortableSnapshotSegment(path[i]) && !Clashes(p, paths, path, i) && !(PREFIX <= p.lower(path[i]))
  }

  lemma SharedIsClash(p: Platform, paths: seq<Path>, path: Path, i: nat)
    requires i < |path|
    ensures Shared(p, Siblings(paths, path[..i]), path[i]) <==> Clashes(p, paths, path, i)
  {
    if Clashes(p, paths, path, i) {
      var q :| q in paths && path[..i] < q && q[i] != path[i] && p.fold(q[i]) == p.fold(path[i]);
      assert q[i] in Siblings(paths, path[..i]);
    }
  }

  /** A segment is kept if it is portable, folds unlike all its siblings and does not start with the reserved prefix.
      Otherwise it is replaced by the prefix, the hash of the original and the original's short extension. */
  lemma {:induction false} SegmentIsKeptOrReplaced(p: Platform, paths: seq<Path>, path: Path, i: nat)
    requires Lawful(p) && i < |path|
    ensures var name, extension := MapPath(p, paths, path)[i], ExtName(path[i]);
      if Fine(p, paths, path, i) then name == path[i]
      else name == PREFIX + p.hash(path[i]) + if IsShortExtension(extension) then extension else ""
  {
    if i < |path| - 1 {
      var parent := path[..|path| - 1];
      SegmentIsKeptOrReplaced(p, paths, parent, i);
      assert parent[..i] == path[..i];
      assert MapPath(p, paths, path)[i] == MapPath(p, paths, parent)[i];
      assert Fine(p, paths, parent, i) == Fine(p, paths, path, i);
    } else {
      SharedIsClash(p, paths, path, i);
    }
  }

  /** A path of which every segment is fine is mapped to itself, and a path that is mapped to itself has only fine
      segments or such as were generated names before. */
  lemma PathIsKept(p: Platform, paths: seq<Path>, path: Path)
    requires Lawful(p)
    ensures (forall i :: 0 <= i < |path| ==> Fine(p, paths, path, i)) ==> MapPath(p, paths, path) == path
    ensures MapPath(p, paths, path) == path ==>
      forall i :: 0 <= i < |path| ==> Fine(p, paths, path, i) || PREFIX <= path[i]
  {
    forall i | 0 <= i < |path|
      ensures Fine(p, paths, path, i) ==> MapPath(p, paths, path)[i] == path[i]
      ensures MapPath(p, paths, path)[i] == path[i] && !Fine(p, paths, path, i) ==> PREFIX <= path[i]
    {
      SegmentIsKeptOrReplaced(p, paths, path, i);
    }
    hide Fine;
  }

  /** Nothing speaks against any name of the tree. */
  predicate AllFine(p: Platform, paths: seq<Path>) {
    forall path, i :: path in paths && 0 <= i < |path| ==> Fine(p, paths, path, i)
  }

  lemma FineTreeIsMappedToItself(p: Platform, directories: seq<Path>, files: seq<SourceFile>)
    requires Lawful(p) && AllFine(p, AllPaths(directories, files))
    ensures var paths := AllPaths(directories, files);
      && (forall i :: 0 <= i < |directories| ==> MapPath(p, paths, directories[i]) == directories[i])
      && (forall i :: 0 <= i < |files| ==> MapPath(p, paths, files[i].path) == files[i].path)
  {
    var paths := AllPaths(directories, files);
    hide Fine, MapPath, Lawful;
    forall path | path in paths
      ensures MapPath(p, paths, path) == path
    {
      PathIsKept(p, paths, path);
    }
    forall i | 0 <= i < |directories|
      ensures directories[i] in paths
    {
      assert paths[3 + i] == directories[i];
    }
    forall i | 0 <= i < |files|
      ensures files[i].path in paths
    {
      assert paths[3 + |directories| + i] == FilePaths(files)[i];
    }
  }

  /** A tree of fine names is archived under its own names: the manifest lists every path as it is and notes no
      original, and the entries hold the files' contents under their paths. */
  lemma FineTreeIsListedAsIs(p: Platform, directories: seq<Path>, files: seq<SourceFile>, createdAt: string, archive: Archive)
    requires Lawful(p) && AllFine(p, AllPaths(directories, files))
    requires Planned(p, AllPaths(directories, files), directories, files, createdAt, archive)
    ensures var m := archive.manifest;
      && |m.directories| == |directories| && |m.files| == |files|
      && (forall i :: 0 <= i < |directories| ==> m.directories[i].path == directories[i] && m.directories[i].originalPath.None?)
      && (forall i :: 0 <= i < |files| ==> m.files[i].path == files[i].path && m.files[i].originalPath.None?)
      && (forall i :: 0 <= i < |files| ==> ZipEntry(Name(files[i].path, false), files[i].content) in archive.zip)
  {
    FineTreeIsMappedToItself(p, directories, files);
    hide AllFine, Lawful, MapPath, AllPaths;
    var m := archive.manifest;
    forall i | 0 <= i < |files|
      ensures ZipEntry(Name(files[i].path, false), files[i].content) in archive.zip
    {
      assert m.files[i].path == files[i].path && !m.files[i].isDirectory;
      assert FileEntries(m.files, files)[i] in FileEntries(m.files, files);
    }
  }

  /** An original is noted exactly for the paths that are replaced. */
  lemma OriginalIsNotedIff(p: Platform, directories: seq<Path>, files: seq<SourceFile>, createdAt: string, archive: Archive, i: nat)
    requires Planned(p, AllPaths(directories, files), directories, files, createdAt, archive) && i < |files|
    ensures var item := archive.manifest.files[i];
      && (item.originalPath == None <==> item.path == files[i].path)
      && (item.originalPath.Some? ==> item.originalPath.value == files[i].path)
      && item.sizeBytes == |files[i].content| && item.sha256 == p.hash(files[i].content)
  {
    hide MapPath, AllPaths;
  }

  lemma BaseEnds(base: string, rest: string)
    requires '.' !in base
    ensures BaseName(base) == base && BaseName(base + "." + rest) == base
  {
    var name := base + "." + rest;
    assert name[|base|] == '.' && name[..|base|] == base;
    var dot := IndexOfDot(name);
    assert forall k :: 0 <= k < |base| ==> name[k] == base[k] && base[k] != '.';
    assert dot >= |base|;
    assert forall k :: 0 <= k < dot ==> name[..dot][k] == name[k] && name[k] != '.';
  }

  lemma ReservedByExample()
    ensures IsReservedBase("con") && IsReservedBase("CON") && IsReservedBase("nul") && IsReservedBase("aux") && IsReservedBase("prn")
    ensures IsReservedBase("Com1") && IsReservedBase("lpt9") && IsReservedBase("com\U{00B9}")
    ensures !IsReservedBase("") && !IsReservedBase("console") && !IsReservedBase("com0") && !IsReservedBase("com10") && !IsReservedBase("a")
  {
    assert AsciiLower("con") == "con" && AsciiLower("CON") == "con" && AsciiLower("nul") == "nul";
    assert AsciiLower("aux") == "aux" && AsciiLower("prn") == "prn" && AsciiLower("a") == "a" && AsciiLower("") == "";
    assert AsciiLower("Com1") == "com1" && AsciiLower("lpt9") == "lpt9" && AsciiLower("com\U{00B9}") == "com\U{00B9}";
    assert AsciiLower("com0") == "com0";
    assert "com1"[..3] == "com" && "lpt9"[..3] == "lpt" && "com\U{00B9}"[..3] == "com";
  }

  /** A device name is not portable, whatever extension it has. */
  lemma DevicesAreNotPortable(base: string, rest: string)
    requires '.' !in base && IsReservedBase(base)
    ensures !IsPortableSnapshotSegment(base) && !IsPortableSnapshotSegment(base + "." + rest)
  {
    BaseEnds(base, rest);
    hide BaseName, IsReservedBase;
  }

  /** Any other name is, unless it ends in a dot or a blank or holds a character that other systems refuse. */
  lemma OthersArePortable(base: string, rest: string)
    requires '.' !in base && !IsReservedBase(base)
    ensures var name := base + "." + rest;
      IsPortableSnapshotSegment(name) <==>
        && rest != "" && rest[|rest| - 1] != '.' && rest[|rest| - 1] != ' '
        && (forall c :: c in base + rest ==> c >= ' ' && c !in "<>:\"\\|?*")
  {
    BaseEnds(base, rest);
    hide BaseName, IsReservedBase;
    var name := base + "." + rest;
    forall c | c in name
      ensures c in base + rest || c == '.'
    {
    }
    forall c | c in base + rest
      ensures c in name
    {
    }
    assert rest != "" ==> name[|name| - 1] == rest[|rest| - 1];
    assert rest == "" ==> name[|name| - 1] == '.';
    forall c
      ensures IsInvalidChar(c) <==> !(c >= ' ' && c !in "<>:\"\\|?*")
    {
    }
    assert (forall i :: 0 <= i < |name| ==> !IsInvalidChar(name[i])) <==> forall c :: c in name ==> !IsInvalidChar(c);
  }

  /** Which extensions a replaced name keeps. */
  lemma ExtensionsByExample()
    ensures ExtName("a.b.md") == ".md" && ExtName(".env") == "" && ExtName("a") == ""
    ensures IsShortExtension(".md") && IsShortExtension(".JPEG2000ab") && !IsShortExtension(".JPEG2000abc") && !IsShortExtension(".m-d")
  {
    var name, hidden := "a.b.md", ".env";
    assert name[..5] == "a.b.m" && name[..5][..4] == "a.b." && name[3..] == ".md";
    assert LastDot("a.b.") == 3 && LastDot("a.b.m") == 3 && LastDot(name) == 3;
    assert hidden[..3] == ".en" && hidden[..3][..2] == ".e" && hidden[..3][..2][..1] == ".";
    assert LastDot(".") == 0 && LastDot(".e") == 0 && LastDot(".en") == 0 && LastDot(hidden) == 0;
    assert "a"[..0] == "" && LastDot("") == -1 && LastDot("a") == -1;
    assert ".m-d"[2] == '-';
  }
}
