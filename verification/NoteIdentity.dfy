/** The traversal of the log agrees with the identity of notes: which versions it finds for each living note. */
module NoteIdentity {
  import opened Wrappers
  import opened VaultPaths
  import opened NoteHistory

  function Versions(entries: seq<Entry>): seq<Version> {
    if entries == [] then [] else [Version(entries[0].index, entries[0].path)] + Versions(entries[1..])
  }

  function Indexes(versions: seq<Version>): set<nat> { set v | v in versions :: v.index }

  /** The entries name commits of the log, newest first, each with the path and the content it records. */
  ghost predicate Recorded(log: seq<Commit>, entries: seq<Entry>) {
    && (forall i :: 0 <= i < |entries| ==>
          entries[i].index < |log|
          && Lookup(log[entries[i].index].after.files, entries[i].path) == Some(entries[i].content))
    && (forall i, j :: 0 <= i < j < |entries| ==> entries[i].index > entries[j].index)
  }

  /** The note is read back exactly, or, when it is marked, a different set of commits is. */
  ghost predicate Accounted(log: seq<Commit>, path: Path, note: Note) {
    && note.entries != [] && Recorded(log, note.entries)
    && (!note.misread ==> Traverse(log, path, |log|) == Versions(note.entries))
    && (note.misread ==> Indexes(Traverse(log, path, |log|)) != Indexes(Versions(note.entries)))
  }

  ghost predicate MarkersInv(w: World) {
    forall p :: p in w.tree.markers ==> w.tree.markers[p] < w.nextMarker
  }

  ghost predicate Inv(w: World) {
    && (forall p :: p in w.live ==> Accounted(w.log, p, w.live[p]) && p in w.tree.files)
    && MarkersInv(w)
  }

  // ---------------------------------------------------------------------------
  // Traversals of a longer log
  // ---------------------------------------------------------------------------

  lemma {:induction false} LaterCommitsDoNotMatter(log: seq<Commit>, c: Commit, path: Path, upto: nat)
    requires upto <= |log|
    ensures Traverse(log + [c], path, upto) == Traverse(log, path, upto)
    decreases upto
  {
    hide Touched, ScopeOf;
    if upto > 0 {
      assert (log + [c])[upto - 1] == log[upto - 1];
      LaterCommitsDoNotMatter(log, c, path, upto - 1);
      if ScopeOf(path, log[upto - 1]).ContinuesAt? {
        LaterCommitsDoNotMatter(log, c, ScopeOf(path, log[upto - 1]).previous, upto - 1);
      }
    }
  }

  lemma {:induction false} IndexesAreEarlier(log: seq<Commit>, path: Path, upto: nat)
    requires upto <= |log|
    ensures forall v :: v in Traverse(log, path, upto) ==> v.index < upto
    decreases upto
  {
    if upto > 0 {
      IndexesAreEarlier(log, path, upto - 1);
      if ScopeOf(path, log[upto - 1]).ContinuesAt? {
        IndexesAreEarlier(log, ScopeOf(path, log[upto - 1]).previous, upto - 1);
      }
    }
  }

  lemma RecordedStays(log: seq<Commit>, c: Commit, entries: seq<Entry>)
    requires Recorded(log, entries)
    ensures Recorded(log + [c], entries)
  {
    forall i | 0 <= i < |entries|
      ensures entries[i].index < |log + [c]|
      ensures Lookup((log + [c])[entries[i].index].after.files, entries[i].path) == Some(entries[i].content)
    {
      assert (log + [c])[entries[i].index] == log[entries[i].index];
    }
  }

  lemma RecordedGrows(log: seq<Commit>, c: Commit, entries: seq<Entry>, path: Path, content: Blob)
    requires Recorded(log, entries) && Lookup(c.after.files, path) == Some(content)
    ensures Recorded(log + [c], [Entry(|log|, path, content)] + entries)
  {
    RecordedStays(log, c, entries);
  }

  lemma IndexesPrepend(v: Version, rest: seq<Version>)
    ensures Indexes([v] + rest) == {v.index} + Indexes(rest)
  {
  }

  /** A commit that says nothing about the path of a note does not change what is read for it. */
  lemma StaysAccounted(log: seq<Commit>, c: Commit, path: Path, note: Note)
    requires Accounted(log, path, note) && ScopeOf(path, c) == Unrelated
    ensures Accounted(log + [c], path, note)
  {
    LaterCommitsDoNotMatter(log, c, path, |log|);
    RecordedStays(log, c, note.entries);
    assert (log + [c])[|log|] == c;
    assert Traverse(log + [c], path, |log + [c]|) == Traverse(log + [c], path, |log|);
    hide Traverse, ScopeOf, Touched, Recorded;
  }

  /** Where the traversal goes on from a commit that belongs to the note. */
  ghost predicate LeadsTo(c: Commit, path: Path, previous: Path) {
    || ScopeOf(path, c) == ContinuesAt(previous)
    || (ScopeOf(path, c) == Continues && c.operation != Create && previous == path)
  }

  /** A commit that is seen and leads to where the note was adds one version, whatever the note was. */
  lemma GrowsAccounted(log: seq<Commit>, c: Commit, previous: Path, path: Path, note: Note, content: Blob)
    requires Accounted(log, previous, note) && Touched(c, path) && LeadsTo(c, path, previous)
    requires Lookup(c.after.files, path) == Some(content)
    ensures Accounted(log + [c], path, Note([Entry(|log|, path, content)] + note.entries, note.misread))
  {
    LaterCommitsDoNotMatter(log, c, previous, |log|);
    RecordedGrows(log, c, note.entries, path, content);
    assert (log + [c])[|log|] == c;
    var older := Traverse(log, previous, |log|);
    var v := Version(|log|, path);
    assert Traverse(log + [c], path, |log + [c]|) == [v] + older;
    IndexesAreEarlier(log, previous, |log|);
    var entries := [Entry(|log|, path, content)] + note.entries;
    assert entries[1..] == note.entries;
    assert Versions(entries) == [v] + Versions(note.entries);
    hide Traverse, ScopeOf, Touched, LeadsTo, Recorded, Versions, Lookup;
    IndexesPrepend(v, older);
    IndexesPrepend(v, Versions(note.entries));
    if note.misread {
      VersionsAreEarlier(log, note.entries);
      assert |log| !in Indexes(older) && |log| !in Indexes(Versions(note.entries));
      assert ({|log|} + Indexes(older)) - {|log|} == Indexes(older);
      assert ({|log|} + Indexes(Versions(note.entries))) - {|log|} == Indexes(Versions(note.entries));
    }
  }

  lemma {:induction false} VersionsOf(entries: seq<Entry>)
    ensures |Versions(entries)| == |entries|
    ensures forall i :: 0 <= i < |entries| ==> Versions(entries)[i] == Version(entries[i].index, entries[i].path)
  {
    if entries != [] {
      VersionsOf(entries[1..]);
    }
  }

  lemma VersionsAreEarlier(log: seq<Commit>, entries: seq<Entry>)
    requires Recorded(log, entries)
    ensures forall v :: v in Versions(entries) ==> v.index < |log|
  {
    VersionsOf(entries);
  }

  /** A folder move that the log does not show at the note's new path is missed for ever. */
  lemma MissedIsMisread(log: seq<Commit>, c: Commit, previous: Path, path: Path, note: Note, content: Blob)
    requires Accounted(log, previous, note) && !Touched(c, path)
    requires Lookup(c.after.files, path) == Some(content)
    ensures Accounted(log + [c], path, Note([Entry(|log|, path, content)] + note.entries, true))
  {
    LaterCommitsDoNotMatter(log, c, path, |log|);
    RecordedGrows(log, c, note.entries, path, content);
    assert (log + [c])[|log|] == c;
    IndexesAreEarlier(log, path, |log|);
    assert Traverse(log + [c], path, |log + [c]|) == Traverse(log, path, |log|);
    hide Traverse, Touched, Recorded, Lookup;
    var entries := [Entry(|log|, path, content)] + note.entries;
    assert Version(|log|, path) in Versions(entries);
    assert |log| in Indexes(Versions(entries)) && |log| !in Indexes(Traverse(log, path, |log|));
  }

  /** A traversal that stops at a move loses every older version. */
  lemma StoppedIsMisread(log: seq<Commit>, c: Commit, previous: Path, path: Path, note: Note, content: Blob)
    requires Accounted(log, previous, note) && Touched(c, path) && ScopeOf(path, c) == Stops
    requires Lookup(c.after.files, path) == Some(content)
    ensures Accounted(log + [c], path, Note([Entry(|log|, path, content)] + note.entries, true))
  {
    RecordedGrows(log, c, note.entries, path, content);
    assert (log + [c])[|log|] == c;
    assert Traverse(log + [c], path, |log + [c]|) == [Version(|log|, path)];
    hide Traverse, ScopeOf, Touched;
    var entries := [Entry(|log|, path, content)] + note.entries;
    VersionsOf(entries);
    VersionsOf(note.entries);
    hide Versions;
    assert Versions(entries)[1] in Versions(entries);
    assert Versions(entries)[1].index in Indexes(Versions(entries));
    assert entries[1] == note.entries[0];
    assert Indexes([Version(|log|, path)]) == {|log|};
  }

  lemma OneMore(v: Version, older: seq<Version>, index: nat)
    requires v.index == index && forall u :: u in older ==> u.index < index
    ensures [v] + older == [v] <==> older == []
    ensures Indexes([v] + older) == Indexes([v]) <==> older == []
  {
    IndexesPrepend(v, older);
    IndexesPrepend(v, []);
    assert [v] + [] == [v];
    if older != [] {
      assert older[0] in older;
      assert older[0].index in Indexes([v] + older) && older[0].index !in Indexes([v]);
    }
  }

  lemma BirthIsRead(log: seq<Commit>, c: Commit, path: Path)
    requires Touched(c, path) && ScopeOf(path, c) == Continues
    ensures Traverse(log + [c], path, |log + [c]|) ==
      [Version(|log|, path)] + if c.operation == Create then [] else Traverse(log, path, |log|)
  {
    LaterCommitsDoNotMatter(log, c, path, |log|);
    assert (log + [c])[|log|] == c;
  }

  /** A note that is born by a create is read from there; one that is born by an append is read back exactly
      when the path had no history. */
  lemma BirthIsAccounted(log: seq<Commit>, c: Commit, path: Path, content: Blob)
    requires Touched(c, path) && ScopeOf(path, c) == Continues && Lookup(c.after.files, path) == Some(content)
    ensures Accounted(log + [c], path, Note([Entry(|log|, path, content)],
      c.operation != Create && HasHistory(log, path, |log|)))
  {
    BirthIsRead(log, c, path);
    NothingIsReadIff(log, path, |log|);
    IndexesAreEarlier(log, path, |log|);
    hide HasHistory, Traverse, ScopeOf, Touched, Indexes, Lookup;
    var entries := [Entry(|log|, path, content)];
    assert Versions(entries) == [Version(|log|, path)] by {
      assert entries[1..] == [];
    }
    assert Recorded(log + [c], entries) by {
      assert (log + [c])[|log|] == c;
    }
    hide Versions, Recorded;
    OneMore(Version(|log|, path), if c.operation == Create then [] else Traverse(log, path, |log|), |log|);
  }

  // ---------------------------------------------------------------------------
  // Every step
  // ---------------------------------------------------------------------------

  /** The commit of a pending entry is always seen at its path: its marker is new. */
  lemma RecordIsSeen(w: World, operation: Operation, from: Option<Path>, path: Path, content: Blob)
    requires MarkersInv(w)
    ensures var t := Record(w, operation, from, path, content);
      && t.log == w.log + [t.log[|w.log|]] && MarkersInv(t)
      && Touched(t.log[|w.log|], path)
      && Lookup(t.log[|w.log|].after.files, path) == Some(content) && path in t.tree.files
  {
  }

  /** A commit at a path says nothing about the notes elsewhere, unless it could be read as a folder move. */
  lemma RecordKeepsOthers(w: World, operation: Operation, from: Option<Path>, path: Path, content: Blob, p: Path)
    requires Inv(w) && p in w.live && p != path && from != Some(p) && !(operation == Move && path < p)
    ensures var t := Record(w, operation, from, path, content);
      Accounted(t.log, p, w.live[p]) && p in t.tree.files
  {
    var t := Record(w, operation, from, path, content);
    StaysAccounted(w.log, t.log[|w.log|], p, w.live[p]);
    hide Accounted;
  }

  /** A step that commits one entry and touches one note keeps the invariant if that note is accounted for. */
  lemma OneNoteChanges(w: World, t: World, operation: Operation, from: Option<Path>, path: Path, content: Blob)
    requires Inv(w) && t == Record(w, operation, from, path, content).(live := t.live)
    requires path in t.live ==> Accounted(t.log, path, t.live[path])
    requires forall p :: p in t.live && p != path ==>
      p in w.live && t.live[p] == w.live[p] && from != Some(p) && !(operation == Move && path < p)
    ensures Inv(t)
  {
    RecordIsSeen(w, operation, from, path, content);
    var r := Record(w, operation, from, path, content);
    assert t.log == r.log && t.tree == r.tree && t.nextMarker == r.nextMarker;
    hide Touched, Accounted, Record, Lookup;
    assert MarkersInv(t);
    hide MarkersInv;
    forall p | p in t.live && p != path
      ensures Accounted(t.log, p, t.live[p]) && p in t.tree.files
    {
      RecordKeepsOthers(w, operation, from, path, content, p);
    }
  }

  lemma BornNote(w: World, operation: Operation, path: Path, content: Blob)
    requires MarkersInv(w) && (operation == Create || operation == Update)
    ensures var t := Born(w, operation, path, content);
      Accounted(t.log, path, t.live[path])
  {
    var r := Record(w, operation, None, path, content);
    RecordIsSeen(w, operation, None, path, content);
    hide Accounted, Touched, Traverse, Lookup, HasHistory;
    BirthIsAccounted(w.log, r.log[|w.log|], path, content);
  }

  lemma BornKeepsInv(w: World, operation: Operation, path: Path, content: Blob)
    requires Inv(w) && Free(w, path) && (operation == Create || operation == Update)
    ensures Inv(Born(w, operation, path, content))
  {
    BornNote(w, operation, path, content);
    hide Accounted, HasHistory, Record;
    OneNoteChanges(w, Born(w, operation, path, content), operation, None, path, content);
  }

  lemma EditedNote(w: World, path: Path, content: Blob)
    requires MarkersInv(w) && path in w.live && Accounted(w.log, path, w.live[path])
    ensures var t := Edited(w, path, content);
      Accounted(t.log, path, t.live[path])
  {
    var r := Record(w, Update, None, path, content);
    RecordIsSeen(w, Update, None, path, content);
    assert LeadsTo(r.log[|w.log|], path, path);
    hide Accounted, Touched, Lookup, LeadsTo;
    GrowsAccounted(w.log, r.log[|w.log|], path, path, w.live[path], content);
  }

  lemma EditedKeepsInv(w: World, path: Path, content: Blob)
    requires Inv(w) && path in w.live
    ensures Inv(Edited(w, path, content))
  {
    EditedNote(w, path, content);
    hide Accounted, Record;
    OneNoteChanges(w, Edited(w, path, content), Update, None, path, content);
  }

  lemma MovedNote(w: World, from: Path, to: Path, content: Blob)
    requires MarkersInv(w) && from in w.live && Accounted(w.log, from, w.live[from]) && IsFilePath(Join(from))
    ensures var t := MovedFile(w, from, to, content);
      Accounted(t.log, to, t.live[to])
  {
    var operation := if DirName(from) == DirName(to) then Rename else Move;
    var r := Record(w, operation, Some(from), to, content);
    RecordIsSeen(w, operation, Some(from), to, content);
    assert LeadsTo(r.log[|w.log|], to, from) by {
      assert from + to[|to|..] == from;
    }
    hide Accounted, Touched, Lookup, LeadsTo, IsFilePath, Join;
    GrowsAccounted(w.log, r.log[|w.log|], from, to, w.live[from], content);
  }

  lemma MovedFileKeepsInv(w: World, from: Path, to: Path, content: Blob)
    requires Inv(w) && from in w.live && Free(w, to) && IsFilePath(Join(from))
    ensures Inv(MovedFile(w, from, to, content))
  {
    MovedNote(w, from, to, content);
    hide Accounted, Record, IsFilePath, Join;
    var operation := if DirName(from) == DirName(to) then Rename else Move;
    OneNoteChanges(w, MovedFile(w, from, to, content), operation, Some(from), to, content);
  }

  lemma FlushedDeletedKeepsInv(w: World, path: Path, operation: Operation, content: Blob)
    requires Inv(w) && path !in w.live && (operation == Create || operation == Update)
    ensures Inv(Record(w, operation, None, path, content))
  {
    var r := Record(w, operation, None, path, content);
    assert r.live == w.live;
    hide Accounted, Record;
    OneNoteChanges(w, r, operation, None, path, content);
  }

  // ---------------------------------------------------------------------------
  // Folder moves
  // ---------------------------------------------------------------------------

  function FolderCommit(w: World, from: Path, to: Path, disk: map<Path, Blob>): Commit {
    Commit(Move, to, Some(from), w.tree, Tree(FolderStaged(w.tree.files, from, to, disk), w.tree.markers))
  }

  /** A folder move is missing from the log of a moved note exactly when the index already held its content. */
  lemma UnseenIffStale(w: World, from: Path, to: Path, disk: map<Path, Blob>, path: Path)
    requires path in disk && to <= path && forall p, q :: p in disk && q in disk ==> to < p && !(p < q)
    ensures Touched(FolderCommit(w, from, to, disk), path) <==> !Stale(w.tree.files, path, disk[path])
  {
    var c := FolderCommit(w, from, to, disk);
    forall q | path <= q
      ensures Lookup(c.after.files, q) == Lookup(disk, q)
      ensures q != path ==> q !in disk
    {
      assert to <= q;
    }
    if Stale(w.tree.files, path, disk[path]) {
      assert forall q :: path <= q && q in w.tree.files ==> q == path;
    } else if path in w.tree.files && w.tree.files[path] == disk[path] {
      var q :| q in w.tree.files && path < q;
      assert Lookup(c.before.files, q) != Lookup(c.after.files, q);
    } else {
      assert Lookup(c.before.files, path) != Lookup(c.after.files, path);
    }
  }

  lemma RelocatedBack(from: Path, to: Path, path: Path)
    requires from <= path
    ensures Origin(from, to, Relocated(from, to, path)) == path && to <= Relocated(from, to, path)
  {
    assert from + path[|from|..] == path;
  }

  lemma CarriedIsAccounted(w: World, from: Path, to: Path, disk: map<Path, Blob>, p: Path)
    requires Inv(w) && Possible(w, MovesFolder(from, to, disk)) && p in w.live && from <= p
    ensures var q := Relocated(from, to, p);
      && Origin(from, to, q) == p && q in disk
      && Accounted(w.log + [FolderCommit(w, from, to, disk)], q, Carried(w, from, to, disk, q))
  {
    var q, c := Relocated(from, to, p), FolderCommit(w, from, to, disk);
    RelocatedBack(from, to, p);
    assert from + q[|to|..] == p;
    UnseenIffStale(w, from, to, disk, q);
    hide Accounted, Touched, Stale, IsFilePath, Join;
    if !Touched(c, q) {
      MissedIsMisread(w.log, c, p, q, w.live[p], disk[q]);
    } else if IsFilePath(Join(p)) {
      GrowsAccounted(w.log, c, p, q, w.live[p], disk[q]);
    } else {
      StoppedIsMisread(w.log, c, p, q, w.live[p], disk[q]);
    }
  }

  lemma MovedNoteIsAChange(w: World, from: Path, to: Path, disk: map<Path, Blob>, p: Path)
    requires Possible(w, MovesFolder(from, to, disk)) && p in w.live && p in w.tree.files && from <= p
    ensures HasStagedChanges(w.tree.files, FolderCommit(w, from, to, disk).after.files, from, to)
  {
    var after := FolderCommit(w, from, to, disk).after.files;
    assert !(to <= p);
    assert p !in disk;
    assert Lookup(w.tree.files, p) != Lookup(after, p);
  }

  lemma MovedFolderKeepsInv(w: World, from: Path, to: Path, disk: map<Path, Blob>)
    requires Inv(w) && Possible(w, MovesFolder(from, to, disk))
    ensures Inv(MovedFolder(w, from, to, disk))
  {
    var t, c := MovedFolder(w, from, to, disk), FolderCommit(w, from, to, disk);
    if HasStagedChanges(w.tree.files, c.after.files, from, to) {
      forall q | q in t.live
        ensures Accounted(t.log, q, t.live[q]) && q in t.tree.files
      {
        var p :| p in w.live && q == Relocated(from, to, p);
        if from <= p {
          CarriedIsAccounted(w, from, to, disk, p);
        } else {
          assert !Comparable(p, to);
          StaysAccounted(w.log, c, q, w.live[q]);
        }
        hide Accounted, Touched;
      }
    }
  }

  lemma StepKeepsInv(w: World, step: Step)
    requires Inv(w) && Possible(w, step)
    ensures Inv(Next(w, step))
  {
    hide Accounted, Record, IsFilePath, Join, Traverse;
    match step
    case Creates(path, content) => BornKeepsInv(w, Create, path, content);
    case AppendsToNothing(path, content) => BornKeepsInv(w, Update, path, content);
    case Updates(path, content) => EditedKeepsInv(w, path, content);
    case Moves(from, to, content) => MovedFileKeepsInv(w, from, to, content);
    case MovesFolder(from, to, disk) => MovedFolderKeepsInv(w, from, to, disk);
    case Deletes(paths) =>
    case FlushesDeleted(path, operation, content) => FlushedDeletedKeepsInv(w, path, operation, content);
  }

  lemma {:induction false} RunKeepsInv(w: World, steps: seq<Step>)
    requires Inv(w) && Happens(w, steps)
    ensures Inv(Run(w, steps))
    decreases |steps|
  {
    if steps != [] {
      StepKeepsInv(w, steps[0]);
      RunKeepsInv(Next(w, steps[0]), steps[1..]);
    }
  }

  // ---------------------------------------------------------------------------
  // The guarantee
  // ---------------------------------------------------------------------------

  /** History follows note identity. After any run, reading the history of a living note returns exactly
      the note's own versions, newest first, each with the path where that commit keeps the note's content,
      if and only if the note was never misread. */
  lemma HistoryFollowsIdentity(steps: seq<Step>, path: Path)
    requires Happens(Empty, steps) && path in Run(Empty, steps).live
    ensures var w := Run(Empty, steps);
      && Recorded(w.log, w.live[path].entries)
      && (Traverse(w.log, path, |w.log|) == Versions(w.live[path].entries) <==> !w.live[path].misread)
  {
    RunKeepsInv(Empty, steps);
    hide Traverse, Recorded, Run, Happens;
  }

  /** The steps after which every note can be read back: an append creates a note only where there is no
      history; a folder move takes notes only from paths a note can be addressed by, and lands no note on
      the identical content that a vanished file left in the index. */
  ghost predicate Plain(w: World, step: Step) {
    match step
    case AppendsToNothing(path, _) => !HasHistory(w.log, path, |w.log|)
    case MovesFolder(from, to, disk) =>
      forall p :: p in w.live && from <= p ==>
        var q := Relocated(from, to, p);
        IsFilePath(Join(p)) && q in disk && !Stale(w.tree.files, q, disk[q])
    case _ => true
  }

  ghost predicate AllPlain(w: World, steps: seq<Step>)
    requires Happens(w, steps)
    decreases |steps|
  {
    steps == [] || (Plain(w, steps[0]) && AllPlain(Next(w, steps[0]), steps[1..]))
  }

  ghost predicate NoneMisread(w: World) { forall p :: p in w.live ==> !w.live[p].misread }

  lemma PlainKeepsReading(w: World, step: Step)
    requires NoneMisread(w) && Possible(w, step) && Plain(w, step)
    ensures NoneMisread(Next(w, step))
  {
    if step.MovesFolder? {
      var MovesFolder(from, to, disk) := step;
      var t := Next(w, step);
      hide Stale, IsFilePath, Join, FolderStaged, HasStagedChanges;
      forall q | q in t.live
        ensures !t.live[q].misread
      {
        if t != w && to <= q {
          var p :| p in w.live && q == Relocated(from, to, p);
          RelocatedBack(from, to, p);
        }
      }
    } else {
      hide Stale, IsFilePath, Join, Staged, Free, HasHistory;
    }
  }

  lemma {:induction false} PlainRunsKeepReading(w: World, steps: seq<Step>)
    requires NoneMisread(w) && Happens(w, steps) && AllPlain(w, steps)
    ensures NoneMisread(Run(w, steps))
    decreases |steps|
  {
    if steps != [] {
      PlainKeepsReading(w, steps[0]);
      PlainRunsKeepReading(Next(w, steps[0]), steps[1..]);
    }
  }

  /** In a run of such steps the traversal returns each living note's own versions, across any number of
      moves and any reuse of paths. */
  lemma PlainRunsAreReadExactly(steps: seq<Step>, path: Path)
    requires Happens(Empty, steps) && AllPlain(Empty, steps) && path in Run(Empty, steps).live
    ensures var w := Run(Empty, steps);
      Traverse(w.log, path, |w.log|) == Versions(w.live[path].entries)
  {
    PlainRunsKeepReading(Empty, steps);
    HistoryFollowsIdentity(steps, path);
  }

  // ---------------------------------------------------------------------------
  // Where history does not follow the note
  // ---------------------------------------------------------------------------

  /** A run of one more step. */
  lemma {:induction false} RunsFurther(w: World, steps: seq<Step>, step: Step)
    requires Happens(w, steps) && Possible(Run(w, steps), step)
    ensures Happens(w, steps + [step]) && Run(w, steps + [step]) == Next(Run(w, steps), step)
    decreases |steps|
  {
    if steps == [] {
      assert (steps + [step])[1..] == [];
    } else {
      assert (steps + [step])[1..] == steps[1..] + [step];
      RunsFurther(Next(w, steps[0]), steps[1..], step);
    }
  }

  /** A template in folder `a`, and the same text created and deleted as a note in folder `b`. */
  function TwinWorld(): World {
    var a, b := ["a", "n.md"], ["b", "n.md"];
    var t0 := Empty.tree;
    var t1 := Staged(t0, None, a, "x", 0);
    var t2 := Staged(t1, None, b, "x", 1);
    World(map[a := Note([Entry(0, a, "x")], false)], t2,
          [Commit(Create, a, None, t0, t1), Commit(Create, b, None, t1, t2)], 2)
  }

  lemma TwinIsReached() returns (steps: seq<Step>)
    ensures Happens(Empty, steps) && Run(Empty, steps) == TwinWorld()
  {
    hide Traverse, IsFilePath, Touched;
    var a, b := ["a", "n.md"], ["b", "n.md"];
    assert a[0] != b[0];
    RunsFurther(Empty, [], Creates(a, "x"));
    RunsFurther(Empty, [] + [Creates(a, "x")], Creates(b, "x"));
    RunsFurther(Empty, [] + [Creates(a, "x")] + [Creates(b, "x")], Deletes({b}));
    steps := [] + [Creates(a, "x")] + [Creates(b, "x")] + [Deletes({b})];
    assert Run(Empty, steps).live == TwinWorld().live;
  }

  lemma TwinMoves() returns (step: Step)
    ensures var a, b := ["a", "n.md"], ["b", "n.md"];
      && step == MovesFolder(["a"], ["b"], map[b := "x"]) && Possible(TwinWorld(), step)
      && Relocated(["a"], ["b"], a) == b && Origin(["a"], ["b"], b) == a && ["a"] <= a && ["b"] <= b && a != b
  {
    var a, b := ["a", "n.md"], ["b", "n.md"];
    assert a[0] != b[0] && ["a"] <= a && ["b"] <= b;
    assert a[1..] == ["n.md"] && b[1..] == ["n.md"];
    step := MovesFolder(["a"], ["b"], map[b := "x"]);
  }

  /** The index changes at the old path, so the move is committed. */
  lemma TwinIsLogged()
    ensures var w, b := TwinWorld(), ["b", "n.md"];
      var step := MovesFolder(["a"], ["b"], map[b := "x"]);
      Possible(w, step) && Next(w, step).log == w.log + [FolderCommit(w, ["a"], ["b"], map[b := "x"])]
  {
    var step := TwinMoves();
    MovedNoteIsAChange(TwinWorld(), ["a"], ["b"], map[["b", "n.md"] := "x"], ["a", "n.md"]);
    hide HasStagedChanges, FolderStaged, Relocated, Origin, Stale, IsFilePath, Comparable, Carried, Possible;
  }

  lemma TwinIsCarried()
    ensures var w, a, b := TwinWorld(), ["a", "n.md"], ["b", "n.md"];
      var step := MovesFolder(["a"], ["b"], map[b := "x"]);
      && Possible(w, step)
      && var t := Next(w, step);
         b in t.live && t.live[b].entries == [Entry(2, b, "x"), Entry(0, a, "x")]
  {
    var step := TwinMoves();
    MovedNoteIsAChange(TwinWorld(), ["a"], ["b"], map[["b", "n.md"] := "x"], ["a", "n.md"]);
    hide HasStagedChanges, FolderStaged, Relocated, Origin, Stale, IsFilePath, Comparable;
    var paths := set p | p in TwinWorld().live :: Relocated(["a"], ["b"], p);
    assert ["a", "n.md"] in TwinWorld().live && ["b", "n.md"] in paths;
  }

  lemma TwinIsUnseen()
    ensures var w, b := TwinWorld(), ["b", "n.md"];
      Traverse(w.log + [FolderCommit(w, ["a"], ["b"], map[b := "x"])], b, 3) == [Version(1, b)]
  {
    var w, b := TwinWorld(), ["b", "n.md"];
    var step := TwinMoves();
    var c := FolderCommit(w, ["a"], ["b"], map[b := "x"]);
    UnseenIffStale(w, ["a"], ["b"], map[b := "x"], b);
    LaterCommitsDoNotMatter(w.log, c, b, 2);
    assert Traverse(w.log, b, 2) == [Version(1, b)];
    hide Touched, FolderCommit, ScopeOf, Stale;
    assert (w.log + [c])[2] == c;
  }

  /** Deleting a note leaves its content in the index. When folder `a` is then moved to `b`, the index does
      not change at `b/n.md`, so the move is not found there: the note is given the history of the
      deleted note, and its own is lost. */
  lemma FolderMoveOntoStaleCopy() returns (steps: seq<Step>)
    ensures Happens(Empty, steps)
    ensures var w, b := Run(Empty, steps), ["b", "n.md"];
      && b in w.live && w.live[b].entries == [Entry(2, b, "x"), Entry(0, ["a", "n.md"], "x")]
      && Traverse(w.log, b, |w.log|) == [Version(1, b)]
  {
    var before := TwinIsReached();
    var step := TwinMoves();
    TwinIsLogged();
    TwinIsCarried();
    TwinIsUnseen();
    RunsFurther(Empty, before, step);
    steps := before + [step];
    hide Traverse, MovedFolder, FolderCommit, Relocated, Origin, Comparable, Possible, Happens;
  }
}
