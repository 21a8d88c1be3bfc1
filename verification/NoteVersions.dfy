/** The versions of a note against what happened to it: one for every create, edit and move, with its path and content
    then, and none besides. */
module NoteVersions {
  import opened Wrappers
  import opened VaultPaths
  import opened NoteHistory
  import opened NoteIdentity

  /** What a note was at some time. */
  datatype Past = Past(path: Path, content: Blob)

  type Pasts = map<Path, seq<Past>>

  /** The living notes with their pasts, newest first, after a step, told from the step. */
  function Told(l: Pasts, step: Step): Pasts {
    match step
    case Creates(path, content) => l[path := [Past(path, content)]]
    case AppendsToNothing(path, content) => l[path := [Past(path, content)]]
    case Updates(path, content) => if path in l then l[path := [Past(path, content)] + l[path]] else l
    case Moves(from, to, content) => if from in l then (l - {from})[to := [Past(to, content)] + l[from]] else l
    case MovesFolder(from, to, disk) => Carried(l, from, to, disk)
    case Deletes(paths) => l - paths
    case FlushesDeleted(_, _, _) => l
  }

  /** Every note below the folder is below its new place, with the content that is there. */
  function Carried(l: Pasts, from: Path, to: Path, disk: map<Path, Blob>): Pasts {
    map q | q in (set p | p in l :: Relocated(from, to, p)) && Origin(from, to, q) in l && (to <= q ==> q in disk) ::
      if to <= q then [Past(q, disk[q])] + l[Origin(from, to, q)] else l[q]
  }

  function ToldBy(l: Pasts, steps: seq<Step>): Pasts
    decreases |steps|
  {
    if steps == [] then l else ToldBy(Told(l, steps[0]), steps[1..])
  }

  function PastsOf(entries: seq<Entry>): (pasts: seq<Past>)
    ensures |pasts| == |entries| && forall i :: 0 <= i < |entries| ==> pasts[i] == Past(entries[i].path, entries[i].content)
  {
    seq(|entries|, i requires 0 <= i < |entries| => Past(entries[i].path, entries[i].content))
  }

  /** The world's notes have the pasts of the ledger. */
  ghost predicate Tells(w: World, l: Pasts) {
    (forall p :: p in w.live <==> p in l) && forall p :: p in l ==> PastsOf(w.live[p].entries) == l[p]
  }

  lemma PastsOfMore(e: Entry, entries: seq<Entry>)
    ensures PastsOf([e] + entries) == [Past(e.path, e.content)] + PastsOf(entries)
  {
  }

  lemma NoteStepTells(w: World, l: Pasts, step: Step)
    requires Tells(w, l) && Possible(w, step) && !step.MovesFolder?
    ensures Tells(Next(w, step), Told(l, step))
  {
    hide PastsOf, HasHistory, Staged, Free, IsFilePath, Join;
    match step
    case Creates(path, content) => PastsOfMore(Entry(|w.log|, path, content), []); NoPasts();
    case AppendsToNothing(path, content) => PastsOfMore(Entry(|w.log|, path, content), []); NoPasts();
    case Updates(path, content) => PastsOfMore(Entry(|w.log|, path, content), w.live[path].entries);
    case Moves(from, to, content) => PastsOfMore(Entry(|w.log|, to, content), w.live[from].entries);
    case _ =>
  }

  lemma NoPasts()
    ensures PastsOf([]) == [] && forall e: Entry :: [e] + [] == [e]
  {
  }

  /** What a folder move does to the living notes, if it is committed. */
  ghost predicate IsCarried(w: World, t: World, from: Path, to: Path, disk: map<Path, Blob>) {
    && (forall q :: q in t.live <==>
          q in (set p | p in w.live :: Relocated(from, to, p)) && Origin(from, to, q) in w.live && (to <= q ==> q in disk))
    && (forall q :: q in t.live && to <= q ==>
          t.live[q].entries == [Entry(|w.log|, q, disk[q])] + w.live[Origin(from, to, q)].entries)
    && (forall q :: q in t.live && !(to <= q) ==> q in w.live && t.live[q] == w.live[q])
  }

  lemma CommittedIsCarried(w: World, from: Path, to: Path, disk: map<Path, Blob>)
    requires Possible(w, MovesFolder(from, to, disk))
    requires HasStagedChanges(w.tree.files, FolderStaged(w.tree.files, from, to, disk), from, to)
    ensures IsCarried(w, MovedFolder(w, from, to, disk), from, to, disk)
  {
    hide HasStagedChanges, FolderStaged, Stale, IsFilePath, Join, Comparable, Relocated;
  }

  lemma CarriedTells(w: World, t: World, l: Pasts, from: Path, to: Path, disk: map<Path, Blob>)
    requires Tells(w, l) && IsCarried(w, t, from, to, disk)
    ensures Tells(t, Carried(l, from, to, disk))
  {
    hide PastsOf, Relocated, Origin;
    var m := Carried(l, from, to, disk);
    assert (set p | p in l :: Relocated(from, to, p)) == (set p | p in w.live :: Relocated(from, to, p));
    forall q | q in t.live
      ensures q in m && PastsOf(t.live[q].entries) == m[q]
    {
      if to <= q {
        PastsOfMore(Entry(|w.log|, q, disk[q]), w.live[Origin(from, to, q)].entries);
      }
    }
  }

  lemma NothingToCarry(w: World, l: Pasts, from: Path, to: Path, disk: map<Path, Blob>)
    requires Tells(w, l) && Possible(w, MovesFolder(from, to, disk)) && !exists p :: p in w.live && from <= p
    ensures Carried(l, from, to, disk) == l
  {
    var m := Carried(l, from, to, disk);
    forall p | p in l
      ensures Relocated(from, to, p) == p && !(to <= p) && Origin(from, to, p) == p
    {
      assert p in w.live && !(from <= p);
    }
    hide Relocated, Origin, PastsOf;
    assert forall q :: q in m <==> q in l;
  }

  lemma FolderStepTells(w: World, l: Pasts, from: Path, to: Path, disk: map<Path, Blob>)
    requires Tells(w, l) && Inv(w) && Possible(w, MovesFolder(from, to, disk))
    ensures Tells(MovedFolder(w, from, to, disk), Carried(l, from, to, disk))
  {
    var t := MovedFolder(w, from, to, disk);
    if exists p :: p in w.live && from <= p {
      var p :| p in w.live && from <= p;
      MovedNoteIsAChange(w, from, to, disk, p);
    } else {
      NothingToCarry(w, l, from, to, disk);
    }
    hide Tells, Carried, IsCarried, Accounted, MarkersInv, Comparable, Free;
    if HasStagedChanges(w.tree.files, FolderStaged(w.tree.files, from, to, disk), from, to) {
      CommittedIsCarried(w, from, to, disk);
      CarriedTells(w, t, l, from, to, disk);
    } else {
      assert t == w;
    }
  }

  lemma {:induction false} ToldSoFar(w: World, l: Pasts, steps: seq<Step>)
    requires Inv(w) && Tells(w, l) && Happens(w, steps)
    ensures Tells(Run(w, steps), ToldBy(l, steps))
    decreases |steps|
  {
    if steps != [] {
      StepKeepsInv(w, steps[0]);
      if steps[0].MovesFolder? {
        FolderStepTells(w, l, steps[0].from, steps[0].to, steps[0].disk);
      } else {
        NoteStepTells(w, l, steps[0]);
      }
      assert Tells(Next(w, steps[0]), Told(l, steps[0]));
      hide Inv, Tells, Next, Told, Possible;
      ToldSoFar(Next(w, steps[0]), Told(l, steps[0]), steps[1..]);
    }
  }

  /** In every run the living notes are those that the steps leave, each with exactly one version for every create,
      append, edit and move that it went through, newest first, with its path and content then; and where the note is
      not misread these are what reading its history returns. */
  lemma VersionsFollowSteps(steps: seq<Step>)
    requires Happens(Empty, steps)
    ensures var w, l := Run(Empty, steps), ToldBy(map[], steps);
      && (forall p :: p in w.live <==> p in l)
      && (forall p :: p in l ==> PastsOf(w.live[p].entries) == l[p])
      && (forall p :: p in l && !w.live[p].misread ==> |Traverse(w.log, p, |w.log|)| == |l[p]|)
  {
    assert Inv(Empty) && Tells(Empty, map[]);
    ToldSoFar(Empty, map[], steps);
    var w, l := Run(Empty, steps), ToldBy(map[], steps);
    forall p | p in l && !w.live[p].misread
      ensures |Traverse(w.log, p, |w.log|)| == |l[p]|
    {
      HistoryFollowsIdentity(steps, p);
      VersionsAreAsMany(w.live[p].entries);
    }
  }

  lemma {:induction false} VersionsAreAsMany(entries: seq<Entry>)
    ensures |Versions(entries)| == |entries|
  {
    if entries != [] {
      VersionsAreAsMany(entries[1..]);
    }
  }

  // ---------------------------------------------------------------------------
  // The index
  // ---------------------------------------------------------------------------

  /** The paths at which the index may keep a file without a note: those of deleted notes, and whatever lay under a
      moved folder. */
  function LeftBy(steps: seq<Step>): set<Path> {
    if steps == [] then {}
    else LeftBy(steps[1..]) + match steps[0]
      case Deletes(paths) => paths
      case FlushesDeleted(path, _, _) => {path}
      case MovesFolder(_, _, disk) => disk.Keys
      case _ => {}
  }

  ghost predicate Indexed(w: World, left: set<Path>) {
    && (forall q :: q in w.tree.files ==> q in w.live || q in left)
    && (forall p :: p in w.live ==> p in w.tree.files && w.live[p].entries != [] && w.live[p].entries[0].content == w.tree.files[p])
  }

  lemma StepIndexes(w: World, left: set<Path>, step: Step)
    requires Inv(w) && Indexed(w, left) && Possible(w, step)
    ensures Indexed(Next(w, step), left + LeftBy([step]))
  {
    LeftByOne(step);
    hide LeftBy, Inv, HasHistory, IsFilePath, Join;
    if step.MovesFolder? {
      FolderIndexes(w, left, step.from, step.to, step.disk);
    } else {
      hide Free;
    }
  }

  lemma LeftByOne(step: Step)
    ensures LeftBy([step]) == match step
      case Deletes(paths) => paths
      case FlushesDeleted(path, _, _) => {path}
      case MovesFolder(_, _, disk) => disk.Keys
      case _ => {}
  {
    assert LeftBy([step][1..]) == {};
  }

  lemma FolderIndexes(w: World, left: set<Path>, from: Path, to: Path, disk: map<Path, Blob>)
    requires Indexed(w, left) && Possible(w, MovesFolder(from, to, disk))
    ensures Indexed(MovedFolder(w, from, to, disk), left + disk.Keys)
  {
    if HasStagedChanges(w.tree.files, FolderStaged(w.tree.files, from, to, disk), from, to) {
      CommittedIsCarried(w, from, to, disk);
      CarriedIsIndexed(w, MovedFolder(w, from, to, disk), left, from, to, disk);
    }
  }

  lemma CarriedIsIndexed(w: World, t: World, left: set<Path>, from: Path, to: Path, disk: map<Path, Blob>)
    requires Indexed(w, left) && Possible(w, MovesFolder(from, to, disk)) && IsCarried(w, t, from, to, disk)
    requires t.tree.files == FolderStaged(w.tree.files, from, to, disk)
    ensures Indexed(t, left + disk.Keys)
  {
    forall q | q in t.tree.files
      ensures q in t.live || q in left + disk.Keys
    {
      if q !in disk && q in w.live {
        assert Relocated(from, to, q) == q && Origin(from, to, q) == q;
        hide Relocated, Origin, Possible;
      }
    }
    forall q | q in t.live
      ensures q in t.tree.files && t.live[q].entries != [] && t.live[q].entries[0].content == t.tree.files[q]
    {
      StaysInPlace(w, t, from, to, disk, q);
      hide Relocated, Origin, Possible, Comparable;
    }
  }

  lemma StaysInPlace(w: World, t: World, from: Path, to: Path, disk: map<Path, Blob>, q: Path)
    requires Possible(w, MovesFolder(from, to, disk)) && IsCarried(w, t, from, to, disk) && q in t.live
    ensures if to <= q then q in disk && t.live[q].entries != [] && t.live[q].entries[0].content == disk[q]
      else q in w.live && !(from <= q) && !(q < to) && t.live[q] == w.live[q]
  {
    if !(to <= q) {
      var p :| p in w.live && Relocated(from, to, p) == q;
      assert p == q && !Comparable(q, to);
    }
    hide Relocated, Origin, Possible, Comparable;
  }

  lemma {:induction false} IndexedSoFar(w: World, left: set<Path>, steps: seq<Step>)
    requires Inv(w) && Indexed(w, left) && Happens(w, steps)
    ensures Indexed(Run(w, steps), left + LeftBy(steps))
    decreases |steps|
  {
    if steps == [] {
      assert left + {} == left;
    } else {
      StepKeepsInv(w, steps[0]);
      StepIndexes(w, left, steps[0]);
      assert left + LeftBy([steps[0]]) + LeftBy(steps[1..]) == left + LeftBy(steps);
      hide Inv, Indexed, Next, Possible;
      IndexedSoFar(Next(w, steps[0]), left + LeftBy([steps[0]]), steps[1..]);
    }
  }

  /** In every run the index holds each living note with the content of its newest version, and nothing else but what
      deletions and folder moves have left there: a note that moves leaves nothing behind. */
  lemma IndexHoldsNotes(steps: seq<Step>)
    requires Happens(Empty, steps)
    ensures var w := Run(Empty, steps);
      && (forall p :: p in w.live ==>
            p in w.tree.files && w.live[p].entries != [] && w.live[p].entries[0].content == w.tree.files[p])
      && (forall q :: q in w.tree.files ==> q in w.live || q in LeftBy(steps))
  {
    assert Inv(Empty) && Indexed(Empty, {});
    IndexedSoFar(Empty, {}, steps);
    assert {} + LeftBy(steps) == LeftBy(steps);
  }

  // ---------------------------------------------------------------------------
  // The commits
  // ---------------------------------------------------------------------------

  /** The two paths lie in the same folder. */
  ghost predicate Neighbours(a: Path, b: Path) {
    exists folder: Path, x: string, y: string :: a == folder + [x] && b == folder + [y]
  }

  lemma NeighboursShareFolder(a: Path, b: Path)
    requires a != [] && b != []
    ensures Neighbours(a, b) <==> DirName(a) == DirName(b)
  {
    if DirName(a) == DirName(b) {
      assert a == DirName(a) + [a[|a| - 1]] && b == DirName(a) + [b[|b| - 1]];
    }
  }

  /** What a commit is called: a birth by an append is an update, and a file that moves within its folder is renamed. */
  ghost predicate IsCalled(c: Commit, step: Step) {
    match step
    case Creates(path, _) => c.operation == Create && c.path == path && c.from == None
    case AppendsToNothing(path, _) => c.operation == Update && c.path == path && c.from == None
    case Updates(path, _) => c.operation == Update && c.path == path && c.from == None
    case Moves(from, to, _) => c.operation == (if Neighbours(from, to) then Rename else Move) && c.path == to && c.from == Some(from)
    case MovesFolder(from, to, _) => c.operation == Move && c.path == to && c.from == Some(from)
    case Deletes(_) => false
    case FlushesDeleted(path, operation, _) => c.operation == operation && c.path == path && c.from == None
  }

  /** Every step that says something about a note makes one commit, which is called after it and leads from the tree
      before it to the one after; a folder move makes none if it stages nothing, and a deletion never does. */
  lemma CommitIsCalled(w: World, step: Step)
    requires Possible(w, step) && (step.Moves? ==> step.from != [] && step.to != [])
    ensures var t := Next(w, step);
      if t.log == w.log then step.Deletes? || (step.MovesFolder? && t == w)
      else
        && t.log[..|w.log|] == w.log && |t.log| == |w.log| + 1 && IsCalled(t.log[|w.log|], step)
        && t.log[|w.log|].before == w.tree && t.log[|w.log|].after == t.tree
  {
    if step.Moves? {
      NeighboursShareFolder(step.from, step.to);
    }
    hide Neighbours, DirName, Staged, HasHistory, IsFilePath, Join, FolderStaged, HasStagedChanges, Stale, Free;
  }
}
