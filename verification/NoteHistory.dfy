/** The committed history of a note: the backward traversal of the commit log across file and folder moves. */
module NoteHistory {
  import opened Wrappers
  import opened VaultPaths

  type Blob = string

  datatype Operation = Create | Update | Move | Rename

  /** What a commit records: the tracked files and the history markers, one per note path. */
  datatype Tree = Tree(files: map<Path, Blob>, markers: map<Path, nat>)

  datatype Commit = Commit(operation: Operation, path: Path, from: Option<Path>, before: Tree, after: Tree)

  function Lookup<V>(entries: map<Path, V>, path: Path): Option<V> {
    if path in entries then Some(entries[path]) else None
  }

  /** Whether `git log -- path marker` lists the commit: something at the path, below it, or its marker changed. */
  predicate Touched(c: Commit, path: Path) {
    || Lookup(c.before.markers, path) != Lookup(c.after.markers, path)
    || exists q :: q in c.before.files.Keys + c.after.files.Keys && path <= q
         && Lookup(c.before.files, q) != Lookup(c.after.files, q)
  }

  // ---------------------------------------------------------------------------
  // What a commit says about a path
  // ---------------------------------------------------------------------------

  datatype Scope = Unrelated | Continues | Stops | ContinuesAt(previous: Path)

  function ScopeOf(current: Path, c: Commit): Scope {
    if c.path != current && !(c.operation == Move && c.path < current) then Unrelated
    else if c.operation != Move && c.operation != Rename then Continues
    else if c.from.None? then Stops
    else
      var previous := c.from.value + current[|c.path|..];
      if IsFilePath(Join(previous)) then ContinuesAt(previous) else Stops
  }

  /** A path trailer: missing, present but unreadable, or a text. */
  datatype Trailer = Missing | Unreadable | Value(text: string)

  datatype TextScope = NoMatch | Match(previousPath: Option<string>, stopsTraversal: bool)

  function HistoryCommitScope(current: string, operation: Operation, recorded: Trailer, from: Trailer): TextScope {
    if recorded.Missing? then Match(None, false)
    else if recorded.Unreadable? then NoMatch
    else
      var suffix :=
        if recorded.text == current then Some("")
        else if operation == Move then RelativeDescendantPath(recorded.text, current)
        else None;
      if suffix.None? then NoMatch
      else if operation != Move && operation != Rename then Match(None, false)
      else if !from.Value? then Match(None, true)
      else
        var previous := if suffix.value == "" then from.text else from.text + "/" + suffix.value;
        if IsFilePath(previous) then Match(Some(previous), false) else Match(None, true)
  }

  predicate Named(path: Path) { path != [] && SlashFree(path) && "" !in path }

  function TextOf(scope: Scope): TextScope {
    match scope
    case Unrelated => NoMatch
    case Continues => Match(None, false)
    case Stops => Match(None, true)
    case ContinuesAt(previous) => Match(Some(Join(previous)), false)
  }

  /** On names without slashes the scope of the path texts is the scope of the segment lists. */
  lemma ScopeReadsText(current: Path, c: Commit)
    requires Named(current) && Named(c.path) && (c.from.Some? ==> Named(c.from.value))
    ensures HistoryCommitScope(Join(current), c.operation, Value(Join(c.path)),
                               if c.from.Some? then Value(Join(c.from.value)) else Missing)
      == TextOf(ScopeOf(current, c))
  {
    RelativeDescendantIsPrefix(c.path, current);
    if Join(c.path) == Join(current) {
      JoinInjective(c.path, current);
    }
    if c.from.Some? && c.path <= current {
      var rest := current[|c.path|..];
      if rest == [] {
        assert c.from.value + rest == c.from.value;
      } else {
        assert rest[0] == current[|c.path|];
        JoinIsNotEmpty(rest);
        JoinConcat(c.from.value, rest);
      }
    }
  }

  lemma JoinIsNotEmpty(path: Path)
    requires path != [] && path[0] != ""
    ensures Join(path) != ""
  {
  }

  // ---------------------------------------------------------------------------
  // The traversal
  // ---------------------------------------------------------------------------

  /** A version of a note: the commit, by its place in the log, and the path of the note's content there. */
  datatype Version = Version(index: nat, contentPath: Path)

  /** The versions found from `path` in the first `upto` commits, newest first. */
  function Traverse(log: seq<Commit>, path: Path, upto: nat): seq<Version>
    requires upto <= |log|
    decreases upto
  {
    if upto == 0 then []
    else
      var c, earlier := log[upto - 1], upto - 1;
      if !Touched(c, path) then Traverse(log, path, earlier)
      else
        match ScopeOf(path, c)
        case Unrelated => Traverse(log, path, earlier)
        case Stops => [Version(earlier, path)]
        case ContinuesAt(previous) => [Version(earlier, path)] + Traverse(log, previous, earlier)
        case Continues =>
          [Version(earlier, path)] + if c.operation == Create then [] else Traverse(log, path, earlier)
  }

  /** Some commit before `upto` touches the path and is read as one of its own. */
  predicate HasHistory(log: seq<Commit>, path: Path, upto: nat)
    requires upto <= |log|
  {
    exists k :: 0 <= k < upto && Touched(log[k], path) && ScopeOf(path, log[k]) != Unrelated
  }

  /** A path without such a commit is read as having no version, and only such a path. */
  lemma {:induction false} NothingIsReadIff(log: seq<Commit>, path: Path, upto: nat)
    requires upto <= |log|
    ensures Traverse(log, path, upto) == [] <==> !HasHistory(log, path, upto)
  {
    if upto > 0 {
      hide Touched, ScopeOf;
      NothingIsReadIff(log, path, upto - 1);
      if Touched(log[upto - 1], path) && ScopeOf(path, log[upto - 1]) != Unrelated {
        assert HasHistory(log, path, upto);
      }
    }
  }

  /** `git log` limited to a path: the commits before `upto` that touch it, newest first. */
  function Segment(log: seq<Commit>, path: Path, upto: nat): seq<nat>
    requires upto <= |log|
  {
    if upto == 0 then []
    else if Touched(log[upto - 1], path) then [upto - 1] + Segment(log, path, upto - 1)
    else Segment(log, path, upto - 1)
  }

  lemma {:induction false} SegmentListsTouched(log: seq<Commit>, path: Path, upto: nat)
    requires upto <= |log|
    ensures var records := Segment(log, path, upto);
      && (forall k: nat :: k in records <==> k < upto && Touched(log[k], path))
      && (forall i, j :: 0 <= i < j < |records| ==> records[i] > records[j])
  {
    if upto > 0 {
      SegmentListsTouched(log, path, upto - 1);
      var rest := Segment(log, path, upto - 1);
      assert forall i :: 0 <= i < |rest| ==> rest[i] in rest;
    }
  }

  ghost predicate Untouched(log: seq<Commit>, path: Path, from: nat, upto: nat)
    requires upto <= |log|
  {
    forall k :: from <= k < upto ==> !Touched(log[k], path)
  }

  lemma {:induction false} SkipUntouched(log: seq<Commit>, path: Path, from: nat, upto: nat)
    requires from <= upto <= |log| && Untouched(log, path, from, upto)
    ensures Traverse(log, path, upto) == Traverse(log, path, from)
  {
    if from < upto {
      SkipUntouched(log, path, from, upto - 1);
    }
  }

  /** What has been collected and what is still to be found from `current` make up the traversal. */
  ghost predicate Collected(log: seq<Commit>, path: Path, entries: seq<Version>, current: Path, upto: nat) {
    upto <= |log| && entries + Traverse(log, current, upto) == Traverse(log, path, |log|)
  }

  lemma NothingCollected(log: seq<Commit>, path: Path)
    ensures Collected(log, path, [], path, |log|)
  {
    assert [] + Traverse(log, path, |log|) == Traverse(log, path, |log|);
  }

  function Reached(records: seq<nat>, upto: nat, r: nat): nat
    requires r <= |records|
  {
    if r == 0 then upto else records[r - 1]
  }

  lemma UntouchedBetween(log: seq<Commit>, path: Path, upto: nat, r: nat)
    requires upto <= |log| && r <= |Segment(log, path, upto)|
    ensures var records := Segment(log, path, upto);
      var from := if r < |records| then records[r] + 1 else 0;
      && from <= Reached(records, upto, r) <= upto
      && Untouched(log, path, from, Reached(records, upto, r))
      && (r < |records| ==> records[r] < upto && Touched(log[records[r]], path))
  {
    SegmentListsTouched(log, path, upto);
    hide Touched, Segment;
    var records := Segment(log, path, upto);
    var reached := Reached(records, upto, r);
    assert r > 0 ==> records[r - 1] in records;
    assert r < |records| ==> records[r] in records;
    var from := if r < |records| then records[r] + 1 else 0;
    assert forall i :: 0 <= i < r ==> records[i] >= reached;
    assert forall i :: r <= i < |records| ==> records[i] < from;
    forall k | from <= k < reached
      ensures !Touched(log[k], path)
    {
      assert k !in records;
    }
  }

  /** Nothing of the traversal lies between two neighbouring records of a segment. */
  lemma NextRecord(log: seq<Commit>, path: Path, entries: seq<Version>, current: Path, upto: nat, r: nat)
    requires upto <= |log| && r <= |Segment(log, current, upto)|
    requires Collected(log, path, entries, current, Reached(Segment(log, current, upto), upto, r))
    ensures var records := Segment(log, current, upto);
      && (r == |records| ==> entries == Traverse(log, path, |log|))
      && Reached(records, upto, r) <= upto
      && (r < |records| ==> records[r] < Reached(records, upto, r) && Touched(log[records[r]], current))
      && (r < |records| ==> Collected(log, path, entries, current, records[r] + 1))
  {
    UntouchedBetween(log, current, upto, r);
    var records := Segment(log, current, upto);
    hide Segment, Touched, Untouched;
    if r == |records| {
      SkipUntouched(log, current, 0, Reached(records, upto, r));
      assert entries + Traverse(log, current, 0) == entries;
    } else {
      SkipUntouched(log, current, records[r] + 1, Reached(records, upto, r));
    }
  }

  lemma CollectOne(log: seq<Commit>, path: Path, entries: seq<Version>, current: Path, index: nat)
    requires Collected(log, path, entries, current, index + 1) && Touched(log[index], current)
    ensures log[index].operation == Create ==> ScopeOf(current, log[index]) in {Unrelated, Continues}
    ensures var more := entries + [Version(index, current)];
      match ScopeOf(current, log[index])
      case Unrelated => Collected(log, path, entries, current, index)
      case Stops => more == Traverse(log, path, |log|)
      case ContinuesAt(previous) => Collected(log, path, more, previous, index)
      case Continues =>
        if log[index].operation == Create then more == Traverse(log, path, |log|)
        else Collected(log, path, more, current, index)
  {
    var more := entries + [Version(index, current)];
    assert forall rest: seq<Version> :: entries + ([Version(index, current)] + rest) == more + rest;
    assert more + [] == more;
  }

  /** The segments restart strictly earlier, so the loop ends and no commit is met twice. */
  method ReadCommittedHistory(log: seq<Commit>, path: Path) returns (entries: seq<Version>)
    ensures entries == Traverse(log, path, |log|)
  {
    hide Touched, ScopeOf, Traverse, Collected, Segment;
    entries := [];
    var seen: set<nat> := {};
    var currentPath, revision := path, |log|;
    NothingCollected(log, path);
    while true
      invariant 0 <= revision <= |log|
      invariant Collected(log, path, entries, currentPath, revision)
      invariant forall i :: i in seen ==> i >= revision
      decreases revision
    {
      var records := Segment(log, currentPath, revision);
      var previous: Option<(Path, nat)> := None;
      var r := 0;
      while r < |records| && previous.None?
        invariant 0 <= r <= |records|
        invariant previous.None? ==> Collected(log, path, entries, currentPath, Reached(records, revision, r))
        invariant forall i :: i in seen ==> i >= Reached(records, revision, r)
        invariant previous.Some? ==>
          var (p, at) := previous.value;
          at < revision && at == Reached(records, revision, r) && Collected(log, path, entries, p, at)
      {
        NextRecord(log, path, entries, currentPath, revision, r);
        var index := records[r];
        r := r + 1;
        var scope := ScopeOf(currentPath, log[index]);
        CollectOne(log, path, entries, currentPath, index);
        if scope == Unrelated { continue; }
        if index !in seen {
          entries := entries + [Version(index, currentPath)];
          seen := seen + {index};
        }
        if log[index].operation == Create || scope == Stops { return; }
        if scope.ContinuesAt? {
          previous := Some((scope.previous, index));
        }
      }
      if previous.None? {
        NextRecord(log, path, entries, currentPath, revision, r);
        return;
      }
      currentPath, revision := previous.value.0, previous.value.1;
    }
  }

  // ---------------------------------------------------------------------------
  // The vault as notes with identity
  // ---------------------------------------------------------------------------

  datatype Entry = Entry(index: nat, path: Path, content: Blob)

  /** A living note with its versions, newest first. `misread` is set when a step makes the log
      ambiguous about this note. */
  datatype Note = Note(entries: seq<Entry>, misread: bool)

  datatype World = World(live: map<Path, Note>, tree: Tree, log: seq<Commit>, nextMarker: nat)

  const Empty := World(map[], Tree(map[], map[]), [], 0)

  /** A pending entry is staged: its old path and marker go, its content and a marker of its own come. */
  function Staged(tree: Tree, from: Option<Path>, path: Path, content: Blob, marker: nat): Tree {
    var gone := if from.Some? then {from.value} else {};
    Tree((tree.files - gone)[path := content], (tree.markers - gone)[path := marker])
  }

  function Record(w: World, operation: Operation, from: Option<Path>, path: Path, content: Blob): World {
    var after := Staged(w.tree, from, path, content, w.nextMarker);
    w.(tree := after, log := w.log + [Commit(operation, path, from, w.tree, after)], nextMarker := w.nextMarker + 1)
  }

  /** A note is born by a create, or by an append to a path where there is no file. The append is committed as an
      update, so what other notes left at the path is read as the older versions of this one. */
  function Born(w: World, operation: Operation, path: Path, content: Blob): World {
    var leftover := operation != Create && HasHistory(w.log, path, |w.log|);
    Record(w, operation, None, path, content).(
      live := w.live[path := Note([Entry(|w.log|, path, content)], leftover)])
  }

  function Edited(w: World, path: Path, content: Blob): World
    requires path in w.live
  {
    var note := w.live[path];
    Record(w, Update, None, path, content).(
      live := w.live[path := note.(entries := [Entry(|w.log|, path, content)] + note.entries)])
  }

  function DirName(path: Path): Path { if path == [] then [] else path[..|path| - 1] }

  function MovedFile(w: World, from: Path, to: Path, content: Blob): World
    requires from in w.live
  {
    var note := w.live[from];
    Record(w, if DirName(from) == DirName(to) then Rename else Move, Some(from), to, content).(
      live := (w.live - {from})[to := note.(entries := [Entry(|w.log|, to, content)] + note.entries)])
  }

  /** The index after `rm --cached from` and `add -A to`: what is on disk under the target, and nothing else there. */
  function FolderStaged(files: map<Path, Blob>, from: Path, to: Path, disk: map<Path, Blob>): map<Path, Blob> {
    (map q | q in files && !(from <= q) && !(to <= q) && !(disk != map[] && q < to) :: files[q]) + disk
  }

  predicate HasStagedChanges(before: map<Path, Blob>, after: map<Path, Blob>, from: Path, to: Path) {
    exists q :: q in before.Keys + after.Keys && (from <= q || to <= q) && Lookup(before, q) != Lookup(after, q)
  }

  /** The index already holds this very content at the path, left there by a file that is gone. */
  predicate Stale(files: map<Path, Blob>, path: Path, content: Blob) {
    path in files && files[path] == content && forall q :: q in files ==> !(path < q)
  }

  function Origin(from: Path, to: Path, path: Path): Path {
    if to <= path then from + path[|to|..] else path
  }

  function Relocated(from: Path, to: Path, path: Path): Path {
    if from <= path then to + path[|from|..] else path
  }

  /** What a folder move adds to the note that arrives at `path`. */
  function Carried(w: World, from: Path, to: Path, disk: map<Path, Blob>, path: Path): Note
    requires Origin(from, to, path) in w.live && path in disk
  {
    var note := w.live[Origin(from, to, path)];
    Note([Entry(|w.log|, path, disk[path])] + note.entries,
         note.misread || Stale(w.tree.files, path, disk[path]) || !IsFilePath(Join(Origin(from, to, path))))
  }

  function MovedFolder(w: World, from: Path, to: Path, disk: map<Path, Blob>): World
    requires forall p :: p in w.live && from <= p ==> Relocated(from, to, p) in disk
    requires forall p :: p in w.live ==> !(to <= p)
  {
    var after := Tree(FolderStaged(w.tree.files, from, to, disk), w.tree.markers);
    if !HasStagedChanges(w.tree.files, after.files, from, to) then w else
      var paths := set p | p in w.live :: Relocated(from, to, p);
      w.(live := map q | q in paths && Origin(from, to, q) in w.live && (to <= q ==> q in disk) ::
                   if to <= q then Carried(w, from, to, disk, q) else w.live[q],
         tree := after, log := w.log + [Commit(Move, to, Some(from), w.tree, after)])
  }

  datatype Step =
    | Creates(path: Path, content: Blob)
    | AppendsToNothing(path: Path, content: Blob)
    | Updates(path: Path, content: Blob)
    | Moves(from: Path, to: Path, content: Blob)
    | MovesFolder(from: Path, to: Path, disk: map<Path, Blob>)
    | Deletes(paths: set<Path>)
    | FlushesDeleted(path: Path, operation: Operation, content: Blob)

  predicate Comparable(a: Path, b: Path) { a <= b || b <= a }

  /** No file or folder of the vault is in the way. */
  predicate Free(w: World, path: Path) { forall p :: p in w.live ==> !Comparable(p, path) }

  /** What the file system and the index allow: a path is a file or a folder, not both. */
  predicate Possible(w: World, step: Step) {
    match step
    case Creates(path, _) => Free(w, path)
    case AppendsToNothing(path, _) => Free(w, path)
    case Updates(path, _) => path in w.live
    case Moves(from, to, _) => from in w.live && Free(w, to) && IsFilePath(Join(from))
    case MovesFolder(from, to, disk) =>
      && !Comparable(from, to) && from !in w.live && Free(w, to)
      && (forall p :: p in w.live && from <= p ==> Relocated(from, to, p) in disk)
      && (forall p, q :: p in disk && q in disk ==> to < p && !(p < q))
    case Deletes(_) => true
    case FlushesDeleted(path, operation, _) => path !in w.live && (operation == Create || operation == Update)
  }

  function Next(w: World, step: Step): World
    requires Possible(w, step)
  {
    match step
    case Creates(path, content) => Born(w, Create, path, content)
    case AppendsToNothing(path, content) => Born(w, Update, path, content)
    case Updates(path, content) => Edited(w, path, content)
    case Moves(from, to, content) => MovedFile(w, from, to, content)
    case MovesFolder(from, to, disk) => MovedFolder(w, from, to, disk)
    case Deletes(paths) => w.(live := w.live - paths)
    case FlushesDeleted(path, operation, content) => Record(w, operation, None, path, content)
  }

  predicate Happens(w: World, steps: seq<Step>)
    decreases |steps|
  {
    steps == [] || (Possible(w, steps[0]) && Happens(Next(w, steps[0]), steps[1..]))
  }

  function Run(w: World, steps: seq<Step>): World
    requires Happens(w, steps)
    decreases |steps|
  {
    if steps == [] then w else Run(Next(w, steps[0]), steps[1..])
  }
}
