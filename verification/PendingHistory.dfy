/** History entries before they are committed: coalescing by note and time bucket, flushing, and paging. */
module PendingHistory {
  import opened Wrappers

  type Actor = string

  datatype Operation = Create | Update | Move | Rename

  /** One call of `recordFileHistory`. A window of 0 makes every instant its own bucket. */
  datatype Record = Record(path: string, operation: Operation, actor: Actor, content: string, now: nat, window: nat)

  datatype Key = Key(path: string, bucketStart: nat)

  datatype Entry = Entry(key: Key, operation: Operation, updatedAt: nat, content: string, contributors: seq<Actor>)

  function BucketStart(now: nat, window: nat): (start: nat)
    ensures start <= now && (if window > 0 then now < start + window else start == now)
  {
    if window == 0 then now else now - now % window
  }

  lemma MultiplesAreApart(window: nat, a: int, b: int)
    requires window > 0 && a < b
    ensures a * window + window <= b * window
  {
    assert (b - a) * window == b * window - a * window && (b - a - 1) * window >= 0;
    assert (b - a) * window == (b - a - 1) * window + window;
  }

  /** The buckets tile time: each starts at a multiple of the window, and two instants share a bucket exactly if
      no such start lies between them. */
  lemma BucketsTile(now: nat, later: nat, window: nat)
    requires window > 0 && now <= later
    ensures exists k: nat :: BucketStart(now, window) == k * window
    ensures BucketStart(now, window) == BucketStart(later, window) <==> forall k: nat :: !(now < k * window <= later)
  {
    var m, n := now / window, later / window;
    assert BucketStart(now, window) == m * window && BucketStart(later, window) == n * window;
    if m < n {
      MultiplesAreApart(window, m, n);
      assert now < n * window <= later;
    } else if n < m {
      MultiplesAreApart(window, n, m);
    }
    forall k: nat | m == n
      ensures !(now < k * window <= later)
    {
      if k <= m {
        if k < m { MultiplesAreApart(window, k, m); }
      } else {
        MultiplesAreApart(window, m, k);
      }
    }
  }

  function KeyOf(r: Record): Key { Key(r.path, BucketStart(r.now, r.window)) }

  function AddContributor(contributors: seq<Actor>, actor: Actor): seq<Actor> {
    if actor in contributors then contributors else contributors + [actor]
  }

  function Coalesced(e: Entry, r: Record): Entry {
    Entry(e.key, if e.operation == Create then Create else r.operation, r.now, r.content, AddContributor(e.contributors, r.actor))
  }

  function Fresh(r: Record): Entry { Entry(KeyOf(r), r.operation, r.now, r.content, [r.actor]) }

  type Pending = map<Key, Entry>

  function Recorded(pending: Pending, r: Record): Pending {
    pending[KeyOf(r) := if KeyOf(r) in pending then Coalesced(pending[KeyOf(r)], r) else Fresh(r)]
  }

  predicate Selected(key: Key, paths: Option<set<string>>) { paths.None? || key.path in paths.value }

  function Unselected(pending: Pending, paths: Option<set<string>>): Pending {
    map key | key in pending && !Selected(key, paths) :: pending[key]
  }

  /** What a flush commits: every selected entry once, the least recently updated first. */
  ghost predicate IsFlush(pending: Pending, paths: Option<set<string>>, committed: seq<Entry>) {
    && (forall e :: e in committed <==> e.key in pending && pending[e.key] == e && Selected(e.key, paths))
    && (forall i, k :: 0 <= i < k < |committed| ==>
          committed[i].key != committed[k].key && committed[i].updatedAt <= committed[k].updatedAt)
  }

  /** The entries of a map are stored under their keys. */
  ghost predicate Keyed(pending: Pending) { forall key :: key in pending ==> pending[key].key == key }

  lemma {:induction false} SomeOldest(entries: Pending) returns (key: Key)
    requires entries != map[]
    ensures key in entries && forall k :: k in entries ==> entries[key].updatedAt <= entries[k].updatedAt
    decreases |entries|
  {
    var first :| first in entries;
    key := first;
    var rest := entries - {first};
    if rest != map[] {
      var other := SomeOldest(rest);
      if entries[other].updatedAt < entries[first].updatedAt {
        key := other;
      }
    }
    forall k | k in entries
      ensures entries[key].updatedAt <= entries[k].updatedAt
    {
      assert k == first || k in rest;
    }
  }

  /** What has been committed so far, when `rest` is still to come. */
  ghost predicate FlushedSoFar(selected: Pending, rest: Pending, committed: seq<Entry>) {
    && (forall e :: e in committed <==> e.key in selected && e.key !in rest && selected[e.key] == e)
    && (forall i, k :: 0 <= i < k < |committed| ==>
          committed[i].key != committed[k].key && committed[i].updatedAt <= committed[k].updatedAt)
    && (forall e, key :: e in committed && key in rest ==> e.updatedAt <= rest[key].updatedAt)
  }

  lemma FlushOne(selected: Pending, rest: Pending, committed: seq<Entry>, key: Key)
    requires Keyed(selected) && rest.Keys <= selected.Keys && forall k :: k in rest ==> rest[k] == selected[k]
    requires FlushedSoFar(selected, rest, committed)
    requires key in rest && forall k :: k in rest ==> rest[key].updatedAt <= rest[k].updatedAt
    ensures FlushedSoFar(selected, rest - {key}, committed + [rest[key]])
  {
    var more, e := committed + [rest[key]], rest[key];
    forall x
      ensures x in more <==> x.key in selected && x.key !in rest - {key} && selected[x.key] == x
    {
      assert x in more <==> x in committed || x == e;
    }
    forall i, k | 0 <= i < k < |more|
      ensures more[i].key != more[k].key && more[i].updatedAt <= more[k].updatedAt
    {
      assert more[i] in committed;
    }
    forall x, k | x in more && k in rest - {key}
      ensures x.updatedAt <= rest[k].updatedAt
    {
      assert x in committed || x == e;
    }
  }

  /** What is pending while `rest` of the selected entries is still to be committed. */
  ghost predicate LeftOf(before: Pending, selected: Pending, rest: Pending, pending: Pending) {
    && (forall k :: k in pending <==> k in before && (k in selected ==> k in rest))
    && (forall k :: k in pending ==> pending[k] == before[k])
  }

  lemma FlushBegins(pending: Pending, selected: Pending)
    requires selected.Keys <= pending.Keys
    ensures FlushedSoFar(selected, selected, []) && LeftOf(pending, selected, selected, pending)
  {
  }

  lemma OneLess(before: Pending, selected: Pending, rest: Pending, pending: Pending, key: Key)
    requires LeftOf(before, selected, rest, pending) && key in rest && rest.Keys <= selected.Keys
    ensures LeftOf(before, selected, rest - {key}, pending - {key})
  {
  }

  lemma FlushEnds(before: Pending, paths: Option<set<string>>, selected: Pending, committed: seq<Entry>, pending: Pending)
    requires selected == map key | key in before && Selected(key, paths) :: before[key]
    requires FlushedSoFar(selected, map[], committed) && LeftOf(before, selected, map[], pending)
    ensures IsFlush(before, paths, committed) && pending == Unselected(before, paths)
  {
    hide Selected;
  }

  class FileHistory {
    var pending: Pending
    var log: seq<Entry>

    constructor ()
      ensures pending == map[] && log == []
    {
      pending, log := map[], [];
    }

    method RecordFileHistory(r: Record)
      modifies this
      ensures pending == Recorded(old(pending), r) && log == old(log)
    {
      var key := KeyOf(r);
      var entry := if key in pending then Coalesced(pending[key], r) else Fresh(r);
      pending := pending[key := entry];
    }

    /** Every selected entry is committed and leaves the pending ones; the others stay. */
    method FlushFileHistory(paths: Option<set<string>>) returns (ghost committed: seq<Entry>)
      requires Keyed(pending)
      modifies this
      ensures IsFlush(old(pending), paths, committed)
      ensures log == old(log) + committed && pending == Unselected(old(pending), paths)
    {
      hide FlushedSoFar, LeftOf, IsFlush;
      var selected := map key | key in pending && Selected(key, paths) :: pending[key];
      var rest := selected;
      committed := [];
      FlushBegins(pending, selected);
      while rest != map[]
        invariant rest.Keys <= selected.Keys && forall k :: k in rest ==> rest[k] == selected[k]
        invariant FlushedSoFar(selected, rest, committed)
        invariant log == old(log) + committed
        invariant LeftOf(old(pending), selected, rest, pending)
        decreases rest.Keys
      {
        ghost var oldest := SomeOldest(rest);
        var key :| key in rest && forall k :: k in rest ==> rest[key].updatedAt <= rest[k].updatedAt;
        FlushOne(selected, rest, committed, key);
        OneLess(old(pending), selected, rest, pending, key);
        log := log + [rest[key]];
        pending := pending - {key};
        committed := committed + [rest[key]];
        rest := rest - {key};
      }
      FlushEnds(old(pending), paths, selected, committed, pending);
    }
  }

  // ---------------------------------------------------------------------------
  // What an entry stands for
  // ---------------------------------------------------------------------------

  datatype Action = Records(record: Record) | Flushes(paths: Option<set<string>>, committed: seq<Entry>)

  /** Newest action last. */
  ghost predicate Happens(actions: seq<Action>) {
    actions == [] ||
    (var front, last := actions[..|actions| - 1], actions[|actions| - 1];
     Happens(front) && (last.Flushes? ==> IsFlush(PendingAfter(front), last.paths, last.committed)))
  }

  function PendingAfter(actions: seq<Action>): Pending {
    if actions == [] then map[]
    else
      var before := PendingAfter(actions[..|actions| - 1]);
      match actions[|actions| - 1]
      case Records(r) => Recorded(before, r)
      case Flushes(paths, _) => Unselected(before, paths)
  }

  /** The records of a note and bucket since they were last flushed. */
  function Since(actions: seq<Action>, key: Key): seq<Record> {
    if actions == [] then []
    else
      var before := Since(actions[..|actions| - 1], key);
      match actions[|actions| - 1]
      case Records(r) =>
        if r.path == key.path && BucketStart(r.now, r.window) == key.bucketStart then before + [r] else before
      case Flushes(paths, _) => if paths.None? || key.path in paths.value then [] else before
  }

  /** The actors in the order in which they first appear. */
  function FirstSeen(records: seq<Record>): seq<Actor> {
    if records == [] then [] else AddContributor(FirstSeen(records[..|records| - 1]), records[|records| - 1].actor)
  }

  lemma {:induction false} FirstSeenIsDistinct(records: seq<Record>)
    ensures forall a :: a in FirstSeen(records) <==> exists i :: 0 <= i < |records| && records[i].actor == a
    ensures forall i, k :: 0 <= i < k < |FirstSeen(records)| ==> FirstSeen(records)[i] != FirstSeen(records)[k]
  {
    if records != [] {
      var n := |records| - 1;
      FirstSeenIsDistinct(records[..n]);
      assert forall i :: 0 <= i < n ==> records[..n][i] == records[i];
    }
  }

  /** One entry for all the records: created if any of them created, and else the last operation; the last
      content and time; everybody who contributed. */
  ghost predicate StandsFor(e: Entry, records: seq<Record>) {
    && records != []
    && e.content == records[|records| - 1].content && e.updatedAt == records[|records| - 1].now
    && e.operation == (if exists r :: r in records && r.operation == Create then Create else records[|records| - 1].operation)
    && e.contributors == FirstSeen(records)
    && forall r :: r in records ==> KeyOf(r) == e.key
  }

  lemma CoalescedStandsFor(e: Entry, records: seq<Record>, r: Record)
    requires StandsFor(e, records) && KeyOf(r) == e.key
    ensures StandsFor(Coalesced(e, r), records + [r])
  {
    assert (records + [r])[..|records|] == records;
    assert forall x :: x in records + [r] <==> x in records || x == r;
    if e.operation == Create && exists x :: x in records && x.operation == Create {
      var x :| x in records && x.operation == Create;
      assert x in records + [r];
    }
    hide KeyOf;
  }

  lemma FreshStandsFor(r: Record)
    ensures StandsFor(Fresh(r), [r])
  {
    assert [r][..0] == [];
    assert FirstSeen([r]) == AddContributor(FirstSeen([]), r.actor) == [r.actor];
  }

  /** Coalescing. In every run there is at most one pending entry for a note and bucket: there is one exactly
      when something was recorded since the last flush, and it stands for all of that. */
  lemma {:induction false} PendingStandsForRecords(actions: seq<Action>, key: Key)
    requires Happens(actions)
    ensures key in PendingAfter(actions) <==> Since(actions, key) != []
    ensures key in PendingAfter(actions) ==>
      PendingAfter(actions)[key].key == key && StandsFor(PendingAfter(actions)[key], Since(actions, key))
  {
    if actions != [] {
      var front, last := actions[..|actions| - 1], actions[|actions| - 1];
      PendingStandsForRecords(front, key);
      hide StandsFor, KeyOf;
      if last.Records? && KeyOf(last.record) == key {
        if key in PendingAfter(front) {
          CoalescedStandsFor(PendingAfter(front)[key], Since(front, key), last.record);
        } else {
          FreshStandsFor(last.record);
          assert Since(front, key) + [last.record] == [last.record];
        }
      }
    }
  }

  /** Flushing. A flush commits, for every selected note and bucket with records since the last flush, exactly
      one entry that stands for them, in the order of their last updates; what is not selected stays. */
  lemma FlushCommitsRecords(actions: seq<Action>, paths: Option<set<string>>, committed: seq<Entry>, key: Key)
    requires Happens(actions) && IsFlush(PendingAfter(actions), paths, committed)
    ensures (exists i :: 0 <= i < |committed| && committed[i].key == key)
      <==> (paths.None? || key.path in paths.value) && Since(actions, key) != []
    ensures forall i :: 0 <= i < |committed| && committed[i].key == key ==> StandsFor(committed[i], Since(actions, key))
    ensures paths.Some? && key.path !in paths.value ==> Since(actions + [Flushes(paths, committed)], key) == Since(actions, key)
  {
    PendingStandsForRecords(actions, key);
    hide StandsFor;
    var pending := PendingAfter(actions);
    assert forall i :: 0 <= i < |committed| ==> committed[i] in committed;
    if Selected(key, paths) && key in pending {
      assert pending[key] in committed;
    }
    assert (actions + [Flushes(paths, committed)])[..|actions|] == actions;
  }

  // ---------------------------------------------------------------------------
  // Paging
  // ---------------------------------------------------------------------------

  /** A row of a listing: its time, and its place in the order of the ids, in which no two rows agree. */
  datatype Row = Row(createdAt: int, id: int)

  predicate Newer(a: Row, b: Row) { a.createdAt > b.createdAt || (a.createdAt == b.createdAt && a.id > b.id) }

  ghost predicate NewestFirst(rows: seq<Row>) { forall i, k :: 0 <= i < k < |rows| ==> Newer(rows[i], rows[k]) }

  /** A cursor: a time, and usually the id of the row it was taken from. */
  datatype Cursor = Cursor(before: int, beforeId: Option<int>)

  predicate Passes(row: Row, cursor: Cursor) {
    row.createdAt < cursor.before
    || (row.createdAt == cursor.before && cursor.beforeId.Some? && row.id < cursor.beforeId.value)
  }

  function ApplyHistoryCursor(rows: seq<Row>, cursor: Option<Cursor>): seq<Row> {
    if cursor.None? || rows == [] then rows
    else (if Passes(rows[0], cursor.value) then [rows[0]] else []) + ApplyHistoryCursor(rows[1..], cursor)
  }

  datatype Page = Page(entries: seq<Row>, hasMore: bool)

  function PageLimit(limit: int): (n: nat)
    ensures 1 <= n <= 200
  {
    if limit < 1 then 50 else if limit > 200 then 200 else limit
  }

  function ListPage(rows: seq<Row>, cursor: Option<Cursor>, limit: int): Page {
    var limited := ApplyHistoryCursor(rows, cursor);
    var n := PageLimit(limit);
    if |limited| <= n then Page(limited, false) else Page(limited[..n], true)
  }

  function Smaller(a: nat, b: nat): nat { if a < b then a else b }

  /** A page holds as many of the rows that the cursor leaves as were asked for, from the first one on: 50 if nothing
      sensible was asked for, and never more than 200. It says that there is more exactly if there is. */
  lemma PageHolds(rows: seq<Row>, cursor: Option<Cursor>, limit: int)
    ensures var left, page := ApplyHistoryCursor(rows, cursor), ListPage(rows, cursor, limit);
      && |page.entries| == Smaller(|left|, if limit < 1 then 50 else Smaller(limit, 200))
      && page.entries == left[..|page.entries|]
      && (page.hasMore <==> |page.entries| < |left|)
  {
    hide ApplyHistoryCursor;
  }

  /** What a cursor leaves: the rows that pass it, in their order. */
  lemma {:induction false} CursorLeaves(rows: seq<Row>, cursor: Cursor)
    ensures forall r :: r in ApplyHistoryCursor(rows, Some(cursor)) <==>
      r in rows && (r.createdAt < cursor.before
                    || (r.createdAt == cursor.before && cursor.beforeId.Some? && r.id < cursor.beforeId.value))
    ensures ApplyHistoryCursor(rows, None) == rows
  {
    if rows != [] {
      CursorLeaves(rows[1..], cursor);
      assert rows == [rows[0]] + rows[1..];
    }
  }

  lemma {:induction false} AllPass(rows: seq<Row>, cursor: Cursor)
    requires forall i :: 0 <= i < |rows| ==> Passes(rows[i], cursor)
    ensures ApplyHistoryCursor(rows, Some(cursor)) == rows
  {
    if rows != [] {
      AllPass(rows[1..], cursor);
    }
  }

  /** The cursor of a row leaves exactly the rows after it. */
  lemma {:induction false} CursorContinues(rows: seq<Row>, k: nat)
    requires NewestFirst(rows) && k < |rows|
    ensures ApplyHistoryCursor(rows, Some(Cursor(rows[k].createdAt, Some(rows[k].id)))) == rows[k + 1..]
    decreases k
  {
    var cursor := Cursor(rows[k].createdAt, Some(rows[k].id));
    assert !Passes(rows[0], cursor) by { assert k > 0 ==> Newer(rows[0], rows[k]); }
    var rest := rows[1..];
    assert forall i :: 0 <= i < |rest| ==> rest[i] == rows[i + 1];
    if k == 0 {
      forall i | 0 <= i < |rest|
        ensures Passes(rest[i], cursor)
      {
        assert Newer(rows[0], rows[i + 1]);
      }
      AllPass(rest, cursor);
    } else {
      CursorContinues(rest, k - 1);
      assert rest[k..] == rows[k + 1..];
    }
  }

  /** Paging. Following the cursor of the last row of every page gives every row once, in order, and stops. */
  method FollowPages(rows: seq<Row>, limit: int) returns (all: seq<Row>)
    requires NewestFirst(rows)
    ensures all == rows
  {
    all := [];
    var cursor: Option<Cursor> := None;
    var more := true;
    while more
      invariant |all| <= |rows| && all == rows[..|all|]
      invariant more ==> ApplyHistoryCursor(rows, cursor) == rows[|all|..]
      invariant !more ==> all == rows
      decreases more, |rows| - |all|
    {
      var page := ListPage(rows, cursor, limit);
      ghost var end := |all| + |page.entries|;
      assert page.entries == rows[|all|..end];
      assert rows[..|all|] + rows[|all|..end] == rows[..end];
      all := all + page.entries;
      assert |all| == end && all == rows[..end];
      more := page.hasMore;
      if more {
        var last := page.entries[|page.entries| - 1];
        assert last == rows[|all| - 1];
        CursorContinues(rows, |all| - 1);
        cursor := Some(Cursor(last.createdAt, Some(last.id)));
      }
    }
  }

  /** A cursor without an id skips the rows of its time that come after it: it continues exactly if there
      are none. */
  lemma CursorWithoutId(rows: seq<Row>, k: nat)
    requires NewestFirst(rows) && k < |rows|
    ensures ApplyHistoryCursor(rows, Some(Cursor(rows[k].createdAt, None))) == rows[k + 1..]
      <==> k + 1 == |rows| || rows[k + 1].createdAt < rows[k].createdAt
  {
    var cursor := Cursor(rows[k].createdAt, None);
    FilterPasses(rows, cursor);
    if k + 1 < |rows| && rows[k + 1].createdAt < rows[k].createdAt {
      SuffixPasses(rows, k + 1, cursor);
    } else if k + 1 == |rows| {
      NonePass(rows, cursor);
      assert rows[k + 1..] == [];
    } else if k + 1 < |rows| {
      assert !Passes(rows[k + 1], cursor);
      assert rows[k + 1..][0] == rows[k + 1];
    }
  }

  lemma {:induction false} FilterPasses(rows: seq<Row>, cursor: Cursor)
    ensures forall r :: r in ApplyHistoryCursor(rows, Some(cursor)) ==> Passes(r, cursor)
  {
    if rows != [] {
      FilterPasses(rows[1..], cursor);
    }
  }

  lemma {:induction false} NonePass(rows: seq<Row>, cursor: Cursor)
    requires forall i :: 0 <= i < |rows| ==> !Passes(rows[i], cursor)
    ensures ApplyHistoryCursor(rows, Some(cursor)) == []
  {
    if rows != [] {
      NonePass(rows[1..], cursor);
    }
  }

  lemma {:induction false} SuffixPasses(rows: seq<Row>, k: nat, cursor: Cursor)
    requires NewestFirst(rows) && 0 < k < |rows| && cursor == Cursor(rows[k - 1].createdAt, None)
    requires rows[k].createdAt < rows[k - 1].createdAt
    ensures ApplyHistoryCursor(rows, Some(cursor)) == rows[k..]
    decreases k
  {
    var rest := rows[1..];
    assert forall i :: 0 <= i < |rest| ==> rest[i] == rows[i + 1];
    assert !Passes(rows[0], cursor) by { assert k > 1 ==> Newer(rows[0], rows[k - 1]); }
    if k == 1 {
      forall i | 0 <= i < |rest|
        ensures Passes(rest[i], cursor)
      {
        assert i > 0 ==> Newer(rows[1], rows[i + 1]);
      }
      AllPass(rest, cursor);
    } else {
      SuffixPasses(rest, k - 1, cursor);
      assert rest[k - 1..] == rows[k..];
    }
  }
}
