/** Reassembly of HTTP requests that arrive in chunks over the tunnel. */
module HttpRequests {
  import opened Wrappers

  type Bytes = seq<bv8>

  const PENDING_BYTE_LIMIT: nat := 8 * 1024 * 1024

  /** What the start message says of the request. */
  datatype Start = Start(method_: string, path: string, headers: map<string, string>, totalBytes: nat)

  datatype Draft = Draft(start: Start, chunks: map<nat, Bytes>, receivedBytes: nat)

  datatype Request = Request(start: Start, body: Bytes)

  type Drafts = map<string, Draft>

  // ---------------------------------------------------------------------------
  // One message
  // ---------------------------------------------------------------------------

  function Started(drafts: Drafts, id: string, start: Start): Drafts { drafts[id := Draft(start, map[], 0)] }

  function Chunked(drafts: Drafts, id: string, sequence: nat, bytes: Bytes): Drafts {
    if id !in drafts || sequence in drafts[id].chunks then drafts
    else
      var draft := drafts[id];
      var received := draft.receivedBytes + |bytes|;
      if received > draft.start.totalBytes || received > PENDING_BYTE_LIMIT then drafts - {id}
      else drafts[id := draft.(chunks := draft.chunks[sequence := bytes], receivedBytes := received)]
  }

  /** Chunks 0 to `count - 1` one after another, unless one is missing. */
  function InOrder(chunks: map<nat, Bytes>, count: nat): Option<Bytes> {
    if count == 0 then Some([])
    else if InOrder(chunks, count - 1).None? || count - 1 !in chunks then None
    else Some(InOrder(chunks, count - 1).value + chunks[count - 1])
  }

  function Finished(drafts: Drafts, id: string, count: nat): Option<Request> {
    if id !in drafts then None
    else
      var draft := drafts[id];
      if |draft.chunks| != count || draft.receivedBytes != draft.start.totalBytes then None
      else
        var body := InOrder(draft.chunks, count);
        if body.None? then None else Some(Request(draft.start, body.value))
  }

  class ChunkedHttpRequestAssembler {
    var drafts: Drafts

    constructor ()
      ensures drafts == map[]
    {
      drafts := map[];
    }

    method Begin(id: string, start: Start)
      modifies this
      ensures drafts == Started(old(drafts), id, start)
    {
      drafts := drafts[id := Draft(start, map[], 0)];
    }

    method Chunk(id: string, sequence: nat, bytes: Bytes)
      modifies this
      ensures drafts == Chunked(old(drafts), id, sequence, bytes)
    {
      if id !in drafts || sequence in drafts[id].chunks { return; }
      var draft := drafts[id];
      if draft.receivedBytes + |bytes| > draft.start.totalBytes || draft.receivedBytes + |bytes| > PENDING_BYTE_LIMIT {
        drafts := drafts - {id};
        return;
      }
      drafts := drafts[id := draft.(chunks := draft.chunks[sequence := bytes], receivedBytes := draft.receivedBytes + |bytes|)];
    }

    method End(id: string, count: nat) returns (request: Option<Request>)
      modifies this
      ensures drafts == old(drafts) - {id}
      ensures request == Finished(old(drafts), id, count)
    {
      var found := id in drafts;
      var draft := if found then drafts[id] else Draft(Start("", "", map[], 0), map[], 0);
      drafts := drafts - {id};
      if !found || |draft.chunks| != count || draft.receivedBytes != draft.start.totalBytes { return None; }
      var ordered: Bytes := [];
      for sequence := 0 to count
        invariant InOrder(draft.chunks, sequence) == Some(ordered)
      {
        if sequence !in draft.chunks {
          MissingIsNone(draft.chunks, sequence, count);
          return None;
        }
        ordered := ordered + draft.chunks[sequence];
      }
      request := Some(Request(draft.start, ordered));
    }

    method Cancel(id: string)
      modifies this
      ensures drafts == old(drafts) - {id}
    {
      drafts := drafts - {id};
    }
  }

  lemma {:induction false} MissingIsNone(chunks: map<nat, Bytes>, sequence: nat, count: nat)
    requires sequence !in chunks && sequence < count
    ensures InOrder(chunks, count).None?
  {
    if sequence < count - 1 {
      MissingIsNone(chunks, sequence, count - 1);
    }
  }

  // ---------------------------------------------------------------------------
  // Runs
  // ---------------------------------------------------------------------------

  datatype Message =
    | MStart(id: string, start: Start)
    | MChunk(id: string, sequence: nat, bytes: Bytes)
    | MEnd(id: string, count: nat)
    | MCancel(id: string)

  function Handle(drafts: Drafts, message: Message): Drafts {
    match message
    case MStart(id, start) => Started(drafts, id, start)
    case MChunk(id, sequence, bytes) => Chunked(drafts, id, sequence, bytes)
    case MEnd(id, _) => drafts - {id}
    case MCancel(id) => drafts - {id}
  }

  /** Newest message last. */
  function Run(drafts: Drafts, messages: seq<Message>): Drafts {
    if messages == [] then drafts
    else Handle(Run(drafts, messages[..|messages| - 1]), messages[|messages| - 1])
  }

  /** The bytes of the chunks with a number below `bound`. */
  function SizeBelow(chunks: map<nat, Bytes>, bound: nat): nat {
    if bound == 0 then 0
    else SizeBelow(chunks, bound - 1) + if bound - 1 in chunks then |chunks[bound - 1]| else 0
  }

  ghost predicate Below(chunks: map<nat, Bytes>, bound: nat) { forall s :: s in chunks ==> s < bound }

  lemma {:induction false} SizeGrows(chunks: map<nat, Bytes>, sequence: nat, bytes: Bytes, bound: nat)
    requires sequence !in chunks
    ensures SizeBelow(chunks[sequence := bytes], bound) ==
      SizeBelow(chunks, bound) + if sequence < bound then |bytes| else 0
  {
    if bound > 0 {
      SizeGrows(chunks, sequence, bytes, bound - 1);
    }
  }

  ghost predicate DraftInv(draft: Draft) {
    && draft.receivedBytes <= draft.start.totalBytes && draft.receivedBytes <= PENDING_BYTE_LIMIT
    && forall bound :: Below(draft.chunks, bound) ==> SizeBelow(draft.chunks, bound) == draft.receivedBytes
  }

  ghost predicate Inv(drafts: Drafts) { forall id :: id in drafts ==> DraftInv(drafts[id]) }

  lemma ChunkKeepsDraftInv(draft: Draft, sequence: nat, bytes: Bytes)
    requires DraftInv(draft) && sequence !in draft.chunks
    requires draft.receivedBytes + |bytes| <= draft.start.totalBytes && draft.receivedBytes + |bytes| <= PENDING_BYTE_LIMIT
    ensures DraftInv(draft.(chunks := draft.chunks[sequence := bytes], receivedBytes := draft.receivedBytes + |bytes|))
  {
    var more := draft.chunks[sequence := bytes];
    forall bound | Below(more, bound)
      ensures SizeBelow(more, bound) == draft.receivedBytes + |bytes|
    {
      assert sequence in more;
      assert forall s :: s in draft.chunks ==> s in more;
      assert Below(draft.chunks, bound);
      SizeGrows(draft.chunks, sequence, bytes, bound);
    }
  }

  lemma {:induction false} NothingStored(bound: nat)
    ensures SizeBelow(map[], bound) == 0
  {
    if bound > 0 {
      NothingStored(bound - 1);
    }
  }

  lemma HandleKeepsInv(drafts: Drafts, message: Message)
    requires Inv(drafts)
    ensures Inv(Handle(drafts, message))
  {
    hide DraftInv;
    match message
    case MStart(id, start) =>
      assert DraftInv(Draft(start, map[], 0)) by { FreshDraft(start); }
    case MChunk(id, sequence, bytes) =>
      if id in drafts && sequence !in drafts[id].chunks
        && drafts[id].receivedBytes + |bytes| <= drafts[id].start.totalBytes
        && drafts[id].receivedBytes + |bytes| <= PENDING_BYTE_LIMIT {
        ChunkKeepsDraftInv(drafts[id], sequence, bytes);
      }
    case MEnd(_, _) =>
    case MCancel(_) =>
  }

  lemma FreshDraft(start: Start)
    ensures DraftInv(Draft(start, map[], 0))
  {
    forall bound: nat
      ensures SizeBelow(map[], bound) == 0
    {
      NothingStored(bound);
    }
  }

  /** In every run the bytes stored for a request are those of its chunks, and never exceed its announced
      total nor the limit. */
  lemma {:induction false} StorageIsBounded(messages: seq<Message>)
    ensures Inv(Run(map[], messages))
    decreases |messages|
  {
    if messages != [] {
      StorageIsBounded(messages[..|messages| - 1]);
      HandleKeepsInv(Run(map[], messages[..|messages| - 1]), messages[|messages| - 1]);
    }
  }

  // ---------------------------------------------------------------------------
  // One request among others
  // ---------------------------------------------------------------------------

  /** After the start of the request, `messages` hold only chunks of it and anything of other requests. */
  ghost predicate OnlyChunksOf(id: string, messages: seq<Message>) {
    forall i :: 0 <= i < |messages| ==> messages[i].id != id || messages[i].MChunk?
  }

  /** The first copy of every chunk of the request. */
  function FirstCopies(id: string, messages: seq<Message>): map<nat, Bytes> {
    if messages == [] then map[]
    else
      var before, m := FirstCopies(id, messages[..|messages| - 1]), messages[|messages| - 1];
      if m.MChunk? && m.id == id && m.sequence !in before then before[m.sequence := m.bytes] else before
  }

  function Capacity(start: Start): nat {
    if start.totalBytes < PENDING_BYTE_LIMIT then start.totalBytes else PENDING_BYTE_LIMIT
  }

  /** The draft is the first copies of its chunks, for as long as they fit; once they do not, it is gone. */
  ghost predicate Holds(drafts: Drafts, id: string, start: Start, copies: map<nat, Bytes>) {
    forall bound :: Below(copies, bound) ==>
      if SizeBelow(copies, bound) <= Capacity(start)
      then id in drafts && drafts[id] == Draft(start, copies, SizeBelow(copies, bound))
      else id !in drafts
  }

  lemma ChunkKeepsHolds(drafts: Drafts, id: string, start: Start, copies: map<nat, Bytes>, sequence: nat, bytes: Bytes)
    requires Holds(drafts, id, start, copies)
    ensures Holds(Chunked(drafts, id, sequence, bytes), id, start,
                  if sequence in copies then copies else copies[sequence := bytes])
  {
    var more := if sequence in copies then copies else copies[sequence := bytes];
    forall bound | Below(more, bound)
      ensures
        if SizeBelow(more, bound) <= Capacity(start)
        then id in Chunked(drafts, id, sequence, bytes)
          && Chunked(drafts, id, sequence, bytes)[id] == Draft(start, more, SizeBelow(more, bound))
        else id !in Chunked(drafts, id, sequence, bytes)
    {
      assert forall s :: s in copies ==> s in more;
      assert Below(copies, bound);
      if sequence !in copies {
        assert sequence in more;
        SizeGrows(copies, sequence, bytes, bound);
      }
    }
  }

  lemma {:induction false} DraftHoldsFirstCopies(drafts: Drafts, id: string, start: Start, messages: seq<Message>)
    requires OnlyChunksOf(id, messages)
    ensures Holds(Run(Started(drafts, id, start), messages), id, start, FirstCopies(id, messages))
    decreases |messages|
  {
    if messages == [] {
      forall bound: nat
        ensures SizeBelow(map[], bound) == 0
      {
        NothingStored(bound);
      }
    } else {
      var front, m := messages[..|messages| - 1], messages[|messages| - 1];
      DraftHoldsFirstCopies(drafts, id, start, front);
      var before := Run(Started(drafts, id, start), front);
      if m.id == id {
        ChunkKeepsHolds(before, id, start, FirstCopies(id, front), m.sequence, m.bytes);
      } else {
        assert id in Handle(before, m) <==> id in before;
        assert id in before ==> Handle(before, m)[id] == before[id];
      }
    }
  }

  ghost predicate Numbered(chunks: map<nat, Bytes>, count: nat) { forall s: nat :: s in chunks <==> s < count }

  /** The body that chunks 0 to `count - 1` spell. */
  function Body(chunks: map<nat, Bytes>, count: nat): Bytes {
    if count == 0 then [] else Body(chunks, count - 1) + if count - 1 in chunks then chunks[count - 1] else []
  }

  lemma {:induction false} InOrderIsBody(chunks: map<nat, Bytes>, count: nat)
    ensures InOrder(chunks, count).Some? <==> forall s: nat :: s < count ==> s in chunks
    ensures InOrder(chunks, count).Some? ==> InOrder(chunks, count).value == Body(chunks, count)
    ensures |Body(chunks, count)| == SizeBelow(chunks, count)
  {
    if count > 0 {
      InOrderIsBody(chunks, count - 1);
    }
  }

  lemma {:induction false} FullKeys(keys: set<nat>, count: nat)
    requires forall s: nat :: s < count ==> s in keys
    ensures |keys| >= count
    ensures |keys| == count ==> forall s :: s in keys ==> s < count
    decreases count
  {
    if count > 0 {
      var last := count - 1;
      assert last in keys;
      FullKeys(keys - {last}, count - 1);
      assert forall s :: s in keys ==> s == last || s in keys - {last};
    } else if |keys| == 0 {
      assert keys == {};
    }
  }

  lemma {:induction false} NumberedSize(keys: set<nat>, count: nat)
    requires forall s: nat :: s in keys <==> s < count
    ensures |keys| == count
  {
    if count > 0 {
      assert count - 1 in keys;
      NumberedSize(keys - {count - 1}, count - 1);
    } else {
      assert keys == {};
    }
  }

  /** The request that the chunks make up, decided without looking at the order in which they came. */
  ghost function Expected(start: Start, chunks: map<nat, Bytes>, count: nat): Option<Request> {
    if Numbered(chunks, count) && |Body(chunks, count)| == start.totalBytes && start.totalBytes <= PENDING_BYTE_LIMIT
    then Some(Request(start, Body(chunks, count)))
    else None
  }

  /** Reassembly. Whatever other requests do in between, and however the chunks of this one are ordered and
      repeated, `end` returns a request exactly when the first copies are numbered 0 to n - 1 and their
      sizes add up to the announced total within the limit; the body is then their concatenation. */
  lemma ReassemblyIsExact(drafts: Drafts, id: string, start: Start, messages: seq<Message>, count: nat)
    requires OnlyChunksOf(id, messages)
    ensures Finished(Run(Started(drafts, id, start), messages), id, count)
      == Expected(start, FirstCopies(id, messages), count)
  {
    var copies, after := FirstCopies(id, messages), Run(Started(drafts, id, start), messages);
    DraftHoldsFirstCopies(drafts, id, start, messages);
    var bound := Bound(copies.Keys);
    assert Below(copies, bound);
    InOrderIsBody(copies, count);
    hide Run, FirstCopies, InOrder, Body;
    if Numbered(copies, count) {
      assert Below(copies, count);
      NumberedSize(copies.Keys, count);
    } else if forall s: nat :: s < count ==> s in copies {
      FullKeys(copies.Keys, count);
    }
  }

  ghost function Bound(keys: set<nat>): (bound: nat)
    ensures forall s :: s in keys ==> s < bound
    decreases |keys|
  {
    if keys == {} then 0
    else
      var s :| s in keys;
      var rest := Bound(keys - {s});
      assert forall k :: k in keys ==> k == s || k in keys - {s};
      if s < rest then rest else s + 1
  }

  /** Every chunk of the request carries the bytes that `sent` has under its number. */
  ghost predicate CopiesOf(id: string, messages: seq<Message>, sent: map<nat, Bytes>) {
    forall i :: 0 <= i < |messages| && messages[i].id == id && messages[i].MChunk? ==>
      messages[i].sequence in sent && messages[i].bytes == sent[messages[i].sequence]
  }

  ghost predicate AllArrive(id: string, messages: seq<Message>, sent: map<nat, Bytes>) {
    forall s :: s in sent ==> exists i :: 0 <= i < |messages| && messages[i].id == id && messages[i].MChunk? && messages[i].sequence == s
  }

  lemma {:induction false} FirstCopiesAreCopies(id: string, messages: seq<Message>, sent: map<nat, Bytes>)
    requires CopiesOf(id, messages, sent)
    ensures forall s :: s in FirstCopies(id, messages) ==> s in sent && FirstCopies(id, messages)[s] == sent[s]
    ensures forall i :: 0 <= i < |messages| && messages[i].id == id && messages[i].MChunk? ==>
      messages[i].sequence in FirstCopies(id, messages)
    decreases |messages|
  {
    if messages != [] {
      var front := messages[..|messages| - 1];
      assert forall i :: 0 <= i < |front| ==> front[i] == messages[i];
      FirstCopiesAreCopies(id, front, sent);
    }
  }

  /** Order and repetition do not matter: if every chunk that was sent arrives at least once, unchanged, the
      result is what the sent chunks make up. */
  lemma OrderDoesNotMatter(drafts: Drafts, id: string, start: Start, messages: seq<Message>, sent: map<nat, Bytes>, count: nat)
    requires OnlyChunksOf(id, messages) && CopiesOf(id, messages, sent) && AllArrive(id, messages, sent)
    ensures Finished(Run(Started(drafts, id, start), messages), id, count) == Expected(start, sent, count)
  {
    ReassemblyIsExact(drafts, id, start, messages, count);
    FirstCopiesAreCopies(id, messages, sent);
    hide Run, Expected;
    assert FirstCopies(id, messages).Keys == sent.Keys;
    assert FirstCopies(id, messages) == sent;
  }
}
