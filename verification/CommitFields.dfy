/** What a commit message says, field by field.

    The fields are read by the program under their own keys, whoever wrote the message, and
    shown to people in the subject and the body. The keys are written out here, as they stand
    in the messages. */
module CommitFields {
  import opened Wrappers
  import opened CommitTrailers
  import opened CommitMessages

  lemma FieldAt(j: Json, e: Entry, i: nat)
    requires Lawful(j) && PlainFields(e) && i < |FieldTrailers(e)|
    ensures FirstOf(Out(Trailers(j, e)), Text(FieldTrailers(e)[i].key)) == Some(FieldTrailers(e)[i].value)
  {
    TrailersAreRead(j, e);
    hide *;
  }

  lemma FieldList(e: Entry)
    ensures var fields := FieldTrailers(e);
      && |fields| >= 6
      && fields[0] == Trailer(OperationKey, e.operation) && fields[1] == Trailer(HistoryId, e.id)
      && fields[2] == Trailer(BucketStart, e.bucketStart) && fields[3] == Trailer(BucketEnd, e.bucketEnd)
      && fields[4] == Trailer(Size, e.size) && fields[5] == Trailer(ContentHash, e.contentHash)
      && (e.hashFormat.Some? ==> |fields| == 7 && fields[6] == Trailer(HashFormat, e.hashFormat.value))
  {
  }

  lemma KeyTexts()
    ensures Text(OperationKey) == "KB1-Operation" && Text(HistoryId) == "KB1-History-ID" && Text(BucketStart) == "KB1-Bucket-Start"
    ensures Text(BucketEnd) == "KB1-Bucket-End" && Text(Size) == "KB1-Size" && Text(ContentHash) == "KB1-Content-SHA256"
    ensures Text(HashFormat) == "KB1-Content-Hash-Format"
  {
  }

  /** Every field is read under its own key: what the entry says is what the history shows, and a hash format that it
      does not name is not made up. */
  lemma FieldsAreRead(j: Json, e: Entry)
    requires Lawful(j) && PlainFields(e) && SingleLineLabels(e) && !CutShort(e)
    ensures var values := ReadMessage(MessageText(j, e));
      && FirstOf(values, "KB1-Operation") == Some(e.operation) && FirstOf(values, "KB1-History-ID") == Some(e.id)
      && FirstOf(values, "KB1-Bucket-Start") == Some(e.bucketStart) && FirstOf(values, "KB1-Bucket-End") == Some(e.bucketEnd)
      && FirstOf(values, "KB1-Size") == Some(e.size) && FirstOf(values, "KB1-Content-SHA256") == Some(e.contentHash)
      && FirstOf(values, "KB1-Content-Hash-Format") == e.hashFormat
  {
    hide *;
    MessageIsRead(j, e);
    FieldList(e);
    KeyTexts();
    FieldAt(j, e, 0);
    FieldAt(j, e, 1);
    FieldAt(j, e, 2);
    FieldAt(j, e, 3);
    FieldAt(j, e, 4);
    FieldAt(j, e, 5);
    if e.hashFormat.Some? {
      FieldAt(j, e, 6);
    } else {
      NoHashFormat(j, e);
    }
  }

  lemma NoHashFormat(j: Json, e: Entry)
    requires Lawful(j) && PlainFields(e) && e.hashFormat.None?
    ensures FirstOf(Out(Trailers(j, e)), Text(HashFormat)) == None
  {
    var key := HashFormat;
    NoHashFormatField(e);
    GotAll(j, e, key);
    GotPath(j, PathJson, PathLegacy, e.path, key);
    GotFrom(j, e, key);
    GotContributors(j, e.contributors, key);
    assert Got(Trailers(j, e), key) == AllOf(Out(Trailers(j, e)), Text(key));
    hide Lawful, PlainFields, Got, Out, Trailers, PathTrailers, FromTrailers, FieldTrailers, ContributorTrailers, HasSeparator;
  }

  lemma NoHashFormatField(e: Entry)
    requires PlainFields(e) && e.hashFormat.None?
    ensures Got(FieldTrailers(e), HashFormat) == []
  {
    hide Plain, Got;
    assert AllPlain(FieldTrailers(e)) && DistinctKeys(FieldTrailers(e));
    GotPlain(FieldTrailers(e), HashFormat);
    ValueOfDistinct(FieldTrailers(e), HashFormat);
    hide ValuesAt;
  }

  /** What a message says to its human readers. */
  lemma MessageSays(j: Json, e: Entry)
    ensures var lines := CommitMessage(j, e);
      && lines[0] == "KB-1 history: " + e.operation + " " + Display(j, e.path) && lines[1] == ""
      && "Path: " + Display(j, e.path) in lines && (e.from.Some? ==> "From: " + Display(j, e.from.value) in lines)
      && "Bucket: " + e.bucketStart + " - " + e.bucketEnd in lines && "Contributors:" in lines
      && forall a :: a in e.contributors ==> "- " + ActorLabel(a) in lines
  {
    forall a | a in e.contributors
      ensures "- " + ActorLabel(a) in Labels(e.contributors)
    {
      var i :| 0 <= i < |e.contributors| && e.contributors[i] == a;
      assert Labels(e.contributors)[i] == "- " + ActorLabel(a);
    }
    hide Display, ActorLabel, Trailers;
  }

  /** How a contributor is shown: by name, else by id, else by kind, with the client behind if there is one. */
  lemma LabelsByExample()
    ensures ActorLabel(Actor("user", Some("u1"), Some("Ann"), None)) == "Ann"
    ensures ActorLabel(Actor("user", Some("u1"), None, Some("cli"))) == "u1 (cli)"
    ensures ActorLabel(Actor("system", None, None, Some(""))) == "system"
  {
  }

  /** The place of the first trailer with a key. */
  predicate IsFirst(values: seq<(string, string)>, key: string, i: nat) {
    i < |values| && values[i].0 == key && forall k :: 0 <= k < i ==> values[k].0 != key
  }

  /** Of several trailers with a key the first one counts. */
  lemma {:induction false} FirstCounts(values: seq<(string, string)>, key: string)
    ensures FirstOf(values, key).None? <==> forall i :: 0 <= i < |values| ==> values[i].0 != key
    ensures forall i: nat :: IsFirst(values, key, i) ==> FirstOf(values, key) == Some(values[i].1)
  {
    if values != [] {
      var rest := values[1..];
      FirstCounts(rest, key);
      assert forall i :: 0 < i < |values| ==> values[i] == rest[i - 1];
      forall i: nat | IsFirst(values, key, i)
        ensures FirstOf(values, key) == Some(values[i].1)
      {
        if i > 0 {
          assert IsFirst(rest, key, i - 1);
        }
      }
    }
  }

  /** Which path a message tells, whoever wrote it: the encoded one if there is one, even if it cannot be read, and only
      without it the plain one that messages used to have. */
  lemma PathIsTold(j: Json, values: seq<(string, string)>)
    ensures forall i: nat :: IsFirst(values, "KB1-Path-JSON", i) ==>
      CommitPathValue(j, values, PathJson, PathLegacy)
        == var read := j.toText(values[i].1); if read.Some? then Found(read.value) else Unreadable
    ensures (forall k :: 0 <= k < |values| ==> values[k].0 != "KB1-Path-JSON") ==>
      && (forall i: nat :: IsFirst(values, "KB1-Path", i) ==>
            CommitPathValue(j, values, PathJson, PathLegacy) == Found(values[i].1))
      && ((forall k :: 0 <= k < |values| ==> values[k].0 != "KB1-Path") ==>
            CommitPathValue(j, values, PathJson, PathLegacy) == Absent)
  {
    assert Text(PathJson) == "KB1-Path-JSON" && Text(PathLegacy) == "KB1-Path";
    FirstCounts(values, "KB1-Path-JSON");
    FirstCounts(values, "KB1-Path");
    hide FirstOf, IsFirst, Text;
  }
}
