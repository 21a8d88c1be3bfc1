/** The trailers of a history commit: printed into its message, and read back from the log.

    A message is a list of lines: the subject, the lines for a human reader, and one line for each trailer. Git
    strips white space at the end of the lines. The reader takes every line that starts with a key and a colon,
    and continues the value of a legacy path over the lines up to the next such line.

    The proof follows a printed trailer through cleaning and matching, then lists of trailers, and then the
    four groups of trailers of an entry. */
module CommitTrailers {
  import opened Wrappers

  datatype Actor = Actor(kind: string, id: Option<string>, name: Option<string>, client: Option<string>)

  datatype Entry = Entry(path: string, from: Option<string>, operation: string, id: string, bucketStart: string,
                         bucketEnd: string, size: string, contentHash: string, hashFormat: Option<string>,
                         contributors: seq<Actor>)

  /** Ends a record of the log that is read. */
  const RECORD_END := '\U{1E}'

  /** JSON on one line: control characters are escaped, the separators U+2028 and U+2029 are not. */
  datatype Json = Json(ofText: string -> string, toText: string -> Option<string>,
                       ofActor: Actor -> string, toActor: string -> Option<Actor>)

  predicate IsSeparator(c: char) { c == '\U{2028}' || c == '\U{2029}' }

  predicate HasSeparator(text: string) { exists i :: 0 <= i < |text| && IsSeparator(text[i]) }

  predicate OneLine(text: string) { '\n' !in text && '\r' !in text }

  predicate IsSpace(c: char) {
    '\t' <= c <= '\r' || c == ' ' || c == '\U{00A0}' || c == '\U{1680}' || '\U{2000}' <= c <= '\U{200A}'
    || IsSeparator(c) || c == '\U{202F}' || c == '\U{205F}' || c == '\U{3000}' || c == '\U{FEFF}'
  }

  /** No white space at either end. */
  predicate Tight(text: string) { text != "" && !IsSpace(text[0]) && !IsSpace(text[|text| - 1]) }

  predicate ActorHasSeparator(a: Actor) {
    HasSeparator(a.kind) || (a.id.Some? && HasSeparator(a.id.value)) || (a.name.Some? && HasSeparator(a.name.value))
    || (a.client.Some? && HasSeparator(a.client.value))
  }

  ghost predicate Lawful(j: Json) {
    && (forall s: string ::
          j.toText(j.ofText(s)) == Some(s) && Tight(j.ofText(s)) && OneLine(j.ofText(s)) && RECORD_END !in j.ofText(s)
          && (HasSeparator(j.ofText(s)) <==> HasSeparator(s)))
    && (forall a: Actor ::
          j.toActor(j.ofActor(a)) == Some(a) && Tight(j.ofActor(a)) && OneLine(j.ofActor(a)) && RECORD_END !in j.ofActor(a)
          && (HasSeparator(j.ofActor(a)) <==> ActorHasSeparator(a)))
  }

  // ---------------------------------------------------------------------------
  // Printing
  // ---------------------------------------------------------------------------

  datatype Key = PathJson | PathLegacy | FromJson | FromLegacy | OperationKey | HistoryId | BucketStart | BucketEnd
    | Size | ContentHash | HashFormat | Contributor

  function Text(key: Key): string {
    match key
    case PathJson => "KB1-Path-JSON"
    case PathLegacy => "KB1-Path"
    case FromJson => "KB1-From-Path-JSON"
    case FromLegacy => "KB1-From-Path"
    case OperationKey => "KB1-Operation"
    case HistoryId => "KB1-History-ID"
    case BucketStart => "KB1-Bucket-Start"
    case BucketEnd => "KB1-Bucket-End"
    case Size => "KB1-Size"
    case ContentHash => "KB1-Content-SHA256"
    case HashFormat => "KB1-Content-Hash-Format"
    case Contributor => "KB1-Contributor"
  }

  datatype Trailer = Trailer(key: Key, value: string)

  function PathTrailers(j: Json, json: Key, legacy: Key, path: string): seq<Trailer> {
    [Trailer(json, j.ofText(path))] + if OneLine(path) then [Trailer(legacy, path)] else []
  }

  function ContributorTrailers(j: Json, actors: seq<Actor>): (trailers: seq<Trailer>)
    ensures |trailers| == |actors|
    ensures forall i :: 0 <= i < |actors| ==> trailers[i] == Trailer(Contributor, j.ofActor(actors[i]))
  {
    seq(|actors|, i requires 0 <= i < |actors| => Trailer(Contributor, j.ofActor(actors[i])))
  }

  function FieldTrailers(e: Entry): seq<Trailer> {
    [Trailer(OperationKey, e.operation), Trailer(HistoryId, e.id), Trailer(BucketStart, e.bucketStart),
     Trailer(BucketEnd, e.bucketEnd), Trailer(Size, e.size), Trailer(ContentHash, e.contentHash)]
    + if e.hashFormat.Some? then [Trailer(HashFormat, e.hashFormat.value)] else []
  }

  function Trailers(j: Json, e: Entry): seq<Trailer> {
    PathTrailers(j, PathJson, PathLegacy, e.path)
    + (if e.from.Some? then PathTrailers(j, FromJson, FromLegacy, e.from.value) else [])
    + FieldTrailers(e) + ContributorTrailers(j, e.contributors)
  }

  function ActorLabel(a: Actor): string {
    var shown := if a.name.Some? then a.name.value else if a.id.Some? then a.id.value else a.kind;
    if a.client.Some? && a.client.value != "" then shown + " (" + a.client.value + ")" else shown
  }

  function Display(j: Json, path: string): string { if OneLine(path) then path else j.ofText(path) }

  function Labels(actors: seq<Actor>): (lines: seq<string>)
    ensures |lines| == |actors| && forall i :: 0 <= i < |actors| ==> lines[i] == "- " + ActorLabel(actors[i])
  {
    seq(|actors|, i requires 0 <= i < |actors| => "- " + ActorLabel(actors[i]))
  }

  /** Subject and body up to the trailers. */
  function Preamble(j: Json, e: Entry): seq<string> {
    ["KB-1 history: " + e.operation + " " + Display(j, e.path), "", "Path: " + Display(j, e.path)]
    + (if e.from.Some? then ["From: " + Display(j, e.from.value)] else [])
    + ["Bucket: " + e.bucketStart + " - " + e.bucketEnd, "", "Contributors:"] + Labels(e.contributors) + [""]
  }

  function TrailerLine(t: Trailer): string { Text(t.key) + ": " + t.value }

  function TrailerLines(trailers: seq<Trailer>): (lines: seq<string>)
    ensures |lines| == |trailers| && forall i :: 0 <= i < |trailers| ==> lines[i] == TrailerLine(trailers[i])
  {
    seq(|trailers|, i requires 0 <= i < |trailers| => TrailerLine(trailers[i]))
  }

  /** The lines of the commit message. */
  function CommitMessage(j: Json, e: Entry): seq<string> { Preamble(j, e) + TrailerLines(Trailers(j, e)) }

  // ---------------------------------------------------------------------------
  // Reading
  // ---------------------------------------------------------------------------

  predicate IsKeyChar(c: char) { 'A' <= c <= 'Z' || 'a' <= c <= 'z' || '0' <= c <= '9' || c == '-' }

  /** How far the run of key characters goes. */
  function KeyRun(line: string): (n: nat)
    ensures n <= |line|
  {
    if line != "" && IsKeyChar(line[0]) then 1 + KeyRun(line[1..]) else 0
  }

  const START := "KB1-"

  /** The position of the colon after a trailer key, if the line starts with one. */
  function KeyEnd(line: string): (r: Option<nat>)
    ensures r.Some? ==> |START| < r.value < |line|
  {
    if START <= line then
      var n := |START| + KeyRun(line[|START|..]);
      if |START| < n < |line| && line[n] == ':' then Some(n) else None
    else None
  }

  function SkipSpace(text: string): string {
    if text != "" && IsSpace(text[0]) then SkipSpace(text[1..]) else text
  }

  predicate Dotted(text: string) { OneLine(text) && !HasSeparator(text) }

  /** The regular expression for a trailer line: `.` does not match a line terminator, of which there are four. */
  function MatchTrailer(line: string): Option<(string, string)> {
    var end := KeyEnd(line);
    if end.None? then None
    else
      var value := SkipSpace(line[end.value + 1..]);
      if Dotted(value) then Some((line[..end.value], value)) else None
  }

  function StripCr(line: string): string {
    if line != "" && line[|line| - 1] == '\r' then line[..|line| - 1] else line
  }

  predicate IsPathKey(key: string) { key == Text(PathLegacy) || key == Text(FromLegacy) }

  /** The lines that continue a legacy path value: those before the next trailer. */
  function Continuation(lines: seq<string>): (n: nat)
    ensures n <= |lines|
  {
    if lines != [] && KeyEnd(StripCr(lines[0])).None? then 1 + Continuation(lines[1..]) else 0
  }

  function Continued(value: string, lines: seq<string>): string {
    if lines == [] then value else Continued(value, lines[..|lines| - 1]) + "\n" + StripCr(lines[|lines| - 1])
  }

  /** The trailers of a message, in order. */
  function Values(lines: seq<string>): seq<(string, string)>
    decreases |lines|
  {
    if lines == [] then []
    else
      var m := MatchTrailer(StripCr(lines[0]));
      if m.None? then Values(lines[1..])
      else if IsPathKey(m.value.0) then
        var n := Continuation(lines[1..]);
        [(m.value.0, Continued(m.value.1, lines[1..1 + n]))] + Values(lines[1 + n..])
      else [m.value] + Values(lines[1..])
  }

  function AllOf(values: seq<(string, string)>, key: string): seq<string> {
    if values == [] then []
    else (if values[0].0 == key then [values[0].1] else []) + AllOf(values[1..], key)
  }

  function FirstOf(values: seq<(string, string)>, key: string): Option<string> {
    if AllOf(values, key) == [] then None else Some(AllOf(values, key)[0])
  }

  /** What has been collected, and what the remaining lines hold, are the trailers of the message. */
  ghost predicate Collected(values: map<string, seq<string>>, rest: seq<(string, string)>, all: seq<(string, string)>) {
    forall key: string :: Under(values, key) + AllOf(rest, key) == AllOf(all, key)
  }

  function Under(values: map<string, seq<string>>, key: string): seq<string> { if key in values then values[key] else [] }

  lemma AllOfPrepend(key: string, value: string, rest: seq<(string, string)>, k: string)
    ensures AllOf([(key, value)] + rest, k) == (if k == key then [value] else []) + AllOf(rest, k)
  {
    assert ([(key, value)] + rest)[1..] == rest;
  }

  lemma Regroup<T>(a: seq<T>, b: seq<T>, c: seq<T>)
    ensures a + (b + c) == (a + b) + c
  {
  }

  lemma CollectUnder(values: map<string, seq<string>>, key: string, value: string,
                     rest: seq<(string, string)>, all: seq<(string, string)>, k: string)
    requires Collected(values, [(key, value)] + rest, all)
    ensures Under(values[key := Under(values, key) + [value]], k) + AllOf(rest, k) == AllOf(all, k)
  {
    AllOfPrepend(key, value, rest, k);
    assert Under(values, k) + AllOf([(key, value)] + rest, k) == AllOf(all, k);
    hide AllOf, Collected;
    Regroup(Under(values, k), if k == key then [value] else [], AllOf(rest, k));
    assert Under(values[key := Under(values, key) + [value]], k) == Under(values, k) + if k == key then [value] else [];
  }

  lemma CollectOne(values: map<string, seq<string>>, key: string, value: string,
                   rest: seq<(string, string)>, all: seq<(string, string)>)
    requires Collected(values, [(key, value)] + rest, all)
    ensures Collected(values[key := Under(values, key) + [value]], rest, all)
  {
    forall k: string
      ensures Under(values[key := Under(values, key) + [value]], k) + AllOf(rest, k) == AllOf(all, k)
    {
      CollectUnder(values, key, value, rest, all, k);
    }
    hide Under, AllOf;
  }

  lemma CollectedEnds(lines: seq<string>)
    ensures Collected(map[], Values(lines), Values(lines))
    ensures forall values :: Collected(values, Values([]), Values(lines)) ==>
      forall key :: Under(values, key) == AllOf(Values(lines), key)
  {
    forall values | Collected(values, Values([]), Values(lines))
      ensures forall key :: Under(values, key) == AllOf(Values(lines), key)
    {
      forall key
        ensures Under(values, key) == AllOf(Values(lines), key)
      {
        assert Under(values, key) + AllOf([], key) == AllOf(Values(lines), key);
      }
    }
  }

  method ReadContinuation(lines: seq<string>, start: nat, first: string) returns (next: nat, value: string)
    requires start <= |lines|
    ensures next == start + Continuation(lines[start..]) && next <= |lines|
    ensures value == Continued(first, lines[start..next])
  {
    next, value := start, first;
    hide StripCr, KeyEnd;
    while next < |lines| && KeyEnd(StripCr(lines[next])).None?
      invariant start <= next <= |lines|
      invariant Continuation(lines[start..]) == next - start + Continuation(lines[next..])
      invariant value == Continued(first, lines[start..next])
    {
      assert lines[next..][1..] == lines[next + 1..];
      assert lines[start..next + 1][..next - start] == lines[start..next];
      value := value + "\n" + StripCr(lines[next]);
      next := next + 1;
    }
  }

  lemma ValuesFrom(lines: seq<string>, index: nat)
    requires index < |lines|
    ensures var m, n := MatchTrailer(StripCr(lines[index])), Continuation(lines[index + 1..]);
      Values(lines[index..]) ==
        if m.None? then Values(lines[index + 1..])
        else if IsPathKey(m.value.0)
        then [(m.value.0, Continued(m.value.1, lines[index + 1..index + 1 + n]))] + Values(lines[index + 1 + n..])
        else [m.value] + Values(lines[index + 1..])
  {
    hide MatchTrailer, StripCr, IsPathKey, Continued;
    var n := Continuation(lines[index + 1..]);
    assert lines[index..][1..] == lines[index + 1..];
    assert lines[index..][1..1 + n] == lines[index + 1..index + 1 + n];
    assert lines[index..][1 + n..] == lines[index + 1 + n..];
  }

  /** Collects the values of every key in the order of the lines. */
  method CommitValues(lines: seq<string>) returns (values: map<string, seq<string>>)
    ensures forall key :: Under(values, key) == AllOf(Values(lines), key)
  {
    hide Collected, Values, MatchTrailer, StripCr, IsPathKey, Continued, AllOf, Continuation;
    values := map[];
    var index := 0;
    assert lines[0..] == lines;
    CollectedEnds(lines);
    while index < |lines|
      invariant 0 <= index <= |lines|
      invariant Collected(values, Values(lines[index..]), Values(lines))
      decreases |lines| - index
    {
      var m := MatchTrailer(StripCr(lines[index]));
      ValuesFrom(lines, index);
      if m.None? {
        index := index + 1;
        continue;
      }
      var (key, value) := m.value;
      var next := index + 1;
      if IsPathKey(key) {
        next, value := ReadContinuation(lines, next, value);
      }
      CollectOne(values, key, value, Values(lines[next..]), Values(lines));
      values := values[key := Under(values, key) + [value]];
      index := next;
    }
    assert lines[index..] == [];
  }

  // ---------------------------------------------------------------------------
  // Round trip
  // ---------------------------------------------------------------------------

  lemma {:induction false} RunOfKey(key: string, rest: string)
    requires forall i :: 0 <= i < |key| ==> IsKeyChar(key[i])
    requires rest != "" && !IsKeyChar(rest[0])
    ensures KeyRun(key + rest) == |key|
  {
    if key != "" {
      assert (key + rest)[1..] == key[1..] + rest;
      RunOfKey(key[1..], rest);
    } else {
      assert key + rest == rest;
    }
  }

  lemma KeyTextIsKey(key: Key)
    ensures START <= Text(key) && |Text(key)| > |START|
    ensures forall i :: 0 <= i < |Text(key)| ==> IsKeyChar(Text(key)[i])
  {
  }

  lemma TextsDiffer(a: Key, b: Key)
    requires a != b
    ensures Text(a) != Text(b)
  {
    assert |Text(a)| != |Text(b)| || Text(a)[4] != Text(b)[4];
  }

  /** A trailer line starts with its key and a colon, whatever its value. */
  lemma LineStarts(key: Key, tail: string)
    ensures KeyEnd(Text(key) + ":" + tail) == Some(|Text(key)|)
  {
    KeyTextIsKey(key);
    var text := Text(key);
    var line := text + ":" + tail;
    var rest := text[|START|..];
    assert line[|START|..] == rest + (":" + tail);
    RunOfKey(rest, ":" + tail);
    assert line[..|START|] == text[..|START|];
  }

  /** Git strips blanks, tabs and carriage returns at the end of every line of a message. */
  function Cleaned(line: string): string {
    if line != "" && line[|line| - 1] in {' ', '\t', '\n', '\r'} then Cleaned(line[..|line| - 1]) else line
  }

  function CleanedAll(lines: seq<string>): (cleaned: seq<string>)
    ensures |cleaned| == |lines| && forall i :: 0 <= i < |lines| ==> cleaned[i] == Cleaned(lines[i])
  {
    seq(|lines|, i requires 0 <= i < |lines| => Cleaned(lines[i]))
  }

  /** Cleaning a trailer line leaves its key and colon, and some front of its value. */
  lemma {:induction false} CleanedKeeps(key: Key, tail: string)
    ensures exists n: nat :: n <= |tail| && Cleaned(Text(key) + ":" + tail) == Text(key) + ":" + tail[..n]
    decreases |tail|
  {
    hide Text;
    var line := Text(key) + ":" + tail;
    if Cleaned(line) == line {
      assert tail[..|tail|] == tail;
    } else {
      var n := |tail| - 1;
      assert tail != [];
      assert line[..|line| - 1] == Text(key) + ":" + tail[..n];
      CleanedKeeps(key, tail[..n]);
      var m: nat :| m <= n && Cleaned(line[..|line| - 1]) == Text(key) + ":" + tail[..n][..m];
      assert tail[..n][..m] == tail[..m];
    }
  }

  /** What follows the key and the colon is all that decides how the line is read. */
  lemma MatchAfterKey(key: Key, tail: string)
    ensures MatchTrailer(Text(key) + ":" + tail) ==
      if Dotted(SkipSpace(tail)) then Some((Text(key), SkipSpace(tail))) else None
    ensures KeyEnd(Text(key) + ":" + tail).Some?
  {
    LineStarts(key, tail);
    var line, n := Text(key) + ":" + tail, |Text(key)|;
    assert line[n + 1..] == tail && line[..n] == Text(key);
    hide KeyEnd, SkipSpace, Dotted, Text;
  }

  lemma TightIsKept(line: string)
    requires line != "" && !IsSpace(line[|line| - 1])
    ensures Cleaned(line) == line && StripCr(line) == line
  {
  }

  /** What a printed trailer reads back as, if its value is one line: with a separator in it, nothing at all. */
  lemma TightTrailer(t: Trailer)
    requires Tight(t.value) && OneLine(t.value)
    ensures var line := StripCr(Cleaned(TrailerLine(t)));
      MatchTrailer(line) == (if HasSeparator(t.value) then None else Some((Text(t.key), t.value)))
      && KeyEnd(line).Some?
  {
    var tail := " " + t.value;
    var line := Text(t.key) + ":" + tail;
    assert TrailerLine(t) == line && line[|line| - 1] == t.value[|t.value| - 1];
    TightIsKept(line);
    assert tail[1..] == t.value;
    assert SkipSpace(tail) == SkipSpace(t.value) == t.value;
    hide KeyEnd, HasSeparator, Text, Cleaned, StripCr, MatchTrailer, SkipSpace;
    MatchAfterKey(t.key, tail);
  }

  /** An empty value loses the space before it and is read back as empty. */
  lemma EmptyTrailer(key: Key)
    ensures var line := StripCr(Cleaned(TrailerLine(Trailer(key, ""))));
      MatchTrailer(line) == Some((Text(key), "")) && KeyEnd(line).Some?
  {
    var line, rest := Text(key) + ":" + " ", Text(key) + ":" + "";
    assert TrailerLine(Trailer(key, "")) == line;
    assert line[..|line| - 1] == rest && rest[|rest| - 1] == ':';
    hide Text;
    TightIsKept(rest);
    assert Cleaned(line) == Cleaned(rest);
    hide Cleaned, StripCr;
    MatchAfterKey(key, "");
  }

  /** A legacy path line reads back as its key with some text without separators, or not at all. */
  lemma RawTrailer(t: Trailer)
    requires OneLine(t.value)
    ensures var line := StripCr(Cleaned(TrailerLine(t)));
      KeyEnd(line).Some? && (MatchTrailer(line).Some? ==>
        MatchTrailer(line).value.0 == Text(t.key) && !HasSeparator(MatchTrailer(line).value.1))
  {
    var tail := " " + t.value;
    assert TrailerLine(t) == Text(t.key) + ":" + tail;
    CleanedKeeps(t.key, tail);
    var n: nat :| n <= |tail| && Cleaned(TrailerLine(t)) == Text(t.key) + ":" + tail[..n];
    var line := Text(t.key) + ":" + tail[..n];
    LineStarts(t.key, tail[..n]);
    assert StripCr(line) == line by {
      if n > 0 {
        assert line[|line| - 1] == tail[n - 1];
      } else {
        assert line[|line| - 1] == ':';
      }
    }
    assert line[..|Text(t.key)|] == Text(t.key);
    hide KeyEnd, SkipSpace, HasSeparator;
  }

  function ReadBack(t: Trailer): Option<(string, string)> { MatchTrailer(StripCr(Cleaned(TrailerLine(t)))) }

  /** The values that a list of trailers is read back as. */
  function Out(trailers: seq<Trailer>): seq<(string, string)> {
    if trailers == [] then []
    else (if ReadBack(trailers[0]).Some? then [ReadBack(trailers[0]).value] else []) + Out(trailers[1..])
  }

  /** What may follow the colon: one line, and for all but the legacy paths no white space around it. */
  predicate Printable(t: Trailer) {
    OneLine(t.value) && (t.key == PathLegacy || t.key == FromLegacy || t.value == "" || Tight(t.value))
  }

  lemma ReadBackIs(t: Trailer)
    requires Printable(t)
    ensures KeyEnd(StripCr(Cleaned(TrailerLine(t)))).Some?
    ensures ReadBack(t).Some? ==> ReadBack(t).value.0 == Text(t.key) && !HasSeparator(ReadBack(t).value.1)
    ensures t.key != PathLegacy && t.key != FromLegacy ==>
      ReadBack(t) == if HasSeparator(t.value) then None else Some((Text(t.key), t.value))
  {
    hide KeyEnd, StripCr, Cleaned, TrailerLine, MatchTrailer, Text;
    if t.key == PathLegacy || t.key == FromLegacy {
      RawTrailer(t);
    } else if t.value == "" {
      EmptyTrailer(t.key);
    } else {
      TightTrailer(t);
    }
  }

  lemma LinesOfRest(trailers: seq<Trailer>)
    requires trailers != []
    ensures var lines := CleanedAll(TrailerLines(trailers));
      && lines[0] == Cleaned(TrailerLine(trailers[0]))
      && lines[1..] == CleanedAll(TrailerLines(trailers[1..]))
      && (|lines| > 1 ==> lines[1..][0] == Cleaned(TrailerLine(trailers[1])))
  {
    hide Cleaned, TrailerLine;
  }

  /** The continuation rule for legacy paths never swallows a trailer. */
  lemma {:induction false} ValuesOfTrailers(trailers: seq<Trailer>)
    requires forall i :: 0 <= i < |trailers| ==> Printable(trailers[i])
    ensures Values(CleanedAll(TrailerLines(trailers))) == Out(trailers)
  {
    hide KeyEnd, StripCr, Cleaned, TrailerLine, MatchTrailer, Printable, TrailerLines, CleanedAll, IsPathKey;
    if trailers == [] {
      assert TrailerLines(trailers) == [];
      assert CleanedAll(TrailerLines(trailers)) == [];
    } else {
      var lines, rest := CleanedAll(TrailerLines(trailers)), trailers[1..];
      ValuesOfTrailers(rest);
      LinesOfRest(trailers);
      ReadBackIs(trailers[0]);
      if rest != [] {
        ReadBackIs(rest[0]);
      }
      assert Continuation(lines[1..]) == 0;
      hide Continuation, Values;
      ValuesFrom(lines, 0);
      assert lines[0..] == lines && lines[1..1] == [];
      hide ReadBack;
      assert ReadBack(trailers[0]) == MatchTrailer(StripCr(lines[0])) by { ReadBackMeans(trailers[0]); }
    }
  }

  lemma ReadBackMeans(t: Trailer)
    ensures ReadBack(t) == MatchTrailer(StripCr(Cleaned(TrailerLine(t))))
  {
  }

  predicate NoTrailer(line: string) { !(START <= line) }

  lemma NotAStart(line: string)
    requires |line| <= 2 || line[0] != 'K' || line[2] != '1'
    ensures NoTrailer(line)
  {
    assert START[0] == 'K' && START[2] == '1';
  }

  lemma {:induction false} CleanedIsFront(line: string)
    ensures Cleaned(line) <= line
  {
    if Cleaned(line) != line {
      CleanedIsFront(line[..|line| - 1]);
    }
  }

  lemma NoTrailerStays(line: string)
    requires NoTrailer(line)
    ensures KeyEnd(StripCr(Cleaned(line))).None?
  {
    CleanedIsFront(line);
    hide Cleaned;
    assert StripCr(Cleaned(line)) <= Cleaned(line);
  }

  lemma {:induction false} SkipNoTrailers(front: seq<string>, rest: seq<string>)
    requires forall i :: 0 <= i < |front| ==> NoTrailer(front[i])
    ensures Values(CleanedAll(front) + rest) == Values(rest)
  {
    hide Cleaned, StripCr, KeyEnd, Continuation, NoTrailer, IsPathKey, SkipSpace;
    if front == [] {
      assert CleanedAll(front) + rest == rest;
    } else {
      var lines := CleanedAll(front) + rest;
      SkipNoTrailers(front[1..], rest);
      assert lines[1..] == CleanedAll(front[1..]) + rest;
      NoTrailerStays(front[0]);
      ValuesFrom(lines, 0);
      assert lines[0..] == lines && lines[0] == Cleaned(front[0]);
      hide Values;
    }
  }

  lemma PreambleHasNoTrailers(j: Json, e: Entry)
    ensures forall i :: 0 <= i < |Preamble(j, e)| ==> NoTrailer(Preamble(j, e)[i])
  {
    hide NoTrailer, Display, ActorLabel;
    forall line | line in Preamble(j, e)
      ensures NoTrailer(line)
    {
      NotAStart(line);
    }
  }

  // ---------------------------------------------------------------------------
  // What is read
  // ---------------------------------------------------------------------------

  datatype PathValue = Absent | Unreadable | Found(path: string)

  function CommitPathValue(j: Json, values: seq<(string, string)>, json: Key, legacy: Key): PathValue {
    var encoded := FirstOf(values, Text(json));
    if encoded.Some? then
      var path := j.toText(encoded.value);
      if path.Some? then Found(path.value) else Unreadable
    else
      var plain := FirstOf(values, Text(legacy));
      if plain.Some? then Found(plain.value) else Absent
  }

  /** The contributors that can be read. */
  function ReadActors(j: Json, texts: seq<string>): seq<Actor> {
    if texts == [] then []
    else
      var a := j.toActor(texts[0]);
      (if a.Some? then [a.value] else []) + ReadActors(j, texts[1..])
  }

  lemma {:induction false} OutConcat(left: seq<Trailer>, right: seq<Trailer>)
    ensures Out(left + right) == Out(left) + Out(right)
  {
    hide ReadBack;
    if left == [] {
      assert left + right == right;
    } else {
      assert (left + right)[1..] == left[1..] + right;
      OutConcat(left[1..], right);
      Regroup(if ReadBack(left[0]).Some? then [ReadBack(left[0]).value] else [], Out(left[1..]), Out(right));
    }
  }

  lemma {:induction false} AllOfConcat(left: seq<(string, string)>, right: seq<(string, string)>, key: string)
    ensures AllOf(left + right, key) == AllOf(left, key) + AllOf(right, key)
  {
    if left == [] {
      assert left + right == right;
    } else {
      assert (left + right)[1..] == left[1..] + right;
      AllOfConcat(left[1..], right, key);
      Regroup(if left[0].0 == key then [left[0].1] else [], AllOf(left[1..], key), AllOf(right, key));
    }
  }

  /** The values that are read back under a key. */
  function Got(trailers: seq<Trailer>, key: Key): seq<string> { AllOf(Out(trailers), Text(key)) }

  lemma GotConcat(left: seq<Trailer>, right: seq<Trailer>, key: Key)
    ensures Got(left + right, key) == Got(left, key) + Got(right, key)
  {
    hide Out, AllOf, Text;
    OutConcat(left, right);
    AllOfConcat(Out(left), Out(right), Text(key));
  }

  lemma GotOne(t: Trailer, key: Key)
    requires Printable(t)
    ensures Got([t], key) == if key == t.key && ReadBack(t).Some? then [ReadBack(t).value.1] else []
  {
    ReadBackIs(t);
    if key != t.key {
      TextsDiffer(key, t.key);
    }
    hide ReadBack, Text, Printable;
    assert [t][1..] == [];
    var out := if ReadBack(t).Some? then [ReadBack(t).value] else [];
    assert Out([t]) == out;
    if out != [] {
      assert out[1..] == [];
      assert AllOf(out, Text(key)) == if out[0].0 == Text(key) then [out[0].1] else [];
    }
  }

  /** One line, without white space around it and without separators; possibly empty. */
  predicate Plain(text: string) {
    text == "" || (Tight(text) && OneLine(text) && !HasSeparator(text) && RECORD_END !in text)
  }

  predicate PlainFields(e: Entry) {
    && Plain(e.operation) && Plain(e.id) && Plain(e.bucketStart) && Plain(e.bucketEnd) && Plain(e.size)
    && Plain(e.contentHash) && (e.hashFormat.Some? ==> Plain(e.hashFormat.value))
  }

  predicate SingleLineLabels(e: Entry) {
    forall i :: 0 <= i < |e.contributors| ==> '\n' !in ActorLabel(e.contributors[i])
  }

  lemma AllPrintable(j: Json, e: Entry)
    requires Lawful(j) && PlainFields(e)
    ensures forall i :: 0 <= i < |Trailers(j, e)| ==> Printable(Trailers(j, e)[i])
  {
    hide Tight, OneLine, HasSeparator;
    assert OneLine("") by { OneLineIsEmpty(); }
    forall t | t in Trailers(j, e)
      ensures Printable(t)
    {
      if t in PathTrailers(j, PathJson, PathLegacy, e.path) {
      } else if e.from.Some? && t in PathTrailers(j, FromJson, FromLegacy, e.from.value) {
      } else if t in FieldTrailers(e) {
      } else {
        assert t in ContributorTrailers(j, e.contributors);
      }
    }
  }

  lemma OneLineIsEmpty()
    ensures OneLine("")
  {
  }

  lemma PreambleIsSingle(j: Json, e: Entry)
    requires PlainFields(e) && SingleLineLabels(e)
    requires '\n' !in Display(j, e.path) && (e.from.Some? ==> '\n' !in Display(j, e.from.value))
    ensures forall line :: line in Preamble(j, e) ==> '\n' !in line
  {
    hide Display, ActorLabel, Tight, HasSeparator;
    assert forall line :: line in Labels(e.contributors) ==> '\n' !in line;
  }

  lemma TrailersAreSingle(trailers: seq<Trailer>)
    requires forall i :: 0 <= i < |trailers| ==> Printable(trailers[i])
    ensures forall line :: line in TrailerLines(trailers) ==> '\n' !in line
  {
    hide Text, Tight;
    forall line | line in TrailerLines(trailers)
      ensures '\n' !in line
    {
      var i :| 0 <= i < |trailers| && TrailerLines(trailers)[i] == line;
      KeyHasNoBreak(trailers[i].key);
    }
  }

  /** No printed line holds a line break, so splitting the message at line breaks gives back its lines. */
  lemma LinesAreSingle(j: Json, e: Entry)
    requires Lawful(j) && PlainFields(e) && SingleLineLabels(e)
    ensures forall line :: line in CommitMessage(j, e) ==> '\n' !in line
  {
    AllPrintable(j, e);
    TrailersAreSingle(Trailers(j, e));
    assert '\n' !in Display(j, e.path) && (e.from.Some? ==> '\n' !in Display(j, e.from.value));
    PreambleIsSingle(j, e);
    hide Trailers, Preamble, TrailerLines;
  }

  lemma KeyHasNoBreak(key: Key)
    ensures '\n' !in Text(key)
  {
    KeyTextIsKey(key);
  }

  lemma CleanedConcat(left: seq<string>, right: seq<string>)
    ensures CleanedAll(left + right) == CleanedAll(left) + CleanedAll(right)
  {
    hide Cleaned;
  }

  /** Reading a printed message reads its trailers. */
  lemma MessageValues(j: Json, e: Entry)
    requires Lawful(j) && PlainFields(e)
    ensures Values(CleanedAll(CommitMessage(j, e))) == Out(Trailers(j, e))
  {
    AllPrintable(j, e);
    ValuesOfTrailers(Trailers(j, e));
    PreambleHasNoTrailers(j, e);
    CleanedConcat(Preamble(j, e), TrailerLines(Trailers(j, e)));
    SkipNoTrailers(Preamble(j, e), CleanedAll(TrailerLines(Trailers(j, e))));
    hide Trailers, Preamble, Out, Values, CleanedAll, TrailerLines, Lawful, PlainFields, NoTrailer, Printable;
  }

  // ---------------------------------------------------------------------------
  // The guarantee
  // ---------------------------------------------------------------------------

  /** A path is read from its JSON unless a separator hides it; the legacy line never yields a separator. */
  lemma GotPath(j: Json, json: Key, legacy: Key, path: string, key: Key)
    requires Lawful(j)
    requires (json == PathJson && legacy == PathLegacy) || (json == FromJson && legacy == FromLegacy)
    ensures var got := Got(PathTrailers(j, json, legacy, path), key);
      && (key == json ==> got == if HasSeparator(path) then [] else [j.ofText(path)])
      && (key == legacy ==> |got| <= 1 && forall i :: 0 <= i < |got| ==> !HasSeparator(got[i]))
      && (key != json && key != legacy ==> got == [])
  {
    var jt, lt := Trailer(json, j.ofText(path)), Trailer(legacy, path);
    assert Printable(jt) && (HasSeparator(j.ofText(path)) <==> HasSeparator(path));
    assert OneLine(path) ==> Printable(lt);
    hide Lawful, Tight, HasSeparator, Got, ReadBack, Printable;
    ReadBackIs(jt);
    GotOne(jt, key);
    if OneLine(path) {
      ReadBackIs(lt);
      GotOne(lt, key);
      hide OneLine;
      GotConcat([jt], [lt], key);
    } else {
      assert PathTrailers(j, json, legacy, path) == [jt];
    }
  }

  function ValuesAt(trailers: seq<Trailer>, key: Key): seq<string> {
    if trailers == [] then [] else (if trailers[0].key == key then [trailers[0].value] else []) + ValuesAt(trailers[1..], key)
  }

  ghost predicate AllPlain(trailers: seq<Trailer>) {
    forall i :: 0 <= i < |trailers| ==> Plain(trailers[i].value) && trailers[i].key != PathLegacy && trailers[i].key != FromLegacy
  }

  lemma PlainIsReadBack(t: Trailer)
    requires Plain(t.value) && t.key != PathLegacy && t.key != FromLegacy
    ensures Printable(t) && ReadBack(t) == Some((Text(t.key), t.value))
  {
    assert Printable(t) && !HasSeparator(t.value);
    hide Plain, Tight, ReadBack;
    ReadBackIs(t);
  }

  lemma PlainFirst(trailers: seq<Trailer>)
    requires AllPlain(trailers) && trailers != []
    ensures AllPlain(trailers[1..]) && AllPlain([trailers[0]])
    ensures Plain(trailers[0].value) && trailers[0].key != PathLegacy && trailers[0].key != FromLegacy
  {
    hide Plain;
  }

  /** Plain values are read back as they were printed. */
  lemma {:induction false} GotPlain(trailers: seq<Trailer>, key: Key)
    requires AllPlain(trailers)
    ensures Got(trailers, key) == ValuesAt(trailers, key)
  {
    if trailers != [] {
      var t, rest := trailers[0], trailers[1..];
      PlainFirst(trailers);
      PlainIsReadBack(t);
      hide Got, Out, AllOf, Plain, ReadBack, Text, AllPlain, Printable;
      GotPlain(rest, key);
      GotOne(t, key);
      assert [t] + rest == trailers;
      GotConcat([t], rest, key);
    } else {
      assert trailers == [];
    }
  }

  ghost predicate DistinctKeys(trailers: seq<Trailer>) {
    forall i, k :: 0 <= i < k < |trailers| ==> trailers[i].key != trailers[k].key
  }

  lemma {:induction false} ValueOfDistinct(trailers: seq<Trailer>, key: Key)
    requires DistinctKeys(trailers)
    ensures (forall i :: 0 <= i < |trailers| ==> trailers[i].key != key) ==> ValuesAt(trailers, key) == []
    ensures forall i :: 0 <= i < |trailers| && trailers[i].key == key ==> ValuesAt(trailers, key) == [trailers[i].value]
  {
    if trailers != [] {
      ValueOfDistinct(trailers[1..], key);
      if trailers[0].key == key {
        assert forall i :: 0 <= i < |trailers[1..]| ==> trailers[1..][i] == trailers[i + 1];
      }
    }
  }

  lemma GotFields(e: Entry, key: Key)
    requires PlainFields(e)
    ensures forall i :: 0 <= i < |FieldTrailers(e)| && FieldTrailers(e)[i].key == key ==>
      Got(FieldTrailers(e), key) == [FieldTrailers(e)[i].value]
    ensures key in {PathJson, PathLegacy, FromJson, FromLegacy, Contributor} ==> Got(FieldTrailers(e), key) == []
  {
    hide Plain, Got;
    assert AllPlain(FieldTrailers(e)) && DistinctKeys(FieldTrailers(e));
    GotPlain(FieldTrailers(e), key);
    ValueOfDistinct(FieldTrailers(e), key);
    hide ValuesAt;
  }

  /** The contributors whose JSON holds no separator. */
  function Readable(actors: seq<Actor>): (readable: seq<Actor>)
    ensures |readable| <= |actors|
  {
    if actors == [] then [] else (if ActorHasSeparator(actors[0]) then [] else [actors[0]]) + Readable(actors[1..])
  }

  lemma {:induction false} ReadableIsAll(actors: seq<Actor>)
    ensures Readable(actors) == actors <==> forall i :: 0 <= i < |actors| ==> !ActorHasSeparator(actors[i])
  {
    hide ActorHasSeparator;
    if actors != [] {
      ReadableIsAll(actors[1..]);
      assert actors == [actors[0]] + actors[1..];
    }
  }

  lemma GotActor(j: Json, a: Actor, key: Key)
    requires Lawful(j)
    ensures Got([Trailer(Contributor, j.ofActor(a))], key) ==
      if key == Contributor && !ActorHasSeparator(a) then [j.ofActor(a)] else []
  {
    var t := Trailer(Contributor, j.ofActor(a));
    assert Printable(t) && (HasSeparator(j.ofActor(a)) <==> ActorHasSeparator(a));
    hide Lawful, Tight, HasSeparator, ActorHasSeparator, ReadBack, Printable, Got;
    ReadBackIs(t);
    GotOne(t, key);
  }

  lemma ContributorsOfRest(j: Json, actors: seq<Actor>)
    requires actors != []
    ensures ContributorTrailers(j, actors) == [Trailer(Contributor, j.ofActor(actors[0]))] + ContributorTrailers(j, actors[1..])
  {
  }

  lemma ReadOneMore(j: Json, a: Actor, more: seq<string>)
    requires Lawful(j)
    ensures ReadActors(j, [j.ofActor(a)] + more) == [a] + ReadActors(j, more)
  {
    assert j.toActor(j.ofActor(a)) == Some(a);
    assert ([j.ofActor(a)] + more)[1..] == more;
  }

  lemma {:induction false} GotContributors(j: Json, actors: seq<Actor>, key: Key)
    requires Lawful(j)
    ensures key != Contributor ==> Got(ContributorTrailers(j, actors), key) == []
    ensures ReadActors(j, Got(ContributorTrailers(j, actors), Contributor)) == Readable(actors)
  {
    if actors == [] {
      assert ContributorTrailers(j, actors) == [];
    } else {
      hide Lawful, Got, ActorHasSeparator, ContributorTrailers, ReadActors;
      var t, rest := Trailer(Contributor, j.ofActor(actors[0])), ContributorTrailers(j, actors[1..]);
      GotContributors(j, actors[1..], key);
      GotActor(j, actors[0], key);
      GotActor(j, actors[0], Contributor);
      ContributorsOfRest(j, actors);
      GotConcat([t], rest, key);
      GotConcat([t], rest, Contributor);
      var more := Got(rest, Contributor);
      ReadOneMore(j, actors[0], more);
      assert ActorHasSeparator(actors[0]) ==> [] + more == more;
    }
  }

  function FromTrailers(j: Json, e: Entry): seq<Trailer> {
    if e.from.Some? then PathTrailers(j, FromJson, FromLegacy, e.from.value) else []
  }

  lemma GotAll(j: Json, e: Entry, key: Key)
    ensures Got(Trailers(j, e), key) ==
      Got(PathTrailers(j, PathJson, PathLegacy, e.path), key) + Got(FromTrailers(j, e), key)
      + Got(FieldTrailers(e), key) + Got(ContributorTrailers(j, e.contributors), key)
  {
    var path, from := PathTrailers(j, PathJson, PathLegacy, e.path), FromTrailers(j, e);
    var fields, actors := FieldTrailers(e), ContributorTrailers(j, e.contributors);
    assert Trailers(j, e) == path + from + fields + actors;
    hide Got, PathTrailers, FieldTrailers, ContributorTrailers, FromTrailers, Trailers;
    GotConcat(path + from + fields, actors, key);
    GotConcat(path + from, fields, key);
    GotConcat(path, from, key);
  }

  lemma GotFrom(j: Json, e: Entry, key: Key)
    requires Lawful(j)
    ensures e.from.None? || (key != FromJson && key != FromLegacy) ==> Got(FromTrailers(j, e), key) == []
    ensures e.from.Some? && key == FromJson ==>
      Got(FromTrailers(j, e), key) == if HasSeparator(e.from.value) then [] else [j.ofText(e.from.value)]
    ensures e.from.Some? && key == FromLegacy ==>
      var got := Got(FromTrailers(j, e), key);
      |got| <= 1 && forall i :: 0 <= i < |got| ==> !HasSeparator(got[i])
  {
    if e.from.Some? {
      hide Got, PathTrailers, HasSeparator, Lawful;
      GotPath(j, FromJson, FromLegacy, e.from.value, key);
    }
  }

  lemma GotPathKeys(j: Json, e: Entry)
    requires Lawful(j) && PlainFields(e)
    ensures Got(Trailers(j, e), PathJson) == if HasSeparator(e.path) then [] else [j.ofText(e.path)]
    ensures var got := Got(Trailers(j, e), PathLegacy);
      |got| <= 1 && forall i :: 0 <= i < |got| ==> !HasSeparator(got[i])
  {
    hide Got, Lawful, PlainFields, HasSeparator, Trailers, PathTrailers, FromTrailers, FieldTrailers, ContributorTrailers;
    forall key | key == PathJson || key == PathLegacy
      ensures Got(Trailers(j, e), key) == Got(PathTrailers(j, PathJson, PathLegacy, e.path), key)
    {
      GotAll(j, e, key);
      GotFrom(j, e, key);
      GotFields(e, key);
      GotContributors(j, e.contributors, key);
    }
    GotPath(j, PathJson, PathLegacy, e.path, PathJson);
    GotPath(j, PathJson, PathLegacy, e.path, PathLegacy);
  }

  lemma GotFromKeys(j: Json, e: Entry, key: Key)
    requires Lawful(j) && PlainFields(e) && (key == FromJson || key == FromLegacy)
    ensures Got(Trailers(j, e), key) == Got(FromTrailers(j, e), key)
  {
    hide Got, Lawful, PlainFields, HasSeparator, Trailers, PathTrailers, FromTrailers, FieldTrailers, ContributorTrailers;
    GotAll(j, e, key);
    GotPath(j, PathJson, PathLegacy, e.path, key);
    GotFields(e, key);
    GotContributors(j, e.contributors, key);
  }

  lemma GotField(j: Json, e: Entry, i: nat)
    requires Lawful(j) && PlainFields(e) && i < |FieldTrailers(e)|
    ensures Got(Trailers(j, e), FieldTrailers(e)[i].key) == [FieldTrailers(e)[i].value]
  {
    var key := FieldTrailers(e)[i].key;
    assert key !in {PathJson, PathLegacy, FromJson, FromLegacy, Contributor};
    hide Got, Lawful, PlainFields, HasSeparator, Trailers, PathTrailers, FromTrailers, FieldTrailers, ContributorTrailers;
    GotAll(j, e, key);
    GotPath(j, PathJson, PathLegacy, e.path, key);
    GotFrom(j, e, key);
    GotFields(e, key);
    GotContributors(j, e.contributors, key);
  }

  lemma GotContributorKey(j: Json, e: Entry)
    requires Lawful(j) && PlainFields(e)
    ensures ReadActors(j, Got(Trailers(j, e), Contributor)) == Readable(e.contributors)
  {
    hide Got, Lawful, PlainFields, HasSeparator, Trailers, PathTrailers, FromTrailers, FieldTrailers, ContributorTrailers, ReadActors;
    GotAll(j, e, Contributor);
    GotPath(j, PathJson, PathLegacy, e.path, Contributor);
    GotFrom(j, e, Contributor);
    GotFields(e, Contributor);
    GotContributors(j, e.contributors, Contributor);
    var last := Got(ContributorTrailers(j, e.contributors), Contributor);
    assert Got(Trailers(j, e), Contributor) == last;
  }

  /** Whatever is found instead of a path with a separator is another path. */
  lemma PathIsRead(j: Json, values: seq<(string, string)>, json: Key, legacy: Key, path: string)
    requires Lawful(j)
    requires AllOf(values, Text(json)) == if HasSeparator(path) then [] else [j.ofText(path)]
    requires var got := AllOf(values, Text(legacy)); |got| <= 1 && forall i :: 0 <= i < |got| ==> !HasSeparator(got[i])
    ensures CommitPathValue(j, values, json, legacy) == Found(path) <==> !HasSeparator(path)
  {
    assert j.toText(j.ofText(path)) == Some(path);
    hide Lawful, HasSeparator, AllOf, Text;
  }

  /** What the printed trailers are read back as. Every field but the paths and the contributors is read back
      for all entries; these are read back exactly when no U+2028 or U+2029 occurs in them. */
  lemma TrailersAreRead(j: Json, e: Entry)
    requires Lawful(j) && PlainFields(e)
    ensures var values := Out(Trailers(j, e));
      && (forall i :: 0 <= i < |FieldTrailers(e)| ==>
            FirstOf(values, Text(FieldTrailers(e)[i].key)) == Some(FieldTrailers(e)[i].value))
      && (CommitPathValue(j, values, PathJson, PathLegacy) == Found(e.path) <==> !HasSeparator(e.path))
      && (e.from.None? ==> CommitPathValue(j, values, FromJson, FromLegacy) == Absent)
      && (e.from.Some? ==>
            (CommitPathValue(j, values, FromJson, FromLegacy) == Found(e.from.value) <==> !HasSeparator(e.from.value)))
      && ((ReadActors(j, AllOf(values, Text(Contributor))) == e.contributors)
          <==> forall i :: 0 <= i < |e.contributors| ==> !ActorHasSeparator(e.contributors[i]))
  {
    GotPathKeys(j, e);
    GotFromKeys(j, e, FromJson);
    GotFromKeys(j, e, FromLegacy);
    GotFrom(j, e, FromJson);
    GotFrom(j, e, FromLegacy);
    GotContributorKey(j, e);
    ReadableIsAll(e.contributors);
    var values := Out(Trailers(j, e));
    forall i | 0 <= i < |FieldTrailers(e)|
      ensures AllOf(values, Text(FieldTrailers(e)[i].key)) == [FieldTrailers(e)[i].value]
    {
      GotField(j, e, i);
    }
    hide Lawful, PlainFields, Out, Trailers, FromTrailers, Text, ReadActors, Readable, HasSeparator, ActorHasSeparator;
    hide FieldTrailers, AllOf;
    PathIsRead(j, values, PathJson, PathLegacy, e.path);
    if e.from.Some? {
      PathIsRead(j, values, FromJson, FromLegacy, e.from.value);
    }
  }
}
