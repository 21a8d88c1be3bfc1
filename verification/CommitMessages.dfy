/** The text of a history commit: printed, cleaned by git, cut out of the log, and read back.

    Git cleans the message that it is given: white space at the ends of its lines goes, and so do empty lines but
    for a single one between two others. The reader splits the log at U+001E, trims what it gets, and splits the
    rest into lines.

    The proof follows the text through these functions one by one. */
module CommitMessages {
  import opened Wrappers
  import opened CommitTrailers
  import History = NoteHistory
  import VaultPaths

  // ---------------------------------------------------------------------------
  // Text and lines
  // ---------------------------------------------------------------------------

  /** Every line with its line break. */
  function Unlines(lines: seq<string>): string {
    if lines == [] then "" else lines[0] + "\n" + Unlines(lines[1..])
  }

  /** `split("\n")` */
  function SplitLines(text: string): (lines: seq<string>)
    ensures lines != []
  {
    if text == "" then [""]
    else
      var rest := SplitLines(text[1..]);
      if text[0] == '\n' then [""] + rest else [[text[0]] + rest[0]] + rest[1..]
  }

  predicate SingleLines(lines: seq<string>) { forall i :: 0 <= i < |lines| ==> '\n' !in lines[i] }

  lemma {:induction false} SplitOneLine(line: string)
    requires '\n' !in line
    ensures SplitLines(line) == [line]
  {
    if line != "" {
      SplitOneLine(line[1..]);
      assert [line[0]] + line[1..] == line;
    }
  }

  lemma {:induction false} SplitAtBreak(line: string, rest: string)
    requires '\n' !in line
    ensures SplitLines(line + "\n" + rest) == [line] + SplitLines(rest)
  {
    var text := line + "\n" + rest;
    if line == "" {
      assert text[1..] == rest;
    } else {
      SplitAtBreak(line[1..], rest);
      assert text[1..] == line[1..] + "\n" + rest;
      assert [line[0]] + line[1..] == line;
    }
  }

  lemma {:induction false} SplitUnlines(lines: seq<string>, tail: string)
    requires SingleLines(lines) && '\n' !in tail
    ensures SplitLines(Unlines(lines) + tail) == lines + [tail]
  {
    if lines == [] {
      SplitOneLine(tail);
      assert Unlines(lines) + tail == tail;
    } else {
      SplitUnlines(lines[1..], tail);
      hide SplitLines;
      assert Unlines(lines) + tail == lines[0] + "\n" + (Unlines(lines[1..]) + tail);
      SplitAtBreak(lines[0], Unlines(lines[1..]) + tail);
      assert lines == [lines[0]] + lines[1..];
    }
  }

  lemma {:induction false} UnlinesConcat(front: seq<string>, back: seq<string>)
    ensures Unlines(front + back) == Unlines(front) + Unlines(back)
  {
    if front == [] {
      assert front + back == back;
    } else {
      UnlinesConcat(front[1..], back);
      assert (front + back)[1..] == front[1..] + back;
    }
  }

  lemma {:induction false} CharInUnlines(lines: seq<string>, c: char)
    requires c != '\n'
    ensures c in Unlines(lines) <==> exists i :: 0 <= i < |lines| && c in lines[i]
  {
    if lines != [] {
      CharInUnlines(lines[1..], c);
      assert forall i :: 0 < i < |lines| ==> lines[i] == lines[1..][i - 1];
      if c in lines[0] {
        assert c in Unlines(lines);
      } else if c in Unlines(lines[1..]) {
        var i :| 0 <= i < |lines[1..]| && c in lines[1..][i];
        assert c in lines[i + 1];
      }
    }
  }

  // ---------------------------------------------------------------------------
  // Git's cleaning
  // ---------------------------------------------------------------------------

  function DropEmpty(lines: seq<string>): (rest: seq<string>)
    ensures |rest| <= |lines| && (rest != [] ==> rest[0] != "")
  {
    if lines != [] && lines[0] == "" then DropEmpty(lines[1..]) else lines
  }

  /** Without empty lines, but for one between two others. */
  function Squeeze(lines: seq<string>): seq<string>
    decreases |lines|
  {
    var rest := DropEmpty(lines);
    if rest == [] then []
    else [rest[0]] + (if |rest| > 1 && rest[1] == "" && DropEmpty(rest[1..]) != [] then [""] else []) + Squeeze(rest[1..])
  }

  /** The text that git stores for a message. */
  function Stored(message: string): string { Unlines(Squeeze(CleanedAll(SplitLines(message)))) }

  /** Already as git would have it. */
  predicate Settled(lines: seq<string>) {
    lines != [] ==>
      lines[0] != "" && lines[|lines| - 1] != "" && forall i :: 0 < i < |lines| ==> lines[i - 1] != "" || lines[i] != ""
  }

  lemma SqueezeStep(line: string, rest: seq<string>)
    requires line != ""
    ensures Squeeze([line] + rest) ==
      [line] + (if rest != [] && rest[0] == "" && DropEmpty(rest) != [] then [""] else []) + Squeeze(rest)
    ensures Squeeze([""] + rest) == Squeeze(rest)
  {
    assert ([line] + rest)[1..] == rest && ([""] + rest)[1..] == rest;
  }

  lemma SettledRest(lines: seq<string>)
    requires Settled(lines) && |lines| > 1
    ensures lines[0] != ""
    ensures lines[1] != "" ==> Settled(lines[1..])
    ensures lines[1] == "" ==> |lines| > 2 && lines[2] != "" && Settled(lines[2..])
  {
  }

  lemma {:induction false} SqueezeKeeps(lines: seq<string>)
    requires Settled(lines)
    ensures Squeeze(lines + [""]) == lines
    decreases |lines|
  {
    if lines == [] {
      assert DropEmpty([""]) == [] && lines + [""] == [""];
    } else if |lines| == 1 {
      assert lines + [""] == [lines[0]] + [""];
      SqueezeStep(lines[0], [""]);
      assert DropEmpty([""]) == [] && Squeeze([""]) == [];
    } else {
      hide Squeeze, Settled, DropEmpty;
      SettledRest(lines);
      if lines[1] == "" {
        var more := lines[2..] + [""];
        SqueezeKeeps(lines[2..]);
        SqueezeGap(lines[0], more);
        assert lines + [""] == [lines[0]] + ([""] + more);
        assert lines == [lines[0]] + [""] + lines[2..];
      } else {
        SqueezeKeeps(lines[1..]);
        SqueezeStep(lines[0], lines[1..] + [""]);
        assert lines + [""] == [lines[0]] + (lines[1..] + [""]);
        assert lines == [lines[0]] + lines[1..];
      }
    }
  }

  lemma SqueezeGap(line: string, more: seq<string>)
    requires line != "" && more != [] && more[0] != ""
    ensures Squeeze([line] + ([""] + more)) == [line] + [""] + Squeeze(more)
  {
    var rest := [""] + more;
    assert rest[1..] == more && DropEmpty(rest) == more;
    SqueezeStep(line, rest);
    SqueezeStep(line, more);
    hide Squeeze, DropEmpty;
  }

  // ---------------------------------------------------------------------------
  // The message as it is read
  // ---------------------------------------------------------------------------

  /** The first piece of `split` at a character. */
  function UpTo(text: string, c: char): (piece: string)
    ensures c !in piece
  {
    if text == "" || text[0] == c then "" else [text[0]] + UpTo(text[1..], c)
  }

  /** `trimEnd`; the hash of the commit stands before the message, so that its start is not trimmed. */
  function TrimEnd(text: string): (trimmed: string)
    ensures trimmed <= text
  {
    if text != "" && IsSpace(text[|text| - 1]) then TrimEnd(text[..|text| - 1]) else text
  }

  function MessageText(j: Json, e: Entry): string { Unlines(CommitMessage(j, e)) }

  /** What is read from the log for a message. */
  function ReadMessage(message: string): seq<(string, string)> {
    Values(SplitLines(TrimEnd(UpTo(Stored(message), RECORD_END))))
  }

  lemma {:induction false} UpToAll(text: string, c: char)
    requires c !in text
    ensures UpTo(text, c) == text
  {
    if text != "" {
      UpToAll(text[1..], c);
    }
  }

  lemma {:induction false} UpToFront(front: string, back: string, c: char)
    requires c in front
    ensures UpTo(front + back, c) <= front
  {
    if front[0] != c {
      assert (front + back)[1..] == front[1..] + back;
      UpToFront(front[1..], back, c);
    }
  }

  lemma LastLine(lines: seq<string>)
    requires lines != []
    ensures Unlines(lines) == Unlines(lines[..|lines| - 1]) + lines[|lines| - 1] + "\n"
  {
    var n := |lines| - 1;
    assert lines == lines[..n] + [lines[n]];
    UnlinesConcat(lines[..n], [lines[n]]);
    OneUnline(lines[n]);
    hide Unlines;
  }

  lemma OneUnline(line: string)
    ensures Unlines([line]) == line + "\n"
  {
    assert [line][1..] == [] && line + "\n" + "" == line + "\n";
  }

  predicate EndsTight(lines: seq<string>) {
    lines != [] && var last := lines[|lines| - 1]; last != "" && !IsSpace(last[|last| - 1])
  }

  /** Trimming takes the last line break only, and splitting gives the lines back. */
  lemma TrimAndSplit(lines: seq<string>)
    requires SingleLines(lines) && EndsTight(lines)
    ensures SplitLines(TrimEnd(Unlines(lines))) == lines
  {
    var n := |lines| - 1;
    var text := Unlines(lines[..n]) + lines[n];
    LastLine(lines);
    assert text + "\n" == Unlines(lines);
    assert (text + "\n")[..|text|] == text && text[|text| - 1] == lines[n][|lines[n]| - 1];
    assert TrimEnd(text + "\n") == text;
    assert SingleLines(lines[..n]);
    hide SplitLines, TrimEnd, Unlines;
    SplitUnlines(lines[..n], lines[n]);
    assert lines[..n] + [lines[n]] == lines;
  }

  lemma Shorter(text: string, line: string, rest: string)
    requires text <= line + "\n" + rest
    ensures text <= line || (line + "\n" <= text && text == line + "\n" + text[|line| + 1..] && text[|line| + 1..] <= rest)
  {
    if |text| <= |line| {
      assert text == (line + "\n" + rest)[..|text|] == line[..|text|];
    } else {
      assert text[..|line| + 1] == line + "\n";
      assert text[|line| + 1..] == (line + "\n" + rest)[|line| + 1..][..|text| - |line| - 1];
    }
  }

  predicate Quiet(lines: seq<string>) { forall i :: 0 <= i < |lines| ==> NoTrailer(lines[i]) }

  /** The lines of a front of a text are fronts of its lines: no trailer comes out of none. */
  lemma {:induction false} FrontIsQuiet(lines: seq<string>, text: string)
    requires SingleLines(lines) && Quiet(lines) && text <= Unlines(lines)
    ensures Quiet(SplitLines(text))
  {
    if lines == [] {
      SplitOneLine(text);
    } else {
      hide SplitLines;
      Shorter(text, lines[0], Unlines(lines[1..]));
      if text <= lines[0] {
        SplitOneLine(text);
      } else {
        FrontIsQuiet(lines[1..], text[|lines[0]| + 1..]);
        SplitAtBreak(lines[0], text[|lines[0]| + 1..]);
      }
    }
  }

  lemma {:induction false} QuietReadsNothing(lines: seq<string>)
    requires Quiet(lines)
    ensures Values(lines) == []
  {
    hide StripCr, SkipSpace;
    if lines != [] {
      QuietReadsNothing(lines[1..]);
      assert StripCr(lines[0]) <= lines[0] by { StripCrIsFront(lines[0]); }
      assert NoTrailer(lines[0]);
    }
  }

  lemma StripCrIsFront(line: string)
    ensures StripCr(line) <= line
  {
  }

  // ---------------------------------------------------------------------------
  // Printed messages
  // ---------------------------------------------------------------------------

  /** A path or a label that is shown before the trailers holds U+001E, where the reader ends the record. A path
      with a line break is shown as JSON, which escapes it. */
  predicate CutShort(e: Entry) {
    (OneLine(e.path) && RECORD_END in e.path)
    || (e.from.Some? && OneLine(e.from.value) && RECORD_END in e.from.value)
    || exists i :: 0 <= i < |e.contributors| && RECORD_END in ActorLabel(e.contributors[i])
  }

  lemma {:induction false} CleanedKeepsChars(line: string, c: char)
    requires c !in {' ', '\t', '\n', '\r'}
    ensures c in Cleaned(line) <==> c in line
  {
    if Cleaned(line) != line {
      CleanedKeepsChars(line[..|line| - 1], c);
      assert line == line[..|line| - 1] + [line[|line| - 1]];
    }
  }

  lemma CleanedIsSingle(lines: seq<string>)
    requires SingleLines(lines)
    ensures SingleLines(CleanedAll(lines))
  {
    forall i | 0 <= i < |lines|
      ensures '\n' !in CleanedAll(lines)[i]
    {
      CleanedIsFront(lines[i]);
    }
  }

  lemma CleanedIsQuiet(lines: seq<string>)
    requires Quiet(lines)
    ensures Quiet(CleanedAll(lines))
  {
    forall i | 0 <= i < |lines|
      ensures NoTrailer(CleanedAll(lines)[i])
    {
      CleanedIsFront(lines[i]);
    }
  }

  lemma ShownIsCut(j: Json, path: string)
    requires Lawful(j)
    ensures RECORD_END in Display(j, path) <==> OneLine(path) && RECORD_END in path
  {
  }

  predicate AnyCut(lines: seq<string>) { exists i :: 0 <= i < |lines| && RECORD_END in lines[i] }

  lemma AnyCutConcat(front: seq<string>, back: seq<string>)
    ensures AnyCut(front + back) <==> AnyCut(front) || AnyCut(back)
  {
    var all := front + back;
    forall i | 0 <= i < |front|
      ensures all[i] == front[i]
    {
    }
    forall i | 0 <= i < |back|
      ensures all[|front| + i] == back[i]
    {
    }
  }

  lemma FieldIsNotCut(field: string)
    requires Plain(field)
    ensures RECORD_END !in field
  {
  }

  lemma PreambleIsCut(j: Json, e: Entry)
    requires Lawful(j) && PlainFields(e)
    ensures AnyCut(Preamble(j, e)) <==> CutShort(e)
  {
    ShownIsCut(j, e.path);
    if e.from.Some? {
      ShownIsCut(j, e.from.value);
    }
    FieldIsNotCut(e.operation);
    FieldIsNotCut(e.bucketStart);
    FieldIsNotCut(e.bucketEnd);
    hide Lawful, PlainFields, Display, OneLine, ActorLabel;
    var first := ["KB-1 history: " + e.operation + " " + Display(j, e.path), "", "Path: " + Display(j, e.path)];
    var from := if e.from.Some? then ["From: " + Display(j, e.from.value)] else [];
    var rest := ["Bucket: " + e.bucketStart + " - " + e.bucketEnd, "", "Contributors:"];
    var labels := Labels(e.contributors);
    assert Preamble(j, e) == first + from + rest + labels + [""];
    AnyCutConcat(first + from + rest + labels, [""]);
    AnyCutConcat(first + from + rest, labels);
    AnyCutConcat(first + from, rest);
    AnyCutConcat(first, from);
    assert AnyCut(first) <==> RECORD_END in Display(j, e.path) by {
      assert RECORD_END in Display(j, e.path) ==> RECORD_END in first[2];
    }
    assert AnyCut(from) <==> e.from.Some? && RECORD_END in Display(j, e.from.value) by {
      assert e.from.Some? && RECORD_END in Display(j, e.from.value) ==> RECORD_END in from[0];
    }
    assert !AnyCut(rest) && !AnyCut([""]);
    forall i | 0 <= i < |labels|
      ensures RECORD_END in labels[i] <==> RECORD_END in ActorLabel(e.contributors[i])
    {
    }
  }

  lemma TrailersAreNotCut(trailers: seq<Trailer>)
    requires forall i :: 0 <= i < |trailers| ==> RECORD_END !in trailers[i].value
    ensures !AnyCut(TrailerLines(trailers))
  {
    forall i | 0 <= i < |trailers|
      ensures RECORD_END !in TrailerLines(trailers)[i]
    {
      KeyIsNotCut(trailers[i].key);
    }
  }

  lemma KeyIsNotCut(key: Key)
    ensures RECORD_END !in Text(key)
  {
    KeyTextIsKey(key);
  }

  /** Only a legacy path could, and it is shown before the trailers. */
  lemma MessageIsCut(j: Json, e: Entry)
    requires Lawful(j) && PlainFields(e)
    ensures AnyCut(CommitMessage(j, e)) <==> CutShort(e)
  {
    PreambleIsCut(j, e);
    AnyCutConcat(Preamble(j, e), TrailerLines(Trailers(j, e)));
    if !CutShort(e) {
      forall t | t in Trailers(j, e)
        ensures RECORD_END !in t.value
      {
        ValueIsNotCut(j, e, t);
      }
      TrailersAreNotCut(Trailers(j, e));
    }
  }

  lemma ValueIsNotCut(j: Json, e: Entry, t: Trailer)
    requires Lawful(j) && PlainFields(e) && !CutShort(e) && t in Trailers(j, e)
    ensures RECORD_END !in t.value
  {
    hide Tight, HasSeparator, ActorLabel;
    if t in PathTrailers(j, PathJson, PathLegacy, e.path) {
    } else if e.from.Some? && t in PathTrailers(j, FromJson, FromLegacy, e.from.value) {
    } else if t in FieldTrailers(e) {
    } else {
      assert t in ContributorTrailers(j, e.contributors);
    }
  }

  lemma CleanedIsCut(lines: seq<string>)
    ensures AnyCut(CleanedAll(lines)) <==> AnyCut(lines)
  {
    forall i | 0 <= i < |lines|
      ensures RECORD_END in Cleaned(lines[i]) <==> RECORD_END in lines[i]
    {
      CleanedKeepsChars(lines[i], RECORD_END);
    }
    assert AnyCut(lines) ==> AnyCut(CleanedAll(lines)) by {
      if AnyCut(lines) {
        var i :| 0 <= i < |lines| && RECORD_END in lines[i];
        assert RECORD_END in CleanedAll(lines)[i];
      }
    }
  }

  /** Git does not empty these lines. */
  predicate Kept(lines: seq<string>) { lines != [] && forall i :: 0 <= i < |lines| ==> Cleaned(lines[i]) != "" }

  lemma CleanedKeepsWord(line: string)
    requires line != "" && line[0] !in {' ', '\t', '\n', '\r'}
    ensures Cleaned(line) != ""
  {
    CleanedKeepsChars(line, line[0]);
  }

  lemma KeptIsSettled(lines: seq<string>)
    requires Kept(lines)
    ensures Settled(CleanedAll(lines)) && CleanedAll(lines) != []
  {
  }

  lemma SettledBlocks(front: seq<string>, back: seq<string>)
    requires Settled(CleanedAll(front)) && Settled(CleanedAll(back)) && front != [] && back != []
    ensures Settled(CleanedAll(front + [""] + back))
  {
    CleanedConcat(front + [""], back);
    CleanedConcat(front, [""]);
    var a, b := CleanedAll(front), CleanedAll(back);
    var all := a + [""] + b;
    assert CleanedAll([""]) == [""];
    assert CleanedAll(front + [""] + back) == all;
    hide CleanedAll;
    assert all[|all| - 1] == b[|b| - 1] && all[0] == a[0];
    forall i | 0 < i < |all|
      ensures all[i - 1] != "" || all[i] != ""
    {
      if i < |a| {
        assert all[i] == a[i] && all[i - 1] == a[i - 1];
      } else if i == |a| {
        assert all[i - 1] == a[i - 1];
      } else if i == |a| + 1 {
        assert all[i] == b[0];
      } else {
        assert all[i] == b[i - |a| - 1] && all[i - 1] == b[i - |a| - 2];
      }
    }
  }

  function Subject(j: Json, e: Entry): seq<string> { ["KB-1 history: " + e.operation + " " + Display(j, e.path)] }

  function Shown(j: Json, e: Entry): seq<string> {
    ["Path: " + Display(j, e.path)] + (if e.from.Some? then ["From: " + Display(j, e.from.value)] else [])
    + ["Bucket: " + e.bucketStart + " - " + e.bucketEnd]
  }

  function Named(e: Entry): seq<string> { ["Contributors:"] + Labels(e.contributors) }

  lemma BlocksAreKept(j: Json, e: Entry)
    ensures Kept(Subject(j, e)) && Kept(Shown(j, e)) && Kept(Named(e))
  {
    hide Display, ActorLabel;
    forall line | line in Subject(j, e) + Shown(j, e) + Named(e)
      ensures Cleaned(line) != ""
    {
      CleanedKeepsWord(line);
    }
    KeptParts(Subject(j, e), Shown(j, e), Named(e));
  }

  /** The blocks of a message, between which stand empty lines. */
  lemma MessageBlocks(j: Json, e: Entry)
    ensures Preamble(j, e) == Subject(j, e) + [""] + Shown(j, e) + [""] + Named(e) + [""]
  {
    hide Display, Labels;
  }

  lemma KeptParts(a: seq<string>, b: seq<string>, c: seq<string>)
    requires a != [] && b != [] && c != [] && forall line :: line in a + b + c ==> Cleaned(line) != ""
    ensures Kept(a) && Kept(b) && Kept(c)
  {
    hide Cleaned;
    assert forall line :: line in a || line in b || line in c ==> line in a + b + c;
  }

  lemma TrailersAreKept(j: Json, e: Entry)
    ensures Kept(TrailerLines(Trailers(j, e)))
  {
    var trailers := Trailers(j, e);
    assert trailers != [];
    hide Trailers, Cleaned, TrailerLine;
    forall i | 0 <= i < |trailers|
      ensures Cleaned(TrailerLines(trailers)[i]) != ""
    {
      TrailerIsKept(trailers[i]);
    }
  }

  lemma TrailerIsKept(t: Trailer)
    ensures Cleaned(TrailerLine(t)) != ""
  {
    KeyTextIsKey(t.key);
    hide Text, Cleaned;
    CleanedKeepsWord(TrailerLine(t));
  }

  /** Git's cleaning of the printed message drops and joins no line. */
  lemma MessageIsSettled(j: Json, e: Entry)
    ensures Settled(CleanedAll(CommitMessage(j, e)))
  {
    MessageBlocks(j, e);
    BlocksAreKept(j, e);
    TrailersAreKept(j, e);
    hide CleanedAll, Kept, Settled, Trailers, TrailerLines, Preamble, Subject, Shown, Named;
    var subject, shown, labels := Subject(j, e), Shown(j, e), Named(e);
    var trailers := TrailerLines(Trailers(j, e));
    KeptIsSettled(subject);
    KeptIsSettled(shown);
    KeptIsSettled(labels);
    KeptIsSettled(trailers);
    KeptIsSome(subject);
    KeptIsSome(shown);
    KeptIsSome(labels);
    KeptIsSome(trailers);
    SettledBlocks(subject, shown);
    SettledBlocks(subject + [""] + shown, labels);
    SettledBlocks(subject + [""] + shown + [""] + labels, trailers);
  }

  lemma KeptIsSome(lines: seq<string>)
    requires Kept(lines)
    ensures lines != []
  {
  }

  lemma LastTrailer(j: Json, e: Entry)
    requires Lawful(j) && PlainFields(e)
    ensures var trailers := Trailers(j, e); trailers != [] && var t := trailers[|trailers| - 1]; t.value == "" || Tight(t.value)
  {
    hide Tight, OneLine, HasSeparator;
    var trailers := Trailers(j, e);
    if e.contributors != [] {
      assert trailers[|trailers| - 1] == ContributorTrailers(j, e.contributors)[|e.contributors| - 1];
    } else {
      assert trailers[|trailers| - 1] == FieldTrailers(e)[|FieldTrailers(e)| - 1];
    }
  }

  lemma TrailerEndsTight(t: Trailer)
    requires t.value == "" || Tight(t.value)
    ensures var line := Cleaned(TrailerLine(t)); line != "" && !IsSpace(line[|line| - 1])
  {
    hide Text;
    var line := TrailerLine(t);
    if t.value == "" {
      var front := Text(t.key) + ":";
      assert line == front + " " && (front + " ")[..|front|] == front;
      TightIsKept(front);
    } else {
      assert line[|line| - 1] == t.value[|t.value| - 1];
      TightIsKept(line);
    }
  }

  lemma LastCleaned(front: seq<string>, trailers: seq<Trailer>)
    requires trailers != []
    ensures var lines := CleanedAll(front + TrailerLines(trailers));
      lines != [] && lines[|lines| - 1] == Cleaned(TrailerLine(trailers[|trailers| - 1]))
  {
    hide Cleaned, TrailerLine;
    var last := TrailerLines(trailers)[|trailers| - 1];
    assert (front + TrailerLines(trailers))[|front| + |trailers| - 1] == last;
  }

  lemma TrailersEndTight(front: seq<string>, trailers: seq<Trailer>)
    requires trailers != [] && var t := trailers[|trailers| - 1]; t.value == "" || Tight(t.value)
    ensures EndsTight(CleanedAll(front + TrailerLines(trailers)))
  {
    hide TrailerLine, TrailerLines, Cleaned, CleanedAll, Tight, IsSpace;
    TrailerEndsTight(trailers[|trailers| - 1]);
    LastCleaned(front, trailers);
  }

  /** The last trailer ends in a character that is not white space. */
  lemma LastIsTight(j: Json, e: Entry)
    requires Lawful(j) && PlainFields(e)
    ensures EndsTight(CleanedAll(CommitMessage(j, e)))
  {
    assert CommitMessage(j, e) == Preamble(j, e) + TrailerLines(Trailers(j, e));
    hide *;
    LastTrailer(j, e);
    TrailersEndTight(Preamble(j, e), Trailers(j, e));
  }

  lemma MessageIsSingle(j: Json, e: Entry)
    requires Lawful(j) && PlainFields(e) && SingleLineLabels(e)
    ensures SingleLines(CommitMessage(j, e)) && SingleLines(CleanedAll(CommitMessage(j, e)))
  {
    LinesAreSingle(j, e);
    hide CommitMessage, Lawful, PlainFields, SingleLineLabels;
    assert SingleLines(CommitMessage(j, e));
    CleanedIsSingle(CommitMessage(j, e));
  }

  /** What git stores of a printed message: its lines, each without the white space at its end. */
  lemma StoredLines(j: Json, e: Entry)
    requires Lawful(j) && PlainFields(e) && SingleLineLabels(e)
    ensures Stored(MessageText(j, e)) == Unlines(CleanedAll(CommitMessage(j, e)))
  {
    MessageIsSingle(j, e);
    MessageIsSettled(j, e);
    hide CommitMessage, Lawful, PlainFields, SingleLineLabels;
    var lines := CommitMessage(j, e);
    SplitUnlines(lines, "");
    assert Unlines(lines) + "" == Unlines(lines);
    CleanedConcat(lines, [""]);
    assert CleanedAll([""]) == [""];
    SqueezeKeeps(CleanedAll(lines));
  }

  lemma ReadStored(message: string, stored: string)
    requires Stored(message) == stored
    ensures ReadMessage(message) == Values(SplitLines(TrimEnd(UpTo(stored, RECORD_END))))
  {
    hide Stored, Values, SplitLines, TrimEnd, UpTo;
  }

  lemma WholeMessage(j: Json, e: Entry)
    requires Lawful(j) && PlainFields(e) && SingleLineLabels(e) && !CutShort(e)
    ensures var lines := CleanedAll(CommitMessage(j, e)); SplitLines(TrimEnd(UpTo(Unlines(lines), RECORD_END))) == lines
  {
    hide *;
    var lines := CleanedAll(CommitMessage(j, e));
    MessageIsCut(j, e);
    CleanedIsCut(CommitMessage(j, e));
    CutInUnlines(lines);
    UpToAll(Unlines(lines), RECORD_END);
    LastIsTight(j, e);
    MessageIsSingle(j, e);
    TrimAndSplit(lines);
  }

  /** A message in which U+001E is shown is cut before its trailers; any other is read as its trailers. */
  lemma MessageIsRead(j: Json, e: Entry)
    requires Lawful(j) && PlainFields(e) && SingleLineLabels(e)
    ensures ReadMessage(MessageText(j, e)) == if CutShort(e) then [] else Out(Trailers(j, e))
  {
    hide *;
    StoredLines(j, e);
    ReadStored(MessageText(j, e), Unlines(CleanedAll(CommitMessage(j, e))));
    if CutShort(e) {
      CutReadsNothing(j, e);
    } else {
      WholeMessage(j, e);
      MessageValues(j, e);
    }
  }

  lemma CutInUnlines(lines: seq<string>)
    ensures RECORD_END in Unlines(lines) <==> AnyCut(lines)
  {
    CharInUnlines(lines, RECORD_END);
  }

  lemma CutReadsNothing(j: Json, e: Entry)
    requires Lawful(j) && PlainFields(e) && SingleLineLabels(e) && CutShort(e)
    ensures Values(SplitLines(TrimEnd(UpTo(Unlines(CleanedAll(CommitMessage(j, e))), RECORD_END)))) == []
  {
    var front, back := CleanedAll(Preamble(j, e)), CleanedAll(TrailerLines(Trailers(j, e)));
    CleanedConcat(Preamble(j, e), TrailerLines(Trailers(j, e)));
    UnlinesConcat(front, back);
    PreambleIsCut(j, e);
    CleanedIsCut(Preamble(j, e));
    CharInUnlines(front, RECORD_END);
    UpToFront(Unlines(front), Unlines(back), RECORD_END);
    PreambleHasNoTrailers(j, e);
    CleanedIsQuiet(Preamble(j, e));
    MessageIsSingle(j, e);
    assert SingleLines(front) by {
      forall i | 0 <= i < |front|
        ensures '\n' !in front[i]
      {
        assert front[i] == CleanedAll(CommitMessage(j, e))[i];
      }
    }
    var text := TrimEnd(UpTo(Unlines(CleanedAll(CommitMessage(j, e))), RECORD_END));
    FrontIsQuiet(front, text);
    QuietReadsNothing(SplitLines(text));
  }

  // ---------------------------------------------------------------------------
  // The guarantee
  // ---------------------------------------------------------------------------

  /** A message round trips: printed as text, cleaned by git, cut out of the log and split again. Every field but
      the paths and the contributors is read back unless the message is cut short; these are read back exactly
      when, besides, no U+2028 or U+2029 occurs in them. Line breaks in paths do no harm, and no trailer is
      taken for part of a legacy path. */
  lemma MessageRoundTrip(j: Json, e: Entry)
    requires Lawful(j) && PlainFields(e) && SingleLineLabels(e)
    ensures var values := ReadMessage(MessageText(j, e));
      && (forall i :: 0 <= i < |FieldTrailers(e)| ==>
            (FirstOf(values, Text(FieldTrailers(e)[i].key)) == Some(FieldTrailers(e)[i].value) <==> !CutShort(e)))
      && (CommitPathValue(j, values, PathJson, PathLegacy) == Found(e.path) <==> !CutShort(e) && !HasSeparator(e.path))
      && (e.from.None? ==> CommitPathValue(j, values, FromJson, FromLegacy) == Absent)
      && (e.from.Some? ==>
            (CommitPathValue(j, values, FromJson, FromLegacy) == Found(e.from.value)
             <==> !CutShort(e) && !HasSeparator(e.from.value)))
      && (ReadActors(j, AllOf(values, Text(Contributor))) == e.contributors
          <==> (CutShort(e) ==> e.contributors == [])
               && forall i :: 0 <= i < |e.contributors| ==> !ActorHasSeparator(e.contributors[i]))
  {
    MessageIsRead(j, e);
    TrailersAreRead(j, e);
    hide Lawful, PlainFields, SingleLineLabels, ReadMessage, MessageText, Out, Trailers, CutShort, FieldTrailers, Text;
    hide HasSeparator, ActorHasSeparator;
  }

  /** What the traversal is told of a path. */
  function AsTrailer(value: PathValue): History.Trailer {
    match value
    case Absent => History.Missing
    case Unreadable => History.Unreadable
    case Found(path) => History.Value(path)
  }

  /** The entry whose message is the commit's, as far as the traversal is concerned. */
  predicate Describes(e: Entry, c: History.Commit) {
    && e.path == VaultPaths.Join(c.path)
    && e.from == if c.from.Some? then Some(VaultPaths.Join(c.from.value)) else None
  }

  predicate HidesPath(e: Entry) { CutShort(e) || HasSeparator(e.path) || (e.from.Some? && HasSeparator(e.from.value)) }

  /** From the text of a commit's message the traversal takes the scope that the commit has, wherever no separator
      hides a path. */
  lemma ScopeIsReadFromMessage(j: Json, e: Entry, current: VaultPaths.Path, c: History.Commit)
    requires Lawful(j) && PlainFields(e) && SingleLineLabels(e) && Describes(e, c) && !HidesPath(e)
    requires History.Named(current) && History.Named(c.path) && (c.from.Some? ==> History.Named(c.from.value))
    ensures var values := ReadMessage(MessageText(j, e));
      History.HistoryCommitScope(VaultPaths.Join(current), c.operation,
                                 AsTrailer(CommitPathValue(j, values, PathJson, PathLegacy)),
                                 AsTrailer(CommitPathValue(j, values, FromJson, FromLegacy)))
      == History.TextOf(History.ScopeOf(current, c))
  {
    MessageRoundTrip(j, e);
    hide Lawful, PlainFields, SingleLineLabels, CutShort, HasSeparator, ReadMessage, MessageText, CommitPathValue;
    hide VaultPaths.Join, History.HistoryCommitScope, History.TextOf, History.ScopeOf, History.Named;
    History.ScopeReadsText(current, c);
  }

  // ---------------------------------------------------------------------------
  // Messages that are not read back
  // ---------------------------------------------------------------------------

  function NoteNamed(path: string): Entry { Entry(path, None, "create", "id", "start", "end", "1", "hash", None, []) }

  lemma NoteNamedIsPlain(path: string)
    ensures PlainFields(NoteNamed(path)) && SingleLineLabels(NoteNamed(path))
    ensures CutShort(NoteNamed(path)) <==> OneLine(path) && RECORD_END in path
  {
    WordsArePlain();
    hide Plain, OneLine;
  }

  lemma WordsArePlain()
    ensures Plain("create") && Plain("id") && Plain("start") && Plain("end") && Plain("1") && Plain("hash")
  {
  }

  lemma LegacyLineIsHidden(path: string)
    requires Tight(path) && OneLine(path) && HasSeparator(path)
    ensures ReadBack(Trailer(PathLegacy, path)) == None
  {
    hide Tight, OneLine, HasSeparator;
    TightTrailer(Trailer(PathLegacy, path));
  }

  /** The failing cases. A path with U+2028 is printed in two trailers of which neither is read, so that the commit
      names no path; with U+001E nothing of the message is read. */
  lemma SomePathsAreNotReadBack(j: Json)
    requires Lawful(j)
    ensures CommitPathValue(j, ReadMessage(MessageText(j, NoteNamed("a\U{2028}b.md"))), PathJson, PathLegacy) == Absent
    ensures ReadMessage(MessageText(j, NoteNamed("a\U{1E}b.md"))) == []
  {
    var hidden, cut := NoteNamed("a\U{2028}b.md"), NoteNamed("a\U{1E}b.md");
    NoteNamedIsPlain(hidden.path);
    NoteNamedIsPlain(cut.path);
    assert RECORD_END in cut.path by { assert cut.path[1] == RECORD_END; }
    assert HasSeparator(hidden.path) by { assert IsSeparator(hidden.path[1]); }
    assert Tight(hidden.path) && OneLine(hidden.path) && OneLine(cut.path) && RECORD_END !in hidden.path;
    assert hidden.from.None?;
    MessageIsRead(j, hidden);
    MessageIsRead(j, cut);
    hide *;
    LegacyIsHidden(j, hidden);
  }

  lemma LegacyIsHidden(j: Json, e: Entry)
    requires Lawful(j) && PlainFields(e) && Tight(e.path) && OneLine(e.path) && HasSeparator(e.path)
    requires e.from.None?
    ensures CommitPathValue(j, Out(Trailers(j, e)), PathJson, PathLegacy) == Absent
  {
    LegacyLineIsHidden(e.path);
    GotPathKeys(j, e);
    GotAll(j, e, PathLegacy);
    GotFrom(j, e, PathLegacy);
    GotFields(e, PathLegacy);
    GotContributors(j, e.contributors, PathLegacy);
    GotHidden(j, e.path);
    hide Lawful, PlainFields, Tight, OneLine, HasSeparator, Out, Trailers, PathTrailers, FieldTrailers, ContributorTrailers;
    hide FromTrailers, Text, AllOf;
  }

  lemma GotHidden(j: Json, path: string)
    requires Lawful(j) && Tight(path) && OneLine(path) && HasSeparator(path)
    ensures Got(PathTrailers(j, PathJson, PathLegacy, path), PathLegacy) == []
  {
    var jt, lt := Trailer(PathJson, j.ofText(path)), Trailer(PathLegacy, path);
    assert Printable(jt) && Printable(lt);
    LegacyLineIsHidden(path);
    hide Lawful, Tight, HasSeparator, Got, ReadBack, Printable, OneLine;
    GotOne(jt, PathLegacy);
    GotOne(lt, PathLegacy);
    GotConcat([jt], [lt], PathLegacy);
    assert PathTrailers(j, PathJson, PathLegacy, path) == [jt] + [lt];
  }
}
