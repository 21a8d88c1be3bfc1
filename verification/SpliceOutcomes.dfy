/** What an anchored edit answers: which occurrence it takes, when it is refused, and where text is prepended. */
module SpliceOutcomes {
  import opened Wrappers
  import opened Splice

  // ---------------------------------------------------------------------------
  // Occurrences
  // ---------------------------------------------------------------------------

  /** Where the needle occurs, as a set of positions. */
  function Occurrences(value: Text, needle: Text): set<nat> {
    set at: nat | at <= |value| && MatchAt(value, needle, at)
  }

  ghost predicate Increasing(s: seq<nat>) { forall i, j :: 0 <= i < j < |s| ==> s[i] < s[j] }

  function Elements(s: seq<nat>): set<nat> { set x | x in s }

  lemma {:induction false} ElementsOfIncreasing(s: seq<nat>)
    requires Increasing(s)
    ensures |Elements(s)| == |s|
  {
    if s != [] {
      var n := |s| - 1;
      ElementsOfIncreasing(s[..n]);
      assert s == s[..n] + [s[n]];
      assert Elements(s) == Elements(s[..n]) + {s[n]};
      assert s[n] !in s[..n];
    }
  }

  function Before(all: set<nat>, bound: nat): set<nat> { set x | x in all && x < bound }

  /** The element at `k` has exactly `k` elements before it. */
  lemma RankInIncreasing(s: seq<nat>, k: nat)
    requires Increasing(s) && k < |s|
    ensures |Before(Elements(s), s[k])| == k
  {
    ElementsOfIncreasing(s[..k]);
    forall x
      ensures x in Elements(s[..k]) <==> x in Elements(s) && x < s[k]
    {
      if x in Elements(s) && x < s[k] {
        var i :| 0 <= i < |s| && s[i] == x;
        assert s[..k][i] == x;
      }
    }
    assert Before(Elements(s), s[k]) == Elements(s[..k]);
  }

  lemma MatchesAreOccurrences(content: Text, request: Request)
    requires content == [] || Needle(request) != []
    ensures Increasing(AllMatches(content, request))
    ensures Elements(AllMatches(content, request)) == Occurrences(LfNormalize(content), Needle(request))
  {
    var value, needle := LfNormalize(content), Needle(request);
    MatchesExact(value, needle, 0);
    if content == [] {
      assert value == [];
      if needle == [] {
        assert MatchAt(value, needle, 0);
        assert Occurrences(value, needle) == {0};
      }
    }
    hide LfNormalize;
  }

  /** What is picked from a set of positions, counted in reading order. */
  ghost predicate PicksCounted(all: set<nat>, occurrence: Option<int>, picked: Result<nat, SpliceResult>) {
    if all == {} then picked == Err(NotFound)
    else if |all| == 1 then picked.Ok? && picked.value in all
    else if occurrence.None? then picked == Err(Ambiguous(|all|))
    else if 1 <= occurrence.value <= |all| then
      picked.Ok? && picked.value in all && |Before(all, picked.value)| == occurrence.value - 1
    else picked == Err(NotFound)
  }

  lemma PickCounts(matches: seq<nat>, occurrence: Option<int>)
    requires Increasing(matches)
    ensures PicksCounted(Elements(matches), occurrence, Pick(matches, occurrence))
  {
    ElementsOfIncreasing(matches);
    assert matches != [] ==> matches[0] in Elements(matches);
    if |matches| > 1 && occurrence.Some? && 1 <= occurrence.value <= |matches| {
      RankInIncreasing(matches, occurrence.value - 1);
      assert matches[occurrence.value - 1] in Elements(matches);
      hide Elements;
    }
  }

  /** The edited occurrence, counted: it is the only one, or, if there are several, the one with as many before it
      as were asked to be skipped; several without a choice are refused with their number, and a choice outside
      their number is not found. An empty needle occurs once in an empty note and is not found in any other. */
  lemma PickedOccurrence(content: Text, request: Request)
    ensures var picked := Pick(AllMatches(content, request), request.occurrence);
      if content != [] && Needle(request) == [] then picked == Err(NotFound)
      else PicksCounted(Occurrences(LfNormalize(content), Needle(request)), request.occurrence, picked)
  {
    if content == [] || Needle(request) != [] {
      MatchesAreOccurrences(content, request);
      hide LfNormalize, Occurrences, AllMatches, PicksCounted, Pick, Elements;
      PickCounts(AllMatches(content, request), request.occurrence);
    }
  }

  // ---------------------------------------------------------------------------
  // Sizes
  // ---------------------------------------------------------------------------

  type Byte = b: int | 0 <= b < 0x100

  predicate IsHigh(unit: Unit) { 0xD800 <= unit < 0xDC00 }

  predicate IsLow(unit: Unit) { 0xDC00 <= unit < 0xE000 }

  /** The UTF-8 bytes of a text; half a surrogate pair is written as U+FFFD. */
  function Utf8(text: Text): seq<Byte> {
    if text == [] then []
    else if |text| >= 2 && IsHigh(text[0]) && IsLow(text[1]) then
      var high: int, low: int := text[0], text[1];
      var code := 0x10000 + (high - 0xD800) * 0x400 + (low - 0xDC00);
      [0xF0 + code / 0x40000, 0x80 + code / 0x1000 % 0x40, 0x80 + code / 0x40 % 0x40, 0x80 + code % 0x40] + Utf8(text[2..])
    else if IsHigh(text[0]) || IsLow(text[0]) then [0xEF, 0xBF, 0xBD] + Utf8(text[1..])
    else if text[0] < 0x80 then [text[0]] + Utf8(text[1..])
    else if text[0] < 0x800 then [0xC0 + text[0] / 0x40, 0x80 + text[0] % 0x40] + Utf8(text[1..])
    else [0xE0 + text[0] / 0x1000, 0x80 + text[0] / 0x40 % 0x40, 0x80 + text[0] % 0x40] + Utf8(text[1..])
  }

  lemma {:induction false} ByteLengthIsOfUtf8(text: Text)
    ensures Utf8ByteLength(text) == |Utf8(text)|
  {
    if text != [] {
      if |text| >= 2 && IsHigh(text[0]) && IsLow(text[1]) {
        ByteLengthIsOfUtf8(text[2..]);
      } else {
        ByteLengthIsOfUtf8(text[1..]);
      }
    }
  }

  /** What an edit answers, and when. The sizes are those of the UTF-8 bytes: of the normalised old and new text
      first, before anything is looked for, and of the whole result last. */
  lemma SpliceAnswers(content: Text, request: Request)
    ensures var answer, oldText, newText := ApplyAnchoredSplice(content, request), LfNormalize(request.oldText), LfNormalize(request.newText);
      var picked := Pick(AllMatches(content, request), request.occurrence);
      && (answer == TooLargeSplice <==> |Utf8(oldText)| > 64 * 1024 || |Utf8(newText)| > 64 * 1024)
      && (answer != TooLargeSplice && picked.Err? ==> answer == picked.error)
      && (answer != TooLargeSplice && picked.Ok? ==>
            && var start := picked.value + |Anchor(request.before)|;
            && start + |oldText| <= |LfNormalize(content)|
            && var next := content[..RawOffset(content, start)] + newText + content[RawOffset(content, start + |oldText|)..];
            answer == if |Utf8(next)| > 1024 * 1024 then TooLargeDocument(|Utf8(next)|) else Accepted(next))
  {
    ByteLengthIsOfUtf8(LfNormalize(request.oldText));
    ByteLengthIsOfUtf8(LfNormalize(request.newText));
    MatchesAreMatches(content, request);
    hide LfNormalize, Utf8, Utf8ByteLength, AllMatches, RawOffset;
    var picked := Pick(AllMatches(content, request), request.occurrence);
    if picked.Ok? {
      var start := picked.value + |Anchor(request.before)|;
      var end := start + |LfNormalize(request.oldText)|;
      assert MatchAt(LfNormalize(content), Needle(request), picked.value);
      ByteLengthIsOfUtf8(content[..RawOffset(content, start)] + LfNormalize(request.newText) + content[RawOffset(content, end)..]);
    }
  }

  // ---------------------------------------------------------------------------
  // Prepending
  // ---------------------------------------------------------------------------

  /** Without frontmatter the addition comes first; behind frontmatter it is kept apart from a closing line that has
      no line end of its own. */
  lemma PrependGoes(content: Text, addition: Text)
    ensures InsertionPoint(content).None? ==> PrependContent(content, addition) == LfNormalize(addition) + content
    ensures InsertionPoint(content).Some? ==>
      var at := InsertionPoint(content).value;
      var ended := content[at - 1] == LF || content[at - 1] == CR;
      PrependContent(content, addition) ==
        content[..at] + (if ended || LfNormalize(addition) == [] then [] else [LF]) + LfNormalize(addition) + content[at..]
  {
    hide LfNormalize, InsertionPoint;
    var added := LfNormalize(addition);
    if InsertionPoint(content).None? {
      assert content[..0] + [] + added + content[0..] == added + content;
    }
  }

  predicate AllSpace(text: Text) { forall i :: 0 <= i < |text| ==> IsSpace(text[i]) }

  /** `rest` is `text` without some white space before or behind it. */
  ghost predicate Within(text: Text, rest: Text, front: Text, back: Text) {
    text == front + rest + back && AllSpace(front) && AllSpace(back)
  }

  lemma {:induction false} TrimStartSkips(text: Text) returns (front: Text)
    ensures AllSpace(front) && text == front + TrimStart(text)
  {
    if text != [] && IsSpace(text[0]) {
      var more := TrimStartSkips(text[1..]);
      front := [text[0]] + more;
      assert text == [text[0]] + text[1..];
    } else {
      front := [];
    }
  }

  lemma {:induction false} TrimEndSkips(text: Text) returns (back: Text)
    ensures AllSpace(back) && text == TrimEnd(text) + back
  {
    if text != [] && IsSpace(text[|text| - 1]) {
      var n := |text| - 1;
      var more := TrimEndSkips(text[..n]);
      back := more + [text[n]];
      assert text == text[..n] + [text[n]];
    } else {
      back := [];
    }
  }

  lemma {:induction false} TrimmedStart(spaces: Text, rest: Text)
    requires AllSpace(spaces) && rest != [] && !IsSpace(rest[0])
    ensures TrimStart(spaces + rest) == rest
  {
    if spaces == [] {
      assert spaces + rest == rest;
    } else {
      assert (spaces + rest)[1..] == spaces[1..] + rest;
      TrimmedStart(spaces[1..], rest);
    }
  }

  lemma {:induction false} TrimmedEnd(rest: Text, spaces: Text)
    requires AllSpace(spaces) && rest != [] && !IsSpace(rest[|rest| - 1])
    ensures TrimEnd(rest + spaces) == rest
  {
    if spaces == [] {
      assert rest + spaces == rest;
    } else {
      var n := |spaces| - 1;
      assert (rest + spaces)[..|rest| + n] == rest + spaces[..n];
      assert (rest + spaces)[|rest| + n] == spaces[n];
      TrimmedEnd(rest, spaces[..n]);
    }
  }

  const DASHES: Text := [DASH, DASH, DASH]

  lemma SurroundedIsDelimiter(line: Text, front: Text, back: Text)
    requires Within(line, DASHES, front, back)
    ensures IsDelimiter(line)
  {
    assert line == front + (DASHES + back);
    TrimmedStart(front, DASHES + back);
    TrimmedEnd(DASHES, back);
    hide TrimStart, TrimEnd;
  }

  /** A delimiter line is three dashes with nothing but white space around them. */
  lemma DelimiterIff(line: Text)
    ensures IsDelimiter(line) <==> exists front, back :: Within(line, DASHES, front, back)
  {
    forall front, back | Within(line, DASHES, front, back)
      ensures IsDelimiter(line)
    {
      SurroundedIsDelimiter(line, front, back);
    }
    if IsDelimiter(line) {
      var front := TrimStartSkips(line);
      var back := TrimEndSkips(TrimStart(line));
      hide TrimStart, TrimEnd, AllSpace;
      assert line == front + (DASHES + back);
      assert Within(line, DASHES, front, back);
    }
  }

  /** How a text ends its lines, all alike. */
  predicate IsLineEnd(end: Text) { end == [LF] || end == [CR, LF] }

  /** The lines of a text, each with its end. */
  function Lines(lines: seq<Text>, end: Text): Text { if lines == [] then [] else lines[0] + end + Lines(lines[1..], end) }

  predicate Plain(line: Text) { LF !in line && CR !in line && !IsDelimiter(line) }

  /** `part` stands at `at` in the text. */
  predicate StandsAt(text: Text, at: nat, part: Text) { at + |part| <= |text| && text[at..at + |part|] == part }

  lemma StandsInParts(text: Text, at: nat, first: Text, second: Text)
    requires StandsAt(text, at, first + second)
    ensures StandsAt(text, at, first) && StandsAt(text, at + |first|, second)
  {
    var part := text[at..at + |first| + |second|];
    assert part[..|first|] == first && part[|first|..] == second;
  }

  lemma {:induction false} LineEndsAt(text: Text, at: nat, line: Text, end: Text, index: nat)
    requires IsLineEnd(end) && StandsAt(text, at, line + end) && LF !in line && CR !in line && at <= index <= at + |line|
    ensures LineEnd(text, index) == (at + |line|, at + |line| + |end|)
    decreases |line| + at - index
  {
    var part := text[at..at + |line| + |end|];
    assert part == line + end && text[index] == part[index - at];
    if index < at + |line| {
      assert text[index] == line[index - at];
      LineEndsAt(text, at, line, end, index + 1);
    } else {
      assert text[index] == end[0] && (|end| > 1 ==> text[index + 1] == part[index - at + 1] == end[1]);
    }
  }

  lemma LineIsScanned(text: Text, at: nat, line: Text, end: Text)
    requires IsLineEnd(end) && StandsAt(text, at, line + end) && LF !in line && CR !in line
    ensures ClosingFrom(text, at) ==
      if IsDelimiter(line) then Some(at + |line| + |end|) else ClosingFrom(text, at + |line| + |end|)
  {
    LineEndsAt(text, at, line, end, at);
    StandsInParts(text, at, line, end);
    hide IsDelimiter, LineEnd;
  }

  lemma FirstLine(lines: seq<Text>, end: Text)
    requires lines != []
    ensures Lines(lines, end) == lines[0] + end + Lines(lines[1..], end)
    ensures |Lines(lines, end)| == |lines[0]| + |end| + |Lines(lines[1..], end)|
  {
  }

  lemma StandsWithin(text: Text, at: nat, part: Text)
    requires StandsAt(text, at, part)
    ensures at + |part| <= |text|
  {
  }

  lemma PlainLine(line: Text)
    requires Plain(line)
    ensures LF !in line && CR !in line && !IsDelimiter(line)
  {
  }

  lemma NoLines(end: Text)
    ensures Lines([], end) == []
  {
  }

  /** The scan passes over lines that are no delimiters. */
  lemma {:induction false} PlainLinesArePassed(text: Text, at: nat, lines: seq<Text>, end: Text)
    requires IsLineEnd(end) && StandsAt(text, at, Lines(lines, end)) && forall i :: 0 <= i < |lines| ==> Plain(lines[i])
    ensures at + |Lines(lines, end)| <= |text| && ClosingFrom(text, at) == ClosingFrom(text, at + |Lines(lines, end)|)
    decreases |lines|
  {
    hide *;
    StandsWithin(text, at, Lines(lines, end));
    if lines == [] {
      NoLines(end);
    } else {
      var line, more := lines[0], Lines(lines[1..], end);
      FirstLine(lines, end);
      PlainLine(line);
      StandsInParts(text, at, line + end, more);
      LineIsScanned(text, at, line, end);
      PlainLinesArePassed(text, at + |line| + |end|, lines[1..], end);
    }
  }

  lemma FrontmatterStands(body: Text, closing: Text, rest: Text, end: Text)
    ensures var front := DASHES + end + body;
      var text := front + closing + end + rest;
      && StandsAt(text, 3 + |end|, body) && StandsAt(front, 3 + |end|, body) && StandsAt(text, |front|, closing + end)
      && DASHES + end <= front && DASHES + end <= text && |front| == 3 + |end| + |body|
  {
  }

  /** Where frontmatter ends, with LF or CR LF line ends: behind the first delimiter line after an opening one. Without
      a closing line there is no frontmatter. */
  lemma FrontmatterEnds(lines: seq<Text>, closing: Text, rest: Text, end: Text)
    requires IsLineEnd(end) && forall i :: 0 <= i < |lines| ==> Plain(lines[i])
    requires LF !in closing && CR !in closing && IsDelimiter(closing)
    ensures var front := DASHES + end + Lines(lines, end);
      && InsertionPoint(front + closing + end + rest) == Some(|front| + |closing| + |end|)
      && InsertionPoint(front) == None
  {
    hide StandsAt, IsDelimiter, Lines, Plain, OpeningLength, ClosingFrom;
    var front := DASHES + end + Lines(lines, end);
    var text := front + closing + end + rest;
    FrontmatterStands(Lines(lines, end), closing, rest, end);
    PlainLinesArePassed(text, 3 + |end|, lines, end);
    LineIsScanned(text, |front|, closing, end);
    PlainLinesArePassed(front, 3 + |end|, lines, end);
    NothingAtTheEnd(front);
    OpensWith(text, end);
    OpensWith(front, end);
  }

  lemma NothingAtTheEnd(text: Text)
    ensures ClosingFrom(text, |text|) == None
  {
  }

  lemma OpensWith(text: Text, end: Text)
    requires IsLineEnd(end) && DASHES + end <= text
    ensures OpeningLength(text) == 3 + |end|
  {
    var open := DASHES + end;
    assert text[..3] == open[..3] == DASHES && text[3] == open[3] && (|end| == 2 ==> text[4] == open[4]);
  }

  /** What opens frontmatter: three dashes and a line end, at the very start. */
  lemma OpeningIff(content: Text)
    ensures InsertionPoint(content).Some? ==> DASHES + [LF] <= content || DASHES + [CR] <= content
  {
    if OpeningLength(content) > 0 {
      assert content[..4] == DASHES + [content[3]];
    }
  }
}
