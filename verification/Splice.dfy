module Splice {
  import opened Wrappers

  // Anchored edits of a note: found in its LF-normalised text, applied to its raw text; prepending behind frontmatter.
  // Matching works on LF-normalised text, and a table of raw offsets leads back to the raw text.
  // Texts are sequences of UTF-16 code units, as in the source.

  type Unit = x: int | 0 <= x < 0x10000
  type Text = seq<Unit>

  const LF: Unit := 10
  const CR: Unit := 13
  const DASH: Unit := 45

  const SPLICE_BYTES_LIMIT := 64 * 1024
  const DOCUMENT_BYTES_LIMIT := 1024 * 1024

  // ---------------------------------------------------------------------------
  // Line endings
  // ---------------------------------------------------------------------------

  predicate StartsCrLf(text: Text) { |text| >= 2 && text[0] == CR && text[1] == LF }

  /** `replace(/\r\n/g, '\n')` */
  function ReplaceCrLf(text: Text): Text {
    if text == [] then []
    else if StartsCrLf(text) then [LF] + ReplaceCrLf(text[2..])
    else [text[0]] + ReplaceCrLf(text[1..])
  }

  /** `replace(/\r/g, '\n')` */
  function ReplaceCr(text: Text): Text {
    if text == [] then [] else [if text[0] == CR then LF else text[0]] + ReplaceCr(text[1..])
  }

  function LfNormalize(text: Text): Text { ReplaceCr(ReplaceCrLf(text)) }

  /** How many units of the raw text make its first normalised unit. */
  function HeadLength(text: Text): (n: nat)
    requires text != []
    ensures 1 <= n <= |text|
  {
    if StartsCrLf(text) then 2 else 1
  }

  function HeadUnit(text: Text): Unit
    requires text != []
  {
    if text[0] == CR then LF else text[0]
  }

  /** One pass over the raw text, one normalised unit at a time. */
  function OnePass(text: Text): Text
    decreases |text|
  {
    if text == [] then [] else [HeadUnit(text)] + OnePass(text[HeadLength(text)..])
  }

  /** The two replacing passes compute the same text as the single pass. */
  lemma {:induction false} OnePassIsTwoPass(text: Text)
    ensures OnePass(text) == LfNormalize(text)
    decreases |text|
  {
    if text != [] {
      var rest := text[HeadLength(text)..];
      OnePassIsTwoPass(rest);
      var once := ReplaceCrLf(text);
      assert once[1..] == ReplaceCrLf(rest);
      assert once[0] == if StartsCrLf(text) then LF else text[0];
    }
  }

  function Offsets(text: Text, base: nat): (offsets: seq<nat>)
    ensures |offsets| >= 1
    decreases |text|
  {
    if text == [] then [base] else [base] + Offsets(text[HeadLength(text)..], base + HeadLength(text))
  }

  /** One offset before each normalised unit and one at the end, from the start to the end of the raw text. */
  lemma {:induction false} OffsetsRange(text: Text, base: nat)
    ensures var offsets := Offsets(text, base);
      && |offsets| == |OnePass(text)| + 1
      && offsets[0] == base && offsets[|offsets| - 1] == base + |text|
      && forall i :: 0 <= i < |offsets| ==> base <= offsets[i] <= base + |text|
    decreases |text|
  {
    if text != [] {
      OffsetsRange(text[HeadLength(text)..], base + HeadLength(text));
    }
  }

  lemma {:induction false} OffsetsIncrease(text: Text, base: nat)
    ensures forall i, j :: 0 <= i < j < |Offsets(text, base)| ==> Offsets(text, base)[i] < Offsets(text, base)[j]
    decreases |text|
  {
    if text != [] {
      var n := HeadLength(text);
      OffsetsRange(text[n..], base + n);
      OffsetsIncrease(text[n..], base + n);
    }
  }

  lemma CutSeam(text: Text, cut: nat)
    requires cut <= |text|
    ensures Seam(text[..cut], text[cut..]) <==> 0 < cut < |text| && text[cut - 1] == CR && text[cut] == LF
  {
  }

  /** No offset lies between a CR and its LF. */
  lemma {:induction false} OffsetsKeepCrLf(text: Text, base: nat, i: nat)
    requires i < |Offsets(text, base)|
    ensures base <= Offsets(text, base)[i] <= base + |text|
    ensures var cut := Offsets(text, base)[i] - base; !Seam(text[..cut], text[cut..])
    decreases |text|
  {
    OffsetsRange(text, base);
    var cut := Offsets(text, base)[i] - base;
    CutSeam(text, cut);
    if i > 0 {
      var n := HeadLength(text);
      var rest := text[n..];
      OffsetsKeepCrLf(rest, base + n, i - 1);
      OffsetsRange(rest, base + n);
      CutSeam(rest, cut - n);
      if n < cut < |text| {
        assert text[cut - 1] == rest[cut - n - 1] && text[cut] == rest[cut - n];
      }
    }
    hide Seam;
  }

  /** `value` and `rawOffsets` are what the scan has produced when it reaches `rawIndex`. */
  ghost predicate ScannedTo(content: Text, rawIndex: nat, value: Text, rawOffsets: seq<nat>) {
    && rawIndex <= |content|
    && value + OnePass(content[rawIndex..]) == OnePass(content)
    && rawOffsets + Offsets(content[rawIndex..], rawIndex) == Offsets(content, 0)
  }

  lemma ScanOne(content: Text, rawIndex: nat, value: Text, rawOffsets: seq<nat>)
    requires ScannedTo(content, rawIndex, value, rawOffsets) && rawIndex < |content|
    ensures var n := if content[rawIndex] == CR && rawIndex + 1 < |content| && content[rawIndex + 1] == LF then 2 else 1;
      ScannedTo(content, rawIndex + n, value + [if content[rawIndex] == CR then LF else content[rawIndex]],
                rawOffsets + [rawIndex])
  {
    var left := content[rawIndex..];
    var n := HeadLength(left);
    var head: Text := [HeadUnit(left)];
    assert left[n..] == content[rawIndex + n..];
    assert value + (head + OnePass(left[n..])) == value + head + OnePass(left[n..]);
    assert rawOffsets + ([rawIndex] + Offsets(left[n..], rawIndex + n)) == rawOffsets + [rawIndex] + Offsets(left[n..], rawIndex + n);
  }

  method NormalizeWithRawOffsets(content: Text) returns (value: Text, rawOffsets: seq<nat>)
    ensures value == LfNormalize(content) && rawOffsets == Offsets(content, 0)
  {
    value, rawOffsets := [], [];
    var rawIndex := 0;
    while rawIndex < |content|
      invariant 0 <= rawIndex <= |content|
      invariant ScannedTo(content, rawIndex, value, rawOffsets)
    {
      ScanOne(content, rawIndex, value, rawOffsets);
      hide ScannedTo;
      rawOffsets := rawOffsets + [rawIndex];
      var unit := content[rawIndex];
      if unit == CR {
        value := value + [LF];
        rawIndex := rawIndex + if rawIndex + 1 < |content| && content[rawIndex + 1] == LF then 2 else 1;
      } else {
        value := value + [unit];
        rawIndex := rawIndex + 1;
      }
    }
    assert content[rawIndex..] == [];
    rawOffsets := rawOffsets + [|content|];
    OnePassIsTwoPass(content);
  }

  /** A CR at the end of one text meeting an LF at the start of the next. */
  predicate Seam(left: Text, right: Text) {
    left != [] && right != [] && left[|left| - 1] == CR && right[0] == LF
  }

  lemma {:induction false} OnePassConcat(left: Text, right: Text)
    ensures !Seam(left, right) ==> OnePass(left + right) == OnePass(left) + OnePass(right)
    ensures Seam(left, right) ==> |OnePass(left + right)| + 1 == |OnePass(left)| + |OnePass(right)|
    decreases |left|
  {
    var whole := left + right;
    if left == [] {
      assert whole == right;
    } else if left == [CR] && Seam(left, right) {
      assert whole[2..] == right[1..] && left[1..] == [];
      assert HeadLength(right) == 1;
    } else {
      OnePassConcatStep(left, right);
      OnePassConcat(left[HeadLength(left)..], right);
    }
  }

  lemma OnePassConcatStep(left: Text, right: Text)
    requires left != [] && !(left == [CR] && Seam(left, right))
    ensures HeadLength(left + right) == HeadLength(left)
    ensures OnePass(left + right) == [HeadUnit(left)] + OnePass(left[HeadLength(left)..] + right)
    ensures Seam(left[HeadLength(left)..], right) == Seam(left, right)
  {
    var n := HeadLength(left);
    assert (left + right)[n..] == left[n..] + right;
  }

  /** Normalisation is a homomorphism except at a seam, where two line endings become one. */
  lemma NormalizeConcat(left: Text, right: Text)
    ensures !Seam(left, right) ==> LfNormalize(left + right) == LfNormalize(left) + LfNormalize(right)
    ensures Seam(left, right) ==> |LfNormalize(left + right)| + 1 == |LfNormalize(left)| + |LfNormalize(right)|
  {
    OnePassConcat(left, right);
    OnePassIsTwoPass(left);
    OnePassIsTwoPass(right);
    OnePassIsTwoPass(left + right);
  }

  lemma {:induction false} FrontLength(text: Text, base: nat, i: nat)
    requires i < |Offsets(text, base)|
    ensures base <= Offsets(text, base)[i] <= base + |text|
    ensures |OnePass(text[..Offsets(text, base)[i] - base])| == i
    decreases |text|
  {
    OffsetsRange(text, base);
    if i > 0 {
      var n := HeadLength(text);
      var rest := text[n..];
      OffsetsRange(rest, base + n);
      FrontLength(rest, base + n, i - 1);
      var front := text[..Offsets(text, base)[i] - base];
      assert front[n..] == rest[..|front| - n];
      assert HeadLength(front) == n;
    }
  }

  lemma CutAt(front: Text, back: Text, i: nat)
    requires !Seam(front, back) && |OnePass(front)| == i
    ensures |LfNormalize(front + back)| >= i
    ensures LfNormalize(front) == LfNormalize(front + back)[..i]
    ensures LfNormalize(back) == LfNormalize(front + back)[i..]
  {
    NormalizeConcat(front, back);
    OnePassIsTwoPass(front);
  }

  /** The raw offset of an index into the normalised text. */
  function RawOffset(text: Text, i: nat): (at: nat)
    requires i <= |LfNormalize(text)|
    ensures at <= |text|
  {
    OnePassIsTwoPass(text);
    OffsetsRange(text, 0);
    Offsets(text, 0)[i]
  }

  lemma RawOffsetCuts(text: Text, i: nat)
    requires i <= |LfNormalize(text)|
    ensures var at := RawOffset(text, i); !Seam(text[..at], text[at..]) && |OnePass(text[..at])| == i
  {
    OnePassIsTwoPass(text);
    OffsetsRange(text, 0);
    OffsetsKeepCrLf(text, 0, i);
    FrontLength(text, 0, i);
  }

  /** Cutting the raw text at an offset cuts the normalised text at that index. */
  lemma CutNormalizes(text: Text, i: nat)
    requires i <= |LfNormalize(text)|
    ensures LfNormalize(text[..RawOffset(text, i)]) == LfNormalize(text)[..i]
    ensures LfNormalize(text[RawOffset(text, i)..]) == LfNormalize(text)[i..]
  {
    hide LfNormalize, OnePass, Offsets;
    RawOffsetCuts(text, i);
    var at := RawOffset(text, i);
    assert text[..at] + text[at..] == text;
    CutAt(text[..at], text[at..], i);
  }

  lemma {:induction false} ReplacedHasNoCr(text: Text)
    ensures CR !in ReplaceCr(text)
  {
    if text != [] {
      ReplacedHasNoCr(text[1..]);
    }
  }

  lemma {:induction false} OnePassFixed(text: Text)
    requires CR !in text
    ensures OnePass(text) == text
  {
    if text != [] {
      OnePassFixed(text[1..]);
    }
  }

  lemma NormalizeIdempotent(text: Text)
    ensures LfNormalize(LfNormalize(text)) == LfNormalize(text) && CR !in LfNormalize(text)
  {
    ReplacedHasNoCr(ReplaceCrLf(text));
    OnePassFixed(LfNormalize(text));
    OnePassIsTwoPass(LfNormalize(text));
  }

  // ---------------------------------------------------------------------------
  // Matching
  // ---------------------------------------------------------------------------

  predicate MatchAt(haystack: Text, needle: Text, at: nat) {
    at + |needle| <= |haystack| && haystack[at..at + |needle|] == needle
  }

  /** `indexOf` */
  method IndexOf(haystack: Text, needle: Text, from: nat) returns (found: Option<nat>)
    ensures found.Some? ==> found.value >= from && MatchAt(haystack, needle, found.value)
    ensures forall k :: from <= k && (found.Some? ==> k < found.value) ==> !MatchAt(haystack, needle, k)
  {
    var at := from;
    while at + |needle| <= |haystack|
      invariant from <= at
      invariant forall k :: from <= k < at ==> !MatchAt(haystack, needle, k)
    {
      if haystack[at..at + |needle|] == needle { return Some(at); }
      at := at + 1;
    }
    found := None;
  }

  function Matches(haystack: Text, needle: Text, from: nat): seq<nat>
    decreases |haystack| - from
  {
    if from + |needle| > |haystack| then []
    else (if MatchAt(haystack, needle, from) then [from] else []) + Matches(haystack, needle, from + 1)
  }

  /** The list of matches is exactly every occurrence, overlapping ones included, in increasing order. */
  lemma {:induction false} MatchesExact(haystack: Text, needle: Text, from: nat)
    ensures var found := Matches(haystack, needle, from);
      && (forall k :: k in found <==> from <= k && MatchAt(haystack, needle, k))
      && (forall i, j :: 0 <= i < j < |found| ==> found[i] < found[j])
    decreases |haystack| - from
  {
    if from + |needle| > |haystack| {
      assert Matches(haystack, needle, from) == [];
    } else {
      MatchesExact(haystack, needle, from + 1);
      hide MatchAt;
      var rest := Matches(haystack, needle, from + 1);
      var head := if MatchAt(haystack, needle, from) then [from] else [];
      assert forall i :: 0 <= i < |rest| ==> rest[i] in rest;
      forall k: nat ensures k in head + rest <==> from <= k && MatchAt(haystack, needle, k) {
        assert k in head + rest <==> k in head || k in rest;
      }
    }
  }

  lemma {:induction false} NoMatchBefore(haystack: Text, needle: Text, from: nat, at: nat)
    requires from <= at && forall k :: from <= k < at ==> !MatchAt(haystack, needle, k)
    ensures Matches(haystack, needle, from) == Matches(haystack, needle, at)
    decreases at - from
  {
    if from < at {
      NoMatchBefore(haystack, needle, from + 1, at);
    }
  }

  method FindAllSubstringOffsets(haystack: Text, needle: Text) returns (offsets: seq<nat>)
    ensures offsets == if needle == [] then [] else Matches(haystack, needle, 0)
  {
    if |needle| == 0 { return []; }
    offsets := [];
    var from := 0;
    while from + |needle| <= |haystack|
      invariant from >= 0
      invariant offsets + Matches(haystack, needle, from) == Matches(haystack, needle, 0)
      decreases |haystack| - from
    {
      var at := IndexOf(haystack, needle, from);
      if at.None? {
        NoMatchBefore(haystack, needle, from, |haystack|);
        return offsets;
      }
      NoMatchBefore(haystack, needle, from, at.value);
      offsets := offsets + [at.value];
      from := at.value + 1;
    }
  }

  // ---------------------------------------------------------------------------
  // The splice
  // ---------------------------------------------------------------------------

  /** UTF-8 length of a UTF-16 text; a lone surrogate is encoded as the three-byte replacement character. */
  function Utf8ByteLength(text: Text): nat {
    if text == [] then 0
    else if text[0] < 0x80 then 1 + Utf8ByteLength(text[1..])
    else if text[0] < 0x800 then 2 + Utf8ByteLength(text[1..])
    else if 0xD800 <= text[0] < 0xDC00 && |text| >= 2 && 0xDC00 <= text[1] < 0xE000 then 4 + Utf8ByteLength(text[2..])
    else 3 + Utf8ByteLength(text[1..])
  }

  datatype Request = Request(oldText: Text, newText: Text, before: Option<Text>, after: Option<Text>, occurrence: Option<int>)

  datatype SpliceResult =
    | Accepted(content: Text)
    | NotFound
    | Ambiguous(matchCount: nat)
    | TooLargeSplice
    | TooLargeDocument(currentBytes: nat)

  function Anchor(text: Option<Text>): Text { if text.None? then [] else LfNormalize(text.value) }

  function Needle(request: Request): Text {
    Anchor(request.before) + LfNormalize(request.oldText) + Anchor(request.after)
  }

  function AllMatches(content: Text, request: Request): seq<nat> {
    var needle := Needle(request);
    if content == [] && needle == [] then [0]
    else if needle == [] then []
    else Matches(LfNormalize(content), needle, 0)
  }

  /** The match that is edited, or why there is none. */
  function Pick(matches: seq<nat>, occurrence: Option<int>): (picked: Result<nat, SpliceResult>)
    ensures picked.Ok? ==> picked.value in matches
  {
    if matches == [] then Err(NotFound)
    else if |matches| == 1 then Ok(matches[0])
    else if occurrence.None? then Err(Ambiguous(|matches|))
    else if 1 <= occurrence.value <= |matches| then Ok(matches[occurrence.value - 1])
    else Err(NotFound)
  }

  lemma MatchesAreMatches(content: Text, request: Request)
    ensures forall m :: m in AllMatches(content, request) ==> MatchAt(LfNormalize(content), Needle(request), m)
  {
    MatchesExact(LfNormalize(content), Needle(request), 0);
  }

  function ApplyAnchoredSplice(content: Text, request: Request): SpliceResult {
    var oldText, newText := LfNormalize(request.oldText), LfNormalize(request.newText);
    if Utf8ByteLength(oldText) > SPLICE_BYTES_LIMIT || Utf8ByteLength(newText) > SPLICE_BYTES_LIMIT then TooLargeSplice
    else
      MatchesAreMatches(content, request);
      match Pick(AllMatches(content, request), request.occurrence)
      case Err(reason) => reason
      case Ok(matchOffset) =>
        var oldOffset := matchOffset + |Anchor(request.before)|;
        assert MatchAt(LfNormalize(content), Needle(request), matchOffset);
        var next := content[..RawOffset(content, oldOffset)] + newText + content[RawOffset(content, oldOffset + |oldText|)..];
        if Utf8ByteLength(next) > DOCUMENT_BYTES_LIMIT then TooLargeDocument(Utf8ByteLength(next)) else Accepted(next)
  }

  /** An inserted text without CR keeps normalisation compositional, except at a seam with what precedes it. */
  lemma NormalizeThree(prefix: Text, inserted: Text, suffix: Text)
    requires CR !in inserted
    ensures LfNormalize(prefix + inserted + suffix) == LfNormalize(prefix) + inserted + LfNormalize(suffix)
      <==> !Seam(prefix, inserted + suffix)
  {
    OnePassFixed(inserted);
    OnePassIsTwoPass(inserted);
    assert !Seam(inserted, suffix);
    NormalizeConcat(inserted, suffix);
    NormalizeConcat(prefix, inserted + suffix);
    hide LfNormalize, OnePass, Seam;
    assert prefix + inserted + suffix == prefix + (inserted + suffix);
    assert LfNormalize(prefix) + inserted + LfNormalize(suffix) == LfNormalize(prefix) + LfNormalize(inserted + suffix);
  }

  /** A raw splice means the normalised splice. An accepted edit of the picked match keeps the raw text
      around it untouched, and that text normalises to what surrounds the old text in the normalised
      note, where the match reads before + old + after. The result normalises to the normalised note with
      the old text replaced if and only if no CR that ended the kept prefix now meets an LF. */
  lemma RawSpliceMeansNormalizedSplice(content: Text, request: Request)
    requires ApplyAnchoredSplice(content, request).Accepted?
    ensures Pick(AllMatches(content, request), request.occurrence).Ok?
    ensures var value := LfNormalize(content);
      var at := Pick(AllMatches(content, request), request.occurrence).value;
      var start := at + |Anchor(request.before)|;
      var end := start + |LfNormalize(request.oldText)|;
      && MatchAt(value, Needle(request), at) && end <= |value| && value[start..end] == LfNormalize(request.oldText)
      && var prefix, suffix := content[..RawOffset(content, start)], content[RawOffset(content, end)..];
      && var result := ApplyAnchoredSplice(content, request).content;
      && result == prefix + LfNormalize(request.newText) + suffix
      && LfNormalize(prefix) == value[..start] && LfNormalize(suffix) == value[end..]
      && (LfNormalize(result) == value[..start] + LfNormalize(request.newText) + value[end..]
          <==> !Seam(prefix, LfNormalize(request.newText) + suffix))
  {
    MatchesAreMatches(content, request);
    NormalizeIdempotent(request.newText);
    hide LfNormalize, Matches, RawOffset;
    var value := LfNormalize(content);
    var oldText := LfNormalize(request.oldText);
    var at := Pick(AllMatches(content, request), request.occurrence).value;
    var start := at + |Anchor(request.before)|;
    var end := start + |oldText|;
    NeedleParts(value, Anchor(request.before), oldText, Anchor(request.after), at);
    CutNormalizes(content, start);
    CutNormalizes(content, end);
    NormalizeThree(content[..RawOffset(content, start)], LfNormalize(request.newText), content[RawOffset(content, end)..]);
  }

  const TWO_LINES: Text := [CR, 88, LF]
  const TAKE_OUT := Request([88], [], None, None, None)

  lemma TwoLinesNormalized()
    ensures LfNormalize(TWO_LINES) == [LF, 88, LF] && LfNormalize([88]) == [88] && LfNormalize([]) == []
    ensures LfNormalize([CR, LF]) == [LF]
    ensures Offsets(TWO_LINES, 0) == [0, 1, 2, 3]
  {
    assert TWO_LINES[1..] == [88, LF] && [88, LF][1..] == [LF] && [LF][1..] == [] && [CR, LF][2..] == [];
    assert OnePass([LF]) == [LF] && OnePass([88, LF]) == [88, LF] && OnePass(TWO_LINES) == [LF, 88, LF];
    assert OnePass([CR, LF]) == [LF];
    OnePassIsTwoPass(TWO_LINES);
    OnePassIsTwoPass([CR, LF]);
    OnePassFixed([88]);
    OnePassIsTwoPass([88]);
    assert Offsets([LF], 2) == [2, 3] && Offsets([88, LF], 1) == [1, 2, 3];
  }

  lemma TwoLinesMatch()
    ensures Needle(TAKE_OUT) == [88] && AllMatches(TWO_LINES, TAKE_OUT) == [1]
  {
    TwoLinesNormalized();
    hide LfNormalize, Offsets;
    assert Needle(TAKE_OUT) == [88];
    var value: Text := [LF, 88, LF];
    assert value[0..1] == [LF] && value[1..2] == [88] && value[2..3] == [LF];
    assert Matches(value, [88], 2) == [] && Matches(value, [88], 1) == [1] && Matches(value, [88], 0) == [1];
  }

  /** The failing case. In CR X LF, taking out X joins the two line endings: the result CR LF reads as one line
      ending, where the normalised edit leaves two. */
  lemma SpliceCanJoinLineEndings()
    ensures ApplyAnchoredSplice([CR, 88, LF], TAKE_OUT) == Accepted([CR, LF]) && LfNormalize([CR, LF]) == [LF]
    ensures LfNormalize([CR, 88, LF]) == [LF, 88, LF] && AllMatches([CR, 88, LF], TAKE_OUT) == [1]
    ensures Seam([CR], [LF])
  {
    TwoLinesNormalized();
    TwoLinesMatch();
    var next: Text := [CR, LF];
    assert Utf8ByteLength(next) == 2 by { assert next[1..] == [LF]; }
    assert Utf8ByteLength([88]) == 1 && Utf8ByteLength([]) == 0;
    hide LfNormalize, Offsets, Matches, Utf8ByteLength, AllMatches;
    assert RawOffset(TWO_LINES, 1) == 1 && RawOffset(TWO_LINES, 2) == 2;
    assert TWO_LINES[..1] + [] + TWO_LINES[2..] == next;
  }

  lemma NeedleParts(value: Text, before: Text, oldText: Text, after: Text, at: nat)
    requires MatchAt(value, before + oldText + after, at)
    ensures value[at + |before|..at + |before| + |oldText|] == oldText
  {
    var needle := before + oldText + after;
    assert needle[|before|..|before| + |oldText|] == oldText;
    assert value[at..at + |needle|][|before|..|before| + |oldText|] == value[at + |before|..at + |before| + |oldText|];
  }

  /** Which match is edited: the only one, or the asked-for one in reading order. Several matches without a
      choice are refused with their number; no match, an empty needle in a note that is not empty, or a
      choice outside the list is refused as not found. */
  lemma PickIsTheMatch(content: Text, request: Request)
    ensures var value, needle := LfNormalize(content), Needle(request);
      var picked := Pick(AllMatches(content, request), request.occurrence);
      && (picked == Err(NotFound) <==>
            || (needle == [] && content != [])
            || (forall k :: !MatchAt(value, needle, k))
            || (|AllMatches(content, request)| > 1 && request.occurrence.Some?
                && !(1 <= request.occurrence.value <= |AllMatches(content, request)|)))
      && (picked.Ok? ==> MatchAt(value, needle, picked.value))
      && (picked.Ok? && request.occurrence.None? ==> forall k :: MatchAt(value, needle, k) ==> k == picked.value)
  {
    var value, needle := LfNormalize(content), Needle(request);
    MatchesExact(value, needle, 0);
    MatchesAreMatches(content, request);
    if content == [] {
      assert value == [];
    }
    hide LfNormalize;
    var all := AllMatches(content, request);
    if needle != [] {
      assert all == Matches(value, needle, 0);
    }
    if all != [] {
      assert all[0] in all;
    }
  }

  // ---------------------------------------------------------------------------
  // Prepending behind frontmatter
  // ---------------------------------------------------------------------------

  function AppendContent(content: Text, addition: Text): Text { content + LfNormalize(addition) }

  /** Appending means appending to the normalised note, except where an LF follows a CR at its end. */
  lemma AppendMeansNormalizedAppend(content: Text, addition: Text)
    ensures LfNormalize(AppendContent(content, addition)) == LfNormalize(content) + LfNormalize(addition)
      <==> !Seam(content, LfNormalize(addition))
  {
    NormalizeIdempotent(addition);
    NormalizeConcat(content, LfNormalize(addition));
    hide LfNormalize, Seam;
  }

  /** What `trim()` removes: white space and line terminators of the language. */
  predicate IsSpace(unit: Unit) {
    9 <= unit <= 13 || unit == 32 || unit == 160 || unit == 0x1680 || 0x2000 <= unit <= 0x200A
    || unit == 0x2028 || unit == 0x2029 || unit == 0x202F || unit == 0x205F || unit == 0x3000 || unit == 0xFEFF
  }

  function TrimStart(text: Text): Text {
    if text != [] && IsSpace(text[0]) then TrimStart(text[1..]) else text
  }

  function TrimEnd(text: Text): Text {
    if text != [] && IsSpace(text[|text| - 1]) then TrimEnd(text[..|text| - 1]) else text
  }

  predicate IsDelimiter(line: Text) { TrimEnd(TrimStart(line)) == [DASH, DASH, DASH] }

  /** Where the line starting at `index` stops and where the next one starts. */
  function LineEnd(content: Text, index: nat): (r: (nat, nat))
    requires index <= |content|
    ensures index <= r.0 <= r.1 <= |content| && (index < |content| ==> index < r.1)
    decreases |content| - index
  {
    if index == |content| then (index, index)
    else if content[index] == LF then (index, index + 1)
    else if content[index] == CR then
      (index, if index + 1 < |content| && content[index + 1] == LF then index + 2 else index + 1)
    else LineEnd(content, index + 1)
  }

  method NextLineEnd(content: Text, lineStart: nat) returns (contentEnd: nat, nextStart: nat)
    requires lineStart <= |content|
    ensures (contentEnd, nextStart) == LineEnd(content, lineStart)
  {
    var index := lineStart;
    while index < |content|
      invariant lineStart <= index <= |content|
      invariant LineEnd(content, index) == LineEnd(content, lineStart)
    {
      if content[index] == LF { return index, index + 1; }
      if content[index] == CR {
        return index, if index + 1 < |content| && content[index + 1] == LF then index + 2 else index + 1;
      }
      index := index + 1;
    }
    return |content|, |content|;
  }

  /** The position after the first delimiter line at or after `lineStart`. */
  function ClosingFrom(content: Text, lineStart: nat): (r: Option<nat>)
    requires lineStart <= |content|
    ensures r.Some? ==> lineStart < r.value <= |content|
    decreases |content| - lineStart
  {
    if lineStart == |content| then None
    else
      var (contentEnd, nextStart) := LineEnd(content, lineStart);
      if IsDelimiter(content[lineStart..contentEnd]) then Some(nextStart) else ClosingFrom(content, nextStart)
  }

  function OpeningLength(content: Text): (n: nat)
    ensures n <= |content| && (n > 0 ==> n >= 4)
  {
    if |content| >= 4 && content[..3] == [DASH, DASH, DASH] then
      if content[3] == LF then 4
      else if content[3] == CR then if |content| >= 5 && content[4] == LF then 5 else 4
      else 0
    else 0
  }

  function InsertionPoint(content: Text): (r: Option<nat>)
    ensures r.Some? ==> 4 < r.value <= |content|
  {
    if OpeningLength(content) == 0 then None else ClosingFrom(content, OpeningLength(content))
  }

  method FrontmatterInsertionPoint(content: Text) returns (r: Option<nat>)
    ensures r == InsertionPoint(content)
  {
    var lineStart: nat := OpeningLength(content);
    if lineStart == 0 { return None; }
    while lineStart < |content|
      invariant lineStart <= |content|
      invariant ClosingFrom(content, lineStart) == InsertionPoint(content)
    {
      var contentEnd, nextStart := NextLineEnd(content, lineStart);
      if IsDelimiter(content[lineStart..contentEnd]) { return Some(nextStart); }
      lineStart := nextStart;
    }
    return None;
  }

  function PrependContent(content: Text, addition: Text): Text {
    var added := LfNormalize(addition);
    var at := if InsertionPoint(content).Some? then InsertionPoint(content).value else 0;
    var front := content[..at];
    var separator: Text := if at > 0 && added != [] && front[at - 1] != LF && front[at - 1] != CR then [LF] else [];
    front + separator + added + content[at..]
  }

  /** Two texts that agree up to `cut`, where a line ends with LF, have the same lines before it. */
  lemma {:induction false} SameLineEnd(left: Text, right: Text, cut: nat, index: nat)
    requires 0 < cut <= |left| && cut <= |right| && left[..cut] == right[..cut] && left[cut - 1] == LF && index < cut
    ensures LineEnd(left, index) == LineEnd(right, index) && LineEnd(left, index).1 <= cut
    decreases cut - index
  {
    assert left[index] == left[..cut][index] && right[index] == right[..cut][index];
    if left[index] == CR {
      assert index + 1 < cut;
      assert left[index + 1] == left[..cut][index + 1] && right[index + 1] == right[..cut][index + 1];
    } else if left[index] != LF {
      SameLineEnd(left, right, cut, index + 1);
    }
  }

  lemma SameSlice(left: Text, right: Text, cut: nat, start: nat, end: nat)
    requires start <= end <= cut <= |left| && cut <= |right| && left[..cut] == right[..cut]
    ensures left[start..end] == right[start..end]
  {
    assert left[start..end] == left[..cut][start..end];
    assert right[start..end] == right[..cut][start..end];
  }

  lemma {:induction false} SameClosing(left: Text, right: Text, cut: nat, lineStart: nat)
    requires 0 < cut <= |left| && cut <= |right| && left[..cut] == right[..cut] && left[cut - 1] == LF
    requires lineStart < cut && ClosingFrom(left, lineStart) == Some(cut)
    ensures ClosingFrom(right, lineStart) == Some(cut)
    decreases cut - lineStart
  {
    SameLineEnd(left, right, cut, lineStart);
    var (contentEnd, nextStart) := LineEnd(left, lineStart);
    SameSlice(left, right, cut, lineStart, contentEnd);
    hide IsDelimiter;
    if !IsDelimiter(left[lineStart..contentEnd]) {
      SameClosing(left, right, cut, nextStart);
    }
  }

  lemma SameInsertionPoint(left: Text, right: Text, cut: nat)
    requires InsertionPoint(left) == Some(cut) && left[cut - 1] == LF
    requires cut <= |right| && left[..cut] == right[..cut]
    ensures InsertionPoint(right) == Some(cut)
  {
    assert left[..3] == left[..cut][..3] && right[..3] == right[..cut][..3];
    assert left[3] == left[..cut][3] && right[3] == right[..cut][3];
    assert left[4] == left[..cut][4] && right[4] == right[..cut][4];
    SameClosing(left, right, cut, OpeningLength(left));
  }

  /** Prepending respects frontmatter whose closing line ends in LF: the frontmatter stays verbatim in front,
      the old body stays verbatim behind, and the insertion point does not move. */
  lemma PrependKeepsFrontmatter(content: Text, addition: Text)
    requires InsertionPoint(content).Some? && content[InsertionPoint(content).value - 1] == LF
    ensures var at := InsertionPoint(content).value;
      && PrependContent(content, addition) == content[..at] + LfNormalize(addition) + content[at..]
      && InsertionPoint(PrependContent(content, addition)) == Some(at)
  {
    var at := InsertionPoint(content).value;
    var next := PrependContent(content, addition);
    assert next == content[..at] + LfNormalize(addition) + content[at..];
    SameInsertionPoint(content, next, at);
  }

  lemma Regroup(front: Text, second: Text, first: Text, joined: Text, back: Text)
    ensures front + second + (first + back) == front + joined + back <==> joined == second + first
  {
    assert front + second + (first + back) == front + (second + first) + back;
    if front + (second + first) + back == front + joined + back {
      assert |joined| == |second + first|;
      assert (front + (second + first) + back)[|front|..|front| + |joined|] == second + first;
      assert (front + joined + back)[|front|..|front| + |joined|] == joined;
    }
  }

  /** Prepending twice is prepending the two additions together, unless the CR ending the second addition
      and the LF starting the first would then be read as one line ending. */
  lemma PrependComposes(content: Text, first: Text, second: Text)
    requires InsertionPoint(content).Some? && content[InsertionPoint(content).value - 1] == LF
    ensures PrependContent(PrependContent(content, first), second) == PrependContent(content, second + first)
      <==> !Seam(second, first)
  {
    hide LfNormalize, InsertionPoint, PrependContent;
    var at := InsertionPoint(content).value;
    var front, back := content[..at], content[at..];
    var once := PrependContent(content, first);
    PrependKeepsFrontmatter(content, first);
    assert once == front + LfNormalize(first) + back;
    assert once[at - 1] == content[at - 1] && once[at..] == LfNormalize(first) + back && once[..at] == front;
    PrependKeepsFrontmatter(once, second);
    PrependKeepsFrontmatter(content, second + first);
    Regroup(front, LfNormalize(second), LfNormalize(first), LfNormalize(second + first), back);
    NormalizeConcat(second, first);
  }
}
