/** A printer of texts and contributors on one line, which shows that what is asked of JSON can be met.

    It escapes quotes, backslashes and the characters that end a line or a record, and reads them back. */
module EscapedJson {
  import opened Wrappers
  import opened CommitTrailers

  function EscapedChar(c: char): string {
    if c == '\"' || c == '\\' then ['\\', c]
    else if c == '\n' then "\\n"
    else if c == '\r' then "\\r"
    else if c == RECORD_END then "\\e"
    else [c]
  }

  function UnescapedChar(c: char): char {
    if c == 'n' then '\n' else if c == 'r' then '\r' else if c == 'e' then RECORD_END else c
  }

  function Escaped(text: string): string {
    if text == "" then "" else EscapedChar(text[0]) + Escaped(text[1..])
  }

  /** Reads an escaped text up to its closing quote, and says what follows it. */
  function Read(text: string): Option<(string, string)> {
    if text == "" then None
    else if text[0] == '\"' then Some(("", text[1..]))
    else if text[0] == '\\' && |text| == 1 then None
    else
      var (c, rest) := if text[0] == '\\' then (UnescapedChar(text[1]), text[2..]) else (text[0], text[1..]);
      var r := Read(rest);
      if r.None? then None else Some(([c] + r.value.0, r.value.1))
  }

  function Closed(text: string): string { Escaped(text) + "\"" }

  function PrintedText(text: string): string { "\"" + Closed(text) }

  function ReadText(printed: string): Option<string> {
    if printed == "" || printed[0] != '\"' then None
    else
      var r := Read(printed[1..]);
      if r.Some? && r.value.1 == "" then Some(r.value.0) else None
  }

  function PrintedOption(text: Option<string>): string { if text.None? then "-" else "+" + Closed(text.value) }

  function ReadOption(printed: string): Option<(Option<string>, string)> {
    if printed == "" then None
    else if printed[0] == '-' then Some((None, printed[1..]))
    else
      var r := Read(printed[1..]);
      if r.None? then None else Some((Some(r.value.0), r.value.1))
  }

  function PrintedActor(a: Actor): string {
    "{" + (Closed(a.kind) + (PrintedOption(a.id) + (PrintedOption(a.name) + (PrintedOption(a.client) + "}"))))
  }

  function ReadActor(printed: string): Option<Actor> {
    if printed == "" then None
    else
      var kind := Read(printed[1..]);
      if kind.None? then None
      else
        var id := ReadOption(kind.value.1);
        if id.None? then None
        else
          var name := ReadOption(id.value.1);
          if name.None? then None
          else
            var client := ReadOption(name.value.1);
            if client.None? then None else Some(Actor(kind.value.0, id.value.0, name.value.0, client.value.0))
  }

  const Printer: Json :=
    Json((text: string) => PrintedText(text), (printed: string) => ReadText(printed),
         (a: Actor) => PrintedActor(a), (printed: string) => ReadActor(printed))

  lemma {:induction false} ReadClosed(text: string, rest: string)
    ensures Read(Closed(text) + rest) == Some((text, rest))
  {
    var printed := Closed(text) + rest;
    if text == "" {
      assert printed[0] == '\"' && printed[1..] == rest;
    } else {
      ReadClosed(text[1..], rest);
      var c := EscapedChar(text[0]);
      assert printed == c + (Closed(text[1..]) + rest);
      assert printed[|c|..] == Closed(text[1..]) + rest;
      assert printed[..|c|] == c;
      assert text == [text[0]] + text[1..];
    }
  }

  lemma ReadPrintedOption(text: Option<string>, rest: string)
    ensures ReadOption(PrintedOption(text) + rest) == Some((text, rest))
  {
    var printed := PrintedOption(text) + rest;
    if text.None? {
      assert printed[1..] == rest;
    } else {
      assert printed[1..] == Closed(text.value) + rest;
      ReadClosed(text.value, rest);
    }
  }

  lemma ReadPrintedText(text: string)
    ensures ReadText(PrintedText(text)) == Some(text)
  {
    assert PrintedText(text)[1..] == Closed(text) + "";
    ReadClosed(text, "");
  }

  lemma ReadPrintedActor(a: Actor)
    ensures ReadActor(PrintedActor(a)) == Some(a)
  {
    hide Read, ReadOption, PrintedOption, Closed;
    ReadPrintedOption(a.client, "}");
    ReadPrintedOption(a.name, PrintedOption(a.client) + "}");
    ReadPrintedOption(a.id, PrintedOption(a.name) + (PrintedOption(a.client) + "}"));
    var tail := PrintedOption(a.id) + (PrintedOption(a.name) + (PrintedOption(a.client) + "}"));
    ReadClosed(a.kind, tail);
    assert PrintedActor(a)[1..] == Closed(a.kind) + tail;
  }

  /** On one line, and with a separator exactly if there is one to print. */
  ghost predicate Fits(printed: string, separates: bool) {
    OneLine(printed) && RECORD_END !in printed && (HasSeparator(printed) <==> separates)
  }

  lemma SeparatorIn(text: string)
    ensures HasSeparator(text) <==> '\U{2028}' in text || '\U{2029}' in text
  {
    if '\U{2028}' in text || '\U{2029}' in text {
      var i :| 0 <= i < |text| && (text[i] == '\U{2028}' || text[i] == '\U{2029}');
      assert IsSeparator(text[i]);
    }
  }

  lemma FitsTogether(left: string, right: string, l: bool, r: bool)
    requires Fits(left, l) && Fits(right, r)
    ensures Fits(left + right, l || r)
  {
    SeparatorIn(left);
    SeparatorIn(right);
    SeparatorIn(left + right);
    hide HasSeparator;
  }

  lemma {:induction false} EscapedFits(text: string)
    ensures Fits(Escaped(text), HasSeparator(text))
  {
    if text != "" {
      EscapedFits(text[1..]);
      var c := EscapedChar(text[0]);
      SeparatorIn(c);
      SeparatorIn([text[0]]);
      SeparatorIn(text);
      SeparatorIn(text[1..]);
      assert text == [text[0]] + text[1..];
      hide HasSeparator;
      FitsTogether(c, Escaped(text[1..]), HasSeparator([text[0]]), HasSeparator(text[1..]));
    }
  }

  lemma MarksFit()
    ensures Fits("\"", false) && Fits("-", false) && Fits("+", false) && Fits("{", false) && Fits("}", false)
  {
  }

  lemma ClosedFits(text: string)
    ensures Fits(Closed(text), HasSeparator(text))
  {
    MarksFit();
    EscapedFits(text);
    hide Fits;
    FitsTogether(Escaped(text), "\"", HasSeparator(text), false);
  }

  lemma OptionFits(text: Option<string>)
    ensures Fits(PrintedOption(text), text.Some? && HasSeparator(text.value))
  {
    MarksFit();
    hide Fits, Closed;
    if text.Some? {
      ClosedFits(text.value);
      FitsTogether("+", Closed(text.value), false, HasSeparator(text.value));
    }
  }

  lemma ActorFits(a: Actor)
    ensures Fits(PrintedActor(a), ActorHasSeparator(a))
  {
    MarksFit();
    ClosedFits(a.kind);
    OptionFits(a.id);
    OptionFits(a.name);
    OptionFits(a.client);
    var id, name, client := a.id.Some? && HasSeparator(a.id.value), a.name.Some? && HasSeparator(a.name.value),
      a.client.Some? && HasSeparator(a.client.value);
    hide Fits, Closed, PrintedOption, HasSeparator;
    FitsTogether(PrintedOption(a.client), "}", client, false);
    FitsTogether(PrintedOption(a.name), PrintedOption(a.client) + "}", name, client);
    FitsTogether(PrintedOption(a.id), PrintedOption(a.name) + (PrintedOption(a.client) + "}"), id, name || client);
    var tail := PrintedOption(a.id) + (PrintedOption(a.name) + (PrintedOption(a.client) + "}"));
    FitsTogether(Closed(a.kind), tail, HasSeparator(a.kind), id || name || client);
    FitsTogether("{", Closed(a.kind) + tail, false, HasSeparator(a.kind) || id || name || client);
  }

  /** What is asked of JSON can be met. */
  lemma PrinterIsLawful()
    ensures Lawful(Printer)
  {
    forall text: string
      ensures ReadText(PrintedText(text)) == Some(text) && Tight(PrintedText(text))
        && Fits(PrintedText(text), HasSeparator(text))
    {
      ReadPrintedText(text);
      ClosedFits(text);
      MarksFit();
      FitsTogether("\"", Closed(text), false, HasSeparator(text));
    }
    forall a: Actor
      ensures ReadActor(PrintedActor(a)) == Some(a) && Tight(PrintedActor(a)) && Fits(PrintedActor(a), ActorHasSeparator(a))
    {
      ReadPrintedActor(a);
      ActorFits(a);
      ActorEnds(a);
    }
    hide HasSeparator, ActorHasSeparator, Tight, PrintedText, PrintedActor, ReadText, ReadActor;
  }

  lemma ActorEnds(a: Actor)
    ensures Tight(PrintedActor(a))
  {
    var printed := PrintedActor(a);
    assert printed[|printed| - 1] == '}';
  }
}
