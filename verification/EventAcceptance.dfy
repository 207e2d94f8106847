// Which server-sent-event calls are refused: exactly those that no event stream could carry
// (src/http_sse.c:284-307, 371-377, 414-420). A stream is read as sections 9.2.5 and 9.2.6 of
// the WHATWG HTML standard say.
module EventAcceptance {
  import opened Common
  import opened Decimal
  import opened EventStream

  // ------------------------------------------------------------------ streams

  // The lines of a stream; what follows the last line break is discarded.
  function StreamLines(s: string): seq<string>
    decreases |s|
  {
    var i := BreakAt(s, 0);
    if i == |s| then [] else [s[..i]] + StreamLines(s[AfterBreak(s, i)..])
  }

  // A line that says a field; a comment is a field without a name.
  predicate SaysHere(line: string, name: string, value: string)
  {
    && line != ""
    && var colon := ColonAt(line);
       line[..colon] == name && value == if colon == |line| then "" else DropSpace(line[colon + 1..])
  }

  ghost predicate SaidIn(lines: seq<string>, name: string, value: string)
  {
    exists i :: 0 <= i < |lines| && SaysHere(lines[i], name, value)
  }

  ghost predicate Says(s: string, name: string, value: string) { SaidIn(StreamLines(s), name, value) }

  // The state a call asks a fresh parser to be in.
  predicate Asks(c: Call, q: Parser)
  {
    match c
    case Event(data, event, id, retry) =>
      && q.lastId == (if id.Some? then id.value else "")
      && (retry.None? ==> q.retry == None)
      && (retry.Some? ==> q.retry.Some? && q.retry.value == retry.value)
      && q.events == if data.None? then []
                     else [Dispatched(if event.Some? && event.value != "" then event.value else "message",
                                      Normalize(data.value, 0), q.lastId)]
    case Comment(_) => q == FRESH
    case Retry(ms) => q.retry.Some? && q == FRESH.(retry := q.retry) && q.retry.value == ms
  }

  // A stream carries a call if it says the type or the comment, and is read as the call asks.
  ghost predicate Carries(s: string, c: Call)
  {
    && (c.Event? && c.event.Some? ==> Says(s, "event", c.event.value))
    && (c.Comment? ==> Says(s, "", c.text))
    && Asks(c, Parse(FRESH, s))
  }

  // -------------------------------------------------------------- what is said

  lemma {:induction false} LinesSnoc(line: string, rest: string)
    requires OneLine(line)
    ensures StreamLines(line + "\n" + rest) == [line] + StreamLines(rest)
  {
    var s := line + "\n" + rest;
    assert s[|line|] == '\n' && forall k :: 0 <= k < |line| ==> s[k] == line[k];
    assert BreakAt(s, 0) == |line|;
    assert s[..|line|] == line && s[AfterBreak(s, |line|)..] == rest;
  }

  lemma {:induction false} SaidFirst(line: string, rest: string, name: string, value: string)
    requires OneLine(line) && SaysHere(line, name, value)
    ensures Says(line + "\n" + rest, name, value)
  {
    LinesSnoc(line, rest);
    assert ([line] + StreamLines(rest))[0] == line;
  }

  lemma {:induction false} SaidLater(line: string, rest: string, name: string, value: string)
    requires OneLine(line) && Says(rest, name, value)
    ensures Says(line + "\n" + rest, name, value)
  {
    LinesSnoc(line, rest);
    SaidBehind(line, StreamLines(rest), name, value);
  }

  lemma {:induction false} SaidBehind(line: string, lines: seq<string>, name: string, value: string)
    requires SaidIn(lines, name, value)
    ensures SaidIn([line] + lines, name, value)
  {
    var i :| 0 <= i < |lines| && SaysHere(lines[i], name, value);
    assert ([line] + lines)[i + 1] == lines[i];
  }

  lemma {:induction false} FieldSaid(name: string, value: string, rest: string)
    requires name != "" && ':' !in name && OneLine(name) && OneLine(value)
    ensures Says(Field(name, value) + rest, name, value)
  {
    var line := name + ": " + value;
    assert Field(name, value) + rest == line + "\n" + rest && OneLine(line);
    FieldLine(name, value, line);
    SaidFirst(line, rest, name, value);
  }

  lemma {:induction false} AfterField(name: string, given: Option<string>, rest: string, other: string, value: string)
    requires OneLine(name) && (given.Some? ==> OneLine(given.value)) && Says(rest, other, value)
    ensures Says(OptionalField(name, given) + rest, other, value)
  {
    if given.Some? {
      var line := name + ": " + given.value;
      assert Field(name, given.value) + rest == line + "\n" + rest && OneLine(line);
      SaidLater(line, rest, other, value);
    } else {
      assert OptionalField(name, given) + rest == rest;
    }
  }

  lemma {:induction false} TypeSaid(c: Call)
    requires Accepted(c) && c.Event? && c.event.Some?
    ensures Says(Render(c), "event", c.event.value)
  {
    var number := if c.retry.Some? then Some(Digits(c.retry.value)) else None;
    var body := if c.data.Some? then DataFields(Lines(c.data.value, 0)) else "";
    var rest := OptionalField("retry", number) + (body + ("\n" + ""));
    assert Render(c) == OptionalField("id", c.id) + (OptionalField("event", c.event) + rest) by {
      Flatten(OptionalField("id", c.id), OptionalField("event", c.event), OptionalField("retry", number), body, "\n", "");
      assert Render(c) + "" == Render(c);
    }
    TypeSaidSecond(c.id, c.event.value, rest);
  }

  lemma {:induction false} TypeSaidSecond(id: Option<string>, kind: string, rest: string)
    requires (id.Some? ==> OneLine(id.value)) && OneLine(kind)
    ensures Says(OptionalField("id", id) + (Field("event", kind) + rest), "event", kind)
  {
    FieldSaid("event", kind, rest);
    AfterField("id", id, Field("event", kind) + rest, "event", kind);
  }

  lemma {:induction false} CommentLine(text: string, line: string)
    requires OneLine(text) && line == if text == "" then ":" else ": " + text
    ensures OneLine(line) && SaysHere(line, "", text)
  {
    assert line[0] == ':' && ColonAt(line) == 0 && line[..0] == "";
    assert line[1..] == if text == "" then "" else " " + text;
  }

  lemma {:induction false} CommentSaid(text: string)
    requires OneLine(text)
    ensures Says(Render(Comment(text)), "", text)
  {
    var line := if text == "" then ":" else ": " + text;
    CommentLine(text, line);
    assert Render(Comment(text)) == line + "\n" + "\n";
    SaidFirst(line, "\n", "", text);
  }

  // ----------------------------------------------------- what cannot be carried

  lemma {:induction false} LinesAreLines(s: string)
    ensures forall i :: 0 <= i < |StreamLines(s)| ==> OneLine(StreamLines(s)[i])
    decreases |s|
  {
    var i := BreakAt(s, 0);
    if i < |s| {
      LinesAreLines(s[AfterBreak(s, i)..]);
    }
  }

  lemma {:induction false} SaidIsOneLine(s: string, name: string, value: string)
    requires Says(s, name, value)
    ensures OneLine(value)
  {
    LinesAreLines(s);
    var i :| 0 <= i < |StreamLines(s)| && SaysHere(StreamLines(s)[i], name, value);
    assert OneLine(StreamLines(s)[i]);
  }

  predicate PlainId(p: Parser) { OneLine(p.lastId) && '\0' !in p.lastId }

  lemma {:induction false} LineKeepsId(p: Parser, line: string)
    requires PlainId(p) && OneLine(line)
    ensures PlainId(ProcessLine(p, line))
  {
  }

  // The last event ID is never one with a line break or NUL.
  lemma {:induction false} ParseKeepsId(p: Parser, s: string)
    requires PlainId(p)
    ensures PlainId(Parse(p, s))
    decreases |s|
  {
    var i := BreakAt(s, 0);
    if i < |s| {
      LineKeepsId(p, s[..i]);
      ParseKeepsId(ProcessLine(p, s[..i]), s[AfterBreak(s, i)..]);
    }
  }

  // --------------------------------------------------------------- acceptance

  // A printed record carries its call.
  lemma {:induction false} RecordCarries(c: Call)
    requires Accepted(c)
    ensures Carries(Render(c), c)
  {
    ParseRecord(FRESH, c, "");
    assert Render(c) + "" == Render(c) && Parse(Meaning(FRESH, c), "") == Meaning(FRESH, c);
    match c
    case Event(_, event, _, _) =>
      assert [] + Meaning(FRESH, c).events == Meaning(FRESH, c).events;
      if event.Some? {
        TypeSaid(c);
      }
    case Comment(text) => CommentSaid(text);
    case Retry(_) =>
  }

  // What a stream can carry, whatever the data: a type and an id of one line, an id without
  // NUL, a time that is not negative, a comment of one line.
  lemma {:induction false} CarriedIsPlain(s: string, c: Call)
    requires Carries(s, c)
    ensures match c
            case Event(_, event, id, retry) =>
              && (event.Some? ==> '\r' !in event.value && '\n' !in event.value)
              && (id.Some? ==> '\r' !in id.value && '\n' !in id.value && '\0' !in id.value)
              && (retry.Some? ==> retry.value >= 0)
            case Comment(text) => '\r' !in text && '\n' !in text
            case Retry(ms) => ms >= 0
  {
    ParseKeepsId(FRESH, s);
    match c
    case Event(_, event, _, _) =>
      if event.Some? {
        SaidIsOneLine(s, "event", event.value);
      }
    case Comment(text) => SaidIsOneLine(s, "", text);
    case Retry(_) =>
  }

  // The refusals are the needed ones: a call is accepted exactly when some stream carries it.
  lemma {:induction false} AcceptedExactly(c: Call)
    ensures Accepted(c) <==> exists s :: Carries(s, c)
  {
    if Accepted(c) {
      RecordCarries(c);
    }
    if s :| Carries(s, c) {
      CarriedIsPlain(s, c);
    }
  }

  // ------------------------------------------------------------ normalisation

  // What normalising the data means: text without line breaks stays, and each CRLF, CR or LF
  // after such a text becomes one LF.
  lemma {:induction false} Normalizes(s: string, from: nat, i: nat)
    requires from <= i <= |s| && forall k :: from <= k < i ==> s[k] != '\r' && s[k] != '\n'
    ensures i == |s| ==> Normalize(s, from) == s[from..]
    ensures i + 1 < |s| && s[i] == '\r' && s[i + 1] == '\n' ==> Normalize(s, from) == s[from..i] + ("\n" + Normalize(s, i + 2))
    ensures i < |s| && (s[i] == '\n' || (s[i] == '\r' && !(i + 1 < |s| && s[i + 1] == '\n'))) ==>
              Normalize(s, from) == s[from..i] + ("\n" + Normalize(s, i + 1))
  {
    NormalizeLine(s, from, i);
    if i == |s| {
      assert s[from..i] + "" == s[from..];
    }
  }
}
