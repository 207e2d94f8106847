// Server-sent events: the record printer behind sseEvent(), sseComment() and sseRetry(),
// and the event-stream parser of sections 9.2.5 and 9.2.6 of the WHATWG HTML standard, with
// the theorem that the parser undoes the printer on whole streams
// (src/http_sse.c:40-56, 177-220, 258-432). Text is a sequence of decoded characters.
module EventStream {
  import opened Common
  import opened Decimal

  // ------------------------------------------------------------------ lines

  predicate IsBreak(c: char) { c == '\n' || c == '\r' }

  predicate OneLine(s: string) { forall i :: 0 <= i < |s| ==> !IsBreak(s[i]) }

  // The first line break at or after `from`, or the end.
  function BreakAt(s: string, from: nat): (i: nat)
    requires from <= |s|
    ensures from <= i <= |s|
    ensures forall k :: from <= k < i ==> !IsBreak(s[k])
    ensures i < |s| ==> IsBreak(s[i])
    decreases |s| - from
  {
    if from == |s| || IsBreak(s[from]) then from else BreakAt(s, from + 1)
  }

  // Past the break at `i`: CRLF counts as one.
  function AfterBreak(s: string, i: nat): (j: nat)
    requires i < |s|
    ensures i < j <= |s|
  {
    if s[i] == '\r' && i + 1 < |s| && s[i + 1] == '\n' then i + 2 else i + 1
  }

  // The lines of a text from `from` on; a break at the very end leaves an empty last line.
  function Lines(s: string, from: nat): (lines: seq<string>)
    requires from <= |s|
    ensures lines != [] && forall l :: l in lines ==> OneLine(l)
    decreases |s| - from
  {
    var i := BreakAt(s, from);
    if i == |s| then [s[from..i]] else [s[from..i]] + Lines(s, AfterBreak(s, i))
  }

  // What a consumer should get back: every CR and CRLF turned into LF.
  function Normalize(s: string, from: nat): string
    requires from <= |s|
    decreases |s| - from
  {
    if from == |s| then ""
    else if IsBreak(s[from]) then "\n" + Normalize(s, AfterBreak(s, from))
    else [s[from]] + Normalize(s, from + 1)
  }

  function Join(lines: seq<string>): string
  {
    if |lines| == 0 then "" else if |lines| == 1 then lines[0] else lines[0] + "\n" + Join(lines[1..])
  }

  lemma {:induction false} Assoc(a: string, b: string, c: string)
    ensures a + (b + c) == a + b + c
  {
  }

  lemma {:induction false} NormalizeLine(s: string, from: nat, end: nat)
    requires from <= end <= |s| && forall k :: from <= k < end ==> !IsBreak(s[k])
    ensures Normalize(s, from) == s[from..end] + Normalize(s, end)
    decreases end - from
  {
    var rest := Normalize(s, end);
    if from < end {
      NormalizeLine(s, from + 1, end);
      assert s[from..end] == [s[from]] + s[from + 1..end];
      Assoc([s[from]], s[from + 1..end], rest);
    } else {
      assert s[from..end] + rest == rest;
    }
  }

  lemma {:induction false} JoinedLines(s: string, from: nat)
    requires from <= |s|
    ensures Join(Lines(s, from)) == Normalize(s, from)
    decreases |s| - from
  {
    var i := BreakAt(s, from);
    NormalizeLine(s, from, i);
    if i < |s| {
      var rest := Normalize(s, AfterBreak(s, i));
      JoinedLines(s, AfterBreak(s, i));
      assert Lines(s, from)[1..] == Lines(s, AfterBreak(s, i));
      Assoc(s[from..i], "\n", rest);
    } else {
      assert s[from..i] + "" == s[from..i];
    }
  }

  // ---------------------------------------------------------------- printer

  function Field(name: string, value: string): string { name + ": " + value + "\n" }

  function DataFields(lines: seq<string>): string
  {
    if lines == [] then "" else Field("data", lines[0]) + DataFields(lines[1..])
  }

  function OptionalField(name: string, value: Option<string>): string
  {
    if value.Some? then Field(name, value.value) else ""
  }

  datatype Call =
    | Event(data: Option<string>, event: Option<string>, id: Option<string>, retry: Option<int>)
    | Comment(text: string)
    | Retry(milliseconds: int)

  predicate Accepted(c: Call)
  {
    match c
    case Event(_, event, id, retry) =>
      && (event.Some? ==> OneLine(event.value))
      && (id.Some? ==> OneLine(id.value) && '\0' !in id.value)
      && (retry.Some? ==> retry.value >= 0)
    case Comment(text) => OneLine(text)
    case Retry(ms) => ms >= 0
  }

  // The bytes an accepted call puts on the stream; an event without any argument puts none.
  function Render(c: Call): string
    requires Accepted(c)
  {
    match c
    case Event(data, event, id, retry) =>
      if data.None? && event.None? && id.None? && retry.None? then ""
      else
        OptionalField("id", id) + OptionalField("event", event)
        + OptionalField("retry", if retry.Some? then Some(Digits(retry.value)) else None)
        + (if data.Some? then DataFields(Lines(data.value, 0)) else "") + "\n"
    case Comment(text) => (if text == "" then ":" else ": " + text) + "\n\n"
    case Retry(ms) => Field("retry", Digits(ms)) + "\n"
  }

  method HasNewline(s: string) returns (found: bool)
    ensures found <==> !OneLine(s)
  {
    for i := 0 to |s|
      invariant forall k :: 0 <= k < i ==> !IsBreak(s[k])
    {
      if s[i] == '\n' || s[i] == '\r' {
        return true;
      }
    }
    return false;
  }

  // The same text read off the data directly, without listing the lines.
  function Printed(data: string, from: nat): string
    requires from <= |data|
    decreases |data| - from
  {
    var i := BreakAt(data, from);
    Field("data", data[from..i]) + (if i == |data| then "" else Printed(data, AfterBreak(data, i)))
  }

  lemma {:induction false} PrintedLines(data: string, from: nat)
    requires from <= |data|
    ensures Printed(data, from) == DataFields(Lines(data, from))
    decreases |data| - from
  {
    var i := BreakAt(data, from);
    var lines := Lines(data, from);
    if i == |data| {
      assert lines[1..] == [];
    } else {
      PrintedLines(data, AfterBreak(data, i));
      assert lines[1..] == Lines(data, AfterBreak(data, i));
    }
  }

  lemma {:induction false} PrintedEnd(data: string)
    ensures Printed(data, |data|) == Field("data", "")
  {
    var field := Field("data", "");
    assert data[|data|..|data|] == "" && field + "" == field;
  }

  // One line further.
  lemma {:induction false} PrintedStep(out: string, data: string, start: nat, end: nat, whole: string)
    requires start <= |data| && end == BreakAt(data, start) && out + Printed(data, start) == whole
    ensures end == |data| ==> out + Field("data", data[start..end]) == whole
    ensures end < |data| ==> (out + Field("data", data[start..end])) + Printed(data, AfterBreak(data, end)) == whole
  {
    var field := Field("data", data[start..end]);
    if end == |data| {
      assert field + "" == field;
    } else {
      Assoc(out, field, Printed(data, AfterBreak(data, end)));
    }
  }

  method AppendEmptyData(out: string) returns (r: string)
    ensures r == out + Field("data", "")
  {
    assert "data" + ": " == "data: ";
    assert "data: " + "" == "data: ";
    r := out + "data: \n";
  }

  // One data field per line, split at LF, CR or CRLF.
  method AppendData(data: string) returns (out: string)
    ensures out == DataFields(Lines(data, 0))
  {
    out := "";
    var i := 0;
    ghost var whole := Printed(data, 0);
    PrintedLines(data, 0);
    assert "" + whole == whole;
    while true
      invariant 0 <= i <= |data|
      invariant out + Printed(data, i) == whole
      decreases |data| - i
    {
      var start := i;
      i := LineEnd(data, start);
      PrintedStep(out, data, start, i, whole);
      out := AppendField(out, "data", data[start..i]);
      if i >= |data| {
        break;
      }
      i := SkipBreak(data, i);
      if i >= |data| {
        PrintedEnd(data);
        out := AppendEmptyData(out);
        break;
      }
    }
  }

  method SkipBreak(data: string, i: nat) returns (j: nat)
    requires i < |data|
    ensures j == AfterBreak(data, i)
  {
    if data[i] == '\r' && i + 1 < |data| && data[i + 1] == '\n' {
      return i + 2;
    }
    return i + 1;
  }

  method LineEnd(data: string, start: nat) returns (i: nat)
    requires start <= |data|
    ensures i == BreakAt(data, start)
  {
    i := start;
    while i < |data| && data[i] != '\n' && data[i] != '\r'
      invariant start <= i <= |data| && forall k :: start <= k < i ==> !IsBreak(data[k])
    {
      i := i + 1;
    }
  }

  method AppendField(out: string, name: string, value: string) returns (r: string)
    ensures r == out + Field(name, value)
  {
    r := out + name;
    r := r + ": ";
    if |value| > 0 {
      r := r + value;
    }
    r := r + "\n";
  }

  method SseEvent(data: Option<string>, event: Option<string>, id: Option<string>, retry: Option<int>)
    returns (payload: Option<string>)
    ensures payload.Some? <==> && (event.Some? ==> '\r' !in event.value && '\n' !in event.value)
                               && (id.Some? ==> '\r' !in id.value && '\n' !in id.value && '\0' !in id.value)
                               && (retry.Some? ==> retry.value >= 0)
    ensures payload.Some? ==> Accepted(Event(data, event, id, retry)) && payload.value == Render(Event(data, event, id, retry))
  {
    if event.Some? {
      var bad := HasNewline(event.value);
      if bad { return None; }
    }
    if id.Some? {
      var bad := HasNewline(id.value);
      if bad || '\0' in id.value { return None; }
    }
    if retry.Some? && retry.value < 0 {
      return None;
    }
    if data.None? && event.None? && id.None? && retry.None? {
      return Some("");
    }
    var out := "";
    if id.Some? {
      out := AppendField(out, "id", id.value);
    }
    assert out == OptionalField("id", id);
    if event.Some? {
      out := AppendField(out, "event", event.value);
    }
    assert out == OptionalField("id", id) + OptionalField("event", event);
    ghost var number := if retry.Some? then Some(Digits(retry.value)) else None;
    if retry.Some? {
      out := AppendField(out, "retry", Digits(retry.value));
    }
    assert out == OptionalField("id", id) + OptionalField("event", event) + OptionalField("retry", number);
    if data.Some? {
      var fields := AppendData(data.value);
      out := out + fields;
    }
    return Some(out + "\n");
  }

  method SseComment(text: string) returns (payload: Option<string>)
    ensures payload.Some? <==> '\r' !in text && '\n' !in text
    ensures payload.Some? ==> Accepted(Comment(text)) && payload.value == Render(Comment(text))
  {
    var bad := HasNewline(text);
    if bad { return None; }
    var out := ":";
    if |text| > 0 {
      out := out + " ";
      out := out + text;
    }
    return Some(out + "\n\n");
  }

  method SseRetry(milliseconds: int) returns (payload: Option<string>)
    ensures payload.Some? <==> milliseconds >= 0
    ensures payload.Some? ==> Accepted(Retry(milliseconds)) && payload.value == Render(Retry(milliseconds))
  {
    if milliseconds < 0 { return None; }
    var out := AppendField("", "retry", Digits(milliseconds));
    return Some(out + "\n");
  }

  // ----------------------------------------------------------------- parser

  datatype Dispatched = Dispatched(kind: string, data: string, lastEventId: string)

  datatype Parser = Parser(
    data: string,            // data buffer
    kind: string,            // event type buffer
    lastId: string,          // last event ID buffer
    retry: Option<nat>,      // reconnection time, once set
    events: seq<Dispatched>)

  const FRESH := Parser("", "", "", None, [])

  function ProcessField(p: Parser, name: string, value: string): Parser
  {
    if name == "event" then p.(kind := value)
    else if name == "data" then p.(data := p.data + value + "\n")
    else if name == "id" then (if '\0' in value then p else p.(lastId := value))
    else if name == "retry" then (if value != "" && AllDigits(value) then p.(retry := Some(Value(value))) else p)
    else p
  }

  function Dispatch(p: Parser): Parser
  {
    if p.data == "" then p.(kind := "")
    else
      var text := if p.data[|p.data| - 1] == '\n' then p.data[..|p.data| - 1] else p.data;
      var kind := if p.kind == "" then "message" else p.kind;
      p.(data := "", kind := "", events := p.events + [Dispatched(kind, text, p.lastId)])
  }

  function ColonAt(s: string): (i: nat)
    ensures i <= |s| && (i < |s| ==> s[i] == ':') && forall k :: 0 <= k < i ==> s[k] != ':'
  {
    if s == "" || s[0] == ':' then 0 else 1 + ColonAt(s[1..])
  }

  function DropSpace(s: string): string { if s != "" && s[0] == ' ' then s[1..] else s }

  function ProcessLine(p: Parser, line: string): Parser
  {
    if line == "" then Dispatch(p)
    else
      var colon := ColonAt(line);
      if colon == 0 then p
      else if colon == |line| then ProcessField(p, line, "")
      else ProcessField(p, line[..colon], DropSpace(line[colon + 1..]))
  }

  // Whatever follows the last line break is discarded at the end of the stream.
  function Parse(p: Parser, s: string): Parser
    decreases |s|
  {
    var i := BreakAt(s, 0);
    if i == |s| then p else Parse(ProcessLine(p, s[..i]), s[AfterBreak(s, i)..])
  }

  // ------------------------------------------------------------ round trip

  // What a stream of accepted calls means: the events with data, in order, each with its
  // type and the latest id so far; and the latest reconnection time.
  function Meaning(p: Parser, c: Call): Parser
    requires Accepted(c)
  {
    match c
    case Event(data, event, id, retry) =>
      var lastId := if id.Some? then id.value else p.lastId;
      var kind := if event.Some? && event.value != "" then event.value else "message";
      p.(lastId := lastId,
         retry := if retry.Some? then Some(retry.value) else p.retry,
         events := if data.Some? then p.events + [Dispatched(kind, Normalize(data.value, 0), lastId)]
                   else p.events)
    case Comment(_) => p
    case Retry(ms) => p.(retry := Some(ms))
  }

  predicate AllAccepted(calls: seq<Call>) { forall c :: c in calls ==> Accepted(c) }

  function Stream(calls: seq<Call>): string
    requires AllAccepted(calls)
  {
    if calls == [] then "" else Render(calls[0]) + Stream(calls[1..])
  }

  function MeaningOf(p: Parser, calls: seq<Call>): Parser
    requires AllAccepted(calls)
    decreases |calls|
  {
    if calls == [] then p else MeaningOf(Meaning(p, calls[0]), calls[1..])
  }

  lemma {:induction false} ParseLine(p: Parser, line: string, rest: string)
    requires OneLine(line)
    ensures Parse(p, line + "\n" + rest) == Parse(ProcessLine(p, line), rest)
  {
    var s := line + "\n" + rest;
    var i := BreakAt(s, 0);
    assert s[|line|] == '\n' && forall k :: 0 <= k < |line| ==> s[k] == line[k];
    assert i == |line|;
    assert s[..i] == line && s[AfterBreak(s, i)..] == rest;
  }

  lemma {:induction false} FieldLine(name: string, value: string, line: string)
    requires name != "" && ':' !in name && line == name + ": " + value
    ensures ColonAt(line) == |name| < |line| && line[..|name|] == name && DropSpace(line[|name| + 1..]) == value
  {
    assert line[|name|] == ':' && forall k :: 0 <= k < |name| ==> line[k] == name[k];
    assert line[|name| + 1..] == " " + value;
  }

  lemma {:induction false} ParseField(p: Parser, name: string, value: string, rest: string)
    requires name != "" && ':' !in name && OneLine(name) && OneLine(value)
    ensures Parse(p, Field(name, value) + rest) == Parse(ProcessField(p, name, value), rest)
  {
    var line := name + ": " + value;
    assert Field(name, value) + rest == line + "\n" + rest;
    assert OneLine(line);
    ParseLine(p, line, rest);
    FieldLine(name, value, line);
  }

  lemma {:induction false} ParseOptional(p: Parser, name: string, value: Option<string>, rest: string)
    requires name != "" && ':' !in name && OneLine(name) && (value.Some? ==> OneLine(value.value))
    ensures Parse(p, OptionalField(name, value) + rest)
         == Parse(if value.Some? then ProcessField(p, name, value.value) else p, rest)
  {
    if value.Some? {
      ParseField(p, name, value.value, rest);
    } else {
      assert OptionalField(name, value) + rest == rest;
    }
  }

  function Terminated(lines: seq<string>): string
  {
    if lines == [] then "" else lines[0] + "\n" + Terminated(lines[1..])
  }

  lemma {:induction false} TerminatedJoin(lines: seq<string>)
    requires lines != []
    ensures Terminated(lines) == Join(lines) + "\n"
  {
    if |lines| > 1 {
      TerminatedJoin(lines[1..]);
    } else {
      assert lines[1..] == [];
    }
  }

  lemma {:induction false} DataGrows(data: string, lines: seq<string>)
    requires lines != []
    ensures data + lines[0] + "\n" + Terminated(lines[1..]) == data + Terminated(lines)
  {
  }

  lemma {:induction false} ParseData(p: Parser, lines: seq<string>, rest: string)
    requires forall l :: l in lines ==> OneLine(l)
    ensures Parse(p, DataFields(lines) + rest) == Parse(p.(data := p.data + Terminated(lines)), rest)
    decreases |lines|
  {
    if lines == [] {
      assert DataFields(lines) + rest == rest && p.data + Terminated(lines) == p.data;
    } else {
      var tail := DataFields(lines[1..]) + rest;
      Assoc(Field("data", lines[0]), DataFields(lines[1..]), rest);
      ParseField(p, "data", lines[0], tail);
      var q := p.(data := p.data + lines[0] + "\n");
      ParseData(q, lines[1..], rest);
      DataGrows(p.data, lines);
    }
  }

  lemma {:induction false} ParseBlank(p: Parser, rest: string)
    ensures Parse(p, "\n" + rest) == Parse(Dispatch(p), rest)
  {
    assert "\n" + rest == "" + "\n" + rest;
    ParseLine(p, "", rest);
  }

  lemma {:induction false} ParseId(p: Parser, id: Option<string>, rest: string)
    requires id.Some? ==> OneLine(id.value) && '\0' !in id.value
    ensures Parse(p, OptionalField("id", id) + rest) == Parse(if id.Some? then p.(lastId := id.value) else p, rest)
  {
    ParseOptional(p, "id", id, rest);
    assert "id"[0] != "event"[0] && "id"[0] != "data"[0];
  }

  lemma {:induction false} ParseKind(p: Parser, kind: Option<string>, rest: string)
    requires kind.Some? ==> OneLine(kind.value)
    ensures Parse(p, OptionalField("event", kind) + rest) == Parse(if kind.Some? then p.(kind := kind.value) else p, rest)
  {
    ParseOptional(p, "event", kind, rest);
  }

  lemma {:induction false} ParseTime(p: Parser, retry: Option<int>, number: Option<string>, rest: string)
    requires retry.Some? ==> retry.value >= 0
    requires number == if retry.Some? then Some(Digits(retry.value)) else None
    ensures Parse(p, OptionalField("retry", number) + rest)
         == Parse(if retry.Some? then p.(retry := Some(retry.value)) else p, rest)
  {
    DigitsOneLine(number);
    ParseOptional(p, "retry", number, rest);
    RetryRead(p, retry);
  }

  // The id, event and retry fields of a record.
  lemma {:induction false} ParseHead(p: Parser, c: Call, number: Option<string>, rest: string)
    requires Accepted(c) && c.Event? && p.kind == ""
    requires number == if c.retry.Some? then Some(Digits(c.retry.value)) else None
    ensures Parse(p, OptionalField("id", c.id) + (OptionalField("event", c.event) + (OptionalField("retry", number) + rest)))
         == Parse(AfterHead(p, c), rest)
  {
    var tail := OptionalField("retry", number) + rest;
    ParseId(p, c.id, OptionalField("event", c.event) + tail);
    var p1 := if c.id.Some? then p.(lastId := c.id.value) else p;
    ParseKind(p1, c.event, tail);
    var p2 := if c.event.Some? then p1.(kind := c.event.value) else p1;
    ParseTime(p2, c.retry, number, rest);
  }

  function AfterHead(p: Parser, c: Call): Parser
    requires Accepted(c) && c.Event?
  {
    p.(lastId := if c.id.Some? then c.id.value else p.lastId,
       kind := if c.event.Some? then c.event.value else p.kind,
       retry := if c.retry.Some? then Some(c.retry.value) else p.retry)
  }

  lemma {:induction false} Flatten(a: string, b: string, c: string, d: string, e: string, rest: string)
    ensures a + b + c + d + e + rest == a + (b + (c + (d + (e + rest))))
  {
    Assoc(a + b + c + d, e, rest);
    Assoc(a + b + c, d, e + rest);
    Assoc(a + b, c, d + (e + rest));
    Assoc(a, b, c + (d + (e + rest)));
  }

  lemma {:induction false} DispatchRecord(p: Parser, q: Parser, c: Call)
    requires Accepted(c) && c.Event? && p.data == "" && p.kind == ""
    requires q == if c.data.Some? then AfterHead(p, c).(data := Normalize(c.data.value, 0) + "\n") else AfterHead(p, c)
    ensures Dispatch(q) == Meaning(p, c)
  {
    if c.data.Some? {
      var text := Normalize(c.data.value, 0);
      assert (text + "\n")[..|text|] == text;
    }
  }

  // The fields of one record, read from a parser that is between records.
  lemma {:induction false} ParseFields(p: Parser, c: Call, rest: string)
    requires Accepted(c) && c.Event? && p.data == "" && p.kind == ""
    requires c != Event(None, None, None, None)
    ensures Parse(p, Render(c) + rest) == Parse(Meaning(p, c), rest)
  {
    var number := if c.retry.Some? then Some(Digits(c.retry.value)) else None;
    var body := if c.data.Some? then DataFields(Lines(c.data.value, 0)) else "";
    var q := AfterHead(p, c);
    var r := if c.data.Some? then q.(data := Normalize(c.data.value, 0) + "\n") else q;
    assert Parse(p, Render(c) + rest) == Parse(q, body + ("\n" + rest)) by {
      Flatten(OptionalField("id", c.id), OptionalField("event", c.event), OptionalField("retry", number), body, "\n", rest);
      ParseHead(p, c, number, body + ("\n" + rest));
    }
    assert Parse(q, body + ("\n" + rest)) == Parse(r, "\n" + rest) by {
      ParseBody(q, c, "\n" + rest);
    }
    ParseBlank(r, rest);
    DispatchRecord(p, r, c);
  }

  lemma {:induction false} DigitsOneLine(number: Option<string>)
    requires number.Some? ==> AllDigits(number.value)
    ensures number.Some? ==> OneLine(number.value)
  {
  }

  lemma {:induction false} RetryRead(p: Parser, retry: Option<int>)
    requires retry.Some? ==> retry.value >= 0
    ensures retry.Some? ==> ProcessField(p, "retry", Digits(retry.value)) == p.(retry := Some(retry.value))
  {
    if retry.Some? {
      DigitsRoundTrip(retry.value);
    }
  }

  lemma {:induction false} ParseBody(p: Parser, c: Call, rest: string)
    requires c.Event? && p.data == ""
    ensures Parse(p, (if c.data.Some? then DataFields(Lines(c.data.value, 0)) else "") + rest)
         == Parse(if c.data.Some? then p.(data := Normalize(c.data.value, 0) + "\n") else p, rest)
  {
    if c.data.Some? {
      var lines := Lines(c.data.value, 0);
      ParseData(p, lines, rest);
      TerminatedJoin(lines);
      JoinedLines(c.data.value, 0);
      assert "" + Terminated(lines) == Terminated(lines);
    } else {
      assert "" + rest == rest;
    }
  }

  lemma {:induction false} ParseComment(p: Parser, text: string, rest: string)
    requires OneLine(text) && p.data == "" && p.kind == ""
    ensures Parse(p, Render(Comment(text)) + rest) == Parse(p, rest)
  {
    var line := if text == "" then ":" else ": " + text;
    assert Render(Comment(text)) + rest == line + "\n" + ("\n" + rest);
    assert OneLine(line);
    ParseLine(p, line, "\n" + rest);
    ParseBlank(p, rest);
  }

  lemma {:induction false} ParseRetry(p: Parser, ms: nat, rest: string)
    requires p.data == "" && p.kind == ""
    ensures Parse(p, Render(Retry(ms)) + rest) == Parse(p.(retry := Some(ms)), rest)
  {
    assert Render(Retry(ms)) + rest == Field("retry", Digits(ms)) + ("\n" + rest);
    DigitsOneLine(Some(Digits(ms)));
    ParseField(p, "retry", Digits(ms), "\n" + rest);
    RetryRead(p, Some(ms));
    ParseBlank(p.(retry := Some(ms)), rest);
  }

  // One record parses to its meaning and leaves the buffers empty again.
  lemma {:induction false} ParseRecord(p: Parser, c: Call, rest: string)
    requires Accepted(c) && p.data == "" && p.kind == ""
    ensures Parse(p, Render(c) + rest) == Parse(Meaning(p, c), rest)
    ensures Meaning(p, c).data == "" && Meaning(p, c).kind == ""
  {
    match c
    case Event(data, event, id, retry) =>
      if c == Event(None, None, None, None) {
        assert Render(c) + rest == rest;
      } else {
        ParseFields(p, c, rest);
      }
    case Comment(text) => ParseComment(p, text, rest);
    case Retry(ms) => ParseRetry(p, ms, rest);
  }

  lemma {:induction false} ParseStream(p: Parser, calls: seq<Call>)
    requires AllAccepted(calls) && p.data == "" && p.kind == ""
    ensures Parse(p, Stream(calls)) == MeaningOf(p, calls)
    ensures MeaningOf(p, calls).data == "" && MeaningOf(p, calls).kind == ""
    decreases |calls|
  {
    if calls != [] {
      ParseRecord(p, calls[0], Stream(calls[1..]));
      ParseStream(Meaning(p, calls[0]), calls[1..]);
    }
  }

  // The round trip: for every sequence of accepted calls, the standard parser reads the
  // concatenated records as exactly what the calls meant, and nothing leaks from one
  // record into the next.
  lemma {:induction false} RoundTrip(calls: seq<Call>)
    requires AllAccepted(calls)
    ensures Parse(FRESH, Stream(calls)) == MeaningOf(FRESH, calls)
  {
    ParseStream(FRESH, calls);
  }

  // The events of a stream are the data-carrying calls, one for one and in order.
  function DataCalls(calls: seq<Call>): seq<string>
  {
    if calls == [] then []
    else
      (if calls[0].Event? && calls[0].data.Some? then [Normalize(calls[0].data.value, 0)] else [])
      + DataCalls(calls[1..])
  }

  function Payloads(events: seq<Dispatched>): (r: seq<string>)
    ensures |r| == |events|
  {
    seq(|events|, i requires 0 <= i < |events| => events[i].data)
  }

  lemma {:induction false} MeaningPayload(p: Parser, c: Call)
    requires Accepted(c)
    ensures Payloads(Meaning(p, c).events)
         == Payloads(p.events) + (if c.Event? && c.data.Some? then [Normalize(c.data.value, 0)] else [])
  {
  }

  lemma {:induction false} AssocTexts(a: seq<string>, b: seq<string>, c: seq<string>)
    ensures (a + b) + c == a + (b + c)
  {
  }

  lemma {:induction false} MeaningPayloads(p: Parser, calls: seq<Call>)
    requires AllAccepted(calls)
    ensures Payloads(MeaningOf(p, calls).events) == Payloads(p.events) + DataCalls(calls)
    decreases |calls|
  {
    if calls == [] {
      assert Payloads(p.events) + [] == Payloads(p.events);
    } else {
      var first := if calls[0].Event? && calls[0].data.Some? then [Normalize(calls[0].data.value, 0)] else [];
      var q, rest := Meaning(p, calls[0]), DataCalls(calls[1..]);
      MeaningPayload(p, calls[0]);
      MeaningPayloads(q, calls[1..]);
      AssocTexts(Payloads(p.events), first, rest);
      assert MeaningOf(p, calls) == MeaningOf(q, calls[1..]) && DataCalls(calls) == first + rest;
    }
  }

  lemma {:induction false} EventsAreDataCalls(calls: seq<Call>)
    requires AllAccepted(calls)
    ensures Payloads(Parse(FRESH, Stream(calls)).events) == DataCalls(calls)
  {
    RoundTrip(calls);
    MeantPayloads(calls, Parse(FRESH, Stream(calls)));
  }

  lemma {:induction false} MeantPayloads(calls: seq<Call>, parsed: Parser)
    requires AllAccepted(calls) && parsed == MeaningOf(FRESH, calls)
    ensures Payloads(parsed.events) == DataCalls(calls)
  {
    MeaningPayloads(FRESH, calls);
    assert Payloads(FRESH.events) == [];
  }
}
