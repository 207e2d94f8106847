// The response object and the life every handler call leads it through
// (src/http_response.c:40-176, 187-1335, src/http_response_internal.h:27-96,
// src/http_sse.c:59-175, 235-432, src/http_response_server_api.c:223-262).
module HttpResponse {
  import opened Common
  import EventStream

  // A header value as stored: one text, or an array of texts.
  datatype Value = One(text: string) | Many(texts: seq<string>)

  function Texts(v: Value): seq<string> { if v.One? then [v.text] else v.texts }

  function LowerChar(c: char): char { if 'A' <= c <= 'Z' then c - 'A' + 'a' else c }

  function Lower(s: string): (r: string)
    ensures |r| == |s|
  {
    if s == "" then "" else [LowerChar(s[0])] + Lower(s[1..])
  }

  type Headers = map<string, Value>

  // A value set anew: an array of one is stored as its text.
  function Stored(v: Value): Value { if v.Many? && |v.texts| == 1 then One(v.texts[0]) else v }

  // setHeader() replaces, addHeader() appends and turns a single text into an array.
  function WithValue(h: Headers, name: string, v: Value, replace: bool): Headers
  {
    var key := Lower(name);
    if replace || key !in h then h[key := Stored(v)] else h[key := Many(Texts(h[key]) + Texts(v))]
  }

  // What goes to the protocol's stream operations.
  datatype Piece = Raw(text: string) | Message(text: string, gzipped: bool)
  datatype Wire = Chunk(piece: Piece) | Ended

  datatype Head = Head(status: int, reason: Option<string>, headers: Headers)

  // The buffered text, or a text borrowed from a cache.
  datatype Body = Body(text: string, view: Option<string>)

  datatype State = State(
    head: Head, trailers: map<string, string>, body: Body,
    headersSent: bool, closed: bool, committed: bool, streaming: bool, sse: bool,
    isHead: bool, grpc: bool, gzip: bool,
    capable: bool,              // stream operations are installed
    file: Option<string>,       // a pending sendFile()
    wire: seq<Wire>)

  function Fresh(isHead: bool, grpc: bool, capable: bool): State
  {
    State(Head(200, None, map[]), map[], Body("", None), false, false, false, false, false, isHead, grpc, false, capable, None, [])
  }

  datatype Call =
    | SetStatusCode(code: int)
    | SetReasonPhrase(phrase: string)
    | SetHeader(name: string, value: Value)
    | AddHeader(name: string, value: Value)
    | ResetHeaders
    | SetTrailer(name: string, text: string)
    | SetTrailers(given: seq<(string, string)>)
    | ResetTrailers
    | Write(data: string)
    | SetBody(data: string)
    | Json(encoded: Option<string>, code: int)   // None when encoding fails
    | Html(data: string)
    | Redirect(url: string, code: int)
    | Send(data: string)
    | SetGrpcEncoding(encoding: string)
    | WriteMessage(data: string, deflates: bool)
    | SendFile(path: string, code: int, breaks: bool)
    | End(final: Option<string>)
    | SseStart
    | Sse(record: EventStream.Call)
    | BodyText(data: string)                     // by the server, not a handler
    | BodyView(data: string)

  predicate ByHandler(c: Call) { !c.BodyText? && !c.BodyView? }

  // The two guards.
  predicate Locked(s: State) { s.closed || s.streaming || s.file.Some? }

  predicate TrailersLocked(s: State) { s.closed || s.file.Some? }

  function Started(s: State): State
  {
    if s.streaming then s else s.(streaming := true, committed := true, headersSent := true)
  }

  function Appended(s: State, p: Piece): State { s.(wire := s.wire + [Chunk(p)]) }

  const EVENT_STREAM: string := "text/event-stream"

  predicate Conflicts(h: Headers)
  {
    "content-type" in h
    && var texts := Texts(h["content-type"]);
       |texts| > 0 && !(|texts[0]| >= 17 && Lower(texts[0][..17]) == EVENT_STREAM)
  }

  function SseHeaders(h: Headers): Headers
  {
    h["content-type" := One(EVENT_STREAM)]["cache-control" := One("no-cache, no-transform")]["x-accel-buffering" := One("no")]
  }

  // Whether the event stream may start or has started, and the state with it started.
  predicate CanStart(s: State)
  {
    if s.streaming then s.sse
    else !s.closed && s.file.None? && s.capable && !Conflicts(s.head.headers)
  }

  function SseStarted(s: State): State
  {
    if s.streaming then s else Started(s).(sse := true, head := s.head.(headers := SseHeaders(s.head.headers)))
  }

  function Trailed(t: map<string, string>, given: seq<(string, string)>): map<string, string>
  {
    if given == [] then t
    else Trailed(t, given[..|given| - 1])[Lower(given[|given| - 1].0) := given[|given| - 1].1]
  }

  const JSON_FAILED: string := "{\"error\":\"json encoding failed\"}"

  const NO_RECORD: EventStream.Call := EventStream.Event(None, None, None, None)

  // The calls that fill the head or the body, all behind the same guard.
  predicate Fills(c: Call)
  {
    || c.SetStatusCode? || c.SetReasonPhrase? || c.SetHeader? || c.AddHeader? || c.ResetHeaders? || c.Redirect?
    || c.Write? || c.SetBody? || c.Json? || c.Html?
  }

  // What such a call makes of the head and the body; nothing when its arguments are refused.
  function Filled(h: Head, b: Body, c: Call): Option<(Head, Body)>
    requires Fills(c)
  {
    match c
    case SetStatusCode(code) => if code < 100 || code > 599 then None else Some((h.(status := code), b))
    case SetReasonPhrase(phrase) => Some((h.(reason := Some(phrase)), b))
    case SetHeader(name, value) => Some((h.(headers := WithValue(h.headers, name, value, true)), b))
    case AddHeader(name, value) => Some((h.(headers := WithValue(h.headers, name, value, false)), b))
    case ResetHeaders => Some((h.(headers := map[]), b))
    case Redirect(url, code) =>
      if code < 300 || code > 399 then None
      else Some((h.(status := code, headers := h.headers["location" := One(url)]), b))
    case Write(data) => Some((h, Body(b.text + data, None)))
    case SetBody(data) => Some((h, Body(data, None)))
    case Json(encoded, code) => if code < 100 || code > 599 then None else Some(Jsoned(h, encoded, code))
    case Html(data) => Some((h.(headers := h.headers["content-type" := One("text/html; charset=utf-8")]), Body(data, None)))
  }

  function Typed(h: Headers): Headers
  {
    if "content-type" in h then h else h["content-type" := One("application/json")]
  }

  function Jsoned(h: Head, encoded: Option<string>, code: int): (Head, Body)
  {
    (h.(headers := Typed(h.headers), status := if encoded.Some? then code else 500),
     Body(if encoded.Some? then encoded.value else JSON_FAILED, None))
  }

  predicate Trails(c: Call) { c.SetTrailer? || c.SetTrailers? || c.ResetTrailers? }

  function NewTrailers(t: map<string, string>, c: Call): map<string, string>
    requires Trails(c)
  {
    match c
    case SetTrailer(name, text) => t[Lower(name) := text]
    case SetTrailers(given) => Trailed(t, given)
    case ResetTrailers => map[]
  }

  // The state after a call and whether the call went through; a call that throws leaves the
  // state as it was.
  function Apply(s: State, c: Call): (State, bool)
  {
    if Fills(c) then
      var r := Filled(s.head, s.body, c);
      if Locked(s) || r.None? then (s, false) else (s.(head := r.value.0, body := r.value.1), true)
    else if Trails(c) then
      if TrailersLocked(s) then (s, false) else (s.(trailers := NewTrailers(s.trailers, c)), true)
    else Streamed(s, c)
  }

  function Streamed(s: State, c: Call): (State, bool)
    requires !Fills(c) && !Trails(c)
  {
    match c
    case Send(data) =>
      if s.closed || s.sse || s.file.Some? || !s.capable then (s, false)
      else if s.isHead then (s, true)
      else (Appended(Started(s), Raw(data)), true)
    case SetGrpcEncoding(encoding) => Encoded(s, encoding)
    case WriteMessage(data, deflates) =>
      if s.closed || s.file.Some? || !s.capable then (s, false)
      else (Appended(Started(s), Message(data, s.gzip && deflates)), true)
    case SendFile(path, code, breaks) =>
      if s.closed || s.streaming || s.headersSent || s.file.Some? || path == "" || path[0] != '/'
         || (code != 0 && (code < 100 || code > 599)) || breaks
      then (s, false) else (s.(file := Some(path)), true)
    case End(final) => if s.closed || s.file.Some? then (s, false) else (Finished(s, final), true)
    case SseStart =>
      if s.streaming || !CanStart(s) then (s, false) else (SseStarted(s), true)
    case Sse(record) =>
      if s.closed || !EventStream.Accepted(record) then (s, false)
      else if record == NO_RECORD then (s, true)
      else if !CanStart(s) then (s, false)
      else (Appended(SseStarted(s), Raw(EventStream.Render(record))), true)
    case BodyText(data) => (s.(body := Body(data, None)), true)
    case BodyView(data) => (s.(body := Body("", if data != "" then Some(data) else None)), true)
  }

  function Encoded(s: State, encoding: string): (State, bool)
  {
    if !s.grpc || s.closed || s.streaming || s.headersSent then (s, false)
    else
      var h := Reencoded(s.head.headers, encoding);
      if h.None? then (s, false)
      else (s.(gzip := Lower(encoding) == "gzip", head := s.head.(headers := h.value)), true)
  }

  function Reencoded(h: Headers, encoding: string): Option<Headers>
  {
    if Lower(encoding) == "identity" then Some(h - {"grpc-encoding"})
    else if Lower(encoding) == "gzip" then Some(h["grpc-encoding" := One("gzip")])
    else None
  }

  function Finished(s: State, final: Option<string>): State
  {
    if s.streaming then StreamFinished(s, final)
    else
      var b := if final.Some? then Body(s.body.text + final.value, None) else s.body;
      s.(body := b, closed := true, headersSent := true)
  }

  function StreamFinished(s: State, final: Option<string>): State
  {
    var t := if final.Some? && final.value != "" then Appended(s, Raw(final.value)) else s;
    t.(wire := t.wire + [Ended], closed := true)
  }

  // ------------------------------------------------------------------ object

  class Response {
    var status: int
    var reason: Option<string>
    var headers: Headers
    var trailers: map<string, string>
    var body: string
    var view: Option<string>
    var headersSent: bool
    var closed: bool
    var committed: bool
    var streaming: bool
    var sse: bool
    const isHead: bool
    const grpc: bool
    var gzip: bool
    const capable: bool
    var file: Option<string>
    var wire: seq<Wire>

    function Now(): State
      reads this
    {
      State(Head(status, reason, headers), trailers, Body(body, view), headersSent, closed, committed, streaming, sse,
            isHead, grpc, gzip, capable, file, wire)
    }

    constructor (isHead: bool, grpc: bool, capable: bool)
      ensures Now() == Fresh(isHead, grpc, capable)
    {
      this.isHead, this.grpc, this.capable := isHead, grpc, capable;
      status, reason, headers, trailers, body, view := 200, None, map[], map[], "", None;
      headersSent, closed, committed, streaming, sse, gzip := false, false, false, false, false, false;
      file, wire := None, [];
    }

    method CheckClosed() returns (locked: bool)
      ensures locked == Locked(Now())
    {
      if closed { return true; }
      if streaming { return true; }
      return file.Some?;
    }

    method CheckTrailerSealed() returns (locked: bool)
      ensures locked == TrailersLocked(Now())
    {
      if closed { return true; }
      return file.Some?;
    }

    method PutValue(name: string, value: Value, replace: bool)
      modifies this`headers
      ensures headers == WithValue(old(headers), name, value, replace)
    {
      var key := Lower(name);
      if replace || key !in headers {
        if value.Many? && |value.texts| == 1 {
          headers := headers[key := One(value.texts[0])];
        } else {
          headers := headers[key := value];
        }
      } else {
        var existing := if headers[key].One? then [headers[key].text] else headers[key].texts;
        if value.Many? {
          headers := headers[key := Many(existing + value.texts)];
        } else {
          headers := headers[key := Many(existing + [value.text])];
        }
      }
    }

    method ReplaceBody(text: string)
      modifies this`body, this`view
      ensures body == text && view == None
    {
      view := None;
      body := text;
    }

    method StartStreaming()
      modifies this`streaming, this`committed, this`headersSent
      ensures Now() == Started(old(Now()))
    {
      if !streaming {
        streaming, committed, headersSent := true, true, true;
      }
    }

    method Append(piece: Piece)
      modifies this`wire
      ensures Now() == Appended(old(Now()), piece)
    {
      wire := wire + [Chunk(piece)];
    }

    method SetStatusCode(code: int) returns (ok: bool)
      modifies this
      ensures (Now(), ok) == Apply(old(Now()), Call.SetStatusCode(code))
    {
      var locked := CheckClosed();
      if locked || code < 100 || code > 599 { return false; }
      status := code;
      return true;
    }

    method SetReasonPhrase(phrase: string) returns (ok: bool)
      modifies this
      ensures (Now(), ok) == Apply(old(Now()), Call.SetReasonPhrase(phrase))
    {
      var locked := CheckClosed();
      if locked { return false; }
      reason := Some(phrase);
      return true;
    }

    method SetHeader(name: string, value: Value) returns (ok: bool)
      modifies this
      ensures (Now(), ok) == Apply(old(Now()), Call.SetHeader(name, value))
    {
      var locked := CheckClosed();
      if locked { return false; }
      PutValue(name, value, true);
      return true;
    }

    method AddHeader(name: string, value: Value) returns (ok: bool)
      modifies this
      ensures (Now(), ok) == Apply(old(Now()), Call.AddHeader(name, value))
    {
      var locked := CheckClosed();
      if locked { return false; }
      PutValue(name, value, false);
      return true;
    }

    method ResetHeaders() returns (ok: bool)
      modifies this
      ensures (Now(), ok) == Apply(old(Now()), Call.ResetHeaders)
    {
      var locked := CheckClosed();
      if locked { return false; }
      headers := map[];
      return true;
    }

    method SetTrailer(name: string, text: string) returns (ok: bool)
      modifies this
      ensures (Now(), ok) == Apply(old(Now()), Call.SetTrailer(name, text))
    {
      var locked := CheckTrailerSealed();
      if locked { return false; }
      trailers := trailers[Lower(name) := text];
      return true;
    }

    method SetTrailers(given: seq<(string, string)>) returns (ok: bool)
      modifies this
      ensures (Now(), ok) == Apply(old(Now()), Call.SetTrailers(given))
    {
      var locked := CheckTrailerSealed();
      if locked { return false; }
      for i := 0 to |given|
        modifies this`trailers
        invariant trailers == Trailed(old(trailers), given[..i])
      {
        assert given[..i + 1][..i] == given[..i];
        trailers := trailers[Lower(given[i].0) := given[i].1];
      }
      assert given[..|given|] == given;
      return true;
    }

    method ResetTrailers() returns (ok: bool)
      modifies this
      ensures (Now(), ok) == Apply(old(Now()), Call.ResetTrailers)
    {
      var locked := CheckTrailerSealed();
      if locked { return false; }
      trailers := map[];
      return true;
    }

    method Write(data: string) returns (ok: bool)
      modifies this
      ensures (Now(), ok) == Apply(old(Now()), Call.Write(data))
    {
      var locked := CheckClosed();
      if locked { return false; }
      view := None;
      body := body + data;
      return true;
    }

    method SetBody(data: string) returns (ok: bool)
      modifies this
      ensures (Now(), ok) == Apply(old(Now()), Call.SetBody(data))
    {
      var locked := CheckClosed();
      if locked { return false; }
      ReplaceBody(data);
      return true;
    }

    method Json(encoded: Option<string>, code: int) returns (ok: bool)
      modifies this
      ensures (Now(), ok) == Apply(old(Now()), Call.Json(encoded, code))
    {
      var locked := CheckClosed();
      if locked || code < 100 || code > 599 { return false; }
      FillJson(encoded, code);
      return true;
    }

    method EnsureJsonType()
      modifies this`headers
      ensures headers == Typed(old(headers))
    {
      if "content-type" !in headers {
        headers := headers["content-type" := One("application/json")];
      }
    }

    method FillJson(encoded: Option<string>, code: int)
      modifies this`headers, this`status, this`body, this`view
      ensures (Head(status, reason, headers), Body(body, view)) == Jsoned(old(Head(status, reason, headers)), encoded, code)
    {
      EnsureJsonType();
      status := code;
      if encoded.None? {
        ReplaceBody(JSON_FAILED);
        status := 500;
      } else {
        ReplaceBody(encoded.value);
      }
    }

    method Html(data: string) returns (ok: bool)
      modifies this
      ensures (Now(), ok) == Apply(old(Now()), Call.Html(data))
    {
      var locked := CheckClosed();
      if locked { return false; }
      headers := headers["content-type" := One("text/html; charset=utf-8")];
      ReplaceBody(data);
      return true;
    }

    method Redirect(url: string, code: int) returns (ok: bool)
      modifies this
      ensures (Now(), ok) == Apply(old(Now()), Call.Redirect(url, code))
    {
      var locked := CheckClosed();
      if locked || code < 300 || code > 399 { return false; }
      status := code;
      headers := headers["location" := One(url)];
      return true;
    }

    method Send(data: string) returns (ok: bool)
      modifies this
      ensures (Now(), ok) == Apply(old(Now()), Call.Send(data))
    {
      if closed || sse || file.Some? || !capable { return false; }
      if isHead { return true; }
      StartStreaming();
      Append(Raw(data));
      return true;
    }

    method SetGrpcEncoding(encoding: string) returns (ok: bool)
      modifies this
      ensures (Now(), ok) == Apply(old(Now()), Call.SetGrpcEncoding(encoding))
    {
      if !grpc { return false; }
      if closed || streaming || headersSent { return false; }
      if Lower(encoding) == "identity" {
        gzip := false;
        headers := headers - {"grpc-encoding"};
        return true;
      }
      if Lower(encoding) != "gzip" { return false; }
      gzip := true;
      headers := headers["grpc-encoding" := One("gzip")];
      return true;
    }

    method WriteMessage(data: string, deflates: bool) returns (ok: bool)
      modifies this
      ensures (Now(), ok) == Apply(old(Now()), Call.WriteMessage(data, deflates))
    {
      if closed || file.Some? || !capable { return false; }
      var gzipped := gzip && deflates;
      StartStreaming();
      Append(Message(data, gzipped));
      return true;
    }

    method SendFile(path: string, code: int, breaks: bool) returns (ok: bool)
      modifies this
      ensures (Now(), ok) == Apply(old(Now()), Call.SendFile(path, code, breaks))
    {
      if closed { return false; }
      if streaming || headersSent { return false; }
      if file.Some? { return false; }
      if |path| == 0 { return false; }
      if path[0] != '/' { return false; }
      if code != 0 && (code < 100 || code > 599) { return false; }
      if breaks { return false; }
      file := Some(path);
      return true;
    }

    method End(final: Option<string>) returns (ok: bool)
      modifies this
      ensures (Now(), ok) == Apply(old(Now()), Call.End(final))
    {
      if closed || file.Some? { return false; }
      if streaming {
        EndStream(final);
        return true;
      }
      if final.Some? {
        ReplaceBody(body + final.value);
      }
      closed := true;
      headersSent := true;
      return true;
    }

    method EndStream(final: Option<string>)
      modifies this
      ensures Now() == StreamFinished(old(Now()), final)
    {
      if final.Some? && |final.value| > 0 {
        Append(Raw(final.value));
      }
      wire := wire + [Ended];
      closed := true;
    }

    method ContentTypeConflicts() returns (conflict: bool)
      ensures conflict == Conflicts(headers)
    {
      if "content-type" !in headers { return false; }
      var value := headers["content-type"];
      var texts := if value.One? then [value.text] else value.texts;
      if |texts| == 0 { return false; }
      return !(|texts[0]| >= 17 && Lower(texts[0][..17]) == EVENT_STREAM);
    }

    method EnsureStarted() returns (ok: bool)
      modifies this
      ensures ok == CanStart(old(Now())) && Now() == if ok then SseStarted(old(Now())) else old(Now())
    {
      if streaming {
        return sse;
      }
      if closed || file.Some? || !capable { return false; }
      var conflict := ContentTypeConflicts();
      if conflict { return false; }
      headers := headers["content-type" := One(EVENT_STREAM)];
      headers := headers["cache-control" := One("no-cache, no-transform")];
      headers := headers["x-accel-buffering" := One("no")];
      StartStreaming();
      sse := true;
      return true;
    }

    method SseStart() returns (ok: bool)
      modifies this
      ensures (Now(), ok) == Apply(old(Now()), Call.SseStart)
    {
      if streaming { return false; }
      ok := EnsureStarted();
    }

    method Sse(record: EventStream.Call) returns (ok: bool)
      modifies this
      ensures (Now(), ok) == Apply(old(Now()), Call.Sse(record))
    {
      if closed { return false; }
      var payload: Option<string>;
      match record {
        case Event(data, event, id, retry) => payload := EventStream.SseEvent(data, event, id, retry);
        case Comment(text) => payload := EventStream.SseComment(text);
        case Retry(ms) => payload := EventStream.SseRetry(ms);
      }
      if payload.None? { return false; }
      if record == NO_RECORD { return true; }
      var started := EnsureStarted();
      if !started { return false; }
      Append(Raw(payload.value));
      return true;
    }

    method SetBodyText(data: string)
      modifies this
      ensures Now() == Apply(old(Now()), BodyText(data)).0
    {
      ReplaceBody(data);
    }

    method SetBodyView(data: string)
      modifies this
      ensures Now() == Apply(old(Now()), BodyView(data)).0
    {
      ReplaceBody("");
      if |data| > 0 {
        view := Some(data);
      }
    }
  }

  // -------------------------------------------------------------------- runs

  function Run(s: State, calls: seq<Call>): State
  {
    if calls == [] then s else Apply(Run(s, calls[..|calls| - 1]), calls[|calls| - 1]).0
  }

  // Ended at most once, and nothing after it.
  predicate EndsLast(wire: seq<Wire>) { forall i :: 0 <= i < |wire| && wire[i].Ended? ==> i == |wire| - 1 }

  // A borrowed body excludes a buffered one.
  predicate OneBody(b: Body) { b.view.Some? ==> |b.text| == 0 }

  predicate Inv(s: State)
  {
    && (s.streaming ==> s.committed && s.headersSent && s.capable)
    && (s.sse ==> s.streaming)
    && !(s.streaming && s.file.Some?)
    && OneBody(s.body)
    && (s.closed ==> s.headersSent && s.file.None?)
    && (s.headersSent ==> s.streaming || s.closed)
    && (!s.streaming ==> s.wire == [])
    && EndsLast(s.wire)
    && (!s.closed ==> Ended !in s.wire) && (s.closed && s.streaming ==> Ended in s.wire)
  }

  lemma {:induction false} FilledBody(h: Head, b: Body, c: Call)
    requires Fills(c) && OneBody(b)
    ensures Filled(h, b, c).Some? ==> OneBody(Filled(h, b, c).value.1)
  {
  }

  lemma {:induction false} EndKeeps(s: State, final: Option<string>)
    requires Inv(s) && !s.closed && s.file.None?
    ensures Inv(Finished(s, final))
  {
    if s.streaming {
      var t := StreamFinished(s, final);
      assert t.wire[|t.wire| - 1] == Ended;
      assert forall i :: 0 <= i < |t.wire| - 1 ==> t.wire[i] in s.wire || t.wire[i].Chunk?;
    }
  }

  lemma {:induction false} AppendKeeps(s: State, p: Piece)
    requires Inv(s) && s.streaming && !s.closed
    ensures Inv(Appended(s, p))
  {
    var t := Appended(s, p);
    assert forall i :: 0 <= i < |t.wire| ==> t.wire[i] in s.wire || t.wire[i].Chunk?;
  }

  lemma {:induction false} StartKeeps(s: State)
    requires Inv(s) && !s.closed && s.file.None? && s.capable
    ensures Inv(Started(s)) && Inv(SseStarted(s))
  {
  }

  lemma {:induction false} SendKeeps(s: State, c: Call)
    requires Inv(s) && (c.Send? || c.WriteMessage?)
    ensures Inv(Streamed(s, c).0)
  {
    if !s.closed && s.file.None? && s.capable {
      StartKeeps(s);
      if c.Send? {
        AppendKeeps(Started(s), Raw(c.data));
      } else {
        AppendKeeps(Started(s), Message(c.data, s.gzip && c.deflates));
      }
    }
  }

  lemma {:induction false} SseKeeps(s: State, c: Call)
    requires Inv(s) && (c.SseStart? || c.Sse?)
    ensures Inv(Streamed(s, c).0)
  {
    if !s.closed && s.file.None? && s.capable {
      StartKeeps(s);
      if c.Sse? && EventStream.Accepted(c.record) && c.record != NO_RECORD && CanStart(s) {
        AppendKeeps(SseStarted(s), Raw(EventStream.Render(c.record)));
      }
    }
  }

  lemma {:induction false} OtherKeeps(s: State, c: Call)
    requires Inv(s) && (c.SetGrpcEncoding? || c.SendFile? || c.BodyText? || c.BodyView?)
    ensures Inv(Streamed(s, c).0)
  {
  }

  lemma {:induction false} StreamedKeeps(s: State, c: Call)
    requires Inv(s) && !Fills(c) && !Trails(c)
    ensures Inv(Streamed(s, c).0)
  {
    if c.End? {
      if !s.closed && s.file.None? { EndKeeps(s, c.final); }
    } else if c.Send? || c.WriteMessage? {
      SendKeeps(s, c);
    } else if c.SseStart? || c.Sse? {
      SseKeeps(s, c);
    } else {
      OtherKeeps(s, c);
    }
  }

  lemma {:induction false} CallKeeps(s: State, c: Call)
    requires Inv(s)
    ensures Inv(Apply(s, c).0)
  {
    if Fills(c) {
      FilledBody(s.head, s.body, c);
    } else if !Trails(c) {
      StreamedKeeps(s, c);
    }
  }

  lemma {:induction false} RunKeeps(s: State, calls: seq<Call>)
    requires Inv(s)
    ensures Inv(Run(s, calls))
  {
    if calls != [] {
      RunKeeps(s, calls[..|calls| - 1]);
      CallKeeps(Run(s, calls[..|calls| - 1]), calls[|calls| - 1]);
    }
  }

  // The life of every response: streaming means committed with the headers sent; an event
  // stream streams; streaming excludes a pending file; a borrowed body excludes a buffered
  // one; and the stream is ended at most once, by end(), with nothing appended after it.
  lemma {:induction false} Lifecycle(isHead: bool, grpc: bool, capable: bool, calls: seq<Call>)
    ensures var s := Run(Fresh(isHead, grpc, capable), calls);
            && (s.streaming ==> s.committed && s.headersSent)
            && (s.sse ==> s.streaming)
            && !(s.streaming && s.file.Some?)
            && (s.body.view.Some? ==> |s.body.text| == 0)
            && EndsLast(s.wire) && (Ended in s.wire <==> s.closed && s.streaming)
  {
    RunKeeps(Fresh(isHead, grpc, capable), calls);
  }

  // ------------------------------------------------------------------ frozen

  // What a handler may no longer change once the head is out.
  lemma {:induction false} FrozenStreamed(s: State, c: Call)
    requires Inv(s) && (s.streaming || s.closed) && !Fills(c) && !Trails(c) && ByHandler(c)
    ensures var t := Streamed(s, c).0;
            t.head == s.head && t.body == s.body && (s.streaming ==> t.streaming) && (s.closed ==> t == s)
  {
    assert s.closed ==> Streamed(s, c).0 == s;
  }

  lemma {:induction false} FrozenStep(s: State, c: Call)
    requires Inv(s) && (s.streaming || s.closed) && ByHandler(c)
    ensures var t := Apply(s, c).0;
            t.head == s.head && t.body == s.body && (s.streaming ==> t.streaming) && (s.closed ==> t == s)
  {
    if !Fills(c) && !Trails(c) {
      FrozenStreamed(s, c);
    }
  }

  // Once a response streams or is closed, no sequence of handler calls changes its status,
  // headers or buffered body; once it is closed, nothing changes at all.
  lemma {:induction false} FrozenForGood(s: State, calls: seq<Call>)
    requires Inv(s) && (s.streaming || s.closed) && forall c :: c in calls ==> ByHandler(c)
    ensures var t := Run(s, calls);
            && t.head == s.head && t.body == s.body
            && (s.streaming ==> t.streaming) && (s.closed ==> t == s)
  {
    if calls != [] {
      var front, last := calls[..|calls| - 1], calls[|calls| - 1];
      FrozenForGood(s, front);
      RunKeeps(s, front);
      assert last in calls;
      FrozenStep(Run(s, front), last);
    }
  }

  // sendFile() promises the same. It holds exactly unless the call is setGrpcEncoding() on a
  // gRPC response and asks for an encoding other than the one declared.
  predicate RedeclaresEncoding(s: State, c: Call)
  {
    && s.grpc && c.SetGrpcEncoding?
    && ((Lower(c.encoding) == "identity" && (s.gzip || "grpc-encoding" in s.head.headers))
        || (Lower(c.encoding) == "gzip" && !(s.gzip && ("grpc-encoding", One("gzip")) in s.head.headers.Items)))
  }

  lemma {:induction false} SealedExactly(s: State, c: Call)
    requires Inv(s) && s.file.Some? && ByHandler(c)
    ensures Apply(s, c).0 == s <==> !RedeclaresEncoding(s, c)
    ensures Apply(s, c).0.file == s.file
  {
    if c.SetGrpcEncoding? && s.grpc {
      Redeclared(s.head.headers, c.encoding);
    }
  }

  lemma {:induction false} Redeclared(h: Headers, encoding: string)
    ensures Lower(encoding) == "identity" ==>
              Reencoded(h, encoding).Some? && (Reencoded(h, encoding).value == h <==> "grpc-encoding" !in h)
    ensures Lower(encoding) == "gzip" ==>
              Reencoded(h, encoding).Some?
              && (Reencoded(h, encoding).value == h <==> ("grpc-encoding", One("gzip")) in h.Items)
  {
    var key := "grpc-encoding";
    assert "identity"[0] != "gzip"[0];
    assert key in h || h - {key} == h;
    assert key in h[key := One("gzip")] && h[key := One("gzip")][key] == One("gzip");
    if key in h && h[key] == One("gzip") {
      assert h[key := One("gzip")] == h;
    }
  }

  // Every prefix of the calls leaves the response as it was.
  predicate Untouched(s: State, calls: seq<Call>)
  {
    Run(s, calls) == s && (calls != [] ==> Untouched(s, calls[..|calls| - 1]))
  }

  // Over any handler calls, a response sealed by sendFile() stays as it is exactly when none of
  // them redeclares the encoding.
  lemma {:induction false} SealedForGood(s: State, calls: seq<Call>)
    requires Inv(s) && s.file.Some? && forall i :: 0 <= i < |calls| ==> ByHandler(calls[i])
    ensures Untouched(s, calls) <==> forall i :: 0 <= i < |calls| ==> !RedeclaresEncoding(s, calls[i])
  {
    if calls != [] {
      var front, last := calls[..|calls| - 1], calls[|calls| - 1];
      SealedForGood(s, front);
      assert forall i :: 0 <= i < |front| ==> calls[i] == front[i];
      if Untouched(s, front) {
        assert Run(s, front) == s by { UntouchedEnd(s, front); }
        SealedExactly(s, last);
      }
    }
  }

  lemma {:induction false} UntouchedEnd(s: State, calls: seq<Call>)
    requires Untouched(s, calls)
    ensures Run(s, calls) == s
  {
  }

  lemma {:induction false} SealBroken()
    ensures var s := Run(Fresh(false, true, true), [SendFile("/a", 0, false)]);
            && s.file.Some? && "grpc-encoding" !in s.head.headers
            && "grpc-encoding" in Apply(s, SetGrpcEncoding("gzip")).0.head.headers
  {
    var s0 := Fresh(false, true, true);
    assert [SendFile("/a", 0, false)][..0] == [];
    assert Run(s0, []) == s0;
    assert Run(s0, [SendFile("/a", 0, false)]) == s0.(file := Some("/a"));
    GzipName();
  }

  lemma {:induction false} GzipName()
    ensures Lower("gzip") == "gzip"
  {
    assert "gzip"[1..] == "zip" && "zip"[1..] == "ip" && "ip"[1..] == "p" && "p"[1..] == "";
    assert Lower("p") == "p";
    assert Lower("ip") == "ip";
    assert Lower("zip") == "zip";
  }

  // ------------------------------------------------------------ header values

  // The storage the readers of the table expect: one value as text, more as an array.
  predicate Canonical(v: Value) { v.One? || |v.texts| >= 2 }

  predicate AllCanonical(h: Headers) { forall k :: k in h ==> Canonical(h[k]) }

  // Adding appends the values in order; and the expected storage is kept exactly unless an
  // empty array is set, or added to anything but an array.
  lemma {:induction false} ValuesKept(h: Headers, name: string, v: Value, replace: bool)
    requires AllCanonical(h)
    ensures var key, r := Lower(name), WithValue(h, name, v, replace);
            && key in r && (forall k :: k != key ==> (k in r <==> k in h) && (k in h ==> r[k] == h[k]))
            && Texts(r[key]) == (if !replace && key in h then Texts(h[key]) else []) + Texts(v)
            && (AllCanonical(r) <==> Texts(v) != [] || (!replace && key in h && h[key].Many?))
  {
    var key, r := Lower(name), WithValue(h, name, v, replace);
    assert Canonical(r[key]) <==> Texts(v) != [] || (!replace && key in h && h[key].Many?);
  }

  // The shape breaks with an empty array: one value, and yet an array.
  lemma {:induction false} EmptyArrayBreaksShape()
    ensures AllCanonical(map["x" := One("a")])
    ensures !AllCanonical(WithValue(map["x" := One("a")], "x", Many([]), false))
  {
    var h: Headers := map["x" := One("a")];
    assert "x"[1..] == "" && Lower("x") == "x";
    assert WithValue(h, "x", Many([]), false)["x"] == Many(["a"] + []);
    assert ["a"] + [] == ["a"];
  }

  // ------------------------------------------------------------------- HEAD

  predicate HasChunk(wire: seq<Wire>) { exists i :: 0 <= i < |wire| && wire[i].Chunk? }

  // The calls that put a chunk on the wire although the request was HEAD; send() does not.
  predicate Speaks(s: State, c: Call)
  {
    && !s.closed
    && match c
       case WriteMessage(_, _) => s.file.None? && s.capable
       case Sse(record) => EventStream.Accepted(record) && record != NO_RECORD && CanStart(s)
       case End(final) => s.file.None? && s.streaming && final.Some? && final.value != ""
       case _ => false
  }

  // These guards hold exactly when such a call goes through.
  lemma {:induction false} SpeaksGoesThrough(s: State, c: Call)
    ensures Speaks(s, c) <==> Apply(s, c).1 && (c.WriteMessage? || (c.Sse? && c.record != NO_RECORD)
                                                || (c.End? && s.streaming && c.final.Some? && c.final.value != ""))
  {
  }

  lemma {:induction false} HeadStep(s: State, c: Call)
    requires Inv(s) && s.isHead
    ensures Apply(s, c).0.isHead && s.wire <= Apply(s, c).0.wire
    ensures !HasChunk(s.wire) ==> (HasChunk(Apply(s, c).0.wire) <==> Speaks(s, c))
  {
    var t := Apply(s, c).0;
    if !Fills(c) && !Trails(c) {
      HeadStreamed(s, c);
    }
  }

  lemma {:induction false} ChunkAppended(wire: seq<Wire>, p: Piece)
    ensures wire <= wire + [Chunk(p)] && HasChunk(wire + [Chunk(p)])
  {
    assert (wire + [Chunk(p)])[|wire|].Chunk?;
  }

  lemma {:induction false} EndAppended(wire: seq<Wire>)
    ensures wire <= wire + [Ended] && (HasChunk(wire + [Ended]) <==> HasChunk(wire))
  {
    var all := wire + [Ended];
    assert all[|wire|] == Ended && forall i :: 0 <= i < |wire| ==> all[i] == wire[i];
  }

  lemma {:induction false} PrefixTwice(wire: seq<Wire>, a: Wire, b: Wire)
    ensures wire <= wire + [a] + [b]
  {
  }

  lemma {:induction false} HeadEndData(s: State, data: string)
    requires s.streaming && data != ""
    ensures s.wire <= StreamFinished(s, Some(data)).wire && HasChunk(StreamFinished(s, Some(data)).wire)
  {
    var longer := s.wire + [Chunk(Raw(data))];
    ChunkAppended(s.wire, Raw(data));
    EndAppended(longer);
    PrefixTwice(s.wire, Chunk(Raw(data)), Ended);
    assert StreamFinished(s, Some(data)).wire == longer + [Ended];
  }

  lemma {:induction false} HeadEnd(s: State, final: Option<string>)
    requires s.streaming
    ensures s.wire <= StreamFinished(s, final).wire
    ensures HasChunk(StreamFinished(s, final).wire) <==> HasChunk(s.wire) || (final.Some? && final.value != "")
  {
    if final.Some? && final.value != "" {
      HeadEndData(s, final.value);
    } else {
      EndAppended(s.wire);
    }
  }

  lemma {:induction false} HeadStreamed(s: State, c: Call)
    requires Inv(s) && s.isHead && !Fills(c) && !Trails(c)
    ensures Streamed(s, c).0.isHead && s.wire <= Streamed(s, c).0.wire
    ensures !HasChunk(s.wire) ==> (HasChunk(Streamed(s, c).0.wire) <==> Speaks(s, c))
  {
    SpeaksGoesThrough(s, c);
    if !Streamed(s, c).1 {
      assert Streamed(s, c).0 == s;
    } else if c.WriteMessage? {
      ChunkAppended(s.wire, Message(c.data, s.gzip && c.deflates));
    } else if c.Sse? {
      if c.record != NO_RECORD {
        ChunkAppended(s.wire, Raw(EventStream.Render(c.record)));
      }
    } else if c.End? && s.streaming {
      HeadEnd(s, c.final);
    } else {
      assert Streamed(s, c).0.wire == s.wire;
    }
  }

  predicate Spoken(s: State, calls: seq<Call>)
  {
    calls != [] && (Spoken(s, calls[..|calls| - 1]) || Speaks(Run(s, calls[..|calls| - 1]), calls[|calls| - 1]))
  }

  // Over every run, a HEAD response carries a body chunk exactly when writeMessage(), a server-
  // sent event or the final data of an end() while streaming went through.
  lemma {:induction false} HeadChunks(s: State, calls: seq<Call>)
    requires Inv(s) && s.isHead && !HasChunk(s.wire)
    ensures Run(s, calls).isHead && (HasChunk(Run(s, calls).wire) <==> Spoken(s, calls))
  {
    if calls != [] {
      var front, last := calls[..|calls| - 1], calls[|calls| - 1];
      HeadChunks(s, front);
      RunKeeps(s, front);
      HeadStep(Run(s, front), last);
      if HasChunk(Run(s, front).wire) {
        assert forall i :: 0 <= i < |Run(s, front).wire| ==> Run(s, calls).wire[i] == Run(s, front).wire[i];
      }
    }
  }

  // Single calls that do it, beside the one that does not.
  lemma {:induction false} HeadMessage()
    ensures HasChunk(Apply(Fresh(true, true, true), WriteMessage("m", false)).0.wire)
    ensures Apply(Fresh(true, true, true), Send("m")).0.wire == []
  {
    assert Apply(Fresh(true, true, true), WriteMessage("m", false)).0.wire[0].Chunk?;
  }

  lemma {:induction false} HeadEvent()
    ensures HasChunk(Apply(Fresh(true, false, true), Sse(EventStream.Comment(""))).0.wire)
  {
    var s := Fresh(true, false, true);
    assert EventStream.Accepted(EventStream.Comment("")) && CanStart(s);
    assert Apply(s, Sse(EventStream.Comment(""))).0.wire[0].Chunk?;
  }

  // ----------------------------------------------------------- event streams

  function Sent(wire: seq<Wire>): string
  {
    if wire == [] then ""
    else
      Sent(wire[..|wire| - 1])
      + (if wire[|wire| - 1].Chunk? && wire[|wire| - 1].piece.Raw? then wire[|wire| - 1].piece.text else "")
  }

  // The records of a run whose calls went through.
  function Records(s: State, calls: seq<Call>): seq<EventStream.Call>
  {
    if calls == [] then []
    else
      var front, last := calls[..|calls| - 1], calls[|calls| - 1];
      Records(s, front) + (if last.Sse? && Apply(Run(s, front), last).1 then [last.record] else [])
  }

  // Calls that put nothing but records on an event stream.
  predicate RecordsOnly(c: Call) { !c.WriteMessage? && (c.End? ==> c.final.None? || c.final.value == "") }

  lemma {:induction false} RecordsAccepted(s: State, calls: seq<Call>)
    ensures EventStream.AllAccepted(Records(s, calls))
  {
    if calls != [] {
      RecordsAccepted(s, calls[..|calls| - 1]);
    }
  }

  lemma {:induction false} StreamSnoc(records: seq<EventStream.Call>, last: EventStream.Call)
    requires EventStream.AllAccepted(records) && EventStream.Accepted(last)
    ensures EventStream.AllAccepted(records + [last])
    ensures EventStream.Stream(records + [last]) == EventStream.Stream(records) + EventStream.Render(last)
    decreases |records|
  {
    var all := records + [last];
    if records == [] {
      assert all == [last] && all[1..] == [];
      assert EventStream.Stream([]) == "";
    } else {
      assert all[0] == records[0] && all[1..] == records[1..] + [last];
      StreamSnoc(records[1..], last);
      EventStream.Assoc(EventStream.Render(records[0]), EventStream.Stream(records[1..]), EventStream.Render(last));
    }
  }

  // An event stream on the wire is the concatenation of the records of the calls that went
  // through, in order.
  lemma {:induction false} WireIsStream(s: State, calls: seq<Call>)
    requires Inv(s) && !s.streaming && (forall c :: c in calls ==> RecordsOnly(c))
    ensures EventStream.AllAccepted(Records(s, calls))
    ensures var t := Run(s, calls); t.sse || !t.streaming ==> Sent(t.wire) == EventStream.Stream(Records(s, calls))
  {
    RecordsAccepted(s, calls);
    RunKeeps(s, calls);
    if calls != [] {
      var front, last := calls[..|calls| - 1], calls[|calls| - 1];
      assert last in calls;
      WireIsStream(s, front);
      RunKeeps(s, front);
      WireStep(Run(s, front), last, Records(s, front));
    }
  }

  lemma {:induction false} SentSnoc(wire: seq<Wire>, w: Wire)
    ensures Sent(wire + [w]) == Sent(wire) + (if w.Chunk? && w.piece.Raw? then w.piece.text else "")
  {
    assert (wire + [w])[..|wire|] == wire;
  }

  // A call other than a record adds nothing to an event stream.
  lemma {:induction false} QuietEnd(s: State, final: Option<string>)
    requires Inv(s) && (final.None? || final.value == "")
    ensures Sent(Finished(s, final).wire) == Sent(s.wire)
  {
    if s.streaming {
      SentSnoc(s.wire, Ended);
      assert Sent(s.wire) + "" == Sent(s.wire);
    }
  }

  lemma {:induction false} QuietStreamed(s: State, c: Call)
    requires Inv(s) && RecordsOnly(c) && !c.Sse? && !Fills(c) && !Trails(c)
    ensures var t := Streamed(s, c).0;
            t.sse || !t.streaming ==> (s.sse || !s.streaming) && Sent(t.wire) == Sent(s.wire)
  {
    if c.End? {
      QuietEnd(s, c.final);
    }
  }

  lemma {:induction false} QuietStep(s: State, c: Call)
    requires Inv(s) && RecordsOnly(c) && !c.Sse?
    ensures var t := Apply(s, c).0;
            t.sse || !t.streaming ==> (s.sse || !s.streaming) && Sent(t.wire) == Sent(s.wire)
  {
    if !Fills(c) && !Trails(c) {
      QuietStreamed(s, c);
    }
  }

  lemma {:induction false} RecordStep(s: State, record: EventStream.Call)
    requires Inv(s) && Apply(s, Sse(record)).1
    ensures EventStream.Accepted(record)
    ensures Sent(Apply(s, Sse(record)).0.wire) == Sent(s.wire) + EventStream.Render(record)
    ensures Apply(s, Sse(record)).0.sse || !Apply(s, Sse(record)).0.streaming ==> s.sse || !s.streaming
  {
    if record == NO_RECORD {
      assert Sent(s.wire) + "" == Sent(s.wire);
    } else {
      SentSnoc(s.wire, Chunk(Raw(EventStream.Render(record))));
    }
  }

  lemma {:induction false} WireStep(s: State, c: Call, records: seq<EventStream.Call>)
    requires Inv(s) && RecordsOnly(c) && EventStream.AllAccepted(records)
    requires s.sse || !s.streaming ==> Sent(s.wire) == EventStream.Stream(records)
    ensures var (t, ok) := Apply(s, c);
            var all := records + (if c.Sse? && ok then [c.record] else []);
            EventStream.AllAccepted(all) && (t.sse || !t.streaming ==> Sent(t.wire) == EventStream.Stream(all))
  {
    assert records + [] == records;
    if !c.Sse? {
      QuietStep(s, c);
    } else if Apply(s, c).1 {
      RecordStep(s, c.record);
      StreamSnoc(records, c.record);
    } else {
      assert Apply(s, c).0 == s;
    }
  }

  // End to end: what an EventSource reads from the wire is what the accepted calls meant.
  lemma {:induction false} EventStreamReads(isHead: bool, grpc: bool, capable: bool, calls: seq<Call>)
    requires forall c :: c in calls ==> RecordsOnly(c)
    ensures var s := Fresh(isHead, grpc, capable);
            && EventStream.AllAccepted(Records(s, calls))
            && (Run(s, calls).sse ==>
                  EventStream.Parse(EventStream.FRESH, Sent(Run(s, calls).wire))
                  == EventStream.MeaningOf(EventStream.FRESH, Records(s, calls)))
  {
    var s := Fresh(isHead, grpc, capable);
    WireIsStream(s, calls);
    EventStream.RoundTrip(Records(s, calls));
  }
}
