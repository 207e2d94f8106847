// What goes out on a streamed response: the data of the calls that went through, piece by piece
// (src/http_response.c:941-1161, 1284-1335, src/http_sse.c:222-253).
module WireData {
  import opened Common
  import opened HttpResponse
  import EventStream

  // The pieces on the wire, in order.
  function Pieces(wire: seq<Wire>): seq<Piece>
  {
    if wire == [] then []
    else Pieces(wire[..|wire| - 1]) + (if wire[|wire| - 1].Chunk? then [wire[|wire| - 1].piece] else [])
  }

  // What a call adds, by its arguments and the guards it meets: send() its data unless the
  // request was HEAD, writeMessage() one message, an event its record, end() its final data.
  function Adds(s: State, c: Call): seq<Piece>
  {
    if s.closed then []
    else
      match c
      case Send(data) => if !s.sse && s.file.None? && s.capable && !s.isHead then [Raw(data)] else []
      case WriteMessage(data, deflates) =>
        if s.file.None? && s.capable then [Message(data, s.gzip && deflates)] else []
      case Sse(record) =>
        if EventStream.Accepted(record) && record != NO_RECORD && CanStart(s) then [Raw(EventStream.Render(record))] else []
      case End(final) =>
        if s.file.None? && s.streaming && final.Some? && final.value != "" then [Raw(final.value)] else []
      case _ => []
  }

  function AddsAll(s: State, calls: seq<Call>): seq<Piece>
  {
    if calls == [] then []
    else AddsAll(s, calls[..|calls| - 1]) + Adds(Run(s, calls[..|calls| - 1]), calls[|calls| - 1])
  }

  lemma {:induction false} PiecesSnoc(wire: seq<Wire>, w: Wire)
    ensures Pieces(wire + [w]) == Pieces(wire) + (if w.Chunk? then [w.piece] else [])
  {
    assert (wire + [w])[..|wire + [w]| - 1] == wire;
  }

  lemma {:induction false} EndAdds(s: State, final: Option<string>)
    requires s.streaming
    ensures Pieces(StreamFinished(s, final).wire)
            == Pieces(s.wire) + if final.Some? && final.value != "" then [Raw(final.value)] else []
  {
    if final.Some? && final.value != "" {
      var longer := s.wire + [Chunk(Raw(final.value))];
      PiecesSnoc(s.wire, Chunk(Raw(final.value)));
      PiecesSnoc(longer, Ended);
    } else {
      PiecesSnoc(s.wire, Ended);
    }
  }

  lemma {:induction false} SendAdds(s: State, c: Call)
    requires c.Send? || c.WriteMessage?
    ensures Pieces(Streamed(s, c).0.wire) == Pieces(s.wire) + Adds(s, c)
  {
    if c.Send? {
      PiecesSnoc(s.wire, Chunk(Raw(c.data)));
    } else {
      PiecesSnoc(s.wire, Chunk(Message(c.data, s.gzip && c.deflates)));
    }
  }

  lemma {:induction false} RecordAdds(s: State, record: EventStream.Call)
    ensures Pieces(Streamed(s, Sse(record)).0.wire) == Pieces(s.wire) + Adds(s, Sse(record))
  {
    if EventStream.Accepted(record) {
      PiecesSnoc(s.wire, Chunk(Raw(EventStream.Render(record))));
    }
  }

  lemma {:induction false} QuietAdds(s: State, c: Call)
    requires !Fills(c) && !Trails(c) && !c.Send? && !c.WriteMessage? && !c.Sse? && !(c.End? && s.streaming)
    ensures Streamed(s, c).0.wire == s.wire && Adds(s, c) == []
  {
    match c
    case SetGrpcEncoding(encoding) => assert Encoded(s, encoding).0.wire == s.wire;
    case SendFile(_, _, _) =>
    case End(_) =>
    case SseStart =>
    case BodyText(_) =>
    case BodyView(_) =>
  }

  lemma {:induction false} StreamedAdds(s: State, c: Call)
    requires !Fills(c) && !Trails(c)
    ensures Pieces(Streamed(s, c).0.wire) == Pieces(s.wire) + Adds(s, c)
  {
    if c.Send? || c.WriteMessage? {
      SendAdds(s, c);
    } else if c.Sse? {
      RecordAdds(s, c.record);
    } else if c.End? && s.streaming {
      EndAdds(s, c.final);
    } else {
      QuietAdds(s, c);
    }
  }

  lemma {:induction false} CallAdds(s: State, c: Call)
    ensures Pieces(Apply(s, c).0.wire) == Pieces(s.wire) + Adds(s, c)
  {
    if !Fills(c) && !Trails(c) {
      StreamedAdds(s, c);
    }
  }

  // Over every run the pieces on the wire are what the calls add, in order and unaltered.
  lemma {:induction false} WireIsData(isHead: bool, grpc: bool, capable: bool, calls: seq<Call>)
    ensures Pieces(Run(Fresh(isHead, grpc, capable), calls).wire) == AddsAll(Fresh(isHead, grpc, capable), calls)
  {
    if calls != [] {
      var front := calls[..|calls| - 1];
      WireIsData(isHead, grpc, capable, front);
      CallAdds(Run(Fresh(isHead, grpc, capable), front), calls[|calls| - 1]);
    }
  }

  // Whether messages are to be compressed: the last declared encoding that was accepted, one
  // of gzip and identity, before anything was sent.
  predicate Declares(s: State, c: Call)
  {
    && c.SetGrpcEncoding? && s.grpc && !s.closed && !s.streaming && !s.headersSent
    && (Lower(c.encoding) == "gzip" || Lower(c.encoding) == "identity")
  }

  function Compresses(s: State, calls: seq<Call>): bool
  {
    if calls == [] then s.gzip
    else
      var front, last := calls[..|calls| - 1], calls[|calls| - 1];
      if Declares(Run(s, front), last) then Lower(last.encoding) == "gzip" else Compresses(s, front)
  }

  lemma {:induction false} CallDeclares(s: State, c: Call)
    ensures Apply(s, c).0.gzip == if Declares(s, c) then Lower(c.encoding) == "gzip" else s.gzip
  {
    if c.SetGrpcEncoding? {
      EncodingDeclares(s, c.encoding);
    } else if !Fills(c) && !Trails(c) {
      OthersDeclare(s, c);
    }
  }

  lemma {:induction false} EncodingDeclares(s: State, encoding: string)
    ensures Encoded(s, encoding).0.gzip
            == if Declares(s, SetGrpcEncoding(encoding)) then Lower(encoding) == "gzip" else s.gzip
  {
  }

  lemma {:induction false} OthersDeclare(s: State, c: Call)
    requires !Fills(c) && !Trails(c) && !c.SetGrpcEncoding?
    ensures Streamed(s, c).0.gzip == s.gzip
  {
    match c
    case Send(_) =>
    case WriteMessage(_, _) =>
    case SendFile(_, _, _) =>
    case End(final) => FinishLeaves(s, final);
    case SseStart =>
    case Sse(_) =>
    case BodyText(_) =>
    case BodyView(_) =>
  }

  lemma {:induction false} GzipIsDeclared(s: State, calls: seq<Call>)
    ensures Run(s, calls).gzip == Compresses(s, calls)
  {
    if calls != [] {
      GzipIsDeclared(s, calls[..|calls| - 1]);
      CallDeclares(Run(s, calls[..|calls| - 1]), calls[|calls| - 1]);
    }
  }

  // --------------------------------------------------------------------- heads

  // The status and buffered text a call leaves, by its arguments and the guards it meets.
  function Leaves(s: State, c: Call): (int, string)
  {
    var open := !s.closed && !s.streaming && s.file.None?;
    var status, text := s.head.status, s.body.text;
    match c
    case SetStatusCode(code) => if open && 100 <= code <= 599 then (code, text) else (status, text)
    case Redirect(_, code) => if open && 300 <= code <= 399 then (code, text) else (status, text)
    case Json(encoded, code) =>
      if !open || code < 100 || code > 599 then (status, text)
      else if encoded.Some? then (code, encoded.value)
      else (500, "{\"error\":\"json encoding failed\"}")
    case Write(data) => if open then (status, text + data) else (status, text)
    case SetBody(data) => if open then (status, data) else (status, text)
    case Html(data) => if open then (status, data) else (status, text)
    case End(final) => if open && final.Some? then (status, text + final.value) else (status, text)
    case BodyText(data) => (status, data)
    case BodyView(_) => (status, "")
    case _ => (status, text)
  }

  lemma {:induction false} CallLeaves(s: State, c: Call)
    ensures (Apply(s, c).0.head.status, Apply(s, c).0.body.text) == Leaves(s, c)
  {
    if Fills(c) {
      FillLeaves(s, c);
    } else if !Trails(c) {
      StreamedLeaves(s, c);
    }
  }

  lemma {:induction false} FillLeaves(s: State, c: Call)
    requires Fills(c)
    ensures (Apply(s, c).0.head.status, Apply(s, c).0.body.text) == Leaves(s, c)
  {
    var r := Filled(s.head, s.body, c);
    if Locked(s) || r.None? {
      assert Apply(s, c).0 == s;
      RefusedLeaves(s, c);
    } else {
      assert Apply(s, c).0 == s.(head := r.value.0, body := r.value.1);
      FilledLeaves(s, c, r.value.0, r.value.1);
    }
  }

  lemma {:induction false} RefusedLeaves(s: State, c: Call)
    requires Fills(c) && (Locked(s) || Filled(s.head, s.body, c).None?)
    ensures Leaves(s, c) == (s.head.status, s.body.text)
  {
  }

  lemma {:induction false} FilledLeaves(s: State, c: Call, h: Head, b: Body)
    requires Fills(c) && !Locked(s) && Filled(s.head, s.body, c) == Some((h, b))
    ensures (h.status, b.text) == Leaves(s, c)
  {
  }

  lemma {:induction false} StreamedLeaves(s: State, c: Call)
    requires !Fills(c) && !Trails(c)
    ensures (Streamed(s, c).0.head.status, Streamed(s, c).0.body.text) == Leaves(s, c)
  {
    if c.SetGrpcEncoding? {
      EncodedLeaves(s, c.encoding);
    } else if c.End? {
      EndLeaves(s, c.final);
    }
  }

  lemma {:induction false} EncodedLeaves(s: State, encoding: string)
    ensures Encoded(s, encoding).0.body == s.body && Encoded(s, encoding).0.head.status == s.head.status
  {
  }

  lemma {:induction false} EndLeaves(s: State, final: Option<string>)
    ensures (Streamed(s, End(final)).0.head.status, Streamed(s, End(final)).0.body.text) == Leaves(s, End(final))
  {
    if !s.closed && s.file.None? {
      FinishLeaves(s, final);
    }
  }

  lemma {:induction false} FinishLeaves(s: State, final: Option<string>)
    ensures Finished(s, final).head == s.head && Finished(s, final).gzip == s.gzip && Finished(s, final).sse == s.sse
    ensures Finished(s, final).body.text == if !s.streaming && final.Some? then s.body.text + final.value else s.body.text
  {
    if s.streaming {
      StreamFinishLeaves(s, final);
    }
  }

  lemma {:induction false} StreamFinishLeaves(s: State, final: Option<string>)
    ensures StreamFinished(s, final).head == s.head && StreamFinished(s, final).gzip == s.gzip
    ensures StreamFinished(s, final).body == s.body && StreamFinished(s, final).sse == s.sse
  {
  }

  function LeavesAll(isHead: bool, grpc: bool, capable: bool, calls: seq<Call>): (int, string)
  {
    if calls == [] then (200, "")
    else Leaves(Run(Fresh(isHead, grpc, capable), calls[..|calls| - 1]), calls[|calls| - 1])
  }

  // Over every run the status and the buffered text are what the last call left.
  lemma {:induction false} HeadIsSet(isHead: bool, grpc: bool, capable: bool, calls: seq<Call>)
    ensures var s := Run(Fresh(isHead, grpc, capable), calls);
            (s.head.status, s.body.text) == LeavesAll(isHead, grpc, capable, calls)
  {
    if calls != [] {
      CallLeaves(Run(Fresh(isHead, grpc, capable), calls[..|calls| - 1]), calls[|calls| - 1]);
    }
  }

  // The three headers of an event stream.
  predicate Headed(h: Headers)
  {
    && ("content-type", One("text/event-stream")) in h.Items
    && ("cache-control", One("no-cache, no-transform")) in h.Items
    && ("x-accel-buffering", One("no")) in h.Items
  }

  lemma {:induction false} StartHeads(h: Headers)
    ensures Headed(SseHeaders(h))
  {
    var a, b, c := "content-type", "cache-control", "x-accel-buffering";
    assert a != b && a != c && b != c;
  }

  // A call either leaves the mode and, on an event stream, the headers, or starts the stream.
  ghost predicate KeepsHead(s: State, t: State)
  {
    (t.sse == s.sse && (s.sse ==> t.head.headers == s.head.headers)) || t.head.headers == SseHeaders(s.head.headers)
  }

  lemma {:induction false} StreamedKeepsHead(s: State, c: Call)
    requires Inv(s) && !Fills(c) && !Trails(c)
    ensures KeepsHead(s, Streamed(s, c).0)
  {
    match c
    case Send(_) =>
    case SetGrpcEncoding(encoding) => EncodedKeepsHead(s, encoding);
    case WriteMessage(_, _) =>
    case SendFile(_, _, _) =>
    case End(final) => FinishLeaves(s, final);
    case SseStart =>
    case Sse(_) =>
    case BodyText(_) =>
    case BodyView(_) =>
  }

  lemma {:induction false} EncodedKeepsHead(s: State, encoding: string)
    requires Inv(s)
    ensures Encoded(s, encoding).0.sse == s.sse && (s.sse ==> Encoded(s, encoding).0 == s)
  {
  }

  lemma {:induction false} FillKeepsHead(s: State, c: Call)
    requires Inv(s) && (Fills(c) || Trails(c))
    ensures KeepsHead(s, Apply(s, c).0)
  {
    if s.sse {
      assert Locked(s);
    }
  }

  lemma {:induction false} CallKeepsHead(s: State, c: Call)
    requires Inv(s) && (s.sse ==> Headed(s.head.headers))
    ensures Apply(s, c).0.sse ==> Headed(Apply(s, c).0.head.headers)
  {
    StartHeads(s.head.headers);
    if Fills(c) || Trails(c) {
      FillKeepsHead(s, c);
    } else {
      StreamedKeepsHead(s, c);
    }
  }

  // Over every run an event stream has its headers, whatever the handler had set before.
  lemma {:induction false} EventStreamHead(isHead: bool, grpc: bool, capable: bool, calls: seq<Call>)
    ensures var s := Run(Fresh(isHead, grpc, capable), calls); s.sse ==> Headed(s.head.headers)
  {
    if calls != [] {
      var front := calls[..|calls| - 1];
      EventStreamHead(isHead, grpc, capable, front);
      RunKeeps(Fresh(isHead, grpc, capable), front);
      CallKeepsHead(Run(Fresh(isHead, grpc, capable), front), calls[|calls| - 1]);
    }
  }

  // Whether an event stream may start where a content type was set: only if it is that of an
  // event stream, in any case and with any parameters.
  lemma {:induction false} StartsExactly(s: State, text: string)
    requires !s.streaming && "content-type" in s.head.headers && s.head.headers["content-type"] == One(text)
    ensures Apply(s, SseStart).1
            <==> !s.closed && s.file.None? && s.capable && |text| >= 17 && Lower(text[..17]) == "text/event-stream"
  {
    assert Texts(One(text)) == [text];
  }

  // The headers that calls set by themselves.
  lemma {:induction false} OwnHeaders(s: State, data: string, encoded: Option<string>, code: int, status: int)
    requires !s.closed && !s.streaming && s.file.None? && 300 <= code <= 399 && 100 <= status <= 599
    ensures Apply(s, Html(data)).0.head.headers == s.head.headers["content-type" := One("text/html; charset=utf-8")]
    ensures Apply(s, Redirect(data, code)).0.head.headers == s.head.headers["location" := One(data)]
    ensures Apply(s, Json(encoded, status)).0.head.headers
            == if "content-type" in s.head.headers then s.head.headers
               else s.head.headers["content-type" := One("application/json")]
  {
  }

  // ---------------------------------------------------------------------- names

  // Two spellings of one name, letter by letter.
  predicate SameName(a: string, b: string)
  {
    |a| == |b| && forall i :: 0 <= i < |a| ==> SameLetter(a[i], b[i])
  }

  predicate SameLetter(a: char, b: char)
  {
    a == b || ('A' <= a <= 'Z' && b as int == a as int + 32) || ('A' <= b <= 'Z' && a as int == b as int + 32)
  }

  lemma {:induction false} LowerAt(s: string, i: nat)
    requires i < |s|
    ensures Lower(s)[i] == LowerChar(s[i])
  {
    if i > 0 {
      LowerAt(s[1..], i - 1);
    }
  }

  // Names are one exactly when they differ at most in case.
  lemma {:induction false} NamesFold(a: string, b: string)
    ensures Lower(a) == Lower(b) <==> SameName(a, b)
  {
    forall i | 0 <= i < |a|
      ensures Lower(a)[i] == LowerChar(a[i])
    {
      LowerAt(a, i);
    }
    forall i | 0 <= i < |b|
      ensures Lower(b)[i] == LowerChar(b[i])
    {
      LowerAt(b, i);
    }
    if SameName(a, b) {
      assert forall i :: 0 <= i < |a| ==> Lower(a)[i] == Lower(b)[i];
    }
    if Lower(a) == Lower(b) {
      assert forall i :: 0 <= i < |a| ==> Lower(a)[i] == Lower(b)[i] && SameLetter(a[i], b[i]);
    }
  }
}
