// From the handler's calls to the file engine: the response object on which sendFile() left its
// path is the one the engine fills, so its headers and buffered body are what the engine finds
// (src/http_response.c:1202-1279, 1517-1529, src/http_send_file.c:129-212).
module FileHandoff {
  import opened Common
  import H = HttpResponse
  import F = FileResponse
  import ByteRange
  import EntityTag
  import Decimal

  // ------------------------------------------------------------------- names

  // The stored name of a header.
  function TextOf(n: F.Name): string
  {
    match n
    case ContentType => "content-type"
    case ContentLength => "content-length"
    case ContentRange => "content-range"
    case ContentEncoding => "content-encoding"
    case ContentDisposition => "content-disposition"
    case ETag => "etag"
    case LastModified => "last-modified"
    case Vary => "vary"
    case AcceptRanges => "accept-ranges"
    case CacheControl => "cache-control"
    case Connection => "connection"
    case Other(text) => text
  }

  function NameOf(text: string): (n: F.Name)
    ensures TextOf(n) == text
  {
    if text == "content-type" then F.ContentType
    else if text == "content-length" then F.ContentLength
    else if text == "content-range" then F.ContentRange
    else if text == "content-encoding" then F.ContentEncoding
    else if text == "content-disposition" then F.ContentDisposition
    else if text == "etag" then F.ETag
    else if text == "last-modified" then F.LastModified
    else if text == "vary" then F.Vary
    else if text == "accept-ranges" then F.AcceptRanges
    else if text == "cache-control" then F.CacheControl
    else if text == "connection" then F.Connection
    else F.Other(text)
  }

  // Several values of a header as one list.
  function Listed(texts: seq<string>): string
  {
    if texts == [] then "" else if |texts| == 1 then texts[0] else texts[0] + ", " + Listed(texts[1..])
  }

  // The headers the engine finds.
  function Carried(h: H.Headers): F.Headers
  {
    map k | k in h :: NameOf(k) := Listed(H.Texts(h[k]))
  }

  // ----------------------------------------------- what the calls leave behind

  datatype Left = Left(body: string, length: bool)   // buffered text; a Content-Length is set

  function After(l: Left, c: H.Call): Left
  {
    match c
    case Write(data) => l.(body := l.body + data)
    case SetBody(data) => l.(body := data)
    case Html(data) => l.(body := data)
    case Json(encoded, code) =>
      if code < 100 || code > 599 then l
      else l.(body := if encoded.Some? then encoded.value else H.JSON_FAILED)
    case SetHeader(name, _) => l.(length := l.length || H.Lower(name) == "content-length")
    case AddHeader(name, _) => l.(length := l.length || H.Lower(name) == "content-length")
    case ResetHeaders => l.(length := false)
    case _ => l
  }

  // A sendFile() whose arguments are accepted.
  predicate Seals(c: H.Call)
  {
    c.SendFile? && c.path != "" && c.path[0] == '/' && (c.code == 0 || 100 <= c.code <= 599) && !c.breaks
  }

  predicate HasSeal(calls: seq<H.Call>) { exists i :: 0 <= i < |calls| && Seals(calls[i]) }

  // Read off the calls alone: the calls before the first accepted sendFile() count.
  function LeftBy(calls: seq<H.Call>): Left
  {
    if calls == [] then Left("", false)
    else
      var front, last := calls[..|calls| - 1], calls[|calls| - 1];
      if HasSeal(front) then LeftBy(front) else After(LeftBy(front), last)
  }

  predicate Holds(s: H.State, l: Left)
  {
    s.body == H.Body(l.body, None) && (HasLength(s.head.headers) <==> l.length)
  }

  // Neither streaming nor closed, so sealed or open to every call.
  predicate Pending(s: H.State) { !s.closed && !s.streaming }

  predicate HasLength(h: H.Headers) { "content-length" in h }

  lemma {:induction false} OtherHeader(h: H.Headers, key: string, v: H.Value)
    ensures HasLength(h[key := v]) <==> HasLength(h) || key == "content-length"
  {
  }

  lemma {:induction false} FilledBody(h: H.Head, b: H.Body, c: H.Call, l: Left)
    requires H.Fills(c) && H.Filled(h, b, c).Some? && b == H.Body(l.body, None)
    ensures H.Filled(h, b, c).value.1 == H.Body(After(l, c).body, None)
  {
  }

  lemma {:induction false} FilledLength(h: H.Head, b: H.Body, c: H.Call, l: Left)
    requires H.Fills(c) && H.Filled(h, b, c).Some? && (HasLength(h.headers) <==> l.length)
    ensures HasLength(H.Filled(h, b, c).value.0.headers) <==> After(l, c).length
  {
    match c
    case SetHeader(name, v) => ValueLength(h.headers, name, v, true);
    case AddHeader(name, v) => ValueLength(h.headers, name, v, false);
    case Redirect(url, _) => OtherHeader(h.headers, "location", H.One(url));
    case Json(_, _) => OtherHeader(h.headers, "content-type", H.One("application/json"));
    case Html(_) => OtherHeader(h.headers, "content-type", H.One("text/html; charset=utf-8"));
    case _ =>
  }

  lemma {:induction false} ValueLength(h: H.Headers, name: string, v: H.Value, replace: bool)
    ensures HasLength(H.WithValue(h, name, v, replace)) <==> HasLength(h) || H.Lower(name) == "content-length"
  {
    var key := H.Lower(name);
    if replace || key !in h {
      OtherHeader(h, key, H.Stored(v));
    } else {
      OtherHeader(h, key, H.Many(H.Texts(h[key]) + H.Texts(v)));
    }
  }

  lemma {:induction false} ApplyFilled(s: H.State, c: H.Call, h: H.Head, b: H.Body)
    requires H.Fills(c) && !H.Locked(s) && H.Filled(s.head, s.body, c) == Some((h, b))
    ensures H.Apply(s, c).0 == s.(head := h, body := b)
  {
  }

  lemma {:induction false} NotFilled(s: H.State, c: H.Call, l: Left)
    requires H.Fills(c) && H.Filled(s.head, s.body, c).None?
    ensures H.Apply(s, c).0 == s && After(l, c) == l
  {
  }

  lemma {:induction false} FilledLeaves(s: H.State, c: H.Call, l: Left)
    requires H.Fills(c) && Holds(s, l) && Pending(s) && s.file.None?
    ensures Holds(H.Apply(s, c).0, After(l, c))
  {
    var r := H.Filled(s.head, s.body, c);
    if r.Some? {
      FilledBody(s.head, s.body, c, l);
      FilledLength(s.head, s.body, c, l);
      ApplyFilled(s, c, r.value.0, r.value.1);
    } else {
      NotFilled(s, c, l);
    }
  }

  lemma {:induction false} StreamedLeaves(s: H.State, c: H.Call, l: Left)
    requires !H.Fills(c) && !H.Trails(c) && H.ByHandler(c) && H.Inv(s) && Holds(s, l) && Pending(s)
    requires Pending(H.Streamed(s, c).0)
    ensures Holds(H.Streamed(s, c).0, l) && After(l, c) == l
    ensures H.Streamed(s, c).0.file.Some? <==> s.file.Some? || Seals(c)
  {
  }

  lemma {:induction false} SealSnoc(calls: seq<H.Call>)
    requires calls != []
    ensures HasSeal(calls) <==> HasSeal(calls[..|calls| - 1]) || Seals(calls[|calls| - 1])
  {
    var front := calls[..|calls| - 1];
    assert forall i :: 0 <= i < |front| ==> front[i] == calls[i];
  }

  lemma {:induction false} StaysPending(s: H.State, c: H.Call)
    requires H.Inv(s) && Pending(H.Apply(s, c).0)
    ensures Pending(s)
  {
  }

  lemma {:induction false} RunLeaves(s: H.State, calls: seq<H.Call>)
    requires H.Inv(s) && Holds(s, Left("", false)) && s.file.None? && forall i :: 0 <= i < |calls| ==> H.ByHandler(calls[i])
    requires Pending(H.Run(s, calls))
    ensures Holds(H.Run(s, calls), LeftBy(calls)) && (H.Run(s, calls).file.Some? <==> HasSeal(calls))
  {
    if calls != [] {
      var front, last := calls[..|calls| - 1], calls[|calls| - 1];
      var t := H.Run(s, front);
      H.RunKeeps(s, front);
      StaysPending(t, last);
      RunLeaves(s, front);
      SealSnoc(calls);
      if H.Fills(last) {
        if t.file.None? {
          FilledLeaves(t, last, LeftBy(front));
        }
      } else if !H.Trails(last) {
        StreamedLeaves(t, last, LeftBy(front));
      }
    }
  }

  // A sealed response: what a handler's calls leave with a pending sendFile().
  ghost predicate Sealed(s: H.State, calls: seq<H.Call>)
  {
    && s.file.Some? && (forall i :: 0 <= i < |calls| ==> H.ByHandler(calls[i]))
    && exists isHead, grpc, capable :: s == H.Run(H.Fresh(isHead, grpc, capable), calls)
  }

  // Nothing was on the wire, committed or closed before the engine takes over, and what it
  // finds buffered and set can be read off the calls.
  lemma {:induction false} NothingSentBefore(s: H.State, calls: seq<H.Call>)
    requires Sealed(s, calls)
    ensures s.wire == [] && !s.streaming && !s.closed && !s.headersSent
    ensures HasSeal(calls) && Holds(s, LeftBy(calls))
  {
    var isHead, grpc, capable :| s == H.Run(H.Fresh(isHead, grpc, capable), calls);
    H.RunKeeps(H.Fresh(isHead, grpc, capable), calls);
    RunLeaves(H.Fresh(isHead, grpc, capable), calls);
  }

  // The announced length is what is sent, end to end, exactly unless the answer to the request
  // miscounts with the body the calls had buffered.
  lemma {:induction false} CoherentAfterHandler(protocol: F.Protocol, s: H.State, calls: seq<H.Call>, cfg: F.Config, req: F.Request,
                                                f: F.File, other: int, slurps: bool)
    requires Sealed(s, calls) && !F.Unchanged(cfg, req, f, other)
    ensures var get := req.(isHead := false);
            var plan := F.PlanOf(cfg, get, f, other);
            |F.SentFor(protocol, cfg, s.body.text, get, plan, f, slurps)| == F.Announced(plan, |f.content|)
            <==> !F.Miscounts(protocol, cfg, LeftBy(calls).body, get, plan, f, slurps)
  {
    var get := req.(isHead := false);
    NothingSentBefore(s, calls);
    F.Planned(cfg, get, f, other);
    F.AnnouncedIsSent(protocol, cfg, s.body.text, get, F.PlanOf(cfg, get, f, other), f, slurps);
  }

  lemma {:induction false} CarriedLength(h: H.Headers)
    ensures F.ContentLength in Carried(h) <==> HasLength(h)
  {
    assert NameOf("content-length") == F.ContentLength;
  }

  // A 304 carries a Content-Length exactly when the calls had set one.
  lemma {:induction false} LengthOn304(s: H.State, calls: seq<H.Call>, cfg: F.Config, f: F.File, keepAlive: bool)
    requires Sealed(s, calls)
    ensures F.ContentLength in F.HeadersOf(Carried(s.head.headers), cfg, F.NotModified, f, keepAlive) <==> LeftBy(calls).length
  {
    NothingSentBefore(s, calls);
    F.NotModifiedIsBare(F.Http1, Carried(s.head.headers), "", cfg, GET, f, keepAlive, false);
    CarriedLength(s.head.headers);
  }

  // ------------------------------------------------------------- real answers

  const CALLS: seq<H.Call> := [H.Write("x"), H.SendFile("/a", 0, false)]
  const GET := F.Request(false, None, None, None, None)
  const PAST_END: string := "bytes=" + "" + ("5" + "-" + "") + ""
  const ASKS_PAST_END := F.Request(false, None, None, Some(PAST_END), None)
  const THREE_BYTES := F.File(true, 0, EntityTag.Stat(0, 0, 0), "abc")
  const NO_BYTES := F.File(true, 0, EntityTag.Stat(0, 0, 0), "")

  function Echo(cfg: F.Config, f: F.File): F.Request { F.Request(false, Some(F.TagOf(cfg, f)), None, None, None) }

  // A handler writes a byte and then sends a file.
  function Written(): H.State { H.Run(H.Fresh(false, false, true), CALLS) }

  lemma {:induction false} BufferedThenFile()
    ensures Sealed(Written(), CALLS) && Written().body.text == "x"
  {
    var s0 := H.Fresh(false, false, true);
    var s1 := s0.(body := H.Body("x", None));
    assert CALLS[..1] == [H.Write("x")] && [H.Write("x")][..0] == [] && H.Run(s0, []) == s0;
    assert "" + "x" == "x";
    assert H.Run(s0, CALLS[..1]) == s1;
    assert H.Run(s0, CALLS) == s1.(file := Some("/a"));
  }

  lemma {:induction false} PastEndPlan(cfg: F.Config, other: int)
    requires cfg.acceptRanges && !cfg.conditional
    ensures F.PlanOf(cfg, ASKS_PAST_END, THREE_BYTES, other) == F.Unsatisfiable
  {
    var spec := ByteRange.Bounded("5", "");
    assert Decimal.Value("5") == 5 by { assert "5"[..0] == ""; }
    ByteRange.BoundedShape(PAST_END, "", "5", "", "");
    ByteRange.ShapeIsGrammar(PAST_END, spec);
    F.PlanFollowsRange(cfg, ASKS_PAST_END, THREE_BYTES, other, spec);
  }

  // The range is past the end of the three-byte file; the 416 announces nothing and sends "x".
  lemma {:induction false} BodyOn416(protocol: F.Protocol, cfg: F.Config, slurps: bool, other: int)
    requires cfg.acceptRanges && !cfg.conditional
    ensures var plan := F.PlanOf(cfg, ASKS_PAST_END, THREE_BYTES, other);
            && F.Announced(plan, 3) == 0
            && F.SentFor(protocol, cfg, Written().body.text, ASKS_PAST_END, plan, THREE_BYTES, slurps) == "x"
  {
    BufferedThenFile();
    PastEndPlan(cfg, other);
    F.BytesSent(protocol, cfg, "x", ASKS_PAST_END, F.Unsatisfiable, THREE_BYTES, slurps);
  }

  // An empty file announces nothing, and HTTP/2 and HTTP/3 send "x".
  lemma {:induction false} BodyWithEmptyFile(protocol: F.Protocol, cfg: F.Config, slurps: bool, other: int)
    requires !cfg.conditional && cfg.statusOverride == 0
    ensures var plan := F.PlanOf(cfg, GET, NO_BYTES, other);
            && F.Announced(plan, 0) == 0
            && F.SentFor(protocol, cfg, Written().body.text, GET, plan, NO_BYTES, slurps) == if protocol.Http1? then "" else "x"
  {
    BufferedThenFile();
    F.BytesSent(protocol, cfg, "x", GET, F.Whole, NO_BYTES, slurps);
  }

  // The answer to a HEAD request carries "x" over HTTP/2.
  lemma {:induction false} BodyOnHead(protocol: F.Protocol, cfg: F.Config, slurps: bool, other: int)
    requires !cfg.conditional && cfg.statusOverride == 0
    ensures var plan := F.PlanOf(cfg, F.HEAD_REQUEST, THREE_BYTES, other);
            F.SentFor(protocol, cfg, Written().body.text, F.HEAD_REQUEST, plan, THREE_BYTES, slurps)
            == if protocol.Http2? then "x" else ""
  {
    BufferedThenFile();
    F.BytesSent(protocol, cfg, "x", F.HEAD_REQUEST, F.Whole, THREE_BYTES, slurps);
  }

  lemma {:induction false} EchoPlan(cfg: F.Config, f: F.File, other: int)
    requires f.regular && cfg.conditional && cfg.etag
    ensures F.PlanOf(cfg, Echo(cfg, f), f, other) == F.NotModified
  {
    Alone(F.TagOf(cfg, f));
    F.EchoedTagIsUnmodified(cfg, Echo(cfg, f), f, other, "", "", "", "");
  }

  lemma {:induction false} Alone(tag: string)
    ensures "" + ("" + tag + "") + "" == tag
  {
  }

  // A 304 carries "x" over HTTP/3.
  lemma {:induction false} BodyOn304(protocol: F.Protocol, cfg: F.Config, slurps: bool, other: int)
    requires cfg.conditional && cfg.etag
    ensures var req := Echo(cfg, THREE_BYTES);
            var plan := F.PlanOf(cfg, req, THREE_BYTES, other);
            && plan == F.NotModified
            && F.SentFor(protocol, cfg, Written().body.text, req, plan, THREE_BYTES, slurps) == if protocol.Http3? then "x" else ""
  {
    BufferedThenFile();
    EchoPlan(cfg, THREE_BYTES, other);
    F.BytesSent(protocol, cfg, "x", Echo(cfg, THREE_BYTES), F.NotModified, THREE_BYTES, slurps);
  }

  // With status 204 HTTP/2 announces the three bytes it read and sends none.
  lemma {:induction false} FileSwallowed(cfg: F.Config, other: int)
    requires !cfg.conditional && cfg.statusOverride == 204
    ensures var plan := F.PlanOf(cfg, GET, THREE_BYTES, other);
            && F.Announced(plan, 3) == 3
            && F.SentFor(F.Http2, cfg, Written().body.text, GET, plan, THREE_BYTES, true) == ""
  {
    F.BytesSent(F.Http2, cfg, Written().body.text, GET, F.Whole, THREE_BYTES, true);
  }

  // ----------------------------------------------------- a 304 with a length

  lemma {:induction false} LowerIs(s: string)
    requires forall i :: 0 <= i < |s| ==> !('A' <= s[i] <= 'Z')
    ensures H.Lower(s) == s
  {
    if s != "" {
      LowerIs(s[1..]);
      assert [s[0]] + s[1..] == s;
    }
  }

  // A handler sets a header and then sends a file.
  function SetsHeader(name: string): seq<H.Call> { [H.SetHeader(name, H.One("5")), H.SendFile("/a", 0, false)] }

  function Set(name: string): H.State { H.Run(H.Fresh(false, false, true), SetsHeader(name)) }

  lemma {:induction false} HeaderThenFile(name: string)
    requires H.Lower(name) == name
    ensures Sealed(Set(name), SetsHeader(name)) && Set(name).head.headers == map[name := H.One("5")]
  {
    var s0, calls := H.Fresh(false, false, true), SetsHeader(name);
    var first := calls[0];
    assert calls[..1] == [first] && [first][..0] == [] && H.Run(s0, []) == s0;
    var s1 := s0.(head := H.Head(200, None, map[name := H.One("5")]));
    assert H.Run(s0, calls[..1]) == s1;
    assert H.Run(s0, calls) == s1.(file := Some("/a"));
  }

  lemma {:induction false} OneCarried(name: string)
    ensures (NameOf(name), "5") in Carried(map[name := H.One("5")]).Items
  {
    var h: H.Headers := map[name := H.One("5")];
    assert name in h && NameOf(name) in Carried(h);
  }

  lemma {:induction false} LengthKept(name: string, cfg: F.Config, f: F.File, keepAlive: bool)
    requires H.Lower(name) == name && NameOf(name) == F.ContentLength
    ensures (F.ContentLength, "5") in F.HeadersOf(Carried(Set(name).head.headers), cfg, F.NotModified, f, keepAlive).Items
  {
    HeaderThenFile(name);
    OneCarried(name);
    F.NotModifiedIsBare(F.Http1, Carried(Set(name).head.headers), "", cfg, GET, f, keepAlive, false);
  }

  lemma {:induction false} LengthName()
    ensures NameOf("content-length") == F.ContentLength
  {
  }

  // The request sends the tag back, and the 304 says its length is 5.
  lemma {:induction false} LengthOnReal304(cfg: F.Config, f: F.File, other: int, keepAlive: bool)
    requires f.regular && cfg.conditional && cfg.etag
    ensures var plan := F.PlanOf(cfg, Echo(cfg, f), f, other);
            && plan == F.NotModified
            && (F.ContentLength, "5") in F.HeadersOf(Carried(Set("content-length").head.headers), cfg, plan, f, keepAlive).Items
  {
    LengthName();
    LowerIs("content-length");
    LengthKept("content-length", cfg, f, keepAlive);
    EchoPlan(cfg, f, other);
  }
}
