// What the file engine answers: the decision between 304, 416, a part and the whole file,
// the headers it writes and the body slice it hands to the protocol
// (src/send_file.c:222-505, src/http_response_server_api.c:196-262, 320-377), and what each
// protocol then sends (src/http1/http1_sendfile.c:537-580, src/http2/http2_static_response.c:798-880,
// src/http3/http3_static_response.c:560-611). Bodies are texts of bytes.
module FileResponse {
  import opened Common
  import opened Decimal
  import opened ByteRange
  import Calendar
  import HttpDate
  import EntityTag
  import Conditional

  const SLURP_THRESHOLD: nat := 65536

  // The header names the engine writes; names are stored in lower case.
  datatype Name =
    | ContentType | ContentLength | ContentRange | ContentEncoding | ContentDisposition
    | ETag | LastModified | Vary | AcceptRanges | CacheControl | Connection
    | Other(text: string)

  predicate IsContent(n: Name)
  {
    || n in {ContentType, ContentLength, ContentRange, ContentEncoding, ContentDisposition}
    || (n.Other? && |n.text| >= 8 && n.text[..8] == "content-")
  }

  type Headers = map<Name, string>

  datatype OnError = Inline500 | PassthroughPhp | EmitViaOp

  datatype Config = Config(
    etag: bool, lastModified: bool, acceptRanges: bool, conditional: bool,
    statusOverride: int, contentType: string, contentEncoding: Option<string>,
    cacheControl: Option<string>, disposition: Option<string>,
    extra: seq<(Name, string)>, onError: OnError)

  datatype Request = Request(
    isHead: bool, ifNoneMatch: Option<string>, ifModifiedSince: Option<string>,
    range: Option<string>, ifRange: Option<string>)

  // `content` is what the file held when it was examined, and stays so while it is sent.
  datatype File = File(regular: bool, mtime: int, stat: EntityTag.Stat, content: string)

  predicate Sizeable(f: File) { |f.content| <= UINT64_MAX }

  datatype Plan =
    | Broken(status: int, text: string)
    | Unsatisfiable
    | NotModified
    | Partial(first: nat, last: nat)
    | Whole

  predicate IsError(plan: Plan) { plan.Broken? && plan.status >= 400 && 0 < |plan.text| <= 64 }

  predicate WellPlanned(plan: Plan, f: File)
  {
    && (plan.Partial? ==> plan.first <= plan.last < |f.content|)
    && (plan.Broken? ==> IsError(plan))
  }

  // What the protocol is asked to send: the open file or only what the response holds.
  datatype Handover = Handover(withFile: bool, offset: nat, length: nat, headOnly: bool)

  // ---------------------------------------------------------------- decision

  function Absent(h: Option<string>): string { if h.Some? then h.value else "" }

  function TagOf(cfg: Config, f: File): string { if cfg.etag then EntityTag.Tag(EntityTag.Mix(f.stat)) else "" }

  predicate RangeAllowed(cfg: Config, req: Request, f: File)
  {
    req.ifRange.None? || (cfg.etag && req.ifRange.value == TagOf(cfg, f))
  }

  ghost predicate Unchanged(cfg: Config, req: Request, f: File, other: int)
  {
    cfg.conditional
    && Conditional.NotModified(Absent(req.ifNoneMatch), Absent(req.ifModifiedSince), TagOf(cfg, f), f.mtime, other)
  }

  function RangeOutcome(cfg: Config, req: Request, f: File): Outcome
  {
    if cfg.acceptRanges && req.range.Some? && RangeAllowed(cfg, req, f)
    then Meaning(req.range.value, |f.content|) else Outcome.Absent
  }

  function BrokenPlan(cfg: Config): Plan
  {
    if cfg.onError == Inline500 then Broken(500, "Internal Server Error") else Broken(404, "Not Found")
  }

  ghost function PlanOf(cfg: Config, req: Request, f: File, other: int): Plan
  {
    if !f.regular then BrokenPlan(cfg)
    else if Unchanged(cfg, req, f, other) then NotModified
    else
      match RangeOutcome(cfg, req, f)
      case Satisfied(first, last) => Partial(first, last)
      case NotSatisfiable => Unsatisfiable
      case _ => Whole
  }

  method RenderTag(cfg: Config, f: File) returns (tag: string)
    ensures tag == TagOf(cfg, f)
  {
    if !cfg.etag {
      return "";
    }
    var buf := new char[21];
    EntityTag.FormatTag(f.stat, buf);
    return buf[..20];
  }

  method Decide(cfg: Config, req: Request, f: File, other: int) returns (plan: Plan)
    requires Sizeable(f)
    ensures plan == PlanOf(cfg, req, f, other)
  {
    if !f.regular {
      return BrokenPlan(cfg);
    }
    var tag := RenderTag(cfg, f);
    if cfg.conditional {
      var same := Conditional.ConditionalCheck(Absent(req.ifNoneMatch), Absent(req.ifModifiedSince), tag, f.mtime, other);
      if same {
        return NotModified;
      }
    }
    if cfg.acceptRanges {
      var allowed := true;
      if req.ifRange.Some? && cfg.etag {
        allowed := req.ifRange.value == tag;
      } else if req.ifRange.Some? {
        allowed := false;
      }
      if req.range.Some? && allowed {
        var outcome := ParseRange(req.range.value, |f.content|);
        if outcome.Satisfied? {
          return Partial(outcome.first, outcome.last);
        } else if outcome.NotSatisfiable? {
          return Unsatisfiable;
        }
      }
    }
    return Whole;
  }

  // ------------------------------------------------------------ construction

  function StatusOf(cfg: Config, plan: Plan): int
  {
    match plan
    case Broken(status, _) => status
    case Unsatisfiable => 416
    case NotModified => 304
    case Partial(_, _) => if cfg.statusOverride != 0 then cfg.statusOverride else 206
    case Whole => if cfg.statusOverride != 0 then cfg.statusOverride else 200
  }

  // How many bytes the response announces; a 304 announces nothing.
  function Announced(plan: Plan, size: nat): nat
  {
    match plan
    case Broken(_, text) => |text|
    case Unsatisfiable => 0
    case NotModified => 0
    case Partial(first, last) => if first <= last then last - first + 1 else 0
    case Whole => size
  }

  function PartText(first: nat, last: nat, size: nat): string
  {
    "bytes " + Digits(first) + "-" + Digits(last) + "/" + Digits(size)
  }

  function NoPartText(size: nat): string { "bytes */" + Digits(size) }

  function PutIf(h: Headers, given: bool, n: Name, v: string): Headers { if given then h[n := v] else h }

  function Extras(h: Headers, extra: seq<(Name, string)>, withContent: bool): Headers
  {
    if extra == [] then h
    else
      var before := Extras(h, extra[..|extra| - 1], withContent);
      var e := extra[|extra| - 1];
      PutIf(before, withContent || !IsContent(e.0), e.0, e.1)
  }

  function PlainText(h: Headers): Headers { PutIf(h, true, ContentType, "text/plain; charset=utf-8") }

  function Connected(h: Headers, keepAlive: bool): Headers
  {
    PutIf(h, true, Connection, if keepAlive then "keep-alive" else "close")
  }

  // The headers of a 200, 206 or 304, in the order they are written.
  function FileHeaders(h: Headers, cfg: Config, plan: Plan, f: File): Headers
  {
    PolicyHeaders(VariantHeaders(EntityHeaders(h, cfg, plan, f), cfg, plan, f), cfg, plan)
  }

  function EntityHeaders(h: Headers, cfg: Config, plan: Plan, f: File): Headers
  {
    var with := !plan.NotModified?;
    var h1 := PutIf(h, with, ContentType, cfg.contentType);
    ValidatorHeaders(PutIf(h1, with, ContentLength, Digits(Announced(plan, |f.content|))), cfg, f)
  }

  function ValidatorHeaders(h: Headers, cfg: Config, f: File): Headers
  {
    var h1 := PutIf(h, cfg.etag, ETag, TagOf(cfg, f));
    PutIf(h1, cfg.lastModified, LastModified, HttpDate.Formatted(f.mtime))
  }

  function VariantHeaders(h: Headers, cfg: Config, plan: Plan, f: File): Headers
  {
    var with := !plan.NotModified?;
    var h1 := PutIf(h, with && cfg.contentEncoding.Some?, ContentEncoding, Absent(cfg.contentEncoding));
    var h2 := PutIf(h1, cfg.contentEncoding.Some?, Vary, "Accept-Encoding");
    var h3 := PutIf(h2, with && cfg.acceptRanges, AcceptRanges, "bytes");
    PutIf(h3, plan.Partial? && |RangeText(plan, f)| < 64, ContentRange, RangeText(plan, f))
  }

  function PolicyHeaders(h: Headers, cfg: Config, plan: Plan): Headers
  {
    var h1 := PutIf(h, cfg.cacheControl.Some?, CacheControl, Absent(cfg.cacheControl));
    var h2 := PutIf(h1, cfg.disposition.Some?, ContentDisposition, Absent(cfg.disposition));
    Extras(h2, cfg.extra, !plan.NotModified?)
  }

  function RangeText(plan: Plan, f: File): string
  {
    if plan.Partial? then PartText(plan.first, plan.last, |f.content|) else ""
  }

  function HeadersOf(h: Headers, cfg: Config, plan: Plan, f: File, keepAlive: bool): Headers
  {
    match plan
    case Broken(_, text) => Connected(PutIf(PlainText(h), true, ContentLength, Digits(|text|)), keepAlive)
    case Unsatisfiable =>
      var h := PutIf(PlainText(h), |NoPartText(|f.content|)| < 48, ContentRange, NoPartText(|f.content|));
      Connected(PutIf(h, true, ContentLength, "0"), keepAlive)
    case _ => Connected(FileHeaders(h, cfg, plan, f), keepAlive)
  }

  // A small whole file is read into the response, when reading it succeeds.
  predicate Inlines(req: Request, plan: Plan, f: File, slurps: bool)
  {
    plan.Whole? && !req.isHead && 0 < |f.content| <= SLURP_THRESHOLD && slurps
  }

  function BodyOf(body: string, req: Request, plan: Plan, f: File, slurps: bool): string
  {
    if plan.Broken? && plan.text != "" then plan.text
    else if Inlines(req, plan, f, slurps) then f.content
    else body
  }

  function HandoverOf(req: Request, plan: Plan, f: File, slurps: bool): Handover
  {
    if plan.Broken? || plan.Unsatisfiable? || Inlines(req, plan, f, slurps) then Handover(false, 0, 0, true)
    else if plan.NotModified? || req.isHead || |f.content| == 0 then Handover(true, 0, 0, true)
    else Handover(true, if plan.Partial? then plan.first else 0, Announced(plan, |f.content|), false)
  }

  datatype Protocol = Http1 | Http2 | Http3

  // The statuses after which HTTP/2 drops a buffered body.
  predicate Bodiless(status: int) { status == 204 || status == 304 }

  // The buffered body that goes out beside a file that is not sent.
  function Leftover(protocol: Protocol, status: int, isHead: bool, body: string): string
  {
    match protocol
    case Http1 => ""
    case Http2 => if Bodiless(status) then "" else body
    case Http3 => if isHead then "" else body
  }

  // What the protocol sends after the head. HTTP/1 sends a buffered body exactly when it gets no
  // file, HTTP/2 unless the status forbids it, HTTP/3 unless the request was HEAD.
  function Sent(protocol: Protocol, status: int, isHead: bool, body: string, h: Handover, content: string): string
  {
    if h.withFile && !h.headOnly then
      if h.offset + h.length > |content| then "" else content[h.offset..h.offset + h.length]
    else if protocol.Http1? && !h.withFile then body
    else Leftover(protocol, status, isHead, body)
  }

  // What a response with a buffered body sends, once it is filled for a plan and handed over.
  function SentFor(protocol: Protocol, cfg: Config, body: string, req: Request, plan: Plan, f: File, slurps: bool): string
  {
    Sent(protocol, StatusOf(cfg, plan), req.isHead, BodyOf(body, req, plan, f, slurps), HandoverOf(req, plan, f, slurps),
         f.content)
  }

  class Response {
    var status: int
    var headers: Headers
    var body: string

    constructor (buffered: string)
      ensures status == 200 && headers == map[] && body == buffered
    {
      status, headers, body := 200, map[], buffered;
    }

    method SetHeader(n: Name, v: string)
      modifies this`headers
      ensures headers == PutIf(old(headers), true, n, v)
    {
      headers := headers[n := v];
    }

    method SetContentLength(length: nat)
      requires length <= UINT64_MAX
      modifies this`headers
      ensures headers == PutIf(old(headers), true, ContentLength, Digits(length))
    {
      var buf := new char[24];
      var n := FormatU64(buf, length);
      SetHeader(ContentLength, buf[..n]);
    }

    method SetConnection(keepAlive: bool)
      modifies this`headers
      ensures headers == Connected(old(headers), keepAlive)
    {
      if keepAlive {
        SetHeader(Connection, "keep-alive");
      } else {
        SetHeader(Connection, "close");
      }
    }

    method ApplyExtra(extra: seq<(Name, string)>, withContent: bool)
      modifies this`headers
      ensures headers == Extras(old(headers), extra, withContent)
    {
      assert extra[..|extra|] == extra;
      for i := 0 to |extra|
        invariant headers == Extras(old(headers), extra[..i], withContent)
      {
        assert extra[..i + 1][..i] == extra[..i];
        if withContent || !IsContent(extra[i].0) {
          SetHeader(extra[i].0, extra[i].1);
        }
      }
    }

    method EmitError(errorStatus: int, text: string, keepAlive: bool)
      requires |text| <= UINT64_MAX
      modifies this
      ensures status == errorStatus && body == if text != "" then text else old(body)
      ensures headers == Connected(PutIf(PlainText(old(headers)), true, ContentLength, Digits(|text|)), keepAlive)
    {
      status := errorStatus;
      SetHeader(ContentType, "text/plain; charset=utf-8");
      if |text| > 0 {
        body := text;
      }
      SetContentLength(|text|);
      SetConnection(keepAlive);
    }

    method EmitUnsatisfiable(size: nat, keepAlive: bool)
      modifies this`status, this`headers
      ensures status == 416
      ensures headers == Connected(PutIf(PutIf(PlainText(old(headers)), |NoPartText(size)| < 48, ContentRange, NoPartText(size)),
                                         true, ContentLength, "0"), keepAlive)
    {
      status := 416;
      SetHeader(ContentType, "text/plain; charset=utf-8");
      var text := NoPartText(size);
      if |text| < 48 {
        SetHeader(ContentRange, text);
      }
      SetHeader(ContentLength, "0");
      SetConnection(keepAlive);
    }

    method WriteEntityHeaders(cfg: Config, plan: Plan, f: File)
      requires Sizeable(f) && (plan.NotModified? || plan.Partial? || plan.Whole?)
      requires plan.Partial? ==> plan.first <= plan.last < |f.content|
      modifies this`headers
      ensures headers == EntityHeaders(old(headers), cfg, plan, f)
    {
      if !plan.NotModified? {
        SetHeader(ContentType, cfg.contentType);
        var length := if plan.Partial? then plan.last - plan.first + 1 else |f.content|;
        assert length == Announced(plan, |f.content|);
        SetContentLength(length);
      }
      WriteValidators(cfg, f);
    }

    method WriteValidators(cfg: Config, f: File)
      modifies this`headers
      ensures headers == ValidatorHeaders(old(headers), cfg, f)
    {
      if cfg.etag {
        var tag := RenderTag(cfg, f);
        SetHeader(ETag, tag);
      }
      if cfg.lastModified {
        var buf := new char[30];
        HttpDate.FormatImf(f.mtime, buf);
        SetHeader(LastModified, buf[..29]);
      }
    }

    method WriteVariantHeaders(cfg: Config, plan: Plan, f: File)
      modifies this`headers
      ensures headers == VariantHeaders(old(headers), cfg, plan, f)
    {
      if cfg.contentEncoding.Some? && !plan.NotModified? {
        SetHeader(ContentEncoding, cfg.contentEncoding.value);
      }
      if cfg.contentEncoding.Some? {
        SetHeader(Vary, "Accept-Encoding");
      }
      if cfg.acceptRanges && !plan.NotModified? {
        SetHeader(AcceptRanges, "bytes");
      }
      if plan.Partial? {
        var text := PartText(plan.first, plan.last, |f.content|);
        if |text| < 64 {
          SetHeader(ContentRange, text);
        }
      }
    }

    method WritePolicyHeaders(cfg: Config, plan: Plan)
      modifies this`headers
      ensures headers == PolicyHeaders(old(headers), cfg, plan)
    {
      if cfg.cacheControl.Some? {
        SetHeader(CacheControl, cfg.cacheControl.value);
      }
      if cfg.disposition.Some? {
        SetHeader(ContentDisposition, cfg.disposition.value);
      }
      ApplyExtra(cfg.extra, !plan.NotModified?);
    }

    method WriteFileHeaders(cfg: Config, plan: Plan, f: File, keepAlive: bool)
      requires Sizeable(f) && (plan.NotModified? || plan.Partial? || plan.Whole?)
      requires plan.Partial? ==> plan.first <= plan.last < |f.content|
      modifies this`headers
      ensures headers == HeadersOf(old(headers), cfg, plan, f, keepAlive)
    {
      WriteEntityHeaders(cfg, plan, f);
      WriteVariantHeaders(cfg, plan, f);
      WritePolicyHeaders(cfg, plan);
      SetConnection(keepAlive);
    }

    // Fills the response for a plan and says what to hand to the protocol.
    method Fill(cfg: Config, req: Request, plan: Plan, f: File, keepAlive: bool, slurps: bool) returns (h: Handover)
      requires Sizeable(f) && WellPlanned(plan, f)
      modifies this
      ensures status == StatusOf(cfg, plan) && headers == HeadersOf(old(headers), cfg, plan, f, keepAlive)
      ensures body == BodyOf(old(body), req, plan, f, slurps) && h == HandoverOf(req, plan, f, slurps)
    {
      if plan.Broken? {
        EmitError(plan.status, plan.text, keepAlive);
        h := Handover(false, 0, 0, true);
      } else if plan.Unsatisfiable? {
        EmitUnsatisfiable(|f.content|, keepAlive);
        h := Handover(false, 0, 0, true);
      } else {
        status := if plan.NotModified? then 304 else if plan.Partial? then 206 else 200;
        if cfg.statusOverride != 0 && !plan.NotModified? && status < 400 {
          status := cfg.statusOverride;
        }
        WriteFileHeaders(cfg, plan, f, keepAlive);
        h := ChooseBody(req, plan, f, slurps);
      }
    }

    method ChooseBody(req: Request, plan: Plan, f: File, slurps: bool) returns (h: Handover)
      requires plan.NotModified? || plan.Partial? || plan.Whole?
      modifies this`body
      ensures body == BodyOf(old(body), req, plan, f, slurps) && h == HandoverOf(req, plan, f, slurps)
    {
      if plan.NotModified? || req.isHead || |f.content| == 0 {
        return Handover(true, 0, 0, true);
      }
      if !plan.Partial? && |f.content| <= SLURP_THRESHOLD && slurps {
        body := f.content;
        return Handover(false, 0, 0, true);
      }
      return Handover(true, if plan.Partial? then plan.first else 0, Announced(plan, |f.content|), false);
    }
  }

  // --------------------------------------------------------------- coherence

  predicate Leaves(extra: seq<(Name, string)>, n: Name) { forall e :: e in extra ==> e.0 != n }

  lemma {:induction false} ExtrasLeave(h: Headers, extra: seq<(Name, string)>, withContent: bool, n: Name)
    requires Leaves(extra, n) || (!withContent && IsContent(n))
    ensures n in Extras(h, extra, withContent) <==> n in h
    ensures n in h ==> Extras(h, extra, withContent)[n] == h[n]
  {
    if extra != [] {
      ExtrasLeave(h, extra[..|extra| - 1], withContent, n);
      assert extra[|extra| - 1] in extra;
    }
  }

  // What the last write of a key leaves.
  predicate Same(a: Headers, b: Headers, n: Name) { (n in a <==> n in b) && (n in a ==> a[n] == b[n]) }

  lemma {:induction false} LengthWritten(h: Headers, cfg: Config, plan: Plan, f: File)
    requires plan.NotModified? || Leaves(cfg.extra, ContentLength)
    ensures plan.NotModified? ==> Same(FileHeaders(h, cfg, plan, f), h, ContentLength)
    ensures !plan.NotModified? ==> (ContentLength, Digits(Announced(plan, |f.content|))) in FileHeaders(h, cfg, plan, f).Items
  {
    var h1 := EntityHeaders(h, cfg, plan, f);
    var h2 := VariantHeaders(h1, cfg, plan, f);
    assert Same(h2, h1, ContentLength);
    PolicyLeaves(h2, cfg, plan, ContentLength);
    assert FileHeaders(h, cfg, plan, f) == PolicyHeaders(h2, cfg, plan);
  }

  lemma {:induction false} PolicyLeaves(h: Headers, cfg: Config, plan: Plan, n: Name)
    requires n != CacheControl && n != ContentDisposition
    requires (plan.NotModified? && IsContent(n)) || Leaves(cfg.extra, n)
    ensures Same(PolicyHeaders(h, cfg, plan), h, n)
  {
    var h1 := PutIf(h, cfg.cacheControl.Some?, CacheControl, Absent(cfg.cacheControl));
    var h2 := PutIf(h1, cfg.disposition.Some?, ContentDisposition, Absent(cfg.disposition));
    ExtrasLeave(h2, cfg.extra, !plan.NotModified?, n);
  }

  // Every plan the engine makes is well formed.
  lemma {:induction false} Planned(cfg: Config, req: Request, f: File, other: int)
    ensures WellPlanned(PlanOf(cfg, req, f, other), f)
  {
    if req.range.Some? {
      SatisfiedInBounds(req.range.value, |f.content|);
    }
  }

  // 416 is answered exactly when a permitted range starts at or past the end, and a part is
  // exactly the bytes the range selects.
  lemma {:induction false} PlanFollowsRange(cfg: Config, req: Request, f: File, other: int, spec: Spec)
    requires req.range.Some? && Denotes(req.range.value, spec) && Fits(spec)
    ensures PlanOf(cfg, req, f, other).Unsatisfiable? <==>
              f.regular && !Unchanged(cfg, req, f, other) && cfg.acceptRanges && RangeAllowed(cfg, req, f)
              && PastEnd(spec, |f.content|)
    ensures PlanOf(cfg, req, f, other).Partial? ==>
              forall p: nat :: PlanOf(cfg, req, f, other).first <= p <= PlanOf(cfg, req, f, other).last
                               <==> Selects(spec, |f.content|, p)
  {
    RangeOfHeader(req.range.value, spec, |f.content|);
    ResolvesAsDefined(spec, |f.content|);
    NotEmptyHeader(req.range.value, spec);
  }

  lemma {:induction false} NotEmptyHeader(header: string, spec: Spec)
    requires Denotes(header, spec)
    ensures header != ""
  {
    var lead, trail :| Spells(header, lead, spec, trail);
  }

  // The Content-Length of every answer but a 304 is the text of the announced length, and
  // reads back as that number.
  lemma {:induction false} LengthAnnounced(h: Headers, cfg: Config, plan: Plan, f: File, keepAlive: bool)
    requires !plan.NotModified? && Leaves(cfg.extra, ContentLength)
    ensures var r := HeadersOf(h, cfg, plan, f, keepAlive);
            && ContentLength in r && AllDigits(r[ContentLength])
            && Value(r[ContentLength]) == Announced(plan, |f.content|)
  {
    DigitsRoundTrip(Announced(plan, |f.content|));
    if plan.Partial? || plan.Whole? {
      LengthWritten(h, cfg, plan, f);
    }
  }

  // What an answer without the file sends.
  function Instead(protocol: Protocol, cfg: Config, body: string, req: Request, plan: Plan): string
  {
    if plan.Broken? || plan.Unsatisfiable? then
      if protocol.Http3? && req.isHead then "" else if plan.Broken? then plan.text else body
    else Leftover(protocol, StatusOf(cfg, plan), req.isHead, body)
  }

  // Whether an answer is to send bytes of the file.
  predicate SendsFile(req: Request, plan: Plan, f: File)
  {
    (plan.Partial? || plan.Whole?) && !req.isHead && |f.content| > 0
  }

  // A small file read into the response, under a status that keeps HTTP/2 from sending it.
  predicate Swallowed(protocol: Protocol, cfg: Config, req: Request, plan: Plan, f: File, slurps: bool)
  {
    protocol.Http2? && Bodiless(StatusOf(cfg, plan)) && Inlines(req, plan, f, slurps)
  }

  // What is sent, for every plan: the part or the whole file, or what goes out instead.
  lemma {:induction false} BytesSent(protocol: Protocol, cfg: Config, body: string, req: Request, plan: Plan, f: File, slurps: bool)
    requires WellPlanned(plan, f)
    ensures SentFor(protocol, cfg, body, req, plan, f, slurps)
            == if !SendsFile(req, plan, f) then Instead(protocol, cfg, body, req, plan)
               else if Swallowed(protocol, cfg, req, plan, f, slurps) then ""
               else if plan.Partial? then f.content[plan.first..plan.last + 1]
               else f.content
  {
    assert f.content[0..|f.content|] == f.content;
  }

  // A HEAD request is answered without a body: always over HTTP/3; over HTTP/1 exactly unless the
  // answer is an error text or a 416 that finds a buffered body; over HTTP/2 exactly unless it is
  // an error text or any answer but a 204 or 304 finds a buffered body.
  lemma {:induction false} HeadIsBodiless(protocol: Protocol, cfg: Config, body: string, req: Request, plan: Plan, f: File, slurps: bool)
    requires WellPlanned(plan, f) && req.isHead
    ensures SentFor(protocol, cfg, body, req, plan, f, slurps) == ""
            <==> match protocol
                 case Http1 => !plan.Broken? && !(plan.Unsatisfiable? && body != "")
                 case Http2 => !plan.Broken? && (body == "" || Bodiless(StatusOf(cfg, plan)))
                 case Http3 => true
  {
    BytesSent(protocol, cfg, body, req, plan, f, slurps);
  }

  const HEAD_REQUEST := Request(true, None, None, None, None)
  const DIRECTORY := File(false, 0, EntityTag.Stat(0, 0, 0), "")

  // HEAD for a directory sends the error text, except over HTTP/3.
  lemma {:induction false} HeadSendsErrorText(protocol: Protocol, cfg: Config, slurps: bool, other: int)
    requires cfg.onError == EmitViaOp
    ensures SentFor(protocol, cfg, "", HEAD_REQUEST, PlanOf(cfg, HEAD_REQUEST, DIRECTORY, other), DIRECTORY, slurps)
            == if protocol.Http3? then "" else "Not Found"
  {
    BytesSent(protocol, cfg, "", HEAD_REQUEST, PlanOf(cfg, HEAD_REQUEST, DIRECTORY, other), DIRECTORY, slurps);
  }

  // The cases in which what is announced is not what is sent: a buffered body goes out with a
  // 416, or with an empty file where the protocol does not drop it; or an inlined file does not.
  predicate Miscounts(protocol: Protocol, cfg: Config, body: string, req: Request, plan: Plan, f: File, slurps: bool)
  {
    || (plan.Unsatisfiable? && body != "")
    || (plan.Whole? && |f.content| == 0 && body != ""
        && (protocol.Http3? || (protocol.Http2? && !Bodiless(StatusOf(cfg, plan)))))
    || Swallowed(protocol, cfg, req, plan, f, slurps)
  }

  // The announced length is the number of bytes sent, or for HEAD of the bytes the same GET
  // would send, exactly unless the answer miscounts.
  lemma {:induction false} AnnouncedIsSent(protocol: Protocol, cfg: Config, body: string, req: Request, plan: Plan, f: File, slurps: bool)
    requires WellPlanned(plan, f) && !plan.NotModified?
    ensures var get := req.(isHead := false);
            |SentFor(protocol, cfg, body, get, plan, f, slurps)| == Announced(plan, |f.content|)
            <==> !Miscounts(protocol, cfg, body, get, plan, f, slurps)
  {
    BytesSent(protocol, cfg, body, req.(isHead := false), plan, f, slurps);
  }

  // A 304 writes no Content-Length, whatever the extra headers are, and sends no body, exactly
  // unless a GET over HTTP/3 finds one buffered.
  lemma {:induction false} NotModifiedIsBare(protocol: Protocol, h: Headers, body: string, cfg: Config, req: Request, f: File,
                                             keepAlive: bool, slurps: bool)
    ensures Same(HeadersOf(h, cfg, NotModified, f, keepAlive), h, ContentLength)
    ensures SentFor(protocol, cfg, body, req, NotModified, f, slurps) == ""
            <==> !(protocol.Http3? && !req.isHead && body != "")
  {
    LengthWritten(h, cfg, NotModified, f);
    BytesSent(protocol, cfg, body, req, NotModified, f, slurps);
  }

  lemma {:induction false} PartTextLength(first: nat, last: nat, size: nat)
    requires first <= last < size <= 1_000_000_000_000_000_000
    ensures |PartText(first, last, size)| < 64
  {
    assert Power10(18) == 1_000_000_000_000_000_000 by {
      assert Power10(6) == 1_000_000;
      assert Power10(12) == 1_000_000_000_000;
    }
    DigitsLength(first, 18);
    DigitsLength(last, 18);
    DigitsLength(size, 19);
  }

  // A part always carries its Content-Range up to 10^18 bytes; a 416 always carries one.
  lemma {:induction false} RangeHeader(h: Headers, cfg: Config, plan: Plan, f: File, keepAlive: bool)
    requires WellPlanned(plan, f) && Leaves(cfg.extra, ContentRange)
    ensures plan.Partial? && |f.content| <= 1_000_000_000_000_000_000 ==>
              (ContentRange, PartText(plan.first, plan.last, |f.content|)) in HeadersOf(h, cfg, plan, f, keepAlive).Items
    ensures plan.Unsatisfiable? && Sizeable(f) ==>
              (ContentRange, NoPartText(|f.content|)) in HeadersOf(h, cfg, plan, f, keepAlive).Items
  {
    if plan.Partial? {
      var h2 := VariantHeaders(EntityHeaders(h, cfg, plan, f), cfg, plan, f);
      PolicyLeaves(h2, cfg, plan, ContentRange);
      if |f.content| <= 1_000_000_000_000_000_000 {
        PartTextLength(plan.first, plan.last, |f.content|);
      }
    } else if plan.Unsatisfiable? && Sizeable(f) {
      Uint64Digits(|f.content|);
    }
  }

  // A 200, 206 or 304 carries our own validators when they are switched on.
  lemma {:induction false} ValidatorsSent(h: Headers, cfg: Config, plan: Plan, f: File, keepAlive: bool)
    requires plan.NotModified? || plan.Partial? || plan.Whole?
    requires Leaves(cfg.extra, ETag) && Leaves(cfg.extra, LastModified)
    ensures cfg.etag ==> (ETag, TagOf(cfg, f)) in HeadersOf(h, cfg, plan, f, keepAlive).Items
    ensures cfg.lastModified ==> (LastModified, HttpDate.Formatted(f.mtime)) in HeadersOf(h, cfg, plan, f, keepAlive).Items
  {
    var h1 := EntityHeaders(h, cfg, plan, f);
    var h2 := VariantHeaders(h1, cfg, plan, f);
    assert Same(h2, h1, ETag) && Same(h2, h1, LastModified);
    PolicyLeaves(h2, cfg, plan, ETag);
    PolicyLeaves(h2, cfg, plan, LastModified);
  }

  // A client that sends our entity tag back, alone or anywhere in a list, is answered 304.
  lemma {:induction false} EchoedTagIsUnmodified(cfg: Config, req: Request, f: File, other: int,
                              before: string, left: string, right: string, after: string)
    requires f.regular && cfg.conditional && cfg.etag
    requires before == "" || before[|before| - 1] == ','
    requires after == "" || after[0] == ','
    requires EntityTag.Blanks(left) && EntityTag.Blanks(right)
    requires req.ifNoneMatch == Some(before + (left + TagOf(cfg, f) + right) + after)
    ensures PlanOf(cfg, req, f, other) == NotModified
  {
    Conditional.EchoedTag(before, left, EntityTag.Mix(f.stat), right, after, Absent(req.ifModifiedSince), f.mtime, other);
  }

  // A client that sends our Last-Modified back, with no If-None-Match, is answered 304 exactly
  // when the time is not -1 and its year is at most 9999.
  lemma {:induction false} EchoedDateIsUnmodified(cfg: Config, req: Request, f: File, other: int)
    requires f.regular && cfg.conditional && req.ifNoneMatch.None?
    requires req.ifModifiedSince == Some(HttpDate.Formatted(f.mtime))
    ensures PlanOf(cfg, req, f, other) == NotModified <==> f.mtime != -1 && Calendar.GmTime(f.mtime).year <= 9999
  {
    Conditional.EchoedLastModified(f.mtime, TagOf(cfg, f), other);
  }
}
