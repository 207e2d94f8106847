// What a file answer says, name by name and status by status, whatever the order it was
// written in (src/send_file.c:222-455, 626-648).
module AnswerTable {
  import opened Common
  import opened Decimal
  import opened FileResponse
  import FileEngine
  import HttpDate

  function At(h: Headers, n: Name): Option<string> { if n in h then Some(h[n]) else None }

  // What an answer writes under a name; under the others it leaves what was there.
  function Writes(cfg: Config, plan: Plan, f: File, keepAlive: bool, n: Name): Option<string>
  {
    if n.Connection? then Some(if keepAlive then "keep-alive" else "close")
    else if plan.Broken? || plan.Unsatisfiable? then ErrorWrites(plan, |f.content|, n)
    else FileWrites(cfg, plan, f, n)
  }

  function ErrorWrites(plan: Plan, size: nat, n: Name): Option<string>
  {
    match n
    case ContentType => Some("text/plain; charset=utf-8")
    case ContentLength => Some(if plan.Broken? then Digits(|plan.text|) else "0")
    case ContentRange => if plan.Unsatisfiable? then Some("bytes */" + Digits(size)) else None
    case _ => None
  }

  // A 304 says nothing about the content, except how to name it.
  function FileWrites(cfg: Config, plan: Plan, f: File, n: Name): Option<string>
  {
    var content := !plan.NotModified?;
    match n
    case ContentType => if content then Some(cfg.contentType) else None
    case ContentLength => if content then Some(Digits(Announced(plan, |f.content|))) else None
    case ContentRange => if plan.Partial? then Some(PartText(plan.first, plan.last, |f.content|)) else None
    case ContentEncoding => if content then cfg.contentEncoding else None
    case ContentDisposition => cfg.disposition
    case ETag => if cfg.etag then Some(TagOf(cfg, f)) else None
    case LastModified => if cfg.lastModified then Some(HttpDate.Formatted(f.mtime)) else None
    case Vary => if cfg.contentEncoding.Some? then Some("Accept-Encoding") else None
    case AcceptRanges => if content && cfg.acceptRanges then Some("bytes") else None
    case CacheControl => cfg.cacheControl
    case _ => None
  }

  lemma {:induction false} EntityAt(h: Headers, cfg: Config, plan: Plan, f: File, n: Name)
    ensures At(EntityHeaders(h, cfg, plan, f), n)
            == if n in {ContentType, ContentLength, ETag, LastModified} && FileWrites(cfg, plan, f, n).Some?
               then FileWrites(cfg, plan, f, n) else At(h, n)
  {
  }

  lemma {:induction false} VariantAt(h: Headers, cfg: Config, plan: Plan, f: File, n: Name)
    requires plan.Partial? ==> |RangeText(plan, f)| < 64
    ensures At(VariantHeaders(h, cfg, plan, f), n)
            == if n in {ContentEncoding, Vary, AcceptRanges, ContentRange} && FileWrites(cfg, plan, f, n).Some?
               then FileWrites(cfg, plan, f, n) else At(h, n)
  {
  }

  lemma {:induction false} PolicyAt(h: Headers, cfg: Config, plan: Plan, f: File, n: Name)
    requires Leaves(cfg.extra, n)
    ensures At(PolicyHeaders(h, cfg, plan), n)
            == if n in {CacheControl, ContentDisposition} && FileWrites(cfg, plan, f, n).Some?
               then FileWrites(cfg, plan, f, n) else At(h, n)
  {
    var h1 := PutIf(h, cfg.cacheControl.Some?, CacheControl, Absent(cfg.cacheControl));
    var h2 := PutIf(h1, cfg.disposition.Some?, ContentDisposition, Absent(cfg.disposition));
    ExtrasLeave(h2, cfg.extra, !plan.NotModified?, n);
  }

  lemma {:induction false} FileAt(h: Headers, cfg: Config, plan: Plan, f: File, n: Name)
    requires Leaves(cfg.extra, n) && (plan.Partial? ==> |RangeText(plan, f)| < 64)
    ensures At(FileHeaders(h, cfg, plan, f), n)
            == if FileWrites(cfg, plan, f, n).Some? then FileWrites(cfg, plan, f, n) else At(h, n)
  {
    var h1 := EntityHeaders(h, cfg, plan, f);
    var h2 := VariantHeaders(h1, cfg, plan, f);
    EntityAt(h, cfg, plan, f, n);
    VariantAt(h1, cfg, plan, f, n);
    PolicyAt(h2, cfg, plan, f, n);
  }

  lemma {:induction false} ErrorAt(h: Headers, cfg: Config, plan: Plan, f: File, keepAlive: bool, n: Name)
    requires plan.Broken? || (plan.Unsatisfiable? && |NoPartText(|f.content|)| < 48)
    ensures At(HeadersOf(h, cfg, plan, f, keepAlive), n)
            == if Writes(cfg, plan, f, keepAlive, n).Some? then Writes(cfg, plan, f, keepAlive, n) else At(h, n)
  {
  }

  // Every header of every answer that no extra header names: what the answer writes there, or
  // what was there before.
  lemma {:induction false} HeadersAre(h: Headers, cfg: Config, plan: Plan, f: File, keepAlive: bool, n: Name)
    requires WellPlanned(plan, f) && Leaves(cfg.extra, n) && |f.content| <= 1_000_000_000_000_000_000
    ensures At(HeadersOf(h, cfg, plan, f, keepAlive), n)
            == if Writes(cfg, plan, f, keepAlive, n).Some? then Writes(cfg, plan, f, keepAlive, n) else At(h, n)
  {
    if plan.Broken? {
      ErrorAt(h, cfg, plan, f, keepAlive, n);
    } else if plan.Unsatisfiable? {
      Uint64Digits(|f.content|);
      ErrorAt(h, cfg, plan, f, keepAlive, n);
    } else {
      if plan.Partial? {
        PartTextLength(plan.first, plan.last, |f.content|);
      }
      FileAt(h, cfg, plan, f, n);
      ConnectedAt(FileHeaders(h, cfg, plan, f), keepAlive, n);
    }
  }

  lemma {:induction false} ConnectedAt(h: Headers, keepAlive: bool, n: Name)
    ensures At(Connected(h, keepAlive), n) == if n.Connection? then Some(if keepAlive then "keep-alive" else "close") else At(h, n)
  {
  }

  // Of the extra headers the last of a name wins, over what the answer wrote too.
  lemma {:induction false} ExtraWins(h: Headers, before: seq<(Name, string)>, n: Name, v: string, after: seq<(Name, string)>,
                                     withContent: bool)
    requires Leaves(after, n) && (withContent || !IsContent(n))
    ensures At(Extras(h, before + [(n, v)] + after, withContent), n) == Some(v)
    decreases |after|
  {
    var all := before + [(n, v)] + after;
    if after == [] {
      assert all[..|all| - 1] == before && all[|all| - 1] == (n, v);
    } else {
      var front := after[..|after| - 1];
      assert all[..|all| - 1] == before + [(n, v)] + front && all[|all| - 1] == after[|after| - 1];
      assert after[|after| - 1] in after;
      ExtraWins(h, before, n, v, front, withContent);
    }
  }

  // ----------------------------------------------------------------- statuses

  // The status tells the answers apart, and an override replaces that of a part or the whole
  // file and no other.
  lemma {:induction false} StatusTells(cfg: Config, req: Request, f: File, other: int)
    ensures var plan := PlanOf(cfg, req, f, other);
            var status := StatusOf(cfg, plan);
            && (cfg.statusOverride == 0 ==> && (status == 200 <==> plan.Whole?) && (status == 206 <==> plan.Partial?))
            && (cfg.statusOverride != 0 && (plan.Whole? || plan.Partial?) ==> status == cfg.statusOverride)
            && (plan.NotModified? ==> status == 304) && (plan.Unsatisfiable? ==> status == 416)
            && (!f.regular ==> status == if cfg.onError == Inline500 then 500 else 404)
  {
  }

  // A file that cannot be opened is not found, where errors are answered by the operation;
  // every other failure is the server's.
  lemma {:induction false} FailureTells(cfg: Config, setup: FileEngine.Setup)
    ensures FileEngine.PlannedError(cfg, setup).Some?
            <==> setup.openFails || (!setup.cached && setup.statFails) || setup.handleFails
    ensures FileEngine.PlannedError(cfg, setup).Some? ==>
              FileEngine.PlannedError(cfg, setup).value
              == if setup.openFails && cfg.onError == EmitViaOp then Broken(404, "Not Found")
                 else Broken(500, "Internal Server Error")
  {
  }

  // send_file() does nothing without its arguments or the operation, and passes on only a file
  // it cannot open.
  lemma {:induction false} ResultTells(cfg: Config, setup: FileEngine.Setup)
    ensures FileEngine.ResultOf(cfg, setup) == FileEngine.Handled <==> setup.badArguments || setup.noOperation
    ensures FileEngine.ResultOf(cfg, setup) == FileEngine.Passthrough
            <==> !setup.badArguments && !setup.noOperation && setup.openFails && cfg.onError == PassthroughPhp
  {
  }

  // A file is read into the response exactly when it is to be sent whole, is not empty and has
  // at most 64 KiB; any other is handed over open, from its first byte to its last.
  lemma {:induction false} HandsOver(req: Request, plan: Plan, f: File, slurps: bool)
    requires WellPlanned(plan, f) && SendsFile(req, plan, f)
    ensures var h := HandoverOf(req, plan, f, slurps);
            && (h.withFile <==> !(plan.Whole? && |f.content| <= 65_536 && slurps))
            && (h.withFile ==> !h.headOnly)
            && (h.withFile && plan.Whole? ==> h.offset == 0 && h.length == |f.content|)
            && (h.withFile && plan.Partial? ==> h.offset == plan.first && h.offset + h.length == plan.last + 1)
  {
  }
}
