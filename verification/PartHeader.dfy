// The Content-Range header of a 206 or 416, read as section 14.4 of RFC 9110 says
// (src/send_file.c:360-366, 432-440).
module PartHeader {
  import opened Common
  import opened Decimal
  import opened FileResponse

  // What a Content-Range says: the positions of a part, with the complete length or without,
  // or a complete length alone.
  datatype Said = Part(first: nat, last: nat, complete: Option<nat>) | Nothing(size: nat)

  function IndexOf(s: string, c: char): (i: nat)
    ensures i <= |s| && (i < |s| ==> s[i] == c) && forall k :: 0 <= k < i ==> s[k] != c
  {
    if s == "" || s[0] == c then 0 else 1 + IndexOf(s[1..], c)
  }

  predicate IsNumber(s: string) { s != "" && AllDigits(s) }

  // A part is invalid when its last position is before its first or not inside the length.
  function ReadPart(first: string, last: string, complete: string): Option<Said>
  {
    if !IsNumber(first) || !IsNumber(last) || Value(last) < Value(first) then None
    else if complete == "*" then Some(Part(Value(first), Value(last), None))
    else if IsNumber(complete) && Value(last) < Value(complete) then Some(Part(Value(first), Value(last), Some(Value(complete))))
    else None
  }

  function ReadRange(range: string, complete: string): Option<Said>
  {
    if range == "*" then
      if IsNumber(complete) then Some(Nothing(Value(complete))) else None
    else
      var dash := IndexOf(range, '-');
      if dash == |range| then None else ReadPart(range[..dash], range[dash + 1..], complete)
  }

  function ReadContentRange(text: string): Option<Said>
  {
    if |text| < 6 || text[..6] != "bytes " then None
    else
      var rest := text[6..];
      var slash := IndexOf(rest, '/');
      if slash == |rest| then None else ReadRange(rest[..slash], rest[slash + 1..])
  }

  // ------------------------------------------------------------------- reading

  lemma {:induction false} SplitAt(a: string, c: char, b: string)
    requires c !in a
    ensures var s := a + [c] + b; IndexOf(s, c) == |a| < |s| && s[..|a|] == a && s[|a| + 1..] == b
  {
    var s := a + [c] + b;
    assert s[|a|] == c && forall k :: 0 <= k < |a| ==> s[k] == a[k] && a[k] in a;
  }

  lemma {:induction false} UnitDropped(rest: string)
    ensures var text := "bytes " + rest; |text| >= 6 && text[..6] == "bytes " && text[6..] == rest
  {
  }

  lemma {:induction false} Unwrap(range: string, complete: string)
    requires '/' !in range
    ensures ReadContentRange("bytes " + (range + "/" + complete)) == ReadRange(range, complete)
  {
    UnitDropped(range + "/" + complete);
    SplitAt(range, '/', complete);
  }

  lemma {:induction false} Positions(first: string, last: string, complete: string)
    requires AllDigits(first)
    ensures ReadRange(first + "-" + last, complete) == ReadPart(first, last, complete)
  {
    SplitAt(first, '-', last);
    assert (first + "-" + last)[|first|] == '-';
  }

  lemma {:induction false} NoSlash(first: string, last: string)
    requires AllDigits(first) && AllDigits(last)
    ensures '/' !in first + "-" + last
  {
  }

  lemma {:induction false} PartSpelled(first: nat, last: nat, size: nat)
    ensures PartText(first, last, size) == "bytes " + (Digits(first) + "-" + Digits(last) + "/" + Digits(size))
  {
  }

  lemma {:induction false} PartReads(first: nat, last: nat, size: nat)
    requires first <= last < size
    ensures ReadContentRange(PartText(first, last, size)) == Some(Part(first, last, Some(size)))
  {
    PartSpelled(first, last, size);
    NoSlash(Digits(first), Digits(last));
    Unwrap(Digits(first) + "-" + Digits(last), Digits(size));
    Positions(Digits(first), Digits(last), Digits(size));
    DigitsRoundTrip(first);
    DigitsRoundTrip(last);
    DigitsRoundTrip(size);
    assert Digits(size)[0] != '*';
  }

  lemma {:induction false} NoPartReads(size: nat)
    ensures ReadContentRange(NoPartText(size)) == Some(Nothing(size))
  {
    assert NoPartText(size) == "bytes " + ("*" + "/" + Digits(size));
    Unwrap("*", Digits(size));
    DigitsRoundTrip(size);
  }

  lemma {:induction false} PartSent(protocol: Protocol, cfg: Config, body: string, req: Request, plan: Plan, f: File, slurps: bool)
    requires WellPlanned(plan, f) && plan.Partial? && !req.isHead
    ensures SentFor(protocol, cfg, body, req, plan, f, slurps) == f.content[plan.first..plan.last + 1]
  {
    BytesSent(protocol, cfg, body, req, plan, f, slurps);
  }

  // The header of every answer that has one: a part says the very positions of the bytes that
  // are sent, out of the length of the file; a 416 says that length alone.
  lemma {:induction false} RangeHeaderReads(protocol: Protocol, h: Headers, cfg: Config, body: string, req: Request, plan: Plan,
                                            f: File, keepAlive: bool, slurps: bool)
    requires WellPlanned(plan, f) && Leaves(cfg.extra, ContentRange) && |f.content| <= 1_000_000_000_000_000_000
    requires plan.Partial? || plan.Unsatisfiable?
    ensures ContentRange in HeadersOf(h, cfg, plan, f, keepAlive)
    ensures var said := ReadContentRange(HeadersOf(h, cfg, plan, f, keepAlive)[ContentRange]);
            if plan.Unsatisfiable? then said == Some(Nothing(|f.content|))
            else
              && said == Some(Part(plan.first, plan.last, Some(|f.content|)))
              && (!req.isHead ==> SentFor(protocol, cfg, body, req, plan, f, slurps)
                                  == f.content[said.value.first..said.value.last + 1])
  {
    RangeHeader(h, cfg, plan, f, keepAlive);
    if plan.Partial? {
      var text := PartText(plan.first, plan.last, |f.content|);
      assert HeadersOf(h, cfg, plan, f, keepAlive)[ContentRange] == text;
      PartReads(plan.first, plan.last, |f.content|);
      if !req.isHead {
        PartSent(protocol, cfg, body, req, plan, f, slurps);
      }
    } else {
      NoPartReads(|f.content|);
    }
  }
}
