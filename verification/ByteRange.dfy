// The Range header reader (src/http_range.c:29-145) against the byte-range grammar and the
// meaning of section 14.1.2 of RFC 9110.
module ByteRange {
  import opened Common
  import opened Decimal

  datatype Outcome = Absent | Unsupported | NotSatisfiable | Satisfied(first: nat, last: nat)

  // A range as written: digits only; an absent last position is the empty text.
  datatype Spec = Suffix(len: string) | Bounded(first: string, last: string)

  predicate IsBlank(c: char) { c == ' ' || c == '\t' }

  predicate Blanks(s: string) { forall i :: 0 <= i < |s| ==> IsBlank(s[i]) }

  function SkipBlanks(s: string, i: nat): (j: nat)
    requires i <= |s|
    ensures i <= j <= |s| && (forall k :: i <= k < j ==> IsBlank(s[k])) && (j < |s| ==> !IsBlank(s[j]))
    decreases |s| - i
  {
    if i < |s| && IsBlank(s[i]) then SkipBlanks(s, i + 1) else i
  }

  const UNIT: string := "bytes="

  // ----------------------------------------------------------------- grammar

  predicate WellFormed(spec: Spec)
  {
    match spec
    case Suffix(len) => AllDigits(len)
    case Bounded(first, last) => first != "" && AllDigits(first) && AllDigits(last)
  }

  function Text(spec: Spec): string
  {
    match spec
    case Suffix(len) => "-" + len
    case Bounded(first, last) => first + "-" + last
  }

  // The grammar: the unit, blanks, one range and blanks. A list of ranges is not in it.
  ghost predicate Denotes(header: string, spec: Spec)
  {
    WellFormed(spec) && exists lead, trail :: Spells(header, lead, spec, trail)
  }

  predicate Spells(header: string, lead: string, spec: Spec, trail: string)
  {
    Blanks(lead) && Blanks(trail) && header == UNIT + lead + Text(spec) + trail
  }

  // The same read off the text from left to right.
  function Shape(h: string): Option<Spec>
  {
    if |h| < 7 || h[..6] != UNIT then None
    else
      var p := SkipBlanks(h, 6);
      if p == |h| then None
      else if h[p] == '-' then
        var e := DigitsEnd(h, p + 1);
        if SkipBlanks(h, e) == |h| then Some(Suffix(h[p + 1..e])) else None
      else
        var m := DigitsEnd(h, p);
        if m == p || m == |h| || h[m] != '-' then None else AfterDash(h, p, m)
  }

  // The rest of a bounded range, past the dash at `m`.
  function AfterDash(h: string, p: nat, m: nat): Option<Spec>
    requires p < m < |h|
  {
    var e := DigitsEnd(h, m + 1);
    if SkipBlanks(h, e) == |h| then Some(Bounded(h[p..m], h[m + 1..e])) else None
  }

  // ----------------------------------------------------------------- numbers

  // The guarded 64-bit accumulation: refused when another digit is sure to overflow, and
  // otherwise taken modulo 2^64.
  function Accumulated(s: string): (r: Option<nat>)
    requires AllDigits(s)
    ensures r.Some? ==> r.value <= UINT64_MAX
  {
    if s == "" then Some(0)
    else
      var a := Accumulated(s[..|s| - 1]);
      if a.None? || a.value > UINT64_MAX / 10 then None
      else Some((a.value * 10 + ValueOf(s[|s| - 1])) % (UINT64_MAX + 1))
  }

  // A number that fits is read exactly, and only such a number is.
  lemma {:induction false} FittingNumber(s: string)
    requires AllDigits(s)
    ensures Accumulated(s) == Some(Value(s)) <==> Value(s) <= UINT64_MAX
  {
    if s != "" {
      FittingNumber(s[..|s| - 1]);
    }
  }

  // The numbers the guard lets through although they do not fit.
  predicate InWindow(v: nat) { UINT64_MAX < v <= UINT64_MAX + 4 }

  predicate Exact(s: string)
    requires AllDigits(s)
  {
    Accumulated(s).Some? ==> Accumulated(s).value == Value(s)
  }

  // On a text and on every prefix of it.
  predicate NeverMisread(s: string)
    requires AllDigits(s)
  {
    Exact(s) && (s != "" ==> NeverMisread(s[..|s| - 1]))
  }

  predicate ClearOfWindow(s: string)
    requires AllDigits(s)
  {
    !InWindow(Value(s)) && (s != "" ==> ClearOfWindow(s[..|s| - 1]))
  }

  // Reading a number never holds a wrong value exactly when no prefix of it lies in the
  // window, that is in 2^64 .. 2^64 + 3.
  lemma {:induction false} MisreadExactly(s: string)
    requires AllDigits(s)
    ensures NeverMisread(s) <==> ClearOfWindow(s)
  {
    if s != "" {
      MisreadExactly(s[..|s| - 1]);
      if NeverMisread(s[..|s| - 1]) {
        LastStep(s);
      }
    }
  }

  lemma {:induction false} LastDigit(a: nat, d: nat, before: Option<nat>, after: Option<nat>)
    requires d < 10 && (before.Some? ==> before.value == a) && (before.None? ==> a > UINT64_MAX)
    requires after == if before.None? || a > UINT64_MAX / 10 then None else Some((a * 10 + d) % (UINT64_MAX + 1))
    ensures (after.Some? ==> after.value == a * 10 + d) <==> !InWindow(a * 10 + d)
  {
  }

  lemma {:induction false} LastStep(s: string)
    requires AllDigits(s) && s != "" && Exact(s[..|s| - 1])
    ensures Exact(s) <==> !InWindow(Value(s))
  {
    var front := s[..|s| - 1];
    FittingNumber(front);
    LastDigit(Value(front), ValueOf(s[|s| - 1]), Accumulated(front), Accumulated(s));
  }

  const WRAPPED: string := Digits(UINT64_MAX + 1)   // 18446744073709551616

  // A number one digit longer than the largest that may still grow.
  lemma {:induction false} LastDigitWraps(front: string, c: char)
    requires AllDigits(front) && Value(front) == UINT64_MAX / 10 && IsDigit(c) && ValueOf(c) == 6
    ensures AllDigits(front + [c]) && Value(front + [c]) == UINT64_MAX + 1 && Accumulated(front + [c]) == Some(0)
  {
    FittingNumber(front);
    SnocNumber(front, c, UINT64_MAX / 10, 6);
    assert UINT64_MAX / 10 * 10 + 6 == UINT64_MAX + 1;
  }

  lemma {:induction false} SnocNumber(front: string, c: char, v: nat, d: nat)
    requires AllDigits(front) && IsDigit(c) && ValueOf(c) == d && Value(front) == v && Accumulated(front) == Some(v)
    requires v <= UINT64_MAX / 10
    ensures AllDigits(front + [c]) && Value(front + [c]) == v * 10 + d
    ensures Accumulated(front + [c]) == Some((v * 10 + d) % (UINT64_MAX + 1))
  {
    var s := front + [c];
    assert s[..|s| - 1] == front && s[|s| - 1] == c;
  }

  // 2^64 is accepted, as 0.
  lemma {:induction false} WrappedNumber()
    ensures Value(WRAPPED) == UINT64_MAX + 1 && Accumulated(WRAPPED) == Some(0)
  {
    var v := UINT64_MAX / 10;
    assert (UINT64_MAX + 1) / 10 == v && (UINT64_MAX + 1) % 10 == 6;
    DigitsRoundTrip(v);
    assert WRAPPED == Digits(v) + [DigitOf(6)];
    LastDigitWraps(Digits(v), DigitOf(6));
  }

  // ----------------------------------------------------------------- meaning

  predicate Readable(spec: Spec)
    requires WellFormed(spec)
  {
    match spec
    case Suffix(len) => Accumulated(len).Some?
    case Bounded(first, last) => Accumulated(first).Some? && Accumulated(last).Some?
  }

  // The range the numbers select in a representation of `size` bytes.
  function Resolve(spec: Spec, size: nat): Outcome
    requires WellFormed(spec)
  {
    if !Readable(spec) then Unsupported
    else if size == 0 then NotSatisfiable
    else
      match spec
      case Suffix(len) => ResolveSuffix(len != "", Accumulated(len).value, size)
      case Bounded(first, last) => ResolveBounded(Accumulated(first).value, last != "", Accumulated(last).value, size)
  }

  function ResolveSuffix(given: bool, n: nat, size: nat): Outcome
    requires size > 0
  {
    if !given || n == 0 then Unsupported
    else Satisfied(if n >= size then 0 else size - n, size - 1)
  }

  function ResolveBounded(first: nat, given: bool, last: nat, size: nat): Outcome
    requires size > 0
  {
    if first >= size then NotSatisfiable
    else if !given then Satisfied(first, size - 1)
    else if last < first then Unsupported
    else Satisfied(first, if last >= size then size - 1 else last)
  }

  function Resolved(spec: Option<Spec>, size: nat): Outcome
    requires spec.Some? ==> WellFormed(spec.value)
  {
    if spec.None? then Unsupported else Resolve(spec.value, size)
  }

  function Meaning(header: string, size: nat): Outcome
  {
    if header == "" then Absent else ShapeWellFormed(header); Resolved(Shape(header), size)
  }

  lemma {:induction false} ShapeWellFormed(h: string)
    ensures Shape(h).Some? ==> WellFormed(Shape(h).value)
  {
  }

  // ------------------------------------------------------------------ method

  // One digit further along the text.
  lemma {:induction false} NextDigit(h: string, start: nat, p: nat)
    requires start <= p < |h| && AllDigits(h[start..p]) && IsDigit(h[p]) && Accumulated(h[start..p]).Some?
    ensures AllDigits(h[start..p + 1])
    ensures var v := Accumulated(h[start..p]).value;
            Accumulated(h[start..p + 1])
            == if v > UINT64_MAX / 10 then None else Some((v * 10 + ValueOf(h[p])) % (UINT64_MAX + 1))
  {
    var s := h[start..p + 1];
    assert s[..p - start] == h[start..p] && s[p - start] == h[p];
    assert forall k :: 0 <= k < p - start ==> s[k] == h[start..p][k];
  }

  // A digit loop: the value and the position after it, nothing once the guard refuses.
  method ReadNumber(h: string, start: nat) returns (number: Option<nat>, p: nat)
    requires start <= |h|
    ensures start <= p <= |h| && AllDigits(h[start..DigitsEnd(h, start)])
    ensures number == Accumulated(h[start..DigitsEnd(h, start)])
    ensures number.Some? ==> p == DigitsEnd(h, start)
  {
    p := start;
    var v := 0;
    ghost var end := DigitsEnd(h, start);
    while p < |h| && '0' <= h[p] <= '9'
      invariant start <= p <= end && AllDigits(h[start..p]) && Accumulated(h[start..p]) == Some(v)
    {
      NextDigit(h, start, p);
      if v > UINT64_MAX / 10 {
        Refused(h, start, p + 1, end);
        return None, p;
      }
      v := (v * 10 + ValueOf(h[p])) % (UINT64_MAX + 1);
      p := p + 1;
    }
    return Some(v), p;
  }

  // Once refused, more digits do not help.
  lemma {:induction false} Refused(h: string, start: nat, p: nat, end: nat)
    requires start <= p <= end <= |h| && AllDigits(h[start..end]) && AllDigits(h[start..p])
    requires Accumulated(h[start..p]) == None
    ensures Accumulated(h[start..end]) == None
    decreases end - p
  {
    if p < end {
      assert h[start..end][..end - start - 1] == h[start..end - 1];
      Refused(h, start, p, end - 1);
    }
  }

  method SkipLoop(h: string, start: nat) returns (p: nat)
    requires start <= |h|
    ensures p == SkipBlanks(h, start)
  {
    p := start;
    while p < |h| && (h[p] == ' ' || h[p] == '\t')
      invariant start <= p <= |h| && SkipBlanks(h, p) == SkipBlanks(h, start)
    {
      p := p + 1;
    }
  }

  method HasComma(h: string, p: nat) returns (found: bool)
    requires p <= |h|
    ensures found <==> exists q :: p <= q < |h| && h[q] == ','
  {
    for q := p to |h|
      invariant forall k :: p <= k < q ==> h[k] != ','
    {
      if h[q] == ',' {
        return true;
      }
    }
    return false;
  }

  lemma {:induction false} NoCommaInParts(h: string, p: nat, m: nat, e: nat)
    requires p <= m < e <= |h| && AllDigits(h[p..m]) && h[m] == '-' && AllDigits(h[m + 1..e]) && Blanks(h[e..])
    ensures forall k :: p <= k < |h| ==> h[k] != ','
  {
    assert forall k :: p <= k < m ==> h[k] == h[p..m][k - p];
    assert forall k :: m + 1 <= k < e ==> h[k] == h[m + 1..e][k - m - 1];
    assert forall k :: e <= k < |h| ==> h[k] == h[e..][k - e];
  }

  // A comma ends every hope of a shape, so refusing it early changes nothing.
  lemma {:induction false} ShapeHasNoComma(h: string, spec: Spec)
    requires Shape(h) == Some(spec)
    ensures |h| >= 7 && forall k :: SkipBlanks(h, 6) <= k < |h| ==> h[k] != ','
  {
    var p, m, e := ShapeParts(h, spec);
    NoCommaInParts(h, p, m, e);
  }

  method ParseRange(header: string, size: nat) returns (r: Outcome)
    requires size <= UINT64_MAX
    ensures r == Meaning(header, size)
  {
    if |header| == 0 {
      return Absent;
    }
    if |header| < 7 || header[..6] != UNIT {
      return Unsupported;
    }
    var p := SkipLoop(header, 6);
    var list := HasComma(header, p);
    if list {
      assert Shape(header).None? by {
        if Shape(header).Some? {
          ShapeHasNoComma(header, Shape(header).value);
        }
      }
      return Unsupported;
    }
    if p >= |header| {
      return Unsupported;
    }
    if header[p] == '-' {
      r := FinishSuffix(header, p, size);
    } else {
      r := FinishBounded(header, p, size);
    }
  }

  method FinishSuffix(header: string, p: nat, size: nat) returns (r: Outcome)
    requires |header| >= 7 && header[..6] == UNIT && p == SkipBlanks(header, 6) < |header| && header[p] == '-'
    ensures r == Meaning(header, size)
  {
    var last, q := ReadNumber(header, p + 1);
    if last.None? {
      return Unsupported;
    }
    var e := SkipLoop(header, q);
    if e != |header| {
      return Unsupported;
    }
    if size == 0 {
      return NotSatisfiable;
    }
    if q == p + 1 || last.value == 0 {
      return Unsupported;
    }
    if last.value >= size {
      return Satisfied(0, size - 1);
    }
    return Satisfied(size - last.value, size - 1);
  }

  method FinishBounded(header: string, p: nat, size: nat) returns (r: Outcome)
    requires |header| >= 7 && header[..6] == UNIT && p == SkipBlanks(header, 6) < |header| && header[p] != '-'
    ensures r == Meaning(header, size)
  {
    ShapeWellFormed(header);
    var first, m := ReadNumber(header, p);
    if first.None? {
      return Unsupported;
    }
    if m == p || m >= |header| || header[m] != '-' {
      return Unsupported;
    }
    r := FinishLast(header, p, m, first.value, size);
  }

  method FinishLast(header: string, p: nat, m: nat, first: nat, size: nat) returns (r: Outcome)
    requires p < m < |header| && AllDigits(header[p..m]) && Accumulated(header[p..m]) == Some(first)
    ensures r == Resolved(AfterDash(header, p, m), size)
  {
    var last, q := ReadNumber(header, m + 1);
    if last.None? {
      return Unsupported;
    }
    var e := SkipLoop(header, q);
    if e != |header| {
      return Unsupported;
    }
    if size == 0 {
      return NotSatisfiable;
    }
    r := ClampBounded(first, q != m + 1, last.value, size);
  }

  method ClampBounded(first: nat, given: bool, last: nat, size: nat) returns (r: Outcome)
    requires size > 0
    ensures r == ResolveBounded(first, given, last, size)
  {
    if first >= size {
      return NotSatisfiable;
    }
    if !given {
      return Satisfied(first, size - 1);
    }
    if last < first {
      return Unsupported;
    }
    var end := last;
    if end >= size {
      end := size - 1;
    }
    return Satisfied(first, end);
  }

  // ------------------------------------------------------------------ theorems

  lemma {:induction false} BlankRun(h: string, i: nat, j: nat)
    requires i <= j <= |h| && (forall k :: i <= k < j ==> IsBlank(h[k])) && (j < |h| ==> !IsBlank(h[j]))
    ensures SkipBlanks(h, i) == j
  {
  }

  lemma {:induction false} DigitRun(h: string, i: nat, j: nat)
    requires i <= j <= |h| && (forall k :: i <= k < j ==> IsDigit(h[k])) && (j < |h| ==> !IsDigit(h[j]))
    ensures DigitsEnd(h, i) == j
  {
  }

  // The reader accepts exactly the grammar, and reads each text in one way.
  lemma {:induction false} ShapeIsGrammar(h: string, spec: Spec)
    ensures Shape(h) == Some(spec) <==> Denotes(h, spec)
  {
    if Shape(h) == Some(spec) {
      ShapeDenotes(h, spec);
    }
    if Denotes(h, spec) {
      var lead, trail :| Spells(h, lead, spec, trail);
      match spec
      case Suffix(len) => SuffixShape(h, lead, len, trail);
      case Bounded(first, last) => BoundedShape(h, lead, first, last, trail);
    }
  }

  lemma {:induction false} DenotesAt(h: string, spec: Spec, p: nat, e: nat)
    requires 6 <= p <= e <= |h| && h[..6] == UNIT && WellFormed(spec)
    requires Text(spec) == h[p..e] && Blanks(h[6..p]) && Blanks(h[e..])
    ensures Denotes(h, spec)
  {
    assert h == UNIT + h[6..p] + h[p..e] + h[e..];
    assert Spells(h, h[6..p], spec, h[e..]);
  }

  // The positions the reader found.
  lemma {:induction false} ShapeParts(h: string, spec: Spec) returns (p: nat, m: nat, e: nat)
    requires Shape(h) == Some(spec)
    ensures |h| >= 7 && h[..6] == UNIT && p == SkipBlanks(h, 6) && p <= m < e <= |h| && Blanks(h[6..p]) && Blanks(h[e..])
    ensures h[m] == '-' && AllDigits(h[m + 1..e])
    ensures spec.Suffix? ==> m == p && spec.len == h[p + 1..e]
    ensures spec.Bounded? ==> p < m && AllDigits(h[p..m]) && spec.first == h[p..m] && spec.last == h[m + 1..e]
  {
    p := SkipBlanks(h, 6);
    m := if h[p] == '-' then p else DigitsEnd(h, p);
    e := DigitsEnd(h, m + 1);
  }

  lemma {:induction false} SpecText(h: string, spec: Spec, p: nat, m: nat, e: nat)
    requires p <= m < e <= |h| && h[m] == '-'
    requires spec.Suffix? ==> m == p && spec.len == h[p + 1..e]
    requires spec.Bounded? ==> spec.first == h[p..m] && spec.last == h[m + 1..e]
    ensures Text(spec) == h[p..e]
  {
    match spec
    case Suffix(len) => assert h[p..e] == "-" + h[p + 1..e];
    case Bounded(first, last) => assert h[p..e] == h[p..m] + "-" + h[m + 1..e];
  }

  lemma {:induction false} ShapeDenotes(h: string, spec: Spec)
    requires Shape(h) == Some(spec)
    ensures Denotes(h, spec)
  {
    var p, m, e := ShapeParts(h, spec);
    SpecText(h, spec, p, m, e);
    DenotesAt(h, spec, p, e);
  }

  // The shape of a text whose parts lie between given positions.
  predicate Leads(h: string, p: nat) { |h| >= 7 && 6 <= p < |h| && h[..6] == UNIT && Blanks(h[6..p]) }

  lemma {:induction false} SuffixAt(h: string, p: nat, e: nat)
    requires Leads(h, p) && h[p] == '-' && p < e <= |h| && AllDigits(h[p + 1..e]) && Blanks(h[e..])
    ensures Shape(h) == Some(Suffix(h[p + 1..e]))
  {
    LeadRun(h, p);
    DigitSlice(h, p + 1, e);
    TrailRun(h, e);
  }

  lemma {:induction false} BoundedAt(h: string, p: nat, m: nat, e: nat)
    requires Leads(h, p) && p < m < e <= |h| && AllDigits(h[p..m]) && h[m] == '-' && AllDigits(h[m + 1..e]) && Blanks(h[e..])
    ensures Shape(h) == Some(Bounded(h[p..m], h[m + 1..e]))
  {
    assert IsDigit(h[p]) by {
      assert h[p] == h[p..m][0];
    }
    LeadRun(h, p);
    DigitSlice(h, p, m);
    DigitSlice(h, m + 1, e);
    TrailRun(h, e);
  }

  lemma {:induction false} LeadRun(h: string, p: nat)
    requires Leads(h, p) && !IsBlank(h[p])
    ensures SkipBlanks(h, 6) == p
  {
    assert forall k :: 6 <= k < p ==> h[k] == h[6..p][k - 6];
    BlankRun(h, 6, p);
  }

  lemma {:induction false} TrailRun(h: string, e: nat)
    requires e <= |h| && Blanks(h[e..])
    ensures SkipBlanks(h, e) == |h|
  {
    assert forall k :: e <= k < |h| ==> h[k] == h[e..][k - e];
    BlankRun(h, e, |h|);
  }

  // A run of digits ends where the next character, a dash or a blank, is none.
  lemma {:induction false} DigitSlice(h: string, i: nat, j: nat)
    requires i <= j <= |h| && AllDigits(h[i..j]) && (j < |h| ==> h[j] == '-' || Blanks(h[j..]))
    ensures DigitsEnd(h, i) == j
  {
    assert forall k :: i <= k < j ==> h[k] == h[i..j][k - i];
    if j < |h| && h[j] != '-' {
      assert h[j] == h[j..][0];
    }
    DigitRun(h, i, j);
  }

  lemma {:induction false} SuffixShape(h: string, lead: string, len: string, trail: string)
    requires Blanks(lead) && Blanks(trail) && AllDigits(len) && h == UNIT + lead + ("-" + len) + trail
    ensures Shape(h) == Some(Suffix(len))
  {
    var p := 6 + |lead|;
    var e := p + 1 + |len|;
    assert h[..6] == UNIT && h[6..p] == lead && h[p] == '-' && h[p + 1..e] == len && h[e..] == trail;
    SuffixAt(h, p, e);
  }

  lemma {:induction false} BoundedShape(h: string, lead: string, first: string, last: string, trail: string)
    requires Blanks(lead) && Blanks(trail) && first != "" && AllDigits(first) && AllDigits(last)
    requires h == UNIT + lead + (first + "-" + last) + trail
    ensures Shape(h) == Some(Bounded(first, last))
  {
    var p := 6 + |lead|;
    var m := p + |first|;
    var e := m + 1 + |last|;
    assert h[..6] == UNIT && h[6..p] == lead && h[e..] == trail;
    assert h[p..m] == first && h[m] == '-' && h[m + 1..e] == last;
    BoundedAt(h, p, m, e);
  }

  // Every number written in the range is below 2^64.
  predicate Fits(spec: Spec)
    requires WellFormed(spec)
  {
    match spec
    case Suffix(len) => Value(len) <= UINT64_MAX
    case Bounded(first, last) => Value(first) <= UINT64_MAX && Value(last) <= UINT64_MAX
  }

  // A range the standard calls invalid, and a suffix of no bytes.
  predicate Invalid(spec: Spec)
    requires WellFormed(spec)
  {
    match spec
    case Suffix(len) => Value(len) == 0
    case Bounded(first, last) => last != "" && Value(last) < Value(first)
  }

  // Section 14.1.2 of RFC 9110: whether a range asks for the byte at position `p`.
  predicate Selects(spec: Spec, size: nat, p: nat)
    requires WellFormed(spec)
  {
    match spec
    case Suffix(len) => p < size && p + Value(len) >= size
    case Bounded(first, last) => p < size && Value(first) <= p && (last != "" ==> p <= Value(last))
  }

  predicate PastEnd(spec: Spec, size: nat)
    requires WellFormed(spec)
  {
    size == 0 || (spec.Bounded? && Value(spec.first) >= size)
  }

  lemma {:induction false} ReadExactly(spec: Spec)
    requires WellFormed(spec) && Fits(spec)
    ensures Readable(spec)
    ensures spec.Suffix? ==> Accumulated(spec.len).value == Value(spec.len)
    ensures spec.Bounded? ==> Accumulated(spec.first).value == Value(spec.first)
    ensures spec.Bounded? ==> Accumulated(spec.last).value == Value(spec.last)
  {
    match spec
    case Suffix(len) => FittingNumber(len);
    case Bounded(first, last) =>
      FittingNumber(first);
      FittingNumber(last);
  }

  // With numbers below 2^64: 416 exactly for an empty file or a first position past the end;
  // a satisfied range is in bounds and holds exactly the selected bytes; and a header is
  // ignored only when the range is invalid.
  lemma {:induction false} ResolvesAsDefined(spec: Spec, size: nat)
    requires WellFormed(spec) && Fits(spec)
    ensures Resolve(spec, size).NotSatisfiable? <==> PastEnd(spec, size)
    ensures Resolve(spec, size).Unsupported? <==> !PastEnd(spec, size) && Invalid(spec)
    ensures Resolve(spec, size).Satisfied? ==>
              var first, last := Resolve(spec, size).first, Resolve(spec, size).last;
              && first <= last < size
              && forall p: nat :: first <= p <= last <==> Selects(spec, size, p)
  {
    ReadExactly(spec);
  }

  // The same for a header, through the grammar.
  lemma {:induction false} RangeOfHeader(header: string, spec: Spec, size: nat)
    requires Denotes(header, spec) && Fits(spec)
    ensures Meaning(header, size) == Resolve(spec, size)
  {
    ShapeIsGrammar(header, spec);
  }

  // Whatever the numbers, a satisfied range lies inside the file.
  lemma {:induction false} SatisfiedInBounds(header: string, size: nat)
    ensures Meaning(header, size).Satisfied? ==> Meaning(header, size).first <= Meaning(header, size).last < size
  {
    ShapeWellFormed(header);
  }

  // The wrap is visible: the first position 2^64 is served as 0 of any non-empty file.
  lemma {:induction false} WrappedRange(size: nat)
    requires size > 0
    ensures var header := UNIT + "" + (WRAPPED + "-" + "") + "";
            Meaning(header, size) == Satisfied(0, size - 1) && Denotes(header, Bounded(WRAPPED, ""))
    ensures PastEnd(Bounded(WRAPPED, ""), size) <==> size <= UINT64_MAX + 1
  {
    var header := UNIT + "" + (WRAPPED + "-" + "") + "";
    WrappedNumber();
    BoundedShape(header, "", WRAPPED, "", "");
    ShapeIsGrammar(header, Bounded(WRAPPED, ""));
  }
}
