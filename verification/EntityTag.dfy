// The entity tag of a file and the If-None-Match list scan (src/http_etag.c:18-117).
module EntityTag {
  import opened Common

  const ETAG_LEN: nat := 20

  // The fields of a stat result that enter the tag, as C unsigned 64-bit values.
  datatype Stat = Stat(mtimeNanos: bv64, size: bv64, inode: bv64)

  function Word(b: bv64): (v: nat)
    ensures v <= UINT64_MAX
  {
    b as nat
  }

  function MixBits(st: Stat): bv64 { st.mtimeNanos ^ (st.size << 17) ^ st.inode }

  function Mix(st: Stat): (v: nat)
    ensures v <= UINT64_MAX
  {
    Word(MixBits(st))
  }

  predicate IsHex(c: char) { '0' <= c <= '9' || 'a' <= c <= 'f' }

  function HexOf(d: nat): (c: char)
    requires d < 16
    ensures IsHex(c)
  {
    if d < 10 then '0' + d as char else 'a' + (d - 10) as char
  }

  function HexValueOf(c: char): (d: nat)
    requires IsHex(c)
    ensures d < 16
  {
    if c <= '9' then c as int - '0' as int else c as int - 'a' as int + 10
  }

  // The `n` low hexadecimal digits of a number, and the number they stand for.
  function Hex(v: nat, n: nat): (s: string)
    ensures |s| == n && forall c :: c in s ==> IsHex(c)
  {
    if n == 0 then "" else Hex(v / 16, n - 1) + [HexOf(v % 16)]
  }

  function HexValue(s: string): nat
    requires forall c :: c in s ==> IsHex(c)
  {
    if s == "" then 0 else HexValue(s[..|s| - 1]) * 16 + HexValueOf(s[|s| - 1])
  }

  function Power16(n: nat): nat { if n == 0 then 1 else 16 * Power16(n - 1) }

  lemma {:induction false} HexRoundTrip(v: nat, n: nat)
    requires v < Power16(n)
    ensures HexValue(Hex(v, n)) == v
  {
    if n > 0 {
      HexRoundTrip(v / 16, n - 1);
      assert Hex(v, n)[..n - 1] == Hex(v / 16, n - 1);
    }
  }

  function Tag(v: nat): (s: string)
    ensures |s| == ETAG_LEN
  {
    "W/" + "\"" + Hex(v, 16) + "\""
  }

  // Files whose mixed words differ never share a tag.
  lemma {:induction false} TagsDiffer(v: nat, w: nat)
    requires v <= UINT64_MAX && w <= UINT64_MAX && Tag(v) == Tag(w)
    ensures v == w
  {
    assert Power16(16) == 0x1_0000_0000_0000_0000 by {
      assert Power16(4) == 0x1_0000;
      assert Power16(8) == 0x1_0000_0000;
      assert Power16(12) == 0x1_0000_0000_0000;
    }
    HexRoundTrip(v, 16);
    HexRoundTrip(w, 16);
    assert Hex(v, 16) == Tag(v)[3..19] && Hex(w, 16) == Tag(w)[3..19];
  }

  lemma {:induction false} HexStep(v: nat, n: nat, low: string)
    ensures Hex(v, n + 1) + low == Hex(v / 16, n) + ([HexOf(v % 16)] + low)
  {
    var high := Hex(v / 16, n);
    assert high + ([HexOf(v % 16)] + low) == (high + [HexOf(v % 16)]) + low;
  }

  method PutHex(out: array<char>, at: nat, v: nat)
    requires at + 16 <= out.Length && v <= UINT64_MAX
    modifies out
    ensures out[..] == old(out[..at]) + Hex(v, 16) + old(out[at + 16..])
  {
    var rest := v;
    ghost var before := out[..];
    var i := 15;
    assert Hex(rest, 16) + "" == Hex(v, 16);
    while i >= 0
      invariant -1 <= i <= 15
      invariant Hex(rest, (i + 1) as nat) + out[at + i + 1..at + 16] == Hex(v, 16)
      invariant out[..at] == before[..at] && out[at + 16..] == before[at + 16..]
    {
      ghost var low := out[at + i + 1..at + 16];
      HexStep(rest, i as nat, low);
      out[at + i] := HexOf(rest % 16);
      assert out[at + i + 1..at + 16] == low;
      assert out[at + i..at + 16] == [HexOf(rest % 16)] + low;
      rest := rest / 16;
      i := i - 1;
    }
    assert "" + out[at..at + 16] == out[at..at + 16];
    assert out[..] == out[..at] + out[at..at + 16] + out[at + 16..];
  }

  method FormatTag(st: Stat, buf: array<char>)
    requires buf.Length == ETAG_LEN + 1
    modifies buf
    ensures buf[..ETAG_LEN] == Tag(Mix(st)) && buf[ETAG_LEN] == '\0'
  {
    var mix := Mix(st);
    buf[0] := 'W';
    buf[1] := '/';
    buf[2] := '"';
    PutHex(buf, 3, mix);
    buf[19] := '"';
    buf[20] := '\0';
  }

  // ------------------------------------------------------------- list scan

  predicate IsBlank(c: char) { c == ' ' || c == '\t' }

  function TrimLeft(s: string): (r: string)
    ensures |r| <= |s|
  {
    if s != "" && IsBlank(s[0]) then TrimLeft(s[1..]) else s
  }

  function TrimRight(s: string): (r: string)
    ensures |r| <= |s|
  {
    if s != "" && IsBlank(s[|s| - 1]) then TrimRight(s[..|s| - 1]) else s
  }

  function Trim(s: string): string { TrimRight(TrimLeft(s)) }

  function StripWeak(s: string): string { if |s| >= 2 && s[0] == 'W' && s[1] == '/' then s[2..] else s }

  // The list element between positions `a` and `b`. A comma at the very end of the list
  // opens no further element.
  predicate IsEntry(list: string, a: int, b: int)
  {
    && 0 <= a <= b <= |list| && a < |list|
    && (a == 0 || list[a - 1] == ',') && (b == |list| || list[b] == ',')
    && forall k :: a <= k < b ==> list[k] != ','
  }

  predicate EntryMatches(entry: string, etag: string)
  {
    Trim(entry) == "*" || StripWeak(Trim(entry)) == StripWeak(etag)
  }

  ghost predicate Matches(list: string, etag: string)
  {
    exists a, b :: IsEntry(list, a, b) && EntryMatches(list[a..b], etag)
  }

  method TrimBlanks(s: string) returns (r: string)
    ensures r == Trim(s)
  {
    var left := TrimLeading(s);
    r := left;
    while |r| > 0 && (r[|r| - 1] == ' ' || r[|r| - 1] == '\t')
      invariant TrimRight(r) == TrimRight(left)
    {
      r := r[..|r| - 1];
    }
  }

  method TrimLeading(s: string) returns (r: string)
    ensures r == TrimLeft(s)
  {
    r := s;
    while |r| > 0 && (r[0] == ' ' || r[0] == '\t')
      invariant TrimLeft(r) == TrimLeft(s)
    {
      r := r[1..];
    }
  }

  method MatchEntry(piece: string, ghost etag: string, tag: string) returns (matched: bool)
    requires tag == StripWeak(etag)
    ensures matched <==> EntryMatches(piece, etag)
  {
    var entry := TrimBlanks(piece);
    if |entry| == 1 && entry[0] == '*' {
      assert entry == "*";
      return true;
    }
    return StripWeak(entry) == tag;
  }

  ghost predicate NoneBefore(list: string, etag: string, i: nat)
  {
    forall a, b :: IsEntry(list, a, b) && a < i ==> !EntryMatches(list[a..b], etag)
  }

  method MatchInm(header: string, etag: string) returns (found: bool)
    ensures found <==> Matches(header, etag)
  {
    var tag := StripWeak(etag);
    var i := 0;
    while i < |header|
      invariant i <= |header| && (i == 0 || i == |header| || header[i - 1] == ',')
      invariant NoneBefore(header, etag, i)
    {
      var start := i;
      i := NextComma(header, start);
      var matched := MatchEntry(header[start..i], etag, tag);
      if matched {
        return true;
      }
      NextEntry(header, start, i);
      assert NoneBefore(header, etag, i + 1);
      if i < |header| {
        i := i + 1;
      }
    }
    return false;
  }

  method NextComma(header: string, start: nat) returns (i: nat)
    requires start < |header| && (start == 0 || header[start - 1] == ',')
    ensures start <= i <= |header| && IsEntry(header, start, i)
  {
    i := start;
    while i < |header| && header[i] != ','
      invariant start <= i <= |header| && forall k :: start <= k < i ==> header[k] != ','
    {
      i := i + 1;
    }
  }

  // Between an element and the next one nothing else starts.
  lemma {:induction false} NextEntry(list: string, start: nat, end: nat)
    requires IsEntry(list, start, end)
    ensures forall a, b :: IsEntry(list, a, b) && start <= a <= end ==> a == start && b == end
  {
  }

  // ------------------------------------------------------------ self-match

  predicate Blanks(s: string) { forall c :: c in s ==> IsBlank(c) }

  lemma {:induction false} TrimLeftPadded(pad: string, core: string)
    requires Blanks(pad) && (core != "" ==> !IsBlank(core[0]))
    ensures core != "" ==> TrimLeft(pad + core) == core
  {
    if pad == "" {
      assert pad + core == core;
    } else {
      assert (pad + core)[1..] == pad[1..] + core;
      assert IsBlank(pad[0]);
      TrimLeftPadded(pad[1..], core);
    }
  }

  lemma {:induction false} TrimRightPadded(core: string, pad: string)
    requires Blanks(pad) && core != "" && !IsBlank(core[|core| - 1])
    ensures TrimRight(core + pad) == core
  {
    if pad == "" {
      assert core + pad == core;
    } else {
      var s := core + pad;
      assert s[..|s| - 1] == core + pad[..|pad| - 1];
      assert IsBlank(pad[|pad| - 1]);
      TrimRightPadded(core, pad[..|pad| - 1]);
    }
  }

  lemma {:induction false} TrimPadded(left: string, core: string, right: string)
    requires Blanks(left) && Blanks(right) && core != "" && !IsBlank(core[0]) && !IsBlank(core[|core| - 1])
    ensures Trim(left + core + right) == core
  {
    assert left + core + right == left + (core + right);
    TrimLeftPadded(left, core + right);
    TrimRightPadded(core, right);
  }

  // A list that holds a file's own tag, with any blanks around it and anything before and
  // after it, matches.
  lemma {:induction false} OwnTagMatches(before: string, left: string, v: nat, right: string, after: string)
    requires before == "" || before[|before| - 1] == ','
    requires after == "" || after[0] == ','
    requires Blanks(left) && Blanks(right)
    ensures Matches(before + (left + Tag(v) + right) + after, Tag(v))
  {
    var tag := Tag(v);
    var entry := left + tag + right;
    var list := before + entry + after;
    var a, b := |before|, |before| + |entry|;
    assert list[a..b] == entry;
    assert forall k :: a <= k < b ==> list[k] == entry[k - a];
    NoComma(left, v, right);
    assert IsEntry(list, a, b);
    assert tag[0] == 'W' && tag[ETAG_LEN - 1] == '"';
    TrimPadded(left, tag, right);
  }

  lemma {:induction false} NoComma(left: string, v: nat, right: string)
    requires Blanks(left) && Blanks(right)
    ensures forall k :: 0 <= k < |left + Tag(v) + right| ==> (left + Tag(v) + right)[k] != ','
  {
    var s := left + Tag(v) + right;
    forall k | 0 <= k < |s| ensures s[k] != ',' {
      if k < |left| {
        assert s[k] in left;
      } else if k < |left| + ETAG_LEN {
        TagHasNoComma(v, k - |left|);
      } else {
        assert s[k] in right;
      }
    }
  }

  lemma {:induction false} TagHasNoComma(v: nat, k: nat)
    requires k < ETAG_LEN
    ensures Tag(v)[k] != ','
  {
    if 3 <= k < 19 {
      assert Tag(v)[k] == Hex(v, 16)[k - 3];
      assert Hex(v, 16)[k - 3] in Hex(v, 16);
    }
  }

  // With tags switched off the tag is the empty text, and then the scan also accepts an
  // empty element or a bare weak marker, which names no tag at all.
  lemma {:induction false} MatchesWithoutTag(list: string)
    ensures Matches(list, "") <==>
              exists a, b :: IsEntry(list, a, b) && Trim(list[a..b]) in {"*", "", "W/"}
  {
    forall a, b | IsEntry(list, a, b)
      ensures EntryMatches(list[a..b], "") <==> Trim(list[a..b]) in {"*", "", "W/"}
    {
      WeakOfNothing(Trim(list[a..b]));
    }
  }

  lemma {:induction false} WeakOfNothing(s: string)
    ensures StripWeak(s) == StripWeak("") <==> s == "" || s == "W/"
  {
    if StripWeak(s) == "" && s != "" {
      assert s == s[..2] + s[2..] && s[..2] == "W/";
    }
  }

  lemma {:induction false} BareCommaMatchesNoTag()
    ensures Matches(",", "") && !Matches(",", Tag(0))
  {
    assert IsEntry(",", 0, 0) && ","[0..0] == "";
    assert StripWeak(Tag(0)) == Tag(0)[2..];
    forall a, b | IsEntry(",", a, b) ensures !EntryMatches(","[a..b], Tag(0)) {
      assert ","[a..b] == "";
    }
  }
}
