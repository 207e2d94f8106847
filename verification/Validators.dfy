// What the validators of a request decide, and nothing else does: If-None-Match over the date,
// If-Range over the part, and the fields of the file over its tag
// (src/send_file.c:299-346, 808-830, src/http_etag.c:32-117).
module Validators {
  import opened Common
  import opened EntityTag
  import opened FileResponse
  import ByteRange
  import Calendar
  import HttpDate

  // ------------------------------------------------------------- list elements

  predicate Holds(list: string, before: string, left: string, core: string, right: string, after: string)
  {
    && list == before + (left + core + right) + after
    && (before == "" || before[|before| - 1] == ',') && (after == "" || after[0] == ',')
    && Blanks(left) && Blanks(right)
  }

  // The text is an element of the comma-separated list, with blanks around it.
  ghost predicate Lists(list: string, core: string)
  {
    exists before, left, right, after :: Holds(list, before, left, core, right, after)
  }

  lemma {:induction false} TrimLeftSplit(s: string) returns (left: string)
    ensures Blanks(left) && s == left + TrimLeft(s)
  {
    if s != "" && IsBlank(s[0]) {
      var more := TrimLeftSplit(s[1..]);
      left := [s[0]] + more;
      assert s == [s[0]] + s[1..];
    } else {
      left := "";
    }
  }

  lemma {:induction false} TrimRightSplit(s: string) returns (right: string)
    ensures Blanks(right) && s == TrimRight(s) + right
  {
    if s != "" && IsBlank(s[|s| - 1]) {
      var more := TrimRightSplit(s[..|s| - 1]);
      right := more + [s[|s| - 1]];
      assert s == s[..|s| - 1] + [s[|s| - 1]];
    } else {
      right := "";
    }
  }

  lemma {:induction false} EntryIsListed(list: string, a: int, b: int)
    requires IsEntry(list, a, b)
    ensures Lists(list, Trim(list[a..b]))
  {
    var entry := list[a..b];
    var left := TrimLeftSplit(entry);
    var right := TrimRightSplit(TrimLeft(entry));
    var core := Trim(entry);
    Regroup(left, core, right);
    Cut(list, a, b);
    assert Holds(list, list[..a], left, core, right, list[b..]);
  }

  lemma {:induction false} Regroup(left: string, core: string, right: string)
    ensures left + (core + right) == left + core + right
  {
  }

  lemma {:induction false} Cut(list: string, a: nat, b: nat)
    requires a <= b <= |list|
    ensures list == list[..a] + list[a..b] + list[b..]
  {
  }

  // A text that can be an element by itself.
  predicate Plain(core: string)
  {
    core != "" && !IsBlank(core[0]) && !IsBlank(core[|core| - 1]) && ',' !in core
  }

  lemma {:induction false} ListedIsEntry(list: string, core: string) returns (a: int, b: int)
    requires Lists(list, core) && Plain(core)
    ensures IsEntry(list, a, b) && Trim(list[a..b]) == core
  {
    var before, left, right, after :| Holds(list, before, left, core, right, after);
    var entry := left + core + right;
    a, b := |before|, |before| + |entry|;
    assert list[a..b] == entry;
    forall k | a <= k < b
      ensures list[k] != ','
    {
      assert list[k] == entry[k - a] && (entry[k - a] in left || entry[k - a] in core || entry[k - a] in right);
    }
    TrimPadded(left, core, right);
  }

  lemma {:induction false} PlainTag(v: nat)
    ensures Plain(Tag(v)) && Plain(Tag(v)[2..]) && Tag(v) == "W/" + Tag(v)[2..] && Tag(v)[2] == '"'
  {
    var tag := Tag(v);
    forall c | c in tag
      ensures c != ','
    {
      var k :| 0 <= k < |tag| && tag[k] == c;
      TagHasNoComma(v, k);
    }
    assert tag[0] == 'W' && tag[1] == '/' && tag[2] == '"' && tag[|tag| - 1] == '"';
  }

  lemma {:induction false} WeaklyEqual(s: string, tag: string)
    requires |tag| > 2 && tag == "W/" + tag[2..] && tag[2] == '"'
    ensures StripWeak(s) == StripWeak(tag) <==> s == tag || s == tag[2..]
  {
    assert StripWeak(tag) == tag[2..] && StripWeak(tag[2..]) == tag[2..];
    if |s| >= 2 && s[0] == 'W' && s[1] == '/' {
      assert s == "W/" + s[2..];
    }
  }

  // A list matches a tag exactly when one of its elements is a star or the tag, weak or not.
  lemma {:induction false} MatchesExactly(list: string, v: nat)
    ensures Matches(list, Tag(v)) <==> Lists(list, "*") || Lists(list, Tag(v)) || Lists(list, Tag(v)[2..])
  {
    var tag := Tag(v);
    PlainTag(v);
    if Matches(list, tag) {
      var a, b :| IsEntry(list, a, b) && EntryMatches(list[a..b], tag);
      EntryIsListed(list, a, b);
      WeaklyEqual(Trim(list[a..b]), tag);
    }
    if core :| core in {"*", tag, tag[2..]} && Lists(list, core) {
      var a, b := ListedIsEntry(list, core);
      WeaklyEqual(core, tag);
      assert EntryMatches(list[a..b], tag);
    }
  }

  // -------------------------------------------------------------- the decisions

  // With tags on, a request with an If-None-Match is answered 304 exactly when the list holds a
  // star or our tag; whatever dates it sends.
  lemma {:induction false} TagDecides(cfg: Config, req: Request, f: File, other: int)
    requires f.regular && cfg.conditional && cfg.etag && req.ifNoneMatch.Some? && req.ifNoneMatch.value != ""
    ensures var tag := Tag(Mix(f.stat));
            PlanOf(cfg, req, f, other) == NotModified
            <==> Lists(req.ifNoneMatch.value, "*") || Lists(req.ifNoneMatch.value, tag) || Lists(req.ifNoneMatch.value, tag[2..])
  {
    MatchesExactly(req.ifNoneMatch.value, Mix(f.stat));
  }

  // Without one, a date we could have written decides: 304 exactly when the file is no newer.
  lemma {:induction false} DateDecides(cfg: Config, req: Request, f: File, other: int, since: int)
    requires f.regular && cfg.conditional && Absent(req.ifNoneMatch) == ""
    requires req.ifModifiedSince == Some(HttpDate.Formatted(since)) && since != -1 && 0 <= Calendar.GmTime(since).year <= 9999
    ensures PlanOf(cfg, req, f, other) == NotModified <==> f.mtime <= since
  {
    HttpDate.RoundTrip(since, other);
    SinceDecides(cfg, req, f, other, HttpDate.ImfText(Calendar.GmTime(since)), since);
  }

  lemma {:induction false} SinceDecides(cfg: Config, req: Request, f: File, other: int, text: string, since: int)
    requires f.regular && cfg.conditional && Absent(req.ifNoneMatch) == ""
    requires req.ifModifiedSince == Some(text) && text != "" && HttpDate.Parsed(text, other) == since != -1
    ensures PlanOf(cfg, req, f, other) == NotModified <==> f.mtime <= since
  {
    assert Unchanged(cfg, req, f, other) <==> f.mtime <= since;
  }

  // A part is sent only to a request without If-Range, or whose If-Range is our tag to the
  // letter; with any other the whole file is, unless it is unmodified.
  lemma {:induction false} IfRangeDecides(cfg: Config, req: Request, f: File, other: int)
    requires f.regular && req.ifRange.Some? && !(cfg.etag && req.ifRange.value == Tag(Mix(f.stat)))
    ensures PlanOf(cfg, req, f, other) in {NotModified, Whole}
    ensures PlanOf(cfg, req, f, other) == PlanOf(cfg, req.(range := None), f, other)
  {
  }

  // And with our tag it is as if there were no If-Range.
  lemma {:induction false} OwnIfRange(cfg: Config, req: Request, f: File, other: int)
    requires cfg.etag && req.ifRange == Some(Tag(Mix(f.stat)))
    ensures PlanOf(cfg, req, f, other) == PlanOf(cfg, req.(ifRange := None), f, other)
  {
    assert RangeAllowed(cfg, req, f) && RangeAllowed(cfg, req.(ifRange := None), f);
  }

  // -------------------------------------------------------------------- the tag

  lemma {:induction false} ShiftKeeps(a: bv64, b: bv64)
    requires a < 0x8000_0000_0000 && b < 0x8000_0000_0000 && a << 17 == b << 17
    ensures a == b
  {
  }

  lemma {:induction false} XorKeeps(a: bv64, b: bv64, x: bv64, y: bv64)
    ensures a ^ x ^ y == b ^ x ^ y ==> a == b
    ensures x ^ a ^ y == x ^ b ^ y ==> a == b
    ensures x ^ y ^ a == x ^ y ^ b ==> a == b
  {
  }

  lemma {:induction false} NatKeeps(a: bv64, b: bv64)
    requires a as nat == b as nat
    ensures a == b
  {
    calc { a; == a as nat as bv64; == b as nat as bv64; == b; }
  }

  lemma {:induction false} SameBits(a: Stat, b: Stat, x: bv64, y: bv64)
    requires x == MixBits(a) && y == MixBits(b) && Tag(Mix(a)) == Tag(Mix(b))
    ensures x == y
  {
    TagsDiffer(Mix(a), Mix(b));
    assert x as nat == Mix(a) && y as nat == Mix(b);
    NatKeeps(x, y);
  }

  lemma {:induction false} TimeBits(time: bv64, other: bv64, size: bv64, inode: bv64)
    requires MixBits(Stat(time, size, inode)) == MixBits(Stat(other, size, inode))
    ensures time == other
  {
    XorKeeps(time, other, size << 17, inode);
  }

  lemma {:induction false} InodeBits(time: bv64, size: bv64, inode: bv64, other: bv64)
    requires MixBits(Stat(time, size, inode)) == MixBits(Stat(time, size, other))
    ensures inode == other
  {
    XorKeeps(inode, other, time, size << 17);
  }

  lemma {:induction false} SizeBits(time: bv64, size: bv64, other: bv64, inode: bv64)
    requires MixBits(Stat(time, size, inode)) == MixBits(Stat(time, other, inode))
    ensures size << 17 == other << 17
  {
    XorKeeps(size << 17, other << 17, time, inode);
  }

  predicate SameTag(a: Stat, b: Stat) { Tag(Mix(a)) == Tag(Mix(b)) }

  lemma {:induction false} SameMix(a: Stat, b: Stat)
    requires SameTag(a, b)
    ensures MixBits(a) == MixBits(b)
  {
    SameBits(a, b, MixBits(a), MixBits(b));
  }

  // A file that changes in its time, its identity or its size alone, which is below 2^47,
  // changes its tag.
  lemma {:induction false} TagTracks(time: bv64, time': bv64, size: bv64, size': bv64, inode: bv64, inode': bv64)
    ensures SameTag(Stat(time, size, inode), Stat(time', size, inode)) ==> time == time'
    ensures SameTag(Stat(time, size, inode), Stat(time, size, inode')) ==> inode == inode'
    ensures size < 0x8000_0000_0000 && size' < 0x8000_0000_0000 ==>
              SameTag(Stat(time, size, inode), Stat(time, size', inode)) ==> size == size'
  {
    if SameTag(Stat(time, size, inode), Stat(time', size, inode)) {
      SameMix(Stat(time, size, inode), Stat(time', size, inode));
      TimeBits(time, time', size, inode);
    }
    if SameTag(Stat(time, size, inode), Stat(time, size, inode')) {
      SameMix(Stat(time, size, inode), Stat(time, size, inode'));
      InodeBits(time, size, inode, inode');
    }
    if size < 0x8000_0000_0000 && size' < 0x8000_0000_0000 && SameTag(Stat(time, size, inode), Stat(time, size', inode)) {
      SameMix(Stat(time, size, inode), Stat(time, size', inode));
      SizeBits(time, size, size', inode);
      ShiftKeeps(size, size');
    }
  }
}
