// The IMF-fixdate writer and reader (section 5.6.7 of RFC 9110), the writer by index into a
// fixed buffer and the reader over the conversions of sscanf (src/http_date.c:25-160).
module HttpDate {
  import opened Common
  import opened Decimal
  import opened Calendar

  const DATE_LEN: nat := 29

  function DayName(d: nat): (name: string)
    requires d < 7
    ensures |name| == 3
  {
    match d
    case 0 => "Sun" case 1 => "Mon" case 2 => "Tue" case 3 => "Wed"
    case 4 => "Thu" case 5 => "Fri" case _ => "Sat"
  }

  function MonthName(m: nat): (name: string)
    requires m < 12
    ensures |name| == 3 && forall c :: c in name ==> !IsSpace(c) && c != '\0'
  {
    match m
    case 0 => "Jan" case 1 => "Feb" case 2 => "Mar" case 3 => "Apr" case 4 => "May" case 5 => "Jun"
    case 6 => "Jul" case 7 => "Aug" case 8 => "Sep" case 9 => "Oct" case 10 => "Nov" case _ => "Dec"
  }

  // ------------------------------------------------------------------ writer

  function Two(v: nat): (s: string)
    requires v < 100
    ensures |s| == 2 && AllDigits(s)
  {
    [DigitOf(v / 10 % 10), DigitOf(v % 10)]
  }

  function Four(v: nat): (s: string)
    requires v < 10000
    ensures |s| == 4 && AllDigits(s)
  {
    [DigitOf(v / 1000 % 10), DigitOf(v / 100 % 10), DigitOf(v / 10 % 10), DigitOf(v % 10)]
  }

  // A year the four-digit field cannot hold is written as 9999.
  function WrittenYear(year: int): (r: nat)
    ensures r <= 9999
  {
    if year < 0 || year > 9999 then 9999 else year
  }

  function DatePart(tm: Tm): (s: string)
    requires Canonical(tm)
    ensures |s| == 17
  {
    DayName(tm.wday) + ", " + Two(tm.mday) + " " + MonthName(tm.mon) + " " + Four(WrittenYear(tm.year)) + " "
  }

  function ClockPart(tm: Tm): (s: string)
    requires Canonical(tm)
    ensures |s| == 12
  {
    Two(tm.hour) + ":" + Two(tm.min) + ":" + Two(tm.sec) + " GMT"
  }

  function ImfText(tm: Tm): (s: string)
    requires Canonical(tm)
    ensures |s| == DATE_LEN
  {
    DatePart(tm) + ClockPart(tm)
  }

  function Formatted(t: int): string { ImfText(GmTime(t)) }

  // Each writer continues the text before its position.
  method PutTwo(buf: array<char>, at: nat, v: nat)
    requires at + 2 <= buf.Length && v < 100
    modifies buf
    ensures buf[..at + 2] == old(buf[..at]) + Two(v)
  {
    buf[at] := DigitOf(v / 10 % 10);
    buf[at + 1] := DigitOf(v % 10);
  }

  method PutFour(buf: array<char>, at: nat, v: nat)
    requires at + 4 <= buf.Length && v < 10000
    modifies buf
    ensures buf[..at + 4] == old(buf[..at]) + Four(v)
  {
    buf[at] := DigitOf(v / 1000 % 10);
    buf[at + 1] := DigitOf(v / 100 % 10);
    buf[at + 2] := DigitOf(v / 10 % 10);
    buf[at + 3] := DigitOf(v % 10);
  }

  method PutText(buf: array<char>, at: nat, text: string)
    requires at + |text| <= buf.Length
    modifies buf
    ensures buf[..at + |text|] == old(buf[..at]) + text
  {
    for i := 0 to |text|
      invariant buf[..at + i] == old(buf[..at]) + text[..i]
    {
      buf[at + i] := text[i];
      assert buf[..at + i + 1] == buf[..at + i] + [text[i]];
      assert text[..i + 1] == text[..i] + [text[i]];
    }
    assert text[..|text|] == text;
  }

  // Fills the 30-byte buffer: 29 characters and the terminator.
  method FormatImf(t: int, buf: array<char>)
    requires buf.Length == DATE_LEN + 1
    modifies buf
    ensures buf[..DATE_LEN] == Formatted(t) && buf[DATE_LEN] == '\0'
  {
    var tm := GmTime(t);
    WriteFields(tm, buf);
  }

  method WriteFields(tm: Tm, buf: array<char>)
    requires Canonical(tm) && buf.Length == DATE_LEN + 1
    modifies buf
    ensures buf[..DATE_LEN] == ImfText(tm) && buf[DATE_LEN] == '\0'
  {
    WriteDate(tm, buf);
    WriteClock(tm, buf);
    ghost var text := buf[..DATE_LEN];
    buf[DATE_LEN] := '\0';
    assert buf[..DATE_LEN] == text;
  }

  method WriteDate(tm: Tm, buf: array<char>)
    requires Canonical(tm) && buf.Length == DATE_LEN + 1
    modifies buf
    ensures buf[..17] == DatePart(tm)
  {
    var year := tm.year;
    if year < 0 || year > 9999 {
      year := 9999;
    }
    PutText(buf, 0, DayName(tm.wday));
    assert buf[..3] == DayName(tm.wday);
    PutText(buf, 3, ", ");
    PutTwo(buf, 5, tm.mday);
    PutText(buf, 7, " ");
    PutText(buf, 8, MonthName(tm.mon));
    PutText(buf, 11, " ");
    PutFour(buf, 12, year);
    PutText(buf, 16, " ");
  }

  method WriteClock(tm: Tm, buf: array<char>)
    requires Canonical(tm) && buf.Length == DATE_LEN + 1
    modifies buf
    ensures buf[..DATE_LEN] == old(buf[..17]) + ClockPart(tm)
  {
    ghost var date := buf[..17];
    PutTwo(buf, 17, tm.hour);
    PutText(buf, 19, ":");
    PutTwo(buf, 20, tm.min);
    PutText(buf, 22, ":");
    PutTwo(buf, 23, tm.sec);
    PutText(buf, 25, " GMT");
    ClockAfter(date, tm);
  }

  lemma {:induction false} ClockAfter(date: string, tm: Tm)
    requires Canonical(tm)
    ensures date + Two(tm.hour) + ":" + Two(tm.min) + ":" + Two(tm.sec) + " GMT" == date + ClockPart(tm)
  {
  }

  // ------------------------------------------------------------------ sscanf

  predicate IsSpace(c: char) { c == ' ' || '\t' <= c <= '\r' }

  function SkipSpace(s: string, i: nat): (j: nat)
    requires i <= |s|
    ensures i <= j <= |s|
    decreases |s| - i
  {
    if i < |s| && IsSpace(s[i]) then SkipSpace(s, i + 1) else i
  }

  function WordEnd(s: string, i: nat, width: nat): (j: nat)
    requires i <= |s|
    ensures i <= j <= |s|
    decreases width
  {
    if width == 0 || i == |s| || IsSpace(s[i]) || s[i] == '\0' then i else WordEnd(s, i + 1, width - 1)
  }

  // A conversion either stops the scan or yields a value and the position after it. The end
  // of the text and a NUL both stop every conversion.
  datatype Scan<+T> = Stop | Next(value: T, at: nat)

  // %d
  function ScanInt(s: string, i: nat): (r: Scan<int>)
    requires i <= |s|
    ensures r.Next? ==> r.at <= |s|
  {
    var a := SkipSpace(s, i);
    var b := if a < |s| && (s[a] == '-' || s[a] == '+') then a + 1 else a;
    var c := DigitsEnd(s, b);
    if c == b then Stop
    else
      var v: int := Value(s[b..c]);
      Next(if s[a] == '-' then -v else v, c)
  }

  // %3s
  function ScanWord(s: string, i: nat): (r: Scan<string>)
    requires i <= |s|
    ensures r.Next? ==> r.at <= |s|
  {
    var a := SkipSpace(s, i);
    var b := WordEnd(s, a, 3);
    if b == a then Stop else Next(s[a..b], b)
  }

  // ":%d"
  function ScanColonInt(s: string, i: nat): (r: Scan<int>)
    requires i <= |s|
    ensures r.Next? ==> r.at <= |s|
  {
    if i < |s| && s[i] == ':' then ScanInt(s, i + 1) else Stop
  }

  datatype Fields = Fields(mday: int, mon: string, year: int, hour: int, min: int, sec: int)

  // "%d %3s %d %d:%d:%d", all six converted. A blank in the format skips any white space,
  // which the conversion after it skips anyway.
  function ScanFields(s: string, i: nat): Option<Fields>
    requires i <= |s|
  {
    var mday := ScanInt(s, i);
    if mday.Stop? then None
    else
      var mon := ScanWord(s, mday.at);
      if mon.Stop? then None
      else
        var year := ScanInt(s, mon.at);
        if year.Stop? then None
        else
          var hour := ScanInt(s, year.at);
          if hour.Stop? then None
          else
            var min := ScanColonInt(s, hour.at);
            if min.Stop? then None
            else
              var sec := ScanColonInt(s, min.at);
              if sec.Stop? then None
              else Some(Fields(mday.value, mon.value, year.value, hour.value, min.value, sec.value))
  }

  // ------------------------------------------------------------------ reader

  function MonthIndex(mon: string, from: nat): (m: int)
    requires from <= 12
    ensures -1 <= m < 12 && (m >= 0 ==> from <= m && MonthName(m) == mon)
    ensures m == -1 ==> forall k :: from <= k < 12 ==> MonthName(k) != mon
    decreases 12 - from
  {
    if from == 12 then -1 else if MonthName(from) == mon then from else MonthIndex(mon, from + 1)
  }

  predicate InRange(f: Fields)
  {
    1 <= f.mday <= 31 && 0 <= f.hour <= 23 && 0 <= f.min <= 59 && 0 <= f.sec <= 59
  }

  function FieldsTime(f: Fields): int
  {
    var m := MonthIndex(f.mon, 0);
    if m < 0 || !InRange(f) then -1 else TimeGm(Tm(f.sec, f.min, f.hour, f.mday, m, f.year, 0))
  }

  // The time a header names, -1 when it names none. `other` stands for what the readers of
  // the two obsolete forms make of a text that is not laid out as an IMF-fixdate.
  function Parsed(src: string, other: int): int
  {
    if |src| == 0 || |src| >= 64 then -1
    else if |src| >= 26 && src[3] == ',' then
      var f := ScanFields(src, 5);
      if f.Some? then FieldsTime(f.value) else -1
    else other
  }

  method MonthFromAbbr(mon: string) returns (m: int)
    ensures m == MonthIndex(mon, 0)
  {
    for i := 0 to 12
      invariant MonthIndex(mon, 0) == MonthIndex(mon, i)
    {
      var name := MonthName(i);
      if |mon| == 3 && mon[0] == name[0] && mon[1] == name[1] && mon[2] == name[2] {
        assert mon == name;
        return i;
      }
    }
    return -1;
  }

  method ParseImf(src: string, other: int) returns (t: int)
    ensures t == Parsed(src, other)
  {
    if |src| == 0 || |src| >= 64 {
      return -1;
    }
    if |src| >= 26 && src[3] == ',' {
      var f := ScanFields(src, 5);
      if f.Some? {
        var m := MonthFromAbbr(f.value.mon);
        if m >= 0 {
          var tm := Tm(f.value.sec, f.value.min, f.value.hour, f.value.mday, m, f.value.year, 0);
          if !(tm.mday < 1 || tm.mday > 31) && !(tm.hour < 0 || tm.hour > 23)
             && !(tm.min < 0 || tm.min > 59) && !(tm.sec < 0 || tm.sec > 59) {
            return TimeGm(tm);
          }
        }
      }
      return -1;
    }
    return other;
  }

  // -------------------------------------------------------------- round trip

  lemma {:induction false} MonthRead(m: nat)
    requires m < 12
    ensures MonthIndex(MonthName(m), 0) == m
  {
    var r := MonthIndex(MonthName(m), 0);
    MonthNamesDiffer(m, r);
  }

  lemma {:induction false} MonthNamesDiffer(a: nat, b: nat)
    requires a < 12 && b < 12 && MonthName(a) == MonthName(b)
    ensures a == b
  {
    var x, y := MonthName(a), MonthName(b);
    assert x[0] == y[0] && x[1] == y[1] && x[2] == y[2];
  }

  lemma {:induction false} ReadDigits(s: string, i: nat, j: nat)
    requires i < j < |s| && (forall k :: i <= k < j ==> IsDigit(s[k])) && !IsDigit(s[j])
    ensures ScanInt(s, i) == Next(Value(s[i..j]), j)
    ensures i > 0 && s[i - 1] == ' ' ==> ScanInt(s, i - 1) == Next(Value(s[i..j]), j)
  {
    assert DigitsEnd(s, i) == j;
  }

  lemma {:induction false} ValueSnoc(s: string, c: char)
    requires AllDigits(s) && IsDigit(c)
    ensures AllDigits(s + [c]) && Value(s + [c]) == Value(s) * 10 + ValueOf(c)
  {
    assert (s + [c])[..|s|] == s;
  }

  lemma {:induction false} TwoValue(v: nat)
    requires v < 100
    ensures Value(Two(v)) == v
  {
    var a, b := DigitOf(v / 10 % 10), DigitOf(v % 10);
    ValueSnoc("", a);
    ValueSnoc([a], b);
    assert "" + [a] == [a] && [a] + [b] == Two(v);
  }

  lemma {:induction false} FourDigits(v: nat)
    requires v < 10000
    ensures v / 100 < 100 && v / 1000 % 10 == v / 100 / 10 % 10
    ensures (v / 100 * 10 + v / 10 % 10) * 10 + v % 10 == v
  {
    assert v / 10 / 10 == v / 100 && v / 100 / 10 == v / 1000;
  }

  lemma {:induction false} FourValue(v: nat)
    requires v < 10000
    ensures Value(Four(v)) == v
  {
    var c, d := DigitOf(v / 10 % 10), DigitOf(v % 10);
    FourDigits(v);
    var front := Two(v / 100);
    TwoValue(v / 100);
    ValueSnoc(front, c);
    ValueSnoc(front + [c], d);
    assert front + [c] + [d] == Four(v);
  }

  // Where each field of the text sits.
  lemma {:induction false} DateLayout(tm: Tm, s: string)
    requires Canonical(tm) && s == ImfText(tm)
    ensures s[3] == ',' && s[5..7] == Two(tm.mday) && s[7] == ' ' && s[8..11] == MonthName(tm.mon) && s[11] == ' '
    ensures s[12..16] == Four(WrittenYear(tm.year)) && s[16] == ' '
  {
    var d := DatePart(tm);
    assert s[..17] == d;
    assert d[3] == ',' && d[5..7] == Two(tm.mday) && d[7] == ' ' && d[8..11] == MonthName(tm.mon);
    assert d[11] == ' ' && d[12..16] == Four(WrittenYear(tm.year)) && d[16] == ' ';
    assert s[5..7] == d[5..7] && s[8..11] == d[8..11] && s[12..16] == d[12..16];
  }

  lemma {:induction false} ClockLayout(tm: Tm, s: string)
    requires Canonical(tm) && s == ImfText(tm)
    ensures s[17..19] == Two(tm.hour) && s[19] == ':' && s[20..22] == Two(tm.min) && s[22] == ':'
    ensures s[23..25] == Two(tm.sec) && s[25] == ' '
  {
    var c := ClockPart(tm);
    assert s[17..] == c;
    assert c[..2] == Two(tm.hour) && c[2] == ':' && c[3..5] == Two(tm.min) && c[5] == ':';
    assert c[6..8] == Two(tm.sec) && c[8] == ' ';
    assert s[17..19] == c[..2] && s[20..22] == c[3..5] && s[23..25] == c[6..8];
  }

  lemma {:induction false} ReadTwo(s: string, i: nat, v: nat)
    requires i + 2 < |s| && v < 100 && s[i..i + 2] == Two(v) && !IsDigit(s[i + 2])
    ensures ScanInt(s, i) == Next(v, i + 2)
    ensures i > 0 && s[i - 1] == ' ' ==> ScanInt(s, i - 1) == Next(v, i + 2)
  {
    TwoValue(v);
    assert forall k :: i <= k < i + 2 ==> s[k] == Two(v)[k - i];
    ReadDigits(s, i, i + 2);
  }

  lemma {:induction false} ReadFour(s: string, i: nat, v: nat)
    requires 0 < i && i + 4 < |s| && v < 10000 && s[i..i + 4] == Four(v) && s[i - 1] == ' ' && !IsDigit(s[i + 4])
    ensures ScanInt(s, i - 1) == Next(v, i + 4)
  {
    FourValue(v);
    assert forall k :: i <= k < i + 4 ==> s[k] == Four(v)[k - i];
    ReadDigits(s, i, i + 4);
  }

  lemma {:induction false} ReadMonth(s: string, i: nat, m: nat)
    requires i + 4 < |s| && m < 12 && s[i] == ' ' && s[i + 1..i + 4] == MonthName(m)
    ensures ScanWord(s, i) == Next(MonthName(m), i + 4)
  {
    var name := MonthName(m);
    assert s[i + 1] == name[0] && s[i + 2] == name[1] && s[i + 3] == name[2];
    assert name[0] in name && name[1] in name && name[2] in name;
    assert SkipSpace(s, i) == i + 1;
    assert WordEnd(s, i + 3, 1) == i + 4;
    assert WordEnd(s, i + 2, 2) == i + 4;
  }

  // What a text with the date part at 5 and the clock part at 17 scans to.
  lemma {:induction false} ScanLaidOut(s: string, f: Fields)
    requires |s| == DATE_LEN
    requires ScanInt(s, 5) == Next(f.mday, 7) && ScanWord(s, 7) == Next(f.mon, 11) && ScanInt(s, 11) == Next(f.year, 16)
    requires ScanInt(s, 16) == Next(f.hour, 19) && s[19] == ':' && ScanInt(s, 20) == Next(f.min, 22)
    requires s[22] == ':' && ScanInt(s, 23) == Next(f.sec, 25)
    ensures ScanFields(s, 5) == Some(f)
  {
  }

  lemma {:induction false} ScanImf(tm: Tm, s: string)
    requires Canonical(tm) && s == ImfText(tm)
    ensures s[3] == ','
    ensures ScanFields(s, 5) == Some(Fields(tm.mday, MonthName(tm.mon), WrittenYear(tm.year), tm.hour, tm.min, tm.sec))
  {
    DateLayout(tm, s);
    ClockLayout(tm, s);
    ReadTwo(s, 5, tm.mday);
    ReadMonth(s, 7, tm.mon);
    ReadFour(s, 12, WrittenYear(tm.year));
    ReadTwo(s, 17, tm.hour);
    ReadTwo(s, 20, tm.min);
    ReadTwo(s, 23, tm.sec);
    ScanLaidOut(s, Fields(tm.mday, MonthName(tm.mon), WrittenYear(tm.year), tm.hour, tm.min, tm.sec));
  }

  lemma {:induction false} FieldsTimeOf(f: Fields, m: nat)
    requires m < 12 && f.mon == MonthName(m) && InRange(f)
    ensures FieldsTime(f) == TimeGm(Tm(f.sec, f.min, f.hour, f.mday, m, f.year, 0))
  {
    MonthRead(m);
  }

  lemma {:induction false} ParseScanned(s: string, f: Fields, m: nat, other: int)
    requires |s| == DATE_LEN && s[3] == ',' && ScanFields(s, 5) == Some(f)
    requires m < 12 && f.mon == MonthName(m) && InRange(f)
    ensures Parsed(s, other) == TimeGm(Tm(f.sec, f.min, f.hour, f.mday, m, f.year, 0))
  {
    FieldsTimeOf(f, m);
  }

  // The day of the week does not enter the time.
  lemma {:induction false} WeekdayIgnored(tm: Tm, year: int)
    requires 0 <= tm.mon < 12
    ensures TimeGm(Tm(tm.sec, tm.min, tm.hour, tm.mday, tm.mon, year, 0)) == TimeGm(tm.(year := year))
  {
  }

  lemma {:induction false} FieldsInRange(tm: Tm, year: int)
    requires Canonical(tm)
    ensures InRange(Fields(tm.mday, MonthName(tm.mon), year, tm.hour, tm.min, tm.sec))
  {
  }

  // Reading back what was written gives the instant with the written year.
  lemma {:induction false} ParseText(tm: Tm, s: string, other: int)
    requires Canonical(tm) && s == ImfText(tm)
    ensures Parsed(s, other) == TimeGm(tm.(year := WrittenYear(tm.year)))
  {
    var year := WrittenYear(tm.year);
    ScanImf(tm, s);
    FieldsInRange(tm, year);
    ParseScanned(s, Fields(tm.mday, MonthName(tm.mon), year, tm.hour, tm.min, tm.sec), tm.mon, other);
    WeekdayIgnored(tm, year);
  }

  lemma {:induction false} ClampedYear(tm: Tm)
    requires Canonical(tm) && WrittenYear(tm.year) != tm.year
    ensures TimeGm(tm.(year := 9999)) != TimeGm(tm)
  {
    var d := Days(9999, tm.mon, tm.mday) + EPOCH_DAYS;
    YearStep(9999);
    MonthsFillYear(9999);
    MonthsGrow(9999, tm.mon, 12);
    assert DaysBeforeMonth(9999, 1) == 31 && DaysBeforeMonth(9999, 2) == 59;
    assert DaysBeforeYear(9999) <= d < DaysBeforeYear(10000);
    WithinYear(tm);
    if Days(9999, tm.mon, tm.mday) == Days(tm.year, tm.mon, tm.mday) {
      SameYear(d, 9999, tm.year);
    }
  }

  // The date round trip holds exactly for the years the four-digit field can hold.
  lemma {:induction false} RoundTrip(t: int, other: int)
    ensures Parsed(Formatted(t), other) == t <==> 0 <= GmTime(t).year <= 9999
  {
    var tm := GmTime(t);
    ParseText(tm, ImfText(tm), other);
    if WrittenYear(tm.year) != tm.year {
      ClampedYear(tm);
    }
  }

  const YEAR_10000: int := 253402300800   // 1 January 10000, midnight

  lemma {:induction false} TenThousandFields(tm: Tm)
    requires Canonical(tm) && TimeGm(tm) == YEAR_10000
    ensures tm.year == 10000
  {
    assert DaysBeforeYear(10000) == 3652425 && DaysBeforeMonth(10000, 0) == 0;
    UniqueFields(tm, Tm(0, 0, 0, 1, 0, 10000, 6));
  }

  // A time the four-digit year cannot hold is read back wrong.
  lemma {:induction false} YearTenThousand(other: int)
    ensures GmTime(YEAR_10000).year == 10000 && Parsed(Formatted(YEAR_10000), other) != YEAR_10000
  {
    TenThousandFields(GmTime(YEAR_10000));
    RoundTrip(YEAR_10000, other);
  }
}
