// What a written date says, character by character, without reading it back: the IMF-fixdate
// of section 5.6.7 of RFC 9110 (src/http_date.c:25-94).
module DateText {
  import opened Common
  import opened Decimal
  import opened Calendar
  import opened HttpDate

  const DAY_NAMES: string := "SunMonTueWedThuFriSat"
  const MONTH_NAMES: string := "JanFebMarAprMayJunJulAugSepOctNovDec"

  lemma {:induction false} DayLetters(d: nat)
    requires d < 7
    ensures DayName(d) == DAY_NAMES[3 * d..3 * d + 3]
  {
    var name := DayName(d);
    assert forall i :: 0 <= i < 3 ==> name[i] == DAY_NAMES[3 * d + i];
  }

  lemma {:induction false} MonthLetters(m: nat)
    requires m < 12
    ensures MonthName(m) == MONTH_NAMES[3 * m..3 * m + 3]
  {
    var name := MonthName(m);
    assert forall i :: 0 <= i < 3 ==> name[i] == MONTH_NAMES[3 * m + i];
  }

  // Where the pieces of the date part are.
  lemma {:induction false} DatePieces(tm: Tm)
    requires Canonical(tm)
    ensures var s := DatePart(tm);
            && s[..3] == DayName(tm.wday) && s[3..5] == ", " && s[5..7] == Two(tm.mday) && s[7..8] == " "
            && s[8..11] == MonthName(tm.mon) && s[11..12] == " " && s[12..16] == Four(WrittenYear(tm.year)) && s[16..] == " "
  {
  }

  lemma {:induction false} ClockPieces(tm: Tm)
    requires Canonical(tm)
    ensures var s := ClockPart(tm);
            s[..2] == Two(tm.hour) && s[2..3] == ":" && s[3..5] == Two(tm.min) && s[5..6] == ":" && s[6..8] == Two(tm.sec)
            && s[8..] == " GMT"
  {
  }

  lemma {:induction false} Within(a: string, b: string, i: nat, j: nat)
    requires i <= j
    ensures j <= |a| ==> (a + b)[i..j] == a[i..j]
    ensures j <= |b| ==> (a + b)[|a| + i..|a| + j] == b[i..j]
  {
  }

  lemma {:induction false} DateSays(tm: Tm)
    requires Canonical(tm)
    ensures var s := ImfText(tm);
            && s[0..3] == DAY_NAMES[3 * tm.wday..3 * tm.wday + 3] && s[3..5] == ", "
            && AllDigits(s[5..7]) && Value(s[5..7]) == tm.mday && s[7..8] == " "
            && s[8..11] == MONTH_NAMES[3 * tm.mon..3 * tm.mon + 3] && s[11..12] == " "
            && AllDigits(s[12..16]) && Value(s[12..16]) == (if 0 <= tm.year <= 9999 then tm.year else 9999) && s[16..17] == " "
  {
    var d, c := DatePart(tm), ClockPart(tm);
    DatePieces(tm);
    DayLetters(tm.wday);
    MonthLetters(tm.mon);
    TwoValue(tm.mday);
    FourValue(WrittenYear(tm.year));
    Within(d, c, 0, 3);
    Within(d, c, 3, 5);
    Within(d, c, 5, 7);
    Within(d, c, 7, 8);
    Within(d, c, 8, 11);
    Within(d, c, 11, 12);
    Within(d, c, 12, 16);
    Within(d, c, 16, 17);
  }

  lemma {:induction false} ClockSays(tm: Tm)
    requires Canonical(tm)
    ensures var s := ImfText(tm);
            && AllDigits(s[17..19]) && Value(s[17..19]) == tm.hour && s[19..20] == ":"
            && AllDigits(s[20..22]) && Value(s[20..22]) == tm.min && s[22..23] == ":"
            && AllDigits(s[23..25]) && Value(s[23..25]) == tm.sec && s[25..29] == " GMT"
  {
    var d, c := DatePart(tm), ClockPart(tm);
    ClockPieces(tm);
    TwoValue(tm.hour);
    TwoValue(tm.min);
    TwoValue(tm.sec);
    Within(d, c, 0, 2);
    Within(d, c, 2, 3);
    Within(d, c, 3, 5);
    Within(d, c, 5, 6);
    Within(d, c, 6, 8);
    Within(d, c, 8, 12);
  }

  // The clock of the text is the time of day, and its date is the day since the epoch, for
  // every time whose year has four digits.
  lemma {:induction false} TextSaysTime(t: int)
    requires 0 <= GmTime(t).year <= 9999
    ensures ClockSaid(Formatted(t), t) && exists m: nat :: DaySaid(Formatted(t), t, m)
  {
    var tm := GmTime(t);
    InstantSaid(tm, ImfText(tm), t);
  }

  predicate ClockSaid(s: string, t: int)
  {
    && |s| == 29 && AllDigits(s[17..19]) && AllDigits(s[20..22]) && AllDigits(s[23..25])
    && 3600 * Value(s[17..19]) + 60 * Value(s[20..22]) + Value(s[23..25]) == t % 86400
    && Value(s[17..19]) < 24 && Value(s[20..22]) < 60 && Value(s[23..25]) < 60
  }

  predicate DaySaid(s: string, t: int, m: nat)
  {
    && |s| == 29 && AllDigits(s[5..7]) && AllDigits(s[12..16]) && m < 12 && s[8..11] == MONTH_NAMES[3 * m..3 * m + 3]
    && Days(Value(s[12..16]), m, Value(s[5..7])) == t / 86400
  }

  lemma {:induction false} InstantSaid(tm: Tm, s: string, t: int)
    requires Canonical(tm) && TimeGm(tm) == t && s == ImfText(tm) && 0 <= tm.year <= 9999
    ensures ClockSaid(s, t) && DaySaid(s, t, tm.mon)
  {
    DateSays(tm);
    ClockSays(tm);
    ClockOf(tm, t);
  }

  lemma {:induction false} DivMod(day: int, rest: int)
    requires 0 <= rest < 86400
    ensures (86400 * day + rest) / 86400 == day && (86400 * day + rest) % 86400 == rest
  {
  }

  lemma {:induction false} ClockOf(tm: Tm, t: int)
    requires Canonical(tm) && TimeGm(tm) == t
    ensures 3600 * tm.hour + 60 * tm.min + tm.sec == t % 86400 && Days(tm.year, tm.mon, tm.mday) == t / 86400
  {
    DivMod(Days(tm.year, tm.mon, tm.mday), 3600 * tm.hour + 60 * tm.min + tm.sec);
  }

  lemma {:induction false} DayWritten(t: int, tm: Tm)
    requires tm == GmTime(t)
    ensures ImfText(tm)[0..3] == DayName((t / 86400 + 4) % 7)
  {
    ClockOf(tm, t);
    DatePieces(tm);
    Within(DatePart(tm), ClockPart(tm), 0, 3);
  }

  predicate Follows(a: string, b: string)
  {
    || (a == "Sun" && b == "Mon") || (a == "Mon" && b == "Tue") || (a == "Tue" && b == "Wed") || (a == "Wed" && b == "Thu")
    || (a == "Thu" && b == "Fri") || (a == "Fri" && b == "Sat") || (a == "Sat" && b == "Sun")
  }

  // The day a written date names.
  function NamedDay(t: int): string { Formatted(t)[0..3] }

  lemma {:induction false} DayNamed(t: int)
    ensures NamedDay(t) == DayName((t / 86400 + 4) % 7)
  {
    DayWritten(t, GmTime(t));
  }

  lemma {:induction false} DayAfter(day: int, a: string, b: string)
    requires a == DayName((day + 4) % 7) && b == DayName((day + 1 + 4) % 7)
    ensures Follows(a, b) && (day == 0 ==> a == "Thu")
  {
  }

  // The day names follow each other, and the first day of the epoch was a Thursday.
  lemma {:induction false} DayNames(t: int)
    ensures 0 <= t < 86400 ==> NamedDay(t) == "Thu"
    ensures Follows(NamedDay(t), NamedDay(t + 86400))
  {
    DayNamed(t);
    DayNamed(t + 86400);
    assert (t + 86400) / 86400 == t / 86400 + 1;
    DayAfter(t / 86400, NamedDay(t), NamedDay(t + 86400));
  }

  // ------------------------------------------------------------------ reading

  // Laid out as an IMF-fixdate, with any digits and any three letters.
  predicate LaidOut(s: string)
  {
    && 26 <= |s| < 64 && s[3] == ',' && s[7] == ' ' && s[11] == ' ' && s[16] == ' ' && s[19] == ':' && s[22] == ':'
    && AllDigits(s[5..7]) && AllDigits(s[12..16]) && AllDigits(s[17..19]) && AllDigits(s[20..22]) && AllDigits(s[23..25])
    && !IsDigit(s[25]) && forall i :: 8 <= i < 11 ==> !IsSpace(s[i]) && s[i] != '\0'
  }

  // The month a text of three letters names.
  predicate NamesMonth(name: string, m: nat)
  {
    m < 12 && name == MONTH_NAMES[3 * m..3 * m + 3]
  }

  lemma {:induction false} DigitsAt(s: string, i: nat, j: nat)
    requires i < j < |s| && AllDigits(s[i..j]) && !IsDigit(s[j])
    ensures ScanInt(s, i) == Next(Value(s[i..j]), j)
    ensures i > 0 && s[i - 1] == ' ' ==> ScanInt(s, i - 1) == Next(Value(s[i..j]), j)
  {
    assert forall k :: i <= k < j ==> s[k] == s[i..j][k - i];
    ReadDigits(s, i, j);
  }

  lemma {:induction false} WordAt(s: string, i: nat)
    requires i + 4 < |s| && s[i] == ' ' && forall k :: i < k < i + 4 ==> !IsSpace(s[k]) && s[k] != '\0'
    ensures ScanWord(s, i) == Next(s[i + 1..i + 4], i + 4)
  {
    assert SkipSpace(s, i) == i + 1;
    assert WordEnd(s, i + 3, 1) == i + 4;
    assert WordEnd(s, i + 2, 2) == i + 4;
  }

  lemma {:induction false} ScansAs(s: string)
    requires LaidOut(s)
    ensures ScanFields(s, 5) == Some(FieldsOf(s))
  {
    DigitsAt(s, 5, 7);
    WordAt(s, 7);
    DigitsAt(s, 12, 16);
    DigitsAt(s, 17, 19);
    DigitsAt(s, 20, 22);
    DigitsAt(s, 23, 25);
  }

  function FieldsOf(s: string): Fields
    requires LaidOut(s)
  {
    Fields(Value(s[5..7]), s[8..11], Value(s[12..16]), Value(s[17..19]), Value(s[20..22]), Value(s[23..25]))
  }

  predicate Sensible(f: Fields) { 1 <= f.mday <= 31 && 0 <= f.hour < 24 && 0 <= f.min < 60 && 0 <= f.sec < 60 }

  lemma {:induction false} NamedIsRead(f: Fields, m: nat)
    requires NamesMonth(f.mon, m)
    ensures FieldsTime(f) == if Sensible(f) then 86400 * Days(f.year, m, f.mday) + 3600 * f.hour + 60 * f.min + f.sec else -1
  {
    MonthLetters(m);
    MonthRead(m);
  }

  lemma {:induction false} UnnamedIsRefused(f: Fields)
    requires forall m: nat :: !NamesMonth(f.mon, m)
    ensures FieldsTime(f) == -1
  {
    var m := MonthIndex(f.mon, 0);
    if m >= 0 {
      MonthLetters(m);
      assert NamesMonth(f.mon, m);
    }
  }

  // What is read from a text so laid out: the instant its digits and month say, and nothing
  // when the month is none of the twelve or a number is out of its range.
  lemma {:induction false} DateReads(s: string, m: nat, other: int)
    requires LaidOut(s)
    ensures NamesMonth(s[8..11], m) ==>
              var f := FieldsOf(s);
              Parsed(s, other) == if Sensible(f) then 86400 * Days(f.year, m, f.mday) + 3600 * f.hour + 60 * f.min + f.sec else -1
    ensures (forall k: nat :: !NamesMonth(s[8..11], k)) ==> Parsed(s, other) == -1
  {
    ScansAs(s);
    assert Parsed(s, other) == FieldsTime(FieldsOf(s));
    if NamesMonth(s[8..11], m) {
      NamedIsRead(FieldsOf(s), m);
    }
    if forall k: nat :: !NamesMonth(s[8..11], k) {
      UnnamedIsRefused(FieldsOf(s));
    }
  }

  // ------------------------------------------------------------------ example

  // The example of RFC 9110.
  lemma {:induction false} StandardExample(t: int)
    requires t == 784111777
    ensures Formatted(t) == "Sun, 06 Nov 1994 08:49:37 GMT"
  {
    var tm := Tm(37, 49, 8, 6, 10, 1994, 0);
    ExampleFields(tm);
    UniqueFields(tm, GmTime(t));
    ExampleText(tm);
  }

  lemma {:induction false} ExampleFields(tm: Tm)
    requires tm == Tm(37, 49, 8, 6, 10, 1994, 0)
    ensures Canonical(tm) && TimeGm(tm) == 784111777
  {
    assert DaysBeforeMonth(1994, 10) == 304 by {
      assert DaysBeforeMonth(1994, 2) == 59;
      assert DaysBeforeMonth(1994, 4) == 120;
      assert DaysBeforeMonth(1994, 6) == 181;
      assert DaysBeforeMonth(1994, 8) == 243;
    }
    assert Days(1994, 10, 6) == 9075;
  }

  lemma {:induction false} ExampleText(tm: Tm)
    requires Canonical(tm) && tm == Tm(37, 49, 8, 6, 10, 1994, 0)
    ensures ImfText(tm) == "Sun, 06 Nov 1994 08:49:37 GMT"
  {
    ExampleDate(tm);
    ExampleClock(tm);
  }

  lemma {:induction false} ExampleDate(tm: Tm)
    requires Canonical(tm) && tm == Tm(37, 49, 8, 6, 10, 1994, 0)
    ensures DatePart(tm) == "Sun, 06 Nov 1994 "
  {
    assert Two(6) == "06" && Four(1994) == "1994";
  }

  lemma {:induction false} ExampleClock(tm: Tm)
    requires Canonical(tm) && tm == Tm(37, 49, 8, 6, 10, 1994, 0)
    ensures ClockPart(tm) == "08:49:37 GMT"
  {
    assert Two(8) == "08" && Two(49) == "49" && Two(37) == "37";
  }
}
