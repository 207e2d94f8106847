// The conditional-request decision over If-None-Match and If-Modified-Since, and the fact
// that echoing our own validators answers "not modified" (src/send_file.c:808-830).
module Conditional {
  import opened Calendar
  import opened HttpDate
  import EntityTag

  // An absent header is the empty text. `other` is as in HttpDate.Parsed.
  ghost predicate NotModified(ifNoneMatch: string, ifModifiedSince: string, etag: string, lastModified: int, other: int)
  {
    if ifNoneMatch != "" then EntityTag.Matches(ifNoneMatch, etag)
    else
      && ifModifiedSince != ""
      && Parsed(ifModifiedSince, other) != -1
      && lastModified <= Parsed(ifModifiedSince, other)
  }

  method ConditionalCheck(ifNoneMatch: string, ifModifiedSince: string, etag: string, lastModified: int, other: int)
    returns (notModified: bool)
    ensures notModified <==> NotModified(ifNoneMatch, ifModifiedSince, etag, lastModified, other)
  {
    if |ifNoneMatch| > 0 {
      notModified := EntityTag.MatchInm(ifNoneMatch, etag);
      return;
    }
    if |ifModifiedSince| > 0 {
      var since := ParseImf(ifModifiedSince, other);
      if since == -1 {
        return false;
      }
      return lastModified <= since;
    }
    return false;
  }

  // The written year is the instant's own, or 9999, which lies on the far side of it.
  lemma {:induction false} WrittenYearOrder(tm: Tm)
    requires Canonical(tm) && WrittenYear(tm.year) != tm.year
    ensures tm.year < 0 ==> TimeGm(tm) < TimeGm(tm.(year := 9999)) && TimeGm(tm.(year := 9999)) > 0
    ensures tm.year > 9999 ==> TimeGm(tm) > TimeGm(tm.(year := 9999))
  {
    WithinYear(tm);
    assert DaysBeforeYear(9999) - EPOCH_DAYS > 1 && DaysBeforeYear(9999) > DaysBeforeYear(0);
    if tm.year < 0 {
      if tm.year < -1 {
        YearsApart(tm.year, 0);
      }
      DayOrder(tm, DaysBeforeYear(0) - EPOCH_DAYS);
    } else {
      if tm.year > 10000 {
        YearsApart(9999, tm.year);
      }
      DayOfWrittenYear(tm);
    }
  }

  lemma {:induction false} DayOrder(tm: Tm, bound: int)
    requires Canonical(tm) && Days(tm.year, tm.mon, tm.mday) < bound <= DaysBeforeYear(9999) - EPOCH_DAYS
    ensures TimeGm(tm) < TimeGm(tm.(year := 9999))
    ensures DaysBeforeYear(9999) - EPOCH_DAYS > 1 ==> TimeGm(tm.(year := 9999)) > 0
  {
    assert Days(9999, tm.mon, tm.mday) >= DaysBeforeYear(9999) - EPOCH_DAYS;
  }

  lemma {:induction false} DayOfWrittenYear(tm: Tm)
    requires Canonical(tm) && Days(tm.year, tm.mon, tm.mday) + EPOCH_DAYS >= DaysBeforeYear(10000)
    ensures TimeGm(tm) > TimeGm(tm.(year := 9999))
  {
    YearStep(9999);
    MonthsFillYear(9999);
    MonthsGrow(9999, tm.mon, 12);
    assert DaysBeforeMonth(9999, 1) == 31 && DaysBeforeMonth(9999, 2) == 59;
    assert Days(9999, tm.mon, tm.mday) + EPOCH_DAYS < DaysBeforeYear(10000);
  }

  lemma {:induction false} SinceOwnTime(s: string, etag: string, t: int, since: int, other: int)
    requires s != "" && Parsed(s, other) == since
    ensures NotModified("", s, etag, t, other) <==> since != -1 && t <= since
  {
  }

  lemma {:induction false} EchoedFields(tm: Tm, s: string, etag: string, t: int, other: int)
    requires Canonical(tm) && s == ImfText(tm) && t == TimeGm(tm)
    ensures NotModified("", s, etag, t, other) <==> t != -1 && tm.year <= 9999
  {
    var since := TimeGm(tm.(year := WrittenYear(tm.year)));
    ParseText(tm, s, other);
    SinceOwnTime(s, etag, t, since, other);
    if WrittenYear(tm.year) != tm.year {
      WrittenYearOrder(tm);
      if t == -1 {
        MinusOne(tm);
      }
    }
  }

  // Echoing our own Last-Modified, with no If-None-Match, is answered "not modified" exactly
  // when the time is not -1 and its year is at most 9999.
  lemma {:induction false} EchoedLastModified(t: int, etag: string, other: int)
    ensures NotModified("", Formatted(t), etag, t, other) <==> t != -1 && GmTime(t).year <= 9999
  {
    var tm := GmTime(t);
    EchoedFields(tm, ImfText(tm), etag, t, other);
  }

  lemma {:induction false} MinusOne(tm: Tm)
    requires Canonical(tm) && TimeGm(tm) == -1
    ensures tm.year == 1969
  {
    var last := Tm(59, 59, 23, 31, 11, 1969, 3);
    assert DaysBeforeMonth(1969, 11) == 334 by {
      MonthsFillYear(1969);
    }
    UniqueFields(tm, last);
  }

  // A list holding our own tag is answered "not modified", whatever the date header says.
  lemma {:induction false} EchoedTag(before: string, left: string, v: nat, right: string, after: string,
                  ifModifiedSince: string, lastModified: int, other: int)
    requires before == "" || before[|before| - 1] == ','
    requires after == "" || after[0] == ','
    requires EntityTag.Blanks(left) && EntityTag.Blanks(right)
    ensures NotModified(before + (left + EntityTag.Tag(v) + right) + after, ifModifiedSince, EntityTag.Tag(v), lastModified, other)
  {
    EntityTag.OwnTagMatches(before, left, v, right, after);
    assert |before + (left + EntityTag.Tag(v) + right) + after| >= EntityTag.ETAG_LEN;
  }
}
