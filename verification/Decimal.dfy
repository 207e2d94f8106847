// Decimal text of an unsigned number, and reading it back
// (src/http_response_server_api.c:320-337).
module Decimal {
  import opened Common

  predicate IsDigit(c: char) { '0' <= c <= '9' }

  predicate AllDigits(s: string) { forall i :: 0 <= i < |s| ==> IsDigit(s[i]) }

  function DigitOf(d: nat): (c: char)
    requires d < 10
    ensures IsDigit(c)
  {
    '0' + d as char
  }

  function ValueOf(c: char): (d: nat)
    requires IsDigit(c)
    ensures d < 10
  {
    c as int - '0' as int
  }

  function Value(s: string): nat
    requires AllDigits(s)
  {
    if s == "" then 0 else Value(s[..|s| - 1]) * 10 + ValueOf(s[|s| - 1])
  }

  function Digits(v: nat): (s: string)
    ensures s != "" && AllDigits(s)
  {
    if v < 10 then [DigitOf(v)] else Digits(v / 10) + [DigitOf(v % 10)]
  }

  // The end of the run of digits that starts at `i`.
  function DigitsEnd(s: string, i: nat): (j: nat)
    requires i <= |s|
    ensures i <= j <= |s| && forall k :: i <= k < j ==> IsDigit(s[k])
    ensures j < |s| ==> !IsDigit(s[j])
    decreases |s| - i
  {
    if i < |s| && IsDigit(s[i]) then DigitsEnd(s, i + 1) else i
  }

  function Power10(n: nat): nat { if n == 0 then 1 else 10 * Power10(n - 1) }

  lemma {:induction false} DigitsRoundTrip(v: nat)
    ensures Value(Digits(v)) == v
  {
    if v >= 10 {
      DigitsRoundTrip(v / 10);
      assert Digits(v)[..|Digits(v)| - 1] == Digits(v / 10);
    }
  }

  // No leading zeros, so the text is as short as it can be.
  lemma {:induction false} DigitsLength(v: nat, n: nat)
    requires n > 0 && v < Power10(n)
    ensures |Digits(v)| <= n
  {
    if v >= 10 {
      DigitsLength(v / 10, n - 1);
    }
  }

  lemma {:induction false} Uint64Digits(v: nat)
    requires v <= UINT64_MAX
    ensures |Digits(v)| <= 20
  {
    assert Power10(20) == 100000000000000000000 by {
      assert Power10(5) == 100000;
      assert Power10(10) == 10000000000;
      assert Power10(15) == 1000000000000000;
    }
    DigitsLength(v, 20);
  }

  function Reverse(s: string): (r: string)
    ensures |r| == |s|
    ensures forall i :: 0 <= i < |s| ==> r[i] == s[|s| - 1 - i]
  {
    if s == "" then "" else Reverse(s[1..]) + [s[0]]
  }

  // One more digit moves from the number to the front of the text.
  lemma {:induction false} ShiftDigit(v: nat, written: string, digit: char, rest: nat)
    requires rest != 0 && Digits(v) == Digits(rest) + Reverse(written) && digit == DigitOf(rest % 10)
    ensures Reverse(written + [digit]) == [digit] + Reverse(written)
    ensures rest / 10 == 0 ==> Digits(v) == Reverse(written + [digit])
    ensures rest / 10 != 0 ==> Digits(v) == Digits(rest / 10) + Reverse(written + [digit])
  {
    ReverseSnoc(written, digit);
  }

  // The digits from the last one up.
  method WriteReversed(tmp: array<char>, v: nat) returns (n: nat)
    requires v <= UINT64_MAX && tmp.Length == 20
    modifies tmp
    ensures n <= 20 && Reverse(tmp[..n]) == Digits(v)
  {
    Uint64Digits(v);
    var rest: nat := v / 10;
    tmp[0] := DigitOf(v % 10);
    n := 1;
    assert tmp[..1] == [DigitOf(v % 10)] && Reverse(tmp[..1]) == tmp[..1];
    while rest != 0
      invariant 1 <= n <= 20
      invariant rest == 0 ==> Digits(v) == Reverse(tmp[..n])
      invariant rest != 0 ==> Digits(v) == Digits(rest) + Reverse(tmp[..n])
      decreases rest
    {
      assert n < |Digits(v)|;
      var digit := DigitOf(rest % 10);
      ghost var written := tmp[..n];
      tmp[n] := digit;
      assert tmp[..n + 1] == written + [digit];
      ShiftDigit(v, written, digit, rest);
      n := n + 1;
      rest := rest / 10;
    }
  }

  // Fills a scratch buffer, then writes the digits out in order and a terminator; neither
  // buffer is overrun.
  method FormatU64(out: array<char>, v: nat) returns (n: nat)
    requires v <= UINT64_MAX && out.Length >= 21
    modifies out
    ensures n <= 20 && out[..n] == Digits(v) && out[n] == '\0'
  {
    var tmp := new char[20];
    n := WriteReversed(tmp, v);
    for i := 0 to n
      modifies out
      invariant forall k :: 0 <= k < i ==> out[k] == tmp[n - 1 - k]
    {
      out[i] := tmp[n - 1 - i];
    }
    out[n] := '\0';
    assert out[..n] == Reverse(tmp[..n]);
  }

  lemma {:induction false} ReverseSnoc(s: string, c: char)
    ensures Reverse(s + [c]) == [c] + Reverse(s)
  {
    assert forall i :: 0 <= i < |s| + 1 ==> Reverse(s + [c])[i] == ([c] + Reverse(s))[i];
  }
}
