/** Decimal integers as Rust prints them with `to_string` and reads them back with `parse`. */
module Decimal {
  import opened Prelude

  const USIZE_MAX := 0xFFFF_FFFF_FFFF_FFFF

  const I32_MAX := 0x7FFF_FFFF

  const I32_MIN := -0x8000_0000

  const I64_MAX := 0x7FFF_FFFF_FFFF_FFFF

  const I64_MIN := -0x8000_0000_0000_0000

  predicate AllDigits(s: Bytes) {
    forall k :: 0 <= k < |s| ==> '0' <= s[k] <= '9'
  }

  function Digit(d: nat): (c: char)
    requires d < 10
    ensures '0' <= c <= '9' && c as int - '0' as int == d
  {
    (d + '0' as int) as char
  }

  function PrintNat(n: nat): (s: Bytes)
    ensures s != "" && AllDigits(s)
  {
    if n < 10 then [Digit(n)] else PrintNat(n / 10) + [Digit(n % 10)]
  }

  function PrintInt(i: int): Bytes {
    if i < 0 then "-" + PrintNat(-i) else PrintNat(i)
  }

  function NatValue(s: Bytes): nat
    requires AllDigits(s)
  {
    if s == "" then 0
    else NatValue(s[..|s| - 1]) * 10 + (s[|s| - 1] as int - '0' as int)
  }

  /** `str::parse` for a signed type with the given range: one optional sign, then at least one digit. */
  function ParseSigned(s: Bytes, lo: int, hi: int): Option<int> {
    if s == "" then None
    else
      var body := if s[0] == '-' || s[0] == '+' then s[1..] else s;
      if body == "" || !AllDigits(body) then None
      else
        var n: int := NatValue(body);
        var v := if s[0] == '-' then -n else n;
        if lo <= v <= hi then Some(v) else None
  }

  /** `str::parse` for an unsigned type: a leading plus sign is accepted, a minus sign is not. */
  function ParseUnsigned(s: Bytes, hi: nat): Option<nat> {
    if s == "" then None
    else
      var body := if s[0] == '+' then s[1..] else s;
      if body == "" || !AllDigits(body) || NatValue(body) > hi then None else Some(NatValue(body))
  }

  lemma {:induction false} NatRoundTrip(n: nat)
    ensures NatValue(PrintNat(n)) == n
  {
    if n >= 10 {
      NatRoundTrip(n / 10);
      var s := PrintNat(n);
      assert s[..|s| - 1] == PrintNat(n / 10);
    } else {
      assert PrintNat(n)[..0] == "";
    }
  }

  lemma ParseDigits(s: Bytes, lo: int, hi: int)
    requires s != "" && AllDigits(s)
    ensures var n: int := NatValue(s);
            && ParseSigned(s, lo, hi) == (if lo <= n <= hi then Some(n) else None)
            && ParseSigned("-" + s, lo, hi) == if lo <= -n <= hi then Some(-n) else None
  {
    assert ("-" + s)[1..] == s;
    assert '0' <= s[0] <= '9';
  }

  /** Printing then parsing gives the number back exactly when it is in the range of the type. */
  lemma SignedRoundTrip(i: int, lo: int, hi: int)
    ensures ParseSigned(PrintInt(i), lo, hi) == if lo <= i <= hi then Some(i) else None
  {
    var n := if i < 0 then -i else i;
    NatRoundTrip(n);
    ParseDigits(PrintNat(n), lo, hi);
  }

  lemma UnsignedRoundTrip(n: nat, hi: nat)
    ensures ParseUnsigned(PrintNat(n), hi) == if n <= hi then Some(n) else None
  {
    NatRoundTrip(n);
  }

  lemma {:induction false} NatShortest(s: Bytes)
    requires s != "" && AllDigits(s)
    ensures |PrintNat(NatValue(s))| <= |s|
  {
    var t := s[..|s| - 1];
    if t != "" {
      NatShortest(t);
      assert NatValue(s) / 10 == NatValue(t);
    } else {
      assert NatValue(t) == 0;
    }
  }

  /** No numeral of a number is shorter than the printed one. */
  lemma PrintedIsShortest(s: Bytes, lo: int, hi: int)
    requires ParseSigned(s, lo, hi).Some?
    ensures |PrintInt(ParseSigned(s, lo, hi).value)| <= |s|
  {
    if s[0] == '-' || s[0] == '+' {
      NatShortest(s[1..]);
    } else {
      NatShortest(s);
    }
  }

  // ---- Digits ----

  function TenTo(n: nat): nat { if n == 0 then 1 else 10 * TenTo(n - 1) }

  lemma LastDigit(s: Bytes, c: char)
    requires AllDigits(s) && '0' <= c <= '9'
    ensures NatValue(s + [c]) == NatValue(s) * 10 + (c as int - '0' as int)
  {
    assert (s + [c])[..|s|] == s;
  }

  lemma TimesTen(v: nat, p: nat)
    ensures v * p * 10 == v * (10 * p)
  {
  }

  lemma OneMoreDigit(v: nat, n: nat, f: nat, w: nat)
    requires w == v * TenTo(n) + f
    ensures w * 10 == v * TenTo(n + 1) + f * 10
  {
    TimesTen(v, TenTo(n));
  }

  /** The digits further to the left weigh more: a numeral is read from its greatest digit to its least. */
  lemma {:induction false} NumeralsAppend(a: Bytes, b: Bytes)
    requires AllDigits(a) && AllDigits(b)
    ensures NatValue(a + b) == NatValue(a) * TenTo(|b|) + NatValue(b)
    decreases |b|
  {
    if b == "" {
      assert a + b == a;
    } else {
      var front, last := b[..|b| - 1], b[|b| - 1];
      assert b == front + [last];
      AppendAssociates(a, front, [last]);
      NumeralsAppend(a, front);
      LastDigit(a + front, last);
      LastDigit(front, last);
      OneMoreDigit(NatValue(a), |front|, NatValue(front), NatValue(a + front));
    }
  }

  lemma DigitIsRead(d: nat)
    requires d < 10
    ensures NatValue([Digit(d)]) == d && PrintNat(d) == [Digit(d)]
  {
    assert [Digit(d)][..0] == "";
  }

  /** Printed numbers have no leading zero, but for zero itself. */
  lemma {:induction false} NoLeadingZero(n: nat)
    ensures PrintNat(n)[0] == '0' <==> n == 0
  {
    if n >= 10 { NoLeadingZero(n / 10); }
  }
}
