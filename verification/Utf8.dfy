/** Well-formed UTF-8, as `std::str::from_utf8` accepts it. */
module Utf8 {
  import opened Prelude

  predicate Continuation(s: Bytes, i: nat, lo: nat, hi: nat) { i < |s| && lo <= s[i] as int <= hi }

  /** Number of bytes of the scalar at the front of a non-empty string; 0 when it is malformed. */
  function FrontWidth(s: Bytes): (n: nat)
    requires s != ""
    ensures n <= |s|
  {
    var b := s[0] as int;
    var lo2 := if b == 0xE0 then 0xA0 else if b == 0xF0 then 0x90 else 0x80;
    var hi2 := if b == 0xED then 0x9F else if b == 0xF4 then 0x8F else 0xBF;
    if b < 0x80 then 1
    else if 0xC2 <= b <= 0xDF && Continuation(s, 1, 0x80, 0xBF) then 2
    else if 0xE0 <= b <= 0xEF && Continuation(s, 1, lo2, hi2) && Continuation(s, 2, 0x80, 0xBF) then 3
    else if 0xF0 <= b <= 0xF4 && Continuation(s, 1, lo2, hi2) && Continuation(s, 2, 0x80, 0xBF) &&
            Continuation(s, 3, 0x80, 0xBF) then 4
    else 0
  }

  predicate IsUtf8(s: Bytes)
    decreases |s|
  {
    s == "" || (FrontWidth(s) > 0 && IsUtf8(s[FrontWidth(s)..]))
  }

  /** `bytes_to_str` and `bstr`: text that is not UTF-8 is shown as nothing. */
  function Shown(s: Bytes): Bytes { if IsUtf8(s) then s else "" }

  lemma {:induction false} Utf8Append(a: Bytes, b: Bytes)
    requires IsUtf8(a) && IsUtf8(b)
    ensures IsUtf8(a + b)
    decreases |a|
  {
    if a == "" {
      assert a + b == b;
    } else {
      var n := FrontWidth(a);
      Utf8Append(a[n..], b);
      assert FrontWidth(a + b) == n;
      assert (a + b)[n..] == a[n..] + b;
    }
  }

  predicate IsAscii(s: Bytes) { forall k :: 0 <= k < |s| ==> s[k] as int < 0x80 }

  lemma {:induction false} AsciiIsUtf8(s: Bytes)
    requires IsAscii(s)
    ensures IsUtf8(s)
  {
    if s != "" { AsciiIsUtf8(s[1..]); }
  }

  /** A cut at an ASCII character leaves two well-formed pieces. */
  lemma {:induction false} Utf8Cut(a: Bytes, c: char, b: Bytes)
    requires IsUtf8(a + [c] + b) && c as int < 0x80
    ensures IsUtf8(a) && IsUtf8(b)
    decreases |a|
  {
    var text := a + [c] + b;
    assert text[|a|] == c;
    var n := FrontWidth(text);
    if a == "" {
      assert text[1..] == b;
    } else {
      assert n <= |a|;
      assert FrontWidth(a) == n;
      assert text[n..] == a[n..] + [c] + b;
      Utf8Cut(a[n..], c, b);
    }
  }

  lemma CutAt(s: Bytes, n: nat)
    requires IsUtf8(s) && n < |s| && s[n] as int < 0x80
    ensures IsUtf8(s[..n]) && IsUtf8(s[n + 1..])
  {
    assert s == s[..n] + [s[n]] + s[n + 1..];
    Utf8Cut(s[..n], s[n], s[n + 1..]);
  }

  // ---- Encoded characters ----

  /** A Unicode scalar value: a code point that is no surrogate. */
  type Scalar = c: nat | c < 0xD800 || 0xE000 <= c < 0x11_0000

  function Byte(b: nat): char
    requires b < 0x100
  {
    b as char
  }

  /** The encoding of a scalar value: its bits in groups of six behind a leading byte. */
  function EncodeScalar(c: Scalar): Bytes {
    if c < 0x80 then [Byte(c)]
    else if c < 0x800 then [Byte(0xC0 + c / 0x40), Byte(0x80 + c % 0x40)]
    else if c < 0x1_0000 then [Byte(0xE0 + c / 0x1000), Byte(0x80 + c / 0x40 % 0x40), Byte(0x80 + c % 0x40)]
    else
      [Byte(0xF0 + c / 0x4_0000), Byte(0x80 + c / 0x1000 % 0x40),
       Byte(0x80 + c / 0x40 % 0x40), Byte(0x80 + c % 0x40)]
  }

  function EncodeText(cs: seq<Scalar>): Bytes {
    if cs == [] then "" else EncodeScalar(cs[0]) + EncodeText(cs[1..])
  }

  lemma TwoBytes(c: nat)
    requires 0x80 <= c < 0x800
    ensures 0xC2 <= 0xC0 + c / 0x40 <= 0xDF
  {
  }

  lemma ThreeBytes(c: Scalar)
    requires 0x800 <= c < 0x1_0000
    ensures var b, d := 0xE0 + c / 0x1000, 0x80 + c / 0x40 % 0x40;
            && 0xE0 <= b <= 0xEF && (b == 0xE0 ==> d >= 0xA0) && (b == 0xED ==> d <= 0x9F)
  {
  }

  lemma FourBytes(c: Scalar)
    requires 0x1_0000 <= c
    ensures var b, d := 0xF0 + c / 0x4_0000, 0x80 + c / 0x1000 % 0x40;
            && 0xF0 <= b <= 0xF4 && (b == 0xF0 ==> d >= 0x90) && (b == 0xF4 ==> d <= 0x8F)
  {
  }

  /** An encoded character at the front is taken for what it is. */
  lemma ScalarFront(c: Scalar, rest: Bytes)
    ensures FrontWidth(EncodeScalar(c) + rest) == |EncodeScalar(c)|
  {
    if c < 0x80 {
    } else if c < 0x800 {
      TwoBytes(c);
    } else if c < 0x1_0000 {
      ThreeBytes(c);
    } else {
      FourBytes(c);
    }
  }

  lemma {:induction false} EncodedIsUtf8(cs: seq<Scalar>)
    ensures IsUtf8(EncodeText(cs))
  {
    if cs != [] {
      var front, rest := EncodeScalar(cs[0]), EncodeText(cs[1..]);
      ScalarFront(cs[0], rest);
      assert (front + rest)[|front|..] == rest;
      EncodedIsUtf8(cs[1..]);
    }
  }

  lemma TwoGroups(a: nat, d: nat)
    requires d < 0x40
    ensures (a * 0x40 + d) / 0x40 == a && (a * 0x40 + d) % 0x40 == d
  {
  }

  lemma ThreeGroups(a: nat, b: nat, d: nat)
    requires b < 0x40 && d < 0x40
    ensures var c := a * 0x1000 + b * 0x40 + d;
            c / 0x1000 == a && c / 0x40 % 0x40 == b && c % 0x40 == d
  {
    TwoGroups(a * 0x40 + b, d);
    TwoGroups(a, b);
  }

  lemma FourGroups(a: nat, b: nat, x: nat, d: nat)
    requires b < 0x40 && x < 0x40 && d < 0x40
    ensures var c := a * 0x4_0000 + b * 0x1000 + x * 0x40 + d;
            c / 0x4_0000 == a && c / 0x1000 % 0x40 == b && c / 0x40 % 0x40 == x && c % 0x40 == d
  {
    ThreeGroups(a * 0x40 + b, x, d);
    TwoGroups(a, b);
  }

  lemma FrontOfTwo(s: Bytes) returns (c: Scalar)
    requires s != "" && FrontWidth(s) == 2
    ensures EncodeScalar(c) == s[..2]
  {
    var a, d := s[0] as int - 0xC0, s[1] as int - 0x80;
    TwoGroups(a, d);
    c := a * 0x40 + d;
    assert EncodeScalar(c) == [s[0], s[1]];
  }

  lemma FrontOfThree(s: Bytes) returns (c: Scalar)
    requires s != "" && FrontWidth(s) == 3
    ensures EncodeScalar(c) == s[..3]
  {
    var a, b, d := s[0] as int - 0xE0, s[1] as int - 0x80, s[2] as int - 0x80;
    ThreeGroups(a, b, d);
    c := a * 0x1000 + b * 0x40 + d;
    assert EncodeScalar(c) == [s[0], s[1], s[2]];
  }

  lemma FrontOfFour(s: Bytes) returns (c: Scalar)
    requires s != "" && FrontWidth(s) == 4
    ensures EncodeScalar(c) == s[..4]
  {
    var a, b, x, d := s[0] as int - 0xF0, s[1] as int - 0x80, s[2] as int - 0x80, s[3] as int - 0x80;
    FourGroups(a, b, x, d);
    c := a * 0x4_0000 + b * 0x1000 + x * 0x40 + d;
    assert EncodeScalar(c) == [s[0], s[1], s[2], s[3]];
  }

  /** The bytes of a well-formed front give back their scalar value. */
  lemma FrontScalar(s: Bytes) returns (c: Scalar)
    requires s != "" && FrontWidth(s) > 0
    ensures EncodeScalar(c) == s[..FrontWidth(s)]
  {
    match FrontWidth(s) {
      case 1 => c := s[0] as int;
      case 2 => c := FrontOfTwo(s);
      case 3 => c := FrontOfThree(s);
      case 4 => c := FrontOfFour(s);
    }
  }

  lemma {:induction false} Utf8IsEncoded(s: Bytes) returns (cs: seq<Scalar>)
    requires IsUtf8(s)
    ensures EncodeText(cs) == s
    decreases |s|
  {
    if s == "" {
      cs := [];
    } else {
      var n := FrontWidth(s);
      var c := FrontScalar(s);
      var rest := Utf8IsEncoded(s[n..]);
      cs := [c] + rest;
      assert cs[1..] == rest && s == s[..n] + s[n..];
    }
  }

  /** Accepted are exactly the encodings of sequences of scalar values. */
  lemma Utf8Exactly(s: Bytes)
    ensures IsUtf8(s) <==> exists cs :: EncodeText(cs) == s
  {
    if IsUtf8(s) {
      var cs := Utf8IsEncoded(s);
      assert EncodeText(cs) == s;
    }
    if cs :| EncodeText(cs) == s { EncodedIsUtf8(cs); }
  }
}
