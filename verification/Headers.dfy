/** What a header line of an array or a bulk string may look like. */
module Headers {
  import opened Prelude
  import opened Decimal
  import opened Utf8
  import opened Resp

  // ---- White space ----

  /** The characters that Unicode calls white space. */
  predicate IsWhiteScalar(c: Scalar) {
    0x9 <= c <= 0xD || c == 0x20 || c == 0x85 || c == 0xA0 || c == 0x1680 || 0x2000 <= c <= 0x200A ||
    c == 0x2028 || c == 0x2029 || c == 0x202F || c == 0x205F || c == 0x3000
  }

  lemma WhiteIsEncoded(s: Bytes) returns (c: Scalar)
    requires IsWhite(s)
    ensures IsWhiteScalar(c) && EncodeScalar(c) == s
  {
    if |s| == 1 {
      c := s[0] as int;
    } else if |s| == 2 {
      c := s[1] as int;
      assert s == [s[0], s[1]];
    } else {
      c := (s[0] as int - 0xE0) * 0x1000 + (s[1] as int - 0x80) * 0x40 + (s[2] as int - 0x80);
      assert s == [s[0], s[1], s[2]];
    }
  }

  lemma EncodedIsWhite(c: Scalar)
    requires IsWhiteScalar(c)
    ensures IsWhite(EncodeScalar(c))
  {
  }

  /** What is trimmed are exactly the encodings of these characters. */
  lemma WhiteExactly(s: Bytes)
    ensures IsWhite(s) <==> exists c: Scalar :: IsWhiteScalar(c) && EncodeScalar(c) == s
  {
    if IsWhite(s) { var c := WhiteIsEncoded(s); }
    if c: Scalar :| IsWhiteScalar(c) && EncodeScalar(c) == s { EncodedIsWhite(c); }
  }

  // ---- Trimming ----

  predicate AllWhite(ws: seq<Bytes>) { forall i :: 0 <= i < |ws| ==> IsWhite(ws[i]) }

  function Joined(ws: seq<Bytes>): Bytes { if ws == [] then "" else ws[0] + Joined(ws[1..]) }

  lemma TrimStartOne(w: Bytes, s: Bytes)
    requires IsWhite(w)
    ensures TrimStart(w + s) == TrimStart(s)
  {
    var text := w + s;
    assert text[..|w|] == w && text[|w|..] == s;
    if |w| > 1 { assert !IsWhite(text[..1]); }
    if |w| > 2 { assert !IsWhite(text[..2]); }
  }

  lemma {:induction false} TrimStartAll(ws: seq<Bytes>, s: Bytes)
    requires AllWhite(ws)
    ensures TrimStart(Joined(ws) + s) == TrimStart(s)
  {
    if ws == [] {
      assert "" + s == s;
    } else {
      AppendAssociates(ws[0], Joined(ws[1..]), s);
      TrimStartOne(ws[0], Joined(ws[1..]) + s);
      TrimStartAll(ws[1..], s);
    }
  }

  lemma TrimEndOne(s: Bytes, w: Bytes)
    requires IsWhite(w)
    ensures TrimEnd(s + w) == TrimEnd(s)
  {
    var text := s + w;
    assert text[|text| - |w|..] == w && text[..|text| - |w|] == s;
    if |w| > 1 { assert text[|text| - 1..] == w[|w| - 1..] && !IsWhite(text[|text| - 1..]); }
    if |w| > 2 { assert text[|text| - 2..] == w[1..] && !IsWhite(text[|text| - 2..]); }
  }

  lemma {:induction false} TrimEndAll(s: Bytes, ws: seq<Bytes>)
    requires AllWhite(ws)
    ensures TrimEnd(s + Joined(ws)) == TrimEnd(s)
    decreases |ws|
  {
    if ws == [] {
      assert s + "" == s;
    } else {
      AppendAssociates(s, ws[0], Joined(ws[1..]));
      TrimEndAll(s + ws[0], ws[1..]);
      TrimEndOne(s, ws[0]);
    }
  }

  // ---- Headers ----

  function Repeated(c: char, n: nat): Bytes { if n == 0 then "" else [c] + Repeated(c, n - 1) }

  lemma {:induction false} LeadingRemoved(c: char, n: nat, s: Bytes)
    requires s == "" || s[0] != c
    ensures WithoutLeading(Repeated(c, n) + s, c) == s
  {
    if n == 0 {
      assert "" + s == s;
    } else {
      var text := Repeated(c, n) + s;
      assert text[0] == c && text[1..] == Repeated(c, n - 1) + s;
      LeadingRemoved(c, n - 1, s);
    }
  }

  lemma WhiteStart(w: Bytes)
    requires IsWhite(w)
    ensures w[0] != '*' && w[0] != '$'
  {
  }

  /** Any number of prefix characters, white space of any kind on both sides: the number is read. */
  lemma HeaderTolerates(prefix: char, times: nat, before: seq<Bytes>, n: nat, behind: seq<Bytes>)
    requires (prefix == '*' || prefix == '$') && AllWhite(before) && AllWhite(behind)
    ensures HeaderNumber(Repeated(prefix, times) + (Joined(before) + (PrintNat(n) + Joined(behind))), prefix) ==
            if n <= USIZE_MAX then Some(n) else None
  {
    var digits := PrintNat(n);
    var text := Joined(before) + (digits + Joined(behind));
    if before != [] { WhiteStart(before[0]); }
    assert text[0] == if before == [] then digits[0] else before[0][0];
    LeadingRemoved(prefix, times, text);
    TrimStartAll(before, digits + Joined(behind));
    NoTrimStart(digits + Joined(behind));
    TrimEndAll(digits, behind);
    NoTrimEnd(digits);
    UnsignedRoundTrip(n, USIZE_MAX);
  }

  /** A line that is no bulk header counts as one pass and brings no argument. */
  lemma StrayLineCounts(count: nat, line: Bytes, rest: Bytes, memory: Memory)
    requires '\n' !in line && IsUtf8(line) && !StartsWith(line, '$')
    ensures ReadArgs(count + 1, line + "\n" + rest, memory) == ReadArgs(count, rest, memory)
  {
    var input := line + "\n" + rest;
    LineLengthOf(line, rest);
    assert input[..|line| + 1] == line + "\n" && input[|line| + 1..] == rest;
    AsciiIsUtf8("\n");
    Utf8Append(line, "\n");
  }

  /** A length close to the greatest one wraps around: the buffer is short, and slicing it panics. */
  lemma LengthWrapsAround(rest: Bytes, memory: Memory)
    requires memory > 0
    ensures ReadBuffer(USIZE_MAX, rest, memory) == if rest == "" then Bad else Fatal
    ensures ReadBuffer(USIZE_MAX - 1, rest, memory) == Fatal
  {
  }
}
