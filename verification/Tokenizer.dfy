/** The tokenizer of protocol.rs: a text line to its words, with double quotes protecting separators. */
module Tokenizer {
  import opened Prelude

  predicate IsSeparator(c: char) { c == ' ' || c == '\t' || c == '\n' }

  /** Length of the word at the front of `s`: the index of its first separator outside quotes. */
  function WordEnd(s: Bytes, quoted: bool): (n: nat)
    ensures n <= |s|
  {
    if s == "" then 0
    else if s[0] == '"' then 1 + WordEnd(s[1..], !quoted)
    else if IsSeparator(s[0]) && !quoted then 0
    else 1 + WordEnd(s[1..], quoted)
  }

  function Unquoted(w: Bytes): Bytes {
    if w == "" then "" else (if w[0] == '"' then "" else [w[0]]) + Unquoted(w[1..])
  }

  function NonEmpty(w: Bytes): seq<Bytes> { if w == "" then [] else [w] }

  /** The reference split: cut at separators outside quotes, delete quotes, drop empty words. */
  function Tokens(s: Bytes): seq<Bytes>
    decreases |s|
  {
    var n := WordEnd(s, false);
    NonEmpty(Unquoted(s[..n])) + if n < |s| then Tokens(s[n + 1..]) else []
  }

  /** What the loop still has to deliver when `current` is pending and `rest` is unread. */
  function Resume(current: Bytes, rest: Bytes, quoted: bool): seq<Bytes> {
    var n := WordEnd(rest, quoted);
    NonEmpty(current + Unquoted(rest[..n])) + if n < |rest| then Tokens(rest[n + 1..]) else []
  }

  lemma ResumeFresh(rest: Bytes)
    ensures Resume("", rest, false) == Tokens(rest)
  {
    var w := Unquoted(rest[..WordEnd(rest, false)]);
    assert "" + w == w;
  }

  /** The first character of a word, and the rest of the word. */
  lemma WordStep(current: Bytes, rest: Bytes, quoted: bool)
    requires rest != "" && WordEnd(rest, quoted) > 0
    ensures var c := if rest[0] == '"' then "" else [rest[0]];
            var q := if rest[0] == '"' then !quoted else quoted;
            var n := WordEnd(rest, quoted);
            && WordEnd(rest[1..], q) == n - 1
            && current + Unquoted(rest[..n]) == (current + c) + Unquoted(rest[1..][..n - 1])
  {
    var n := WordEnd(rest, quoted);
    var word := rest[..n];
    assert word[1..] == rest[1..][..n - 1];
    var c := if rest[0] == '"' then "" else [rest[0]];
    assert Unquoted(word) == c + Unquoted(word[1..]);
    AppendAssociates(current, c, Unquoted(word[1..]));
  }

  lemma ResumeWithin(current: Bytes, rest: Bytes, quoted: bool)
    requires rest != "" && WordEnd(rest, quoted) > 0
    ensures var c := if rest[0] == '"' then "" else [rest[0]];
            var q := if rest[0] == '"' then !quoted else quoted;
            Resume(current, rest, quoted) == Resume(current + c, rest[1..], q)
  {
    WordStep(current, rest, quoted);
    var n := WordEnd(rest, quoted);
    if n < |rest| {
      assert rest[n + 1..] == rest[1..][n..];
    }
  }

  lemma ResumeAtEnd(current: Bytes, quoted: bool)
    ensures Resume(current, "", quoted) == NonEmpty(current)
  {
    assert ""[..0] == "" && Unquoted("") == "";
    assert current + "" == current;
  }

  lemma EmptyWord(current: Bytes, rest: Bytes, n: nat)
    requires rest != "" && n == 0
    ensures current + Unquoted(rest[..n]) == current && rest[n + 1..] == rest[1..]
  {
    assert rest[..n] == "";
  }

  lemma CutWord(current: Bytes, rest: Bytes, quoted: bool)
    requires rest != "" && WordEnd(rest, quoted) == 0
    ensures Resume(current, rest, quoted) == NonEmpty(current) + Tokens(rest[1..])
  {
    EmptyWord(current, rest, WordEnd(rest, quoted));
  }

  lemma ResumeCut(current: Bytes, rest: Bytes, quoted: bool)
    requires rest != "" && WordEnd(rest, quoted) == 0
    ensures Resume(current, rest, quoted) == NonEmpty(current) + Resume("", rest[1..], false)
  {
    CutWord(current, rest, quoted);
    ResumeFresh(rest[1..]);
  }

  /** One character of the loop, read off the reference split. */
  lemma ResumeStep(current: Bytes, rest: Bytes, quoted: bool)
    requires rest != ""
    ensures Resume(current, rest, quoted) ==
            if rest[0] == '"' then Resume(current, rest[1..], !quoted)
            else if IsSeparator(rest[0]) && !quoted then NonEmpty(current) + Resume("", rest[1..], false)
            else Resume(current + [rest[0]], rest[1..], quoted)
  {
    if WordEnd(rest, quoted) > 0 {
      ResumeWithin(current, rest, quoted);
      assert current + "" == current;
    } else {
      ResumeCut(current, rest, quoted);
    }
  }

  /** The finished tokens and what the rest of the line will add to them. */
  function Awaited(tokens: seq<Bytes>, current: Bytes, rest: Bytes, quoted: bool): seq<Bytes> {
    tokens + Resume(current, rest, quoted)
  }

  function Delivered(tokens: seq<Bytes>, current: Bytes): seq<Bytes> {
    if current == "" then tokens else tokens + [current]
  }

  lemma DeliveredAppend(tokens: seq<Bytes>, current: Bytes, more: seq<Bytes>)
    ensures tokens + (NonEmpty(current) + more) == Delivered(tokens, current) + more
  {
    if current == "" {
      assert NonEmpty(current) + more == more;
    } else {
      AppendAssociates(tokens, [current], more);
    }
  }

  /** The loop invariant survives reading character `i`. */
  lemma Advance(tokens: seq<Bytes>, current: Bytes, input: Bytes, i: nat, quoted: bool)
    requires i < |input|
    ensures Awaited(tokens, current, input[i..], quoted) ==
            if input[i] == '"' then Awaited(tokens, current, input[i + 1..], !quoted)
            else if IsSeparator(input[i]) && !quoted then
              Awaited(Delivered(tokens, current), "", input[i + 1..], false)
            else Awaited(tokens, current + [input[i]], input[i + 1..], quoted)
  {
    var rest := input[i..];
    assert rest[1..] == input[i + 1..] && rest[0] == input[i];
    ResumeStep(current, rest, quoted);
    if IsSeparator(rest[0]) && !quoted { DeliveredAppend(tokens, current, Resume("", rest[1..], false)); }
  }

  lemma Begin(input: Bytes)
    ensures Awaited([], "", input[0..], false) == Tokens(input)
  {
    ResumeFresh(input);
    assert input[0..] == input;
  }

  lemma End(tokens: seq<Bytes>, current: Bytes, input: Bytes, quoted: bool)
    ensures Awaited(tokens, current, input[|input|..], quoted) == Delivered(tokens, current)
  {
    assert input[|input|..] == "";
    ResumeAtEnd(current, quoted);
    DeliveredAppend(tokens, current, []);
    assert NonEmpty(current) + [] == NonEmpty(current);
  }

  method Tokenize(input: Bytes) returns (tokens: seq<Bytes>)
    ensures tokens == Tokens(input)
  {
    tokens := [];
    var current: Bytes := "";
    var inQuotes := false;
    Begin(input);
    for i := 0 to |input|
      invariant Awaited(tokens, current, input[i..], inQuotes) == Tokens(input)
    {
      Advance(tokens, current, input, i, inQuotes);
      var ch := input[i];
      if ch == '"' {
        inQuotes := !inQuotes;
      } else if IsSeparator(ch) && !inQuotes {
        if current != "" {
          tokens := tokens + [current];
          current := "";
        }
      } else {
        current := current + [ch];
      }
    }
    End(tokens, current, input, inQuotes);
    if current != "" {
      tokens := tokens + [current];
    }
  }

  // ---- What tokens can look like, and how many characters survive ----

  predicate QuoteFree(s: Bytes) { '"' !in s }

  predicate SeparatorFree(s: Bytes) { forall k :: 0 <= k < |s| ==> !IsSeparator(s[k]) }

  lemma {:induction false} UnquotedIsQuoteFree(w: Bytes)
    ensures QuoteFree(Unquoted(w))
  {
    if w != "" { UnquotedIsQuoteFree(w[1..]); }
  }

  /** No token is empty and none keeps a quote. */
  lemma {:induction false} TokenShape(s: Bytes)
    ensures forall t :: t in Tokens(s) ==> t != "" && QuoteFree(t)
    decreases |s|
  {
    var n := WordEnd(s, false);
    UnquotedIsQuoteFree(s[..n]);
    if n < |s| { TokenShape(s[n + 1..]); }
  }

  /** Number of characters of `s` that end up in a token. */
  function Kept(s: Bytes, quoted: bool): nat {
    if s == "" then 0
    else if s[0] == '"' then Kept(s[1..], !quoted)
    else (if IsSeparator(s[0]) && !quoted then 0 else 1) + Kept(s[1..], quoted)
  }

  function QuoteState(s: Bytes, quoted: bool): bool {
    if s == "" then quoted else QuoteState(s[1..], if s[0] == '"' then !quoted else quoted)
  }

  lemma {:induction false} KeptAppend(a: Bytes, b: Bytes, quoted: bool)
    ensures Kept(a + b, quoted) == Kept(a, quoted) + Kept(b, QuoteState(a, quoted))
  {
    if a == "" {
      assert a + b == b;
    } else {
      KeptAppend(a[1..], b, if a[0] == '"' then !quoted else quoted);
      assert (a + b)[1..] == a[1..] + b;
    }
  }

  lemma SumLenCons(w: Bytes, ts: seq<Bytes>)
    ensures SumLen(NonEmpty(w) + ts) == |w| + SumLen(ts)
  {
    if w == "" {
      assert NonEmpty(w) + ts == ts;
    } else {
      assert (NonEmpty(w) + ts)[1..] == ts;
    }
  }

  lemma {:induction false} ResumeLength(current: Bytes, rest: Bytes, quoted: bool)
    ensures SumLen(Resume(current, rest, quoted)) == |current| + Kept(rest, quoted)
    decreases |rest|
  {
    if rest == "" {
      ResumeAtEnd(current, quoted);
    } else {
      ResumeStep(current, rest, quoted);
      if rest[0] == '"' {
        ResumeLength(current, rest[1..], !quoted);
      } else if IsSeparator(rest[0]) && !quoted {
        ResumeLength("", rest[1..], false);
        SumLenCons(current, Resume("", rest[1..], false));
      } else {
        ResumeLength(current + [rest[0]], rest[1..], quoted);
      }
    }
  }

  lemma TokensLength(s: Bytes)
    ensures SumLen(Tokens(s)) == Kept(s, false)
  {
    ResumeFresh(s);
    ResumeLength("", s, false);
  }

  // ---- Rendering a list of arguments as a line ----

  /** An argument as a log record prints it: bare, or between double quotes. */
  datatype Field = Bare(text: Bytes) | Quoted(text: Bytes)

  function Render(f: Field): Bytes {
    match f
    case Bare(text) => text
    case Quoted(text) => "\"" + text + "\""
  }

  /** The rendered fields, separated by single spaces. */
  function Line(fields: seq<Field>): Bytes {
    if fields == [] then ""
    else if |fields| == 1 then Render(fields[0])
    else Render(fields[0]) + " " + Line(fields[1..])
  }

  function Texts(fields: seq<Field>): seq<Bytes> {
    seq(|fields|, i requires 0 <= i < |fields| => fields[i].text)
  }

  predicate Clean(f: Field) {
    f.text != "" && QuoteFree(f.text) && (f.Bare? ==> SeparatorFree(f.text))
  }

  predicate AllClean(fields: seq<Field>) {
    forall i :: 0 <= i < |fields| ==> Clean(fields[i])
  }

  lemma {:induction false} ResumeThrough(current: Bytes, x: Bytes, rest: Bytes, quoted: bool)
    requires QuoteFree(x) && (quoted || SeparatorFree(x))
    ensures Resume(current, x + rest, quoted) == Resume(current + x, rest, quoted)
    decreases |x|
  {
    if x == "" {
      assert x + rest == rest && current + x == current;
    } else {
      var c, y := [x[0]], x[1..];
      var text := x + rest;
      assert text[0] == x[0] && text[1..] == y + rest;
      ResumeStep(current, text, quoted);
      ResumeThrough(current + c, y, rest, quoted);
      AppendAssociates(current, c, y);
      assert c + y == x;
    }
  }

  lemma ResumeQuoted(text: Bytes, rest: Bytes)
    requires QuoteFree(text)
    ensures Resume("", "\"" + (text + ("\"" + rest)), false) == Resume(text, rest, false)
  {
    var tail := "\"" + rest;
    var whole := "\"" + (text + tail);
    assert whole[0] == '"' && whole[1..] == text + tail;
    ResumeStep("", whole, false);
    ResumeThrough("", text, tail, true);
    assert "" + text == text;
    assert tail[0] == '"' && tail[1..] == rest;
    ResumeStep(text, tail, true);
  }

  lemma ResumeField(f: Field, rest: Bytes)
    requires Clean(f)
    ensures Resume("", Render(f) + rest, false) == Resume(f.text, rest, false)
  {
    if f.Bare? {
      assert "" + f.text == f.text;
      ResumeThrough("", f.text, rest, false);
    } else {
      assert Render(f) + rest == "\"" + (f.text + ("\"" + rest));
      ResumeQuoted(f.text, rest);
    }
  }

  lemma SplitFirst(f: Field, rest: Bytes)
    requires Clean(f)
    ensures Tokens(Render(f)) == [f.text]
    ensures Tokens(Render(f) + " " + rest) == [f.text] + Tokens(rest)
  {
    ResumeFresh(Render(f));
    ResumeField(f, "");
    assert Render(f) + "" == Render(f);
    ResumeAtEnd(f.text, false);
    var tail := " " + rest;
    assert Render(f) + " " + rest == Render(f) + tail;
    ResumeFresh(Render(f) + tail);
    ResumeField(f, tail);
    ResumeStep(f.text, tail, false);
    assert tail[1..] == rest;
    ResumeFresh(rest);
  }

  lemma TextsFirst(fields: seq<Field>)
    requires fields != []
    ensures Texts(fields) == [fields[0].text] + Texts(fields[1..])
  {
  }

  lemma {:induction false} LineSplits(fields: seq<Field>)
    requires AllClean(fields)
    ensures Tokens(Line(fields)) == Texts(fields)
  {
    if fields == [] {
    } else {
      TextsFirst(fields);
      var rest := fields[1..];
      if rest == [] {
        SplitFirst(fields[0], "");
      } else {
        SplitFirst(fields[0], Line(rest));
        LineSplits(rest);
      }
    }
  }

  // ---- The converse, by counting characters ----

  function CountSeparators(s: Bytes): nat {
    if s == "" then 0 else (if IsSeparator(s[0]) then 1 else 0) + CountSeparators(s[1..])
  }

  /** Separators that the rendering leaves unprotected. */
  function Exposed(fields: seq<Field>): nat {
    if fields == [] then 0
    else (if fields[0].Bare? then CountSeparators(fields[0].text) else 0) + Exposed(fields[1..])
  }

  lemma {:induction false} KeptPlain(s: Bytes, quoted: bool)
    requires QuoteFree(s)
    ensures QuoteState(s, quoted) == quoted
    ensures Kept(s, quoted) + (if quoted then 0 else CountSeparators(s)) == |s|
  {
    if s != "" { KeptPlain(s[1..], quoted); }
  }

  lemma {:induction false} QuoteStateAppend(a: Bytes, b: Bytes, quoted: bool)
    ensures QuoteState(a + b, quoted) == QuoteState(b, QuoteState(a, quoted))
  {
    if a == "" {
      assert a + b == b;
    } else {
      QuoteStateAppend(a[1..], b, if a[0] == '"' then !quoted else quoted);
      assert (a + b)[1..] == a[1..] + b;
    }
  }

  lemma KeptField(f: Field)
    requires QuoteFree(f.text)
    ensures QuoteState(Render(f), false) == false
    ensures Kept(Render(f), false) + (if f.Bare? then CountSeparators(f.text) else 0) == |f.text|
  {
    if f.Bare? {
      KeptPlain(f.text, false);
    } else {
      var tail := f.text + "\"";
      assert Render(f)[1..] == tail;
      KeptPlain(f.text, true);
      KeptAppend(f.text, "\"", true);
      QuoteStateAppend(f.text, "\"", true);
    }
  }

  lemma {:induction false} KeptLine(fields: seq<Field>)
    requires forall i :: 0 <= i < |fields| ==> QuoteFree(fields[i].text)
    ensures Kept(Line(fields), false) + Exposed(fields) == SumLen(Texts(fields))
  {
    if fields != [] {
      assert Texts(fields)[1..] == Texts(fields[1..]);
      KeptField(fields[0]);
      KeptLine(fields[1..]);
      if |fields| > 1 {
        var rest := " " + Line(fields[1..]);
        assert Line(fields) == Render(fields[0]) + rest;
        KeptAppend(Render(fields[0]), rest, false);
        assert rest[1..] == Line(fields[1..]);
      }
    }
  }

  lemma {:induction false} NoSeparators(s: Bytes)
    requires CountSeparators(s) == 0
    ensures SeparatorFree(s)
  {
    if s != "" {
      NoSeparators(s[1..]);
      assert forall k :: 0 < k < |s| ==> s[k] == s[1..][k - 1];
    }
  }

  lemma {:induction false} NothingExposed(fields: seq<Field>)
    requires Exposed(fields) == 0
    ensures forall i :: 0 <= i < |fields| && fields[i].Bare? ==> SeparatorFree(fields[i].text)
  {
    if fields != [] {
      NothingExposed(fields[1..]);
      NoSeparators(if fields[0].Bare? then fields[0].text else "");
      assert forall i :: 0 < i < |fields| ==> fields[i] == fields[1..][i - 1];
    }
  }

  /** Tokenizing a rendered line returns the arguments exactly when every field is clean. */
  lemma TokenizerInverse(fields: seq<Field>)
    ensures Tokens(Line(fields)) == Texts(fields) <==> AllClean(fields)
  {
    if AllClean(fields) {
      LineSplits(fields);
    } else if Tokens(Line(fields)) == Texts(fields) {
      TokenShape(Line(fields));
      assert forall i :: 0 <= i < |fields| ==> fields[i].text == Tokens(Line(fields))[i];
      KeptLine(fields);
      TokensLength(Line(fields));
      NothingExposed(fields);
    }
  }

  lemma LetterFirst(x: char, rest: Bytes)
    requires x != '"' && !IsSeparator(x)
    ensures Tokens([x] + rest) == Resume([x], rest, false)
  {
    ResumeFresh([x] + rest);
    ResumeStep("", [x] + rest, false);
    assert ([x] + rest)[1..] == rest && "" + [x] == [x];
  }

  /** A letter, a separator and a letter. */
  lemma Separated(x: char, c: char, y: char)
    requires x != '"' && !IsSeparator(x) && y != '"' && !IsSeparator(y) && IsSeparator(c)
    ensures Tokens([x] + [c] + [y]) == [[x], [y]]
  {
    LetterFirst(x, [c] + [y]);
    assert [x] + [c] + [y] == [x] + ([c] + [y]);
    assert ([c] + [y])[1..] == [y];
    ResumeStep([x], [c] + [y], false);
    LetterFirst(y, "");
    ResumeFresh([y]);
    assert [y] + "" == [y];
    ResumeAtEnd([y], false);
  }

  /** Any other character keeps them in one word. */
  lemma Unseparated(x: char, c: char, y: char)
    requires x != '"' && !IsSeparator(x) && y != '"' && !IsSeparator(y) && !IsSeparator(c)
    ensures |Tokens([x] + [c] + [y])| == 1
  {
    LetterFirst(x, [c] + [y]);
    assert [x] + [c] + [y] == [x] + ([c] + [y]);
    assert ([c] + [y])[1..] == [y] && [y][1..] == "";
    ResumeStep([x], [c] + [y], false);
    var word := if c == '"' then [x] else [x] + [c];
    ResumeStep(word, [y], c == '"');
    ResumeAtEnd(word + [y], c == '"');
  }

  /** What separates words outside quotes: blanks, tabs and line feeds, and nothing else. */
  lemma SeparatorsExactly(x: char, c: char, y: char)
    requires 'a' <= x <= 'z' && 'a' <= y <= 'z'
    ensures Tokens([x] + [c] + [y]) == [[x], [y]] <==> c == ' ' || c == '\t' || c == '\n'
  {
    if IsSeparator(c) { Separated(x, c, y); } else { Unseparated(x, c, y); }
  }
}
