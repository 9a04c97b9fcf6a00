/** Requests typed as a plain line, alone and between encoded arrays. */
module Inline {
  import opened Prelude
  import opened Utf8
  import opened Tokenizer
  import opened Keyspace
  import LogText
  import opened Resp

  // ---- The line ending ----

  /** Outside quotes the LF at the end of a line is a separator behind everything. */
  lemma {:induction false} ResumeBalanced(current: Bytes, s: Bytes, quoted: bool)
    requires !QuoteState(s, quoted)
    ensures Resume(current, s + "\n", quoted) == Resume(current, s, quoted)
    decreases |s|
  {
    if s == "" {
      assert s + "\n" == "\n" && "\n"[1..] == "";
      ResumeStep(current, "\n", quoted);
      ResumeAtEnd("", false);
      ResumeAtEnd(current, quoted);
      assert NonEmpty(current) + [] == NonEmpty(current);
    } else {
      assert (s + "\n")[0] == s[0] && (s + "\n")[1..] == s[1..] + "\n";
      ResumeStep(current, s, quoted);
      ResumeStep(current, s + "\n", quoted);
      if s[0] == '"' {
        ResumeBalanced(current, s[1..], !quoted);
      } else if IsSeparator(s[0]) && !quoted {
        ResumeBalanced("", s[1..], false);
      } else {
        ResumeBalanced(current + [s[0]], s[1..], quoted);
      }
    }
  }

  /** Inside quotes it becomes part of a word. */
  lemma {:induction false} ResumeOpen(current: Bytes, s: Bytes, quoted: bool) returns (word: Bytes)
    requires QuoteState(s, quoted)
    ensures word in Resume(current, s + "\n", quoted) && '\n' in word
    decreases |s|
  {
    if s == "" {
      assert s + "\n" == "\n" && "\n"[1..] == "";
      ResumeStep(current, "\n", quoted);
      ResumeAtEnd(current + ['\n'], true);
      word := current + ['\n'];
      assert word[|current|] == '\n';
    } else {
      assert (s + "\n")[0] == s[0] && (s + "\n")[1..] == s[1..] + "\n";
      ResumeStep(current, s + "\n", quoted);
      if s[0] == '"' {
        word := ResumeOpen(current, s[1..], !quoted);
      } else if IsSeparator(s[0]) && !quoted {
        word := ResumeOpen("", s[1..], false);
      } else {
        word := ResumeOpen(current + [s[0]], s[1..], quoted);
      }
    }
  }

  lemma {:induction false} PlainIsBalanced(s: Bytes)
    requires QuoteFree(s)
    ensures !QuoteState(s, false) && !QuoteState("\"" + s + "\"", false)
  {
    KeptPlain(s, false);
    KeptPlain(s, true);
    QuoteStateAppend("\"", s + "\"", false);
    QuoteStateAppend(s, "\"", true);
    assert "\"" + s + "\"" == "\"" + (s + "\"") && "\""[1..] == "";
  }

  lemma {:induction false} LineIsBalanced(fields: seq<Field>)
    requires forall i :: 0 <= i < |fields| ==> QuoteFree(fields[i].text)
    ensures !QuoteState(Line(fields), false)
  {
    if fields != [] {
      PlainIsBalanced(fields[0].text);
      LineIsBalanced(fields[1..]);
      QuoteStateAppend(Render(fields[0]) + " ", Line(fields[1..]), false);
      QuoteStateAppend(Render(fields[0]), " ", false);
      assert " "[1..] == "";
    }
  }

  // ---- One line ----

  /** What can be typed: text without line breaks that does not look like an array. */
  predicate Typed(fields: seq<Field>) {
    && (forall i :: 0 <= i < |fields| ==> IsUtf8(fields[i].text) && '\n' !in fields[i].text)
    && !StartsWith(Line(fields), '*')
  }

  lemma LineIsRead(line: Bytes, more: Bytes, memory: Memory)
    requires '\n' !in line && IsUtf8(line) && !StartsWith(line, '*')
    ensures ReadRequest(line + "\n" + more, memory) == Args(Tokens(line + "\n"), more)
  {
    var input := line + "\n" + more;
    LineLengthOf(line, more);
    assert input[..|line| + 1] == line + "\n" && input[|line| + 1..] == more;
    AsciiIsUtf8("\n");
    Utf8Append(line, "\n");
  }

  lemma LinesOf(fields: seq<Field>)
    requires Typed(fields)
    ensures '\n' !in Line(fields) && IsUtf8(Line(fields))
  {
    LogText.LineHasNoNewline(fields);
    LogText.LineIsUtf8(fields);
  }

  /** An inline request is read as its arguments exactly when each is non-empty and quote-free, the bare ones plain. */
  lemma InlineRoundTrip(fields: seq<Field>, more: Bytes, memory: Memory)
    requires Typed(fields)
    ensures ReadRequest(Line(fields) + "\n" + more, memory) == Args(Texts(fields), more) <==> AllClean(fields)
    ensures ReadRequest(Line(fields) + "\n" + more, memory).Args?
    ensures ReadRequest(Line(fields) + "\n" + more, memory).rest == more
  {
    var line := Line(fields);
    LinesOf(fields);
    LineIsRead(line, more, memory);
    ResumeFresh(line);
    ResumeFresh(line + "\n");
    TokenizerInverse(fields);
    if QuoteState(line, false) {
      var word := ResumeOpen("", line, false);
      if AllClean(fields) { LineIsBalanced(fields); }
    } else {
      ResumeBalanced("", line, false);
    }
  }

  /** With the last argument ending in a carriage return. */
  function WithReturn(texts: seq<Bytes>): seq<Bytes>
    requires texts != []
  {
    texts[..|texts| - 1] + [texts[|texts| - 1] + "\r"]
  }

  lemma ReturnSticks(f: Field)
    requires Clean(f)
    ensures Tokens(Render(f) + "\r") == [f.text + "\r"]
  {
    ResumeFresh(Render(f) + "\r");
    ResumeField(f, "\r");
    ResumeStep(f.text, "\r", false);
    assert "\r"[1..] == "" && f.text + ['\r'] == f.text + "\r";
    ResumeAtEnd(f.text + "\r", false);
  }

  lemma WithReturnFirst(text: Bytes, rest: seq<Bytes>)
    requires rest != []
    ensures WithReturn([text] + rest) == [text] + WithReturn(rest)
  {
  }

  lemma {:induction false} ReturnIsKept(fields: seq<Field>)
    requires fields != [] && AllClean(fields)
    ensures Tokens(Line(fields) + "\r") == WithReturn(Texts(fields))
  {
    TextsFirst(fields);
    var rest := fields[1..];
    if rest == [] {
      ReturnSticks(fields[0]);
    } else {
      assert Line(fields) + "\r" == Render(fields[0]) + " " + (Line(rest) + "\r");
      SplitFirst(fields[0], Line(rest) + "\r");
      ReturnIsKept(rest);
      WithReturnFirst(fields[0].text, Texts(rest));
    }
  }

  /** A line ending of CRLF is no better than LF: the CR stays on the last argument. */
  lemma InlineCrlf(fields: seq<Field>, more: Bytes, memory: Memory)
    requires Typed(fields) && fields != [] && AllClean(fields)
    ensures ReadRequest(Line(fields) + "\r\n" + more, memory) == Args(WithReturn(Texts(fields)), more)
  {
    var line := Line(fields) + "\r";
    LinesOf(fields);
    AsciiIsUtf8("\r");
    Utf8Append(Line(fields), "\r");
    assert Line(fields) + "\r\n" + more == line + "\n" + more;
    LineIsRead(line, more, memory);
    LineIsBalanced(fields);
    QuoteStateAppend(Line(fields), "\r", false);
    assert "\r"[1..] == "";
    ResumeBalanced("", line, false);
    ResumeFresh(line);
    ResumeFresh(line + "\n");
    ReturnIsKept(fields);
  }

  // ---- Lines between arrays ----

  datatype Input = Plain(fields: seq<Field>) | Encoded(items: seq<Bytes>)

  function Encode(r: Input): Bytes {
    match r
    case Plain(fields) => Line(fields) + "\n"
    case Encoded(items) => EncodeReply(BulkArray(items))
  }

  function WordsOf(r: Input): seq<Bytes> { if r.Plain? then Texts(r.fields) else r.items }

  /** The request arrives as it was meant. */
  ghost predicate ReadBack(r: Input, memory: Memory) {
    match r
    case Plain(fields) => AllClean(fields)
    case Encoded(items) => AllFit(items, memory)
  }

  function EncodeRequests(rs: seq<Input>): Bytes {
    if rs == [] then "" else Encode(rs[0]) + EncodeRequests(rs[1..])
  }

  function AllWords(rs: seq<Input>): seq<seq<Bytes>> {
    if rs == [] then [] else [WordsOf(rs[0])] + AllWords(rs[1..])
  }

  lemma RequestRoundTrip(r: Input, more: Bytes, memory: Memory)
    requires r.Plain? ==> Typed(r.fields)
    ensures ReadRequest(Encode(r) + more, memory) == Args(WordsOf(r), more) <==> ReadBack(r, memory)
    ensures var read := ReadRequest(Encode(r) + more, memory); read.Args? ==> read.rest == more
  {
    match r {
      case Plain(fields) => InlineRoundTrip(fields, more, memory);
      case Encoded(items) => RespRoundTrip(items, more, memory);
    }
  }

  lemma FirstFrame(n: nat, input: Bytes, words: seq<Bytes>, others: seq<seq<Bytes>>, more: Bytes, memory: Memory)
    requires n > 0
    ensures ReadFrames(n, input, memory) == Frames([words] + others, more) <==>
            var r := ReadRequest(input, memory);
            r.Args? && r.args == words && ReadFrames(n - 1, r.rest, memory) == Frames(others, more)
  {
    var r := ReadRequest(input, memory);
    if r.Args? {
      var f := ReadFrames(n - 1, r.rest, memory);
      if f.Frames? {
        assert ([r.args] + f.frames)[0] == r.args && ([r.args] + f.frames)[1..] == f.frames;
        assert ([words] + others)[0] == words && ([words] + others)[1..] == others;
      }
    }
  }

  ghost predicate AllReadBack(rs: seq<Input>, memory: Memory) { forall r :: r in rs ==> ReadBack(r, memory) }

  lemma AllReadBackFirst(r: Input, rest: seq<Input>, memory: Memory)
    ensures AllReadBack([r] + rest, memory) <==> ReadBack(r, memory) && AllReadBack(rest, memory)
  {
    assert forall q :: q in [r] + rest <==> q == r || q in rest;
  }

  /** Lines and arrays, mixed in one connection, are read one after the other exactly when each of them arrives. */
  lemma {:induction false} MixedPipeline(rs: seq<Input>, more: Bytes, memory: Memory)
    requires forall r :: r in rs && r.Plain? ==> Typed(r.fields)
    ensures ReadFrames(|rs|, EncodeRequests(rs) + more, memory) == Frames(AllWords(rs), more) <==>
            AllReadBack(rs, memory)
  {
    if rs == [] {
      assert EncodeRequests(rs) + more == more;
    } else {
      var r, rest := rs[0], rs[1..];
      var tail := EncodeRequests(rest) + more;
      assert rs == [r] + rest && r in rs;
      AppendAssociates(Encode(r), EncodeRequests(rest), more);
      RequestRoundTrip(r, tail, memory);
      FirstFrame(|rs|, EncodeRequests(rs) + more, WordsOf(r), AllWords(rest), more, memory);
      MixedPipeline(rest, more, memory);
      AllReadBackFirst(r, rest, memory);
    }
  }
}
