/** The text of the append-only file: how records are printed, and how replay reads them back. */
module LogText {
  import opened Prelude
  import opened Decimal
  import opened Tokenizer
  import opened Protocol
  import opened Utf8

  /** The live arms print SET, SETEX and SADD values bare; the compactor quotes every value. */
  datatype Style = Live | Compacted

  /** Which arguments of the record are printed between quotes. */
  function Quoting(c: Command, style: Style): (quoted: seq<bool>)
    requires Logged(c)
    ensures |quoted| == |Arguments(c)|
  {
    match c
    case Set(_, _) => [false, style.Compacted?]
    case SAdd(_, _) => [false, style.Compacted?]
    case SetEx(_, _, _) => [false, false, style.Compacted?]
    case LPush(_, _) => [false, true]
    case RPush(_, _) => [false, true]
    case HSet(_, _, _) => [false, false, true]
    case LRem(_, _, _) => [false, false, true]
    case LTrim(_, _, _) => [false, false, false]
    case RPopLPush(_, _) => [false, false]
    case _ => [false]
  }

  function ShownField(arg: Bytes, quoted: bool): Field {
    if quoted then Quoted(Shown(arg)) else Bare(Shown(arg))
  }

  function FieldsOf(verb: Bytes, args: seq<Bytes>, quoted: seq<bool>): (fs: seq<Field>)
    requires |args| == |quoted|
    ensures |fs| == 1 + |args| && fs[0] == Bare(verb)
    ensures forall i :: 0 <= i < |args| ==> fs[i + 1] == ShownField(args[i], quoted[i])
  {
    [Bare(verb)] + seq(|args|, i requires 0 <= i < |args| => ShownField(args[i], quoted[i]))
  }

  function RecordFields(c: Command, style: Style): seq<Field>
    requires Logged(c)
  {
    FieldsOf(Verb(c), Arguments(c), Quoting(c, style))
  }

  function RecordLine(c: Command, style: Style): Bytes
    requires Logged(c)
  {
    Line(RecordFields(c, style))
  }

  function PrintRecord(c: Command, style: Style): Bytes
    requires Logged(c)
  {
    RecordLine(c, style) + "\n"
  }

  predicate AllLogged(records: seq<Command>) { forall c :: c in records ==> Logged(c) && InRange(c) }

  function PrintLog(records: seq<Command>, style: Style): Bytes
    requires AllLogged(records)
  {
    if records == [] then "" else PrintRecord(records[0], style) + PrintLog(records[1..], style)
  }

  // ---- The lines as the source formats them ----

  lemma OneArgument(verb: Bytes, a: Bytes, qa: bool)
    ensures Line(FieldsOf(verb, [a], [qa])) == verb + " " + Render(ShownField(a, qa))
  {
    var fs := FieldsOf(verb, [a], [qa]);
    assert fs[1..] == [ShownField(a, qa)];
  }

  lemma TwoArguments(verb: Bytes, a: Bytes, qa: bool, b: Bytes, qb: bool)
    ensures Line(FieldsOf(verb, [a, b], [qa, qb])) ==
            verb + " " + (Render(ShownField(a, qa)) + " " + Render(ShownField(b, qb)))
  {
    var fs := FieldsOf(verb, [a, b], [qa, qb]);
    var x, y := ShownField(a, qa), ShownField(b, qb);
    assert fs[1..] == [x, y] && [x, y][1..] == [y];
    assert Line([x, y]) == Render(x) + " " + Render(y);
    AppendAssociates(Render(x), " ", Render(y));
  }

  lemma ThreeArguments(verb: Bytes, a: Bytes, qa: bool, b: Bytes, qb: bool, c: Bytes, qc: bool)
    ensures Line(FieldsOf(verb, [a, b, c], [qa, qb, qc])) ==
            verb + " " + (Render(ShownField(a, qa)) + " " +
                          (Render(ShownField(b, qb)) + " " + Render(ShownField(c, qc))))
  {
    var fs := FieldsOf(verb, [a, b, c], [qa, qb, qc]);
    var x, y, z := ShownField(a, qa), ShownField(b, qb), ShownField(c, qc);
    assert fs[1..] == [x, y, z] && [x, y, z][1..] == [y, z] && [y, z][1..] == [z];
    assert Line([y, z]) == Render(y) + " " + Render(z);
    assert Line([x, y, z]) == Render(x) + " " + Line([y, z]);
  }

  /** A value between double quotes. */
  function InQuotes(v: Bytes): Bytes { "\"" + Shown(v) + "\"" }

  /** SET and SADD print the value bare in the live log, between quotes in a compacted one. */
  lemma PairFormats(k: Bytes, v: Bytes)
    ensures PrintRecord(Set(k, v), Live) == "SET" + " " + (Shown(k) + " " + Shown(v)) + "\n"
    ensures PrintRecord(Set(k, v), Compacted) == "SET" + " " + (Shown(k) + " " + InQuotes(v)) + "\n"
    ensures PrintRecord(SAdd(k, v), Live) == "SADD" + " " + (Shown(k) + " " + Shown(v)) + "\n"
    ensures PrintRecord(SAdd(k, v), Compacted) == "SADD" + " " + (Shown(k) + " " + InQuotes(v)) + "\n"
  {
    TwoArguments("SET", k, false, v, false);
    TwoArguments("SET", k, false, v, true);
    TwoArguments("SADD", k, false, v, false);
    TwoArguments("SADD", k, false, v, true);
  }

  lemma ListFormats(k: Bytes, v: Bytes, style: Style)
    ensures PrintRecord(LPush(k, v), style) == "LPUSH" + " " + (Shown(k) + " " + InQuotes(v)) + "\n"
    ensures PrintRecord(RPush(k, v), style) == "RPUSH" + " " + (Shown(k) + " " + InQuotes(v)) + "\n"
  {
    TwoArguments("LPUSH", k, false, v, true);
    TwoArguments("RPUSH", k, false, v, true);
  }

  lemma MoveFormat(k: Bytes, d: Bytes, style: Style)
    ensures PrintRecord(RPopLPush(k, d), style) == "RPOPLPUSH" + " " + (Shown(k) + " " + Shown(d)) + "\n"
  {
    TwoArguments("RPOPLPUSH", k, false, d, false);
  }

  lemma KeyFormats(k: Bytes, style: Style)
    ensures PrintRecord(Del(k), style) == "DEL" + " " + Shown(k) + "\n"
    ensures PrintRecord(Incr(k), style) == "INCR" + " " + Shown(k) + "\n"
  {
    OneArgument("DEL", k, false);
    OneArgument("INCR", k, false);
  }

  lemma PopFormats(k: Bytes, style: Style)
    ensures PrintRecord(LPop(k), style) == "LPOP" + " " + Shown(k) + "\n"
    ensures PrintRecord(RPop(k), style) == "RPOP" + " " + Shown(k) + "\n"
  {
    OneArgument("LPOP", k, false);
    OneArgument("RPOP", k, false);
  }

  lemma SetExFormats(k: Bytes, seconds: int, v: Bytes)
    ensures PrintRecord(SetEx(k, seconds, v), Live) ==
            "SETEX" + " " + (Shown(k) + " " + (PrintInt(seconds) + " " + Shown(v))) + "\n"
    ensures PrintRecord(SetEx(k, seconds, v), Compacted) ==
            "SETEX" + " " + (Shown(k) + " " + (PrintInt(seconds) + " " + InQuotes(v))) + "\n"
  {
    AsciiIsUtf8(PrintInt(seconds));
    ThreeArguments("SETEX", k, false, PrintInt(seconds), false, v, false);
    ThreeArguments("SETEX", k, false, PrintInt(seconds), false, v, true);
  }

  lemma HashFormat(k: Bytes, f: Bytes, v: Bytes, style: Style)
    ensures PrintRecord(HSet(k, f, v), style) ==
            "HSET" + " " + (Shown(k) + " " + (Shown(f) + " " + InQuotes(v))) + "\n"
  {
    ThreeArguments("HSET", k, false, f, false, v, true);
  }

  lemma TrimFormat(k: Bytes, start: int, stop: int, style: Style)
    ensures PrintRecord(LTrim(k, start, stop), style) ==
            "LTRIM" + " " + (Shown(k) + " " + (PrintInt(start) + " " + PrintInt(stop))) + "\n"
  {
    AsciiIsUtf8(PrintInt(start));
    AsciiIsUtf8(PrintInt(stop));
    ThreeArguments("LTRIM", k, false, PrintInt(start), false, PrintInt(stop), false);
  }

  lemma RemoveFormat(k: Bytes, v: Bytes, style: Style)
    ensures PrintRecord(LRem(k, 1, v), style) ==
            "LREM" + " " + (Shown(k) + " " + ("1" + " " + InQuotes(v))) + "\n"
  {
    AsciiIsUtf8("1");
    ThreeArguments("LREM", k, false, "1", false, v, true);
  }

  lemma LoggedAppend(a: seq<Command>, b: seq<Command>)
    requires AllLogged(a) && AllLogged(b)
    ensures AllLogged(a + b)
    ensures a != [] ==> AllLogged(a[1..]) && (a + b)[0] == a[0] && (a + b)[1..] == a[1..] + b
  {
  }

  lemma {:induction false} PrintLogAppend(a: seq<Command>, b: seq<Command>, style: Style)
    requires AllLogged(a) && AllLogged(b)
    ensures AllLogged(a + b) && PrintLog(a + b, style) == PrintLog(a, style) + PrintLog(b, style)
  {
    LoggedAppend(a, b);
    if a == [] {
      assert a + b == b;
    } else {
      PrintLogAppend(a[1..], b, style);
      AppendAssociates(PrintRecord(a[0], style), PrintLog(a[1..], style), PrintLog(b, style));
    }
  }

  lemma LoggedSplit(records: seq<Command>, n: nat)
    requires AllLogged(records) && n <= |records|
    ensures AllLogged(records[..n]) && AllLogged(records[n..]) && records[..n] + records[n..] == records
  {
  }

  lemma PrintLogSplit(records: seq<Command>, n: nat, style: Style)
    requires AllLogged(records) && n <= |records|
    ensures AllLogged(records[..n]) && AllLogged(records[n..])
    ensures PrintLog(records[..n], style) + PrintLog(records[n..], style) == PrintLog(records, style)
  {
    LoggedSplit(records, n);
    PrintLogAppend(records[..n], records[n..], style);
  }

  lemma PrintLogLast(a: seq<Command>, c: Command, style: Style)
    requires AllLogged(a) && Logged(c) && InRange(c)
    ensures AllLogged(a + [c]) && PrintLog(a + [c], style) == PrintLog(a, style) + PrintRecord(c, style)
  {
    PrintLogAppend(a, [c], style);
    assert [c][1..] == [];
    assert PrintLog([c], style) == PrintRecord(c, style) + "";
  }

  // ---- Reading ----

  function LineEnd(text: Bytes): (n: nat)
    ensures n <= |text| && (n < |text| ==> text[n] == '\n')
    ensures forall k :: 0 <= k < n ==> text[k] != '\n'
  {
    if text == "" || text[0] == '\n' then 0
    else 1 + LineEnd(text[1..])
  }

  function StripReturn(line: Bytes): Bytes {
    if line != "" && line[|line| - 1] == '\r' then line[..|line| - 1] else line
  }

  /** The lines `next_line` delivers: a line ending is LF or CRLF, and a malformed line stops the reading. */
  function FileLines(text: Bytes): seq<Bytes>
    decreases |text|
  {
    var n := LineEnd(text);
    if text == "" || !IsUtf8(text[..n]) then []
    else if n == |text| then [text]
    else [StripReturn(text[..n])] + FileLines(text[n + 1..])
  }

  function ParseLines(lines: seq<Bytes>): seq<Command> {
    if lines == [] then [] else [ParseCommand(Tokens(lines[0]))] + ParseLines(lines[1..])
  }

  /** The commands replay sees in a log file. */
  function ParseLog(text: Bytes): seq<Command> { ParseLines(FileLines(text)) }

  // ---- Which records come back ----

  /** What an argument must satisfy to survive printing at its place. */
  predicate Survives(arg: Bytes, quoted: bool, last: bool) {
    && IsUtf8(arg) && arg != "" && QuoteFree(arg) && '\n' !in arg
    && (!quoted ==> ' ' !in arg && '\t' !in arg && (last ==> arg[|arg| - 1] != '\r'))
  }

  predicate AllSurvive(args: seq<Bytes>, quoted: seq<bool>)
    requires |args| == |quoted|
  {
    forall i :: 0 <= i < |args| ==> Survives(args[i], quoted[i], i == |args| - 1)
  }

  /** Every argument of the record can be printed safely. */
  predicate Loggable(c: Command, style: Style)
    requires Logged(c)
  {
    AllSurvive(Arguments(c), Quoting(c, style))
  }

  predicate AllLoggable(records: seq<Command>, style: Style)
    requires AllLogged(records)
  {
    forall c :: c in records ==> Loggable(c, style)
  }

  // ---- Helper facts about lines ----

  lemma {:induction false} LineHasNoNewline(fields: seq<Field>)
    requires forall i :: 0 <= i < |fields| ==> '\n' !in fields[i].text
    ensures '\n' !in Line(fields)
  {
    if fields != [] { LineHasNoNewline(fields[1..]); }
  }

  lemma {:induction false} LineIsUtf8(fields: seq<Field>)
    requires forall i :: 0 <= i < |fields| ==> IsUtf8(fields[i].text)
    ensures IsUtf8(Line(fields))
  {
    if fields != [] {
      var text := fields[0].text;
      AsciiIsUtf8("\"");
      AsciiIsUtf8(" ");
      Utf8Append("\"", text);
      Utf8Append("\"" + text, "\"");
      LineIsUtf8(fields[1..]);
      Utf8Append(Render(fields[0]), " ");
      Utf8Append(Render(fields[0]) + " ", Line(fields[1..]));
    }
  }

  lemma {:induction false} LineLast(fields: seq<Field>)
    requires fields != [] && Render(fields[|fields| - 1]) != ""
    ensures Line(fields) != ""
    ensures var r := Render(fields[|fields| - 1]); Line(fields)[|Line(fields)| - 1] == r[|r| - 1]
  {
    if |fields| > 1 {
      LineLast(fields[1..]);
      assert fields[1..][|fields| - 2] == fields[|fields| - 1];
    }
  }

  lemma LineEndAt(line: Bytes, rest: Bytes)
    requires '\n' !in line
    ensures LineEnd(line + "\n" + rest) == |line|
  {
    var text := line + "\n" + rest;
    assert text[|line|] == '\n';
    assert forall k :: 0 <= k < |line| ==> text[k] == line[k];
  }

  lemma LineReads(line: Bytes, rest: Bytes)
    requires '\n' !in line && IsUtf8(line)
    ensures FileLines(line + "\n" + rest) == [StripReturn(line)] + FileLines(rest)
  {
    var text := line + "\n" + rest;
    LineEndAt(line, rest);
    assert text[..|line|] == line;
    assert text[|line| + 1..] == rest;
  }

  lemma {:induction false} LineAlone(line: Bytes)
    requires '\n' !in line
    ensures LineEnd(line) == |line| && line[..|line|] == line
  {
    if line != "" { LineAlone(line[1..]); }
  }

  lemma CrlfLine(line: Bytes, rest: Bytes)
    requires '\n' !in line && IsUtf8(line)
    ensures FileLines((line + "\r") + "\n" + rest) == [line] + FileLines(rest)
  {
    AsciiIsUtf8("\r");
    Utf8Append(line, "\r");
    LineReads(line + "\r", rest);
    assert (line + "\r")[..|line|] == line;
  }

  lemma LfLine(line: Bytes, rest: Bytes)
    requires '\n' !in line && IsUtf8(line)
    ensures line == "" || line[|line| - 1] != '\r' ==> FileLines(line + "\n" + rest) == [line] + FileLines(rest)
    ensures line != "" ==> FileLines(line) == [line]
  {
    LineReads(line, rest);
    LineAlone(line);
  }

  /** A line of the file ends with LF or with CRLF, and neither belongs to it; the last one may do without. */
  lemma LineEndings(line: Bytes, rest: Bytes)
    requires '\n' !in line && IsUtf8(line)
    ensures FileLines((line + "\r") + "\n" + rest) == [line] + FileLines(rest)
    ensures line == "" || line[|line| - 1] != '\r' ==> FileLines(line + "\n" + rest) == [line] + FileLines(rest)
    ensures line != "" ==> FileLines(line) == [line]
  {
    CrlfLine(line, rest);
    LfLine(line, rest);
  }

  /** A line that is not UTF-8 ends the reading. */
  lemma MalformedEnds(line: Bytes, rest: Bytes)
    requires '\n' !in line && !IsUtf8(line)
    ensures FileLines(line + "\n" + rest) == [] && FileLines(line) == []
  {
    LineEndAt(line, rest);
    assert (line + "\n" + rest)[..|line|] == line;
    LineAlone(line);
  }

  lemma NumeralShape(i: int)
    ensures Survives(PrintInt(i), false, true)
  {
    AsciiIsUtf8(PrintInt(i));
  }

  predicate IsVerb(v: Bytes) { IsUtf8(v) && v != "" && QuoteFree(v) && SeparatorFree(v) }

  predicate Letters(v: Bytes) { v != "" && forall k :: 0 <= k < |v| ==> 'A' <= v[k] <= 'Z' }

  lemma VerbLetters(c: Command)
    requires Logged(c)
    ensures Letters(Verb(c))
  {
  }

  lemma VerbShape(c: Command)
    requires Logged(c)
    ensures IsVerb(Verb(c))
  {
    var v := Verb(c);
    VerbLetters(c);
    AsciiIsUtf8(v);
  }

  // ---- A loggable record comes back ----

  lemma SurvivorField(arg: Bytes, quoted: bool, last: bool, f: Field)
    requires Survives(arg, quoted, last) && f == ShownField(arg, quoted)
    ensures Clean(f) && f.text == arg && '\n' !in f.text && IsUtf8(f.text)
    ensures Render(f) != "" && (last ==> Render(f)[|Render(f)| - 1] != '\r')
  {
  }

  lemma SurvivorFields(verb: Bytes, args: seq<Bytes>, quoted: seq<bool>)
    requires IsVerb(verb) && |args| == |quoted| > 0 && AllSurvive(args, quoted)
    ensures var fields := FieldsOf(verb, args, quoted);
            && (forall i :: 0 <= i < |fields| ==>
                  Clean(fields[i]) && '\n' !in fields[i].text && IsUtf8(fields[i].text))
            && (forall i :: 0 <= i < |args| ==> fields[i + 1].text == args[i])
            && StripReturn(Line(fields)) == Line(fields)
  {
    var fields := FieldsOf(verb, args, quoted);
    forall i | 0 <= i < |fields|
      ensures Clean(fields[i]) && '\n' !in fields[i].text && IsUtf8(fields[i].text)
    {
      if i > 0 { SurvivorField(args[i - 1], quoted[i - 1], i == |args|, fields[i]); }
    }
    SurvivorField(args[|args| - 1], quoted[|args| - 1], true, fields[|args|]);
    LineLast(fields);
  }

  lemma SurvivorTexts(verb: Bytes, args: seq<Bytes>, fields: seq<Field>)
    requires |fields| == 1 + |args| && fields[0].text == verb
    requires forall i :: 0 <= i < |args| ==> fields[i + 1].text == args[i]
    ensures Texts(fields) == [verb] + args
  {
    forall i | 0 <= i < |fields|
      ensures Texts(fields)[i] == ([verb] + args)[i]
    {
      if i > 0 { assert fields[i - 1 + 1].text == args[i - 1]; }
    }
  }

  lemma SurvivorsSplit(verb: Bytes, args: seq<Bytes>, quoted: seq<bool>)
    requires IsVerb(verb) && |args| == |quoted| > 0 && AllSurvive(args, quoted)
    ensures var line := Line(FieldsOf(verb, args, quoted));
            '\n' !in line && IsUtf8(line) && StripReturn(line) == line && Tokens(line) == [verb] + args
  {
    var fields := FieldsOf(verb, args, quoted);
    SurvivorFields(verb, args, quoted);
    LineHasNoNewline(fields);
    LineIsUtf8(fields);
    LineSplits(fields);
    SurvivorTexts(verb, args, fields);
  }

  lemma LoggableReads(c: Command, style: Style, rest: Bytes)
    requires Logged(c) && InRange(c) && Loggable(c, style)
    ensures ParseLog(PrintRecord(c, style) + rest) == [c] + ParseLog(rest)
  {
    VerbShape(c);
    SurvivorsSplit(Verb(c), Arguments(c), Quoting(c, style));
    var line := RecordLine(c, style);
    assert PrintRecord(c, style) + rest == line + "\n" + rest;
    LineReads(line, rest);
    ParseWords(c);
    assert ([line] + FileLines(rest))[1..] == FileLines(rest);
  }

  lemma LoggableTail(records: seq<Command>, style: Style)
    requires records != [] && AllLogged(records) && AllLoggable(records, style)
    ensures Logged(records[0]) && InRange(records[0]) && Loggable(records[0], style)
    ensures AllLogged(records[1..]) && AllLoggable(records[1..], style)
  {
  }

  lemma {:induction false} LoggableLogReads(records: seq<Command>, style: Style)
    requires AllLogged(records) && AllLoggable(records, style)
    ensures ParseLog(PrintLog(records, style)) == records
  {
    if records != [] {
      LoggableTail(records, style);
      LoggableReads(records[0], style, PrintLog(records[1..], style));
      LoggableLogReads(records[1..], style);
      assert records == [records[0]] + records[1..];
    }
  }

  // ---- Only a loggable record comes back ----

  lemma {:induction false} SumLenCompare(a: seq<Bytes>, b: seq<Bytes>)
    requires |a| == |b| && forall i :: 0 <= i < |a| ==> |a[i]| <= |b[i]|
    ensures SumLen(a) <= SumLen(b)
    ensures SumLen(a) == SumLen(b) ==> forall i :: 0 <= i < |a| ==> |a[i]| == |b[i]|
  {
    if a != [] {
      SumLenCompare(a[1..], b[1..]);
      if SumLen(a) == SumLen(b) {
        forall i | 0 < i < |a|
          ensures |a[i]| == |b[i]|
        {
          assert a[1..][i - 1] == a[i] && b[1..][i - 1] == b[i];
        }
      }
    }
  }

  lemma {:induction false} UnquotedAlphabet(w: Bytes, c: char)
    requires c !in w
    ensures c !in Unquoted(w)
  {
    if w != "" { UnquotedAlphabet(w[1..], c); }
  }

  /** Tokens are made of characters of the line. */
  lemma {:induction false} TokenAlphabet(s: Bytes, c: char)
    requires c !in s
    ensures forall t :: t in Tokens(s) ==> c !in t
    decreases |s|
  {
    var n := WordEnd(s, false);
    UnquotedAlphabet(s[..n], c);
    if n < |s| { TokenAlphabet(s[n + 1..], c); }
  }

  lemma StripReturnKept(line: Bytes)
    ensures Kept(StripReturn(line), false) + (if StripReturn(line) == line then 0 else 1) == Kept(line, false)
  {
    if StripReturn(line) != line {
      var front := line[..|line| - 1];
      assert line == front + "\r";
      KeptAppend(front, "\r", false);
      assert "\r"[1..] == "";
    }
  }

  /** What the words of a line tell about the arguments that were printed on it. */
  ghost predicate ReadsAs(words: seq<Bytes>, verb: Bytes, args: seq<Bytes>) {
    && |words| == 1 + |args| && |words[0]| == |verb|
    && (forall i :: 0 <= i < |args| ==> |args[i]| <= |words[i + 1]|)
    && (forall i :: 0 <= i < |args| ==> args[i] != "" && QuoteFree(args[i]) && '\n' !in args[i])
  }

  lemma NumeralArgument(c: Command, i: nat)
    requires Logged(c) && i < |Arguments(c)| && Numeral(c, i)
    ensures Survives(Arguments(c)[i], false, true)
  {
    if c.SetEx? {
      NumeralShape(c.seconds);
    } else if c.LTrim? {
      NumeralShape(c.start);
      NumeralShape(c.stop);
    } else {
      NumeralShape(1);
      assert PrintInt(1) == "1";
    }
  }

  lemma WordsOfRecord(c: Command, words: seq<Bytes>)
    requires Logged(c) && ParseCommand(words) == c
    requires forall w :: w in words ==> w != "" && QuoteFree(w) && '\n' !in w
    ensures ReadsAs(words, Verb(c), Arguments(c))
  {
    ParsedFrom(words, c);
    var args := Arguments(c);
    forall i | 0 <= i < |args|
      ensures |args[i]| <= |words[i + 1]| && args[i] != "" && QuoteFree(args[i]) && '\n' !in args[i]
    {
      assert words[i + 1] in words;
      if Numeral(c, i) { NumeralArgument(c, i); }
    }
  }

  /** Counting characters: words as long as the fields leave nothing exposed and nothing stripped. */
  lemma Balanced(fields: seq<Field>, words: seq<Bytes>)
    requires words == Tokens(StripReturn(Line(fields))) && |words| == |fields|
    requires forall i :: 0 <= i < |fields| ==> QuoteFree(fields[i].text) && |fields[i].text| <= |words[i]|
    ensures StripReturn(Line(fields)) == Line(fields)
    ensures forall i :: 0 <= i < |fields| ==> |fields[i].text| == |words[i]|
    ensures forall i :: 0 <= i < |fields| && fields[i].Bare? ==> SeparatorFree(fields[i].text)
  {
    StripReturnKept(Line(fields));
    TokensLength(StripReturn(Line(fields)));
    KeptLine(fields);
    SumLenCompare(Texts(fields), words);
    NothingExposed(fields);
    assert forall i :: 0 <= i < |fields| ==> |Texts(fields)[i]| == |words[i]|;
  }

  lemma FieldsAreNoLonger(verb: Bytes, args: seq<Bytes>, quoted: seq<bool>, words: seq<Bytes>)
    requires |args| == |quoted| && IsVerb(verb) && ReadsAs(words, verb, args)
    ensures var fields := FieldsOf(verb, args, quoted);
            |fields| == |words| &&
            forall i :: 0 <= i < |fields| ==> QuoteFree(fields[i].text) && |fields[i].text| <= |words[i]|
  {
    var fields := FieldsOf(verb, args, quoted);
    forall i | 0 <= i < |fields|
      ensures QuoteFree(fields[i].text) && |fields[i].text| <= |words[i]|
    {
      if i > 0 { assert fields[i] == ShownField(args[i - 1], quoted[i - 1]); }
    }
  }

  lemma ArgumentSurvives(arg: Bytes, quoted: bool, last: bool, f: Field)
    requires f == ShownField(arg, quoted) && |arg| <= |f.text|
    requires arg != "" && QuoteFree(arg) && '\n' !in arg && (f.Bare? ==> SeparatorFree(f.text))
    requires last && f.Bare? ==> Render(f) == "" || Render(f)[|Render(f)| - 1] != '\r'
    ensures Survives(arg, quoted, last)
  {
    assert Shown(arg) == arg;
  }

  lemma LastUnstripped(fields: seq<Field>)
    requires fields != [] && StripReturn(Line(fields)) == Line(fields)
    ensures var r := Render(fields[|fields| - 1]); r == "" || r[|r| - 1] != '\r'
  {
    if Render(fields[|fields| - 1]) != "" { LineLast(fields); }
  }

  lemma ArgumentsSurvive(args: seq<Bytes>, quoted: seq<bool>, fields: seq<Field>)
    requires |args| == |quoted| > 0 && |fields| == 1 + |args|
    requires forall i :: 0 <= i < |args| ==> fields[i + 1] == ShownField(args[i], quoted[i])
    requires forall i :: 0 <= i < |args| ==> |args[i]| <= |fields[i + 1].text|
    requires forall i :: 0 <= i < |args| ==> args[i] != "" && QuoteFree(args[i]) && '\n' !in args[i]
    requires forall i :: 0 <= i < |fields| && fields[i].Bare? ==> SeparatorFree(fields[i].text)
    requires var r := Render(fields[|fields| - 1]); r == "" || r[|r| - 1] != '\r'
    ensures AllSurvive(args, quoted)
  {
    forall i | 0 <= i < |args|
      ensures Survives(args[i], quoted[i], i == |args| - 1)
    {
      ArgumentSurvives(args[i], quoted[i], i == |args| - 1, fields[i + 1]);
    }
  }

  /** Nothing was lost, so nothing was exposed, hidden or stripped. */
  lemma NothingLost(verb: Bytes, args: seq<Bytes>, quoted: seq<bool>)
    requires |args| == |quoted| > 0 && IsVerb(verb)
    requires ReadsAs(Tokens(StripReturn(Line(FieldsOf(verb, args, quoted)))), verb, args)
    ensures AllSurvive(args, quoted)
  {
    var fields := FieldsOf(verb, args, quoted);
    var words := Tokens(StripReturn(Line(fields)));
    FieldsAreNoLonger(verb, args, quoted, words);
    Balanced(fields, words);
    LastUnstripped(fields);
    ArgumentsSurvive(args, quoted, fields);
  }

  lemma FirstLineIs(line: Bytes, rest: Bytes)
    ensures (line + "\n" + rest)[..|line|] == line
  {
  }

  /** The first line of the text is the whole printed line. */
  lemma FirstLine(verb: Bytes, args: seq<Bytes>, quoted: seq<bool>, rest: Bytes)
    requires |args| == |quoted| && IsVerb(verb)
    requires forall i :: 0 <= i < |args| ==> '\n' !in args[i]
    ensures var line := Line(FieldsOf(verb, args, quoted));
            var text := line + "\n" + rest;
            text[..LineEnd(text)] == line
  {
    var fields := FieldsOf(verb, args, quoted);
    forall i | 0 <= i < |fields|
      ensures '\n' !in fields[i].text
    {
      if i > 0 { assert fields[i] == ShownField(args[i - 1], quoted[i - 1]); }
    }
    LineHasNoNewline(fields);
    LineEndAt(Line(fields), rest);
    FirstLineIs(Line(fields), rest);
  }

  lemma LineEndBound(line: Bytes, rest: Bytes)
    ensures LineEnd(line + "\n" + rest) <= |line|
  {
    assert (line + "\n" + rest)[|line|] == '\n';
  }

  lemma FirstCommand(text: Bytes)
    requires ParseLog(text) != [] && LineEnd(text) < |text|
    ensures ParseLog(text)[0] == ParseCommand(Tokens(StripReturn(text[..LineEnd(text)])))
  {
  }

  lemma FirstLineSurvives(verb: Bytes, args: seq<Bytes>, quoted: seq<bool>, rest: Bytes, text: Bytes)
    requires |args| == |quoted| > 0 && IsVerb(verb)
    requires text == Line(FieldsOf(verb, args, quoted)) + "\n" + rest
    requires ReadsAs(Tokens(StripReturn(text[..LineEnd(text)])), verb, args)
    ensures AllSurvive(args, quoted)
  {
    FirstLine(verb, args, quoted, rest);
    NothingLost(verb, args, quoted);
  }

  lemma FirstWords(c: Command, text: Bytes)
    requires Logged(c) && LineEnd(text) < |text| && ParseLog(text) != [] && ParseLog(text)[0] == c
    ensures ReadsAs(Tokens(StripReturn(text[..LineEnd(text)])), Verb(c), Arguments(c))
  {
    FirstCommand(text);
    var front := StripReturn(text[..LineEnd(text)]);
    TokenShape(front);
    TokenAlphabet(front, '\n');
    WordsOfRecord(c, Tokens(front));
  }

  lemma OnlyLoggableReads(c: Command, style: Style, rest: Bytes)
    requires Logged(c) && InRange(c)
    requires ParseLog(PrintRecord(c, style) + rest) != [] && ParseLog(PrintRecord(c, style) + rest)[0] == c
    ensures Loggable(c, style)
  {
    var line := RecordLine(c, style);
    var text := PrintRecord(c, style) + rest;
    assert text == line + "\n" + rest;
    LineEndBound(line, rest);
    FirstWords(c, text);
    VerbShape(c);
    FirstLineSurvives(Verb(c), Arguments(c), Quoting(c, style), rest, text);
  }

  /** A printed record is read back as the same command exactly when it is loggable. */
  lemma RecordSurvives(c: Command, style: Style)
    requires Logged(c) && InRange(c)
    ensures ParseLog(PrintRecord(c, style)) == [c] <==> Loggable(c, style)
  {
    assert PrintRecord(c, style) + "" == PrintRecord(c, style);
    if Loggable(c, style) {
      LoggableReads(c, style, "");
    } else if ParseLog(PrintRecord(c, style)) == [c] {
      OnlyLoggableReads(c, style, "");
    }
  }

  /** A whole log is read back as the records it was printed from exactly when all of them are loggable. */
  lemma {:induction false} LogSurvives(records: seq<Command>, style: Style)
    requires AllLogged(records)
    ensures ParseLog(PrintLog(records, style)) == records <==> AllLoggable(records, style)
  {
    if AllLoggable(records, style) {
      LoggableLogReads(records, style);
    } else if ParseLog(PrintLog(records, style)) == records {
      var rest := records[1..];
      OnlyLoggableReads(records[0], style, PrintLog(rest, style));
      LoggableReads(records[0], style, PrintLog(rest, style));
      assert ParseLog(PrintLog(rest, style)) == rest;
      LogSurvives(rest, style);
    }
  }

  lemma VerbIsUtf8(c: Command)
    requires Logged(c)
    ensures IsUtf8(Verb(c))
  {
    AsciiIsUtf8(Verb(c));
  }

  lemma RecordIsUtf8(c: Command, style: Style)
    requires Logged(c)
    ensures IsUtf8(PrintRecord(c, style))
  {
    VerbIsUtf8(c);
    var fields := RecordFields(c, style);
    forall i | 0 <= i < |fields|
      ensures IsUtf8(fields[i].text)
    {
      if i > 0 { assert fields[i] == ShownField(Arguments(c)[i - 1], Quoting(c, style)[i - 1]); }
    }
    LineIsUtf8(fields);
    AsciiIsUtf8("\n");
    Utf8Append(RecordLine(c, style), "\n");
  }

  /** Whatever a client sends, the log stays text. */
  lemma {:induction false} PrintedIsUtf8(records: seq<Command>, style: Style)
    requires AllLogged(records)
    ensures IsUtf8(PrintLog(records, style))
  {
    if records != [] {
      RecordIsUtf8(records[0], style);
      PrintedIsUtf8(records[1..], style);
      Utf8Append(PrintRecord(records[0], style), PrintLog(records[1..], style));
    }
  }

  /** An argument that is not text is logged as if it were empty, so that two of them leave the same record. */
  lemma MalformedIsEmpty(k: Bytes, v: Bytes, style: Style)
    requires !IsUtf8(k)
    ensures PrintRecord(Set(k, v), style) == PrintRecord(Set("", v), style)
    ensures PrintRecord(Del(k), style) == PrintRecord(Del(""), style)
  {
    PairFormats(k, v);
    PairFormats("", v);
    KeyFormats(k, style);
    KeyFormats("", style);
  }

  // ---- Several sessions in one file ----

  /** Every line of the file ends in LF and is well-formed. */
  predicate Whole(text: Bytes)
    decreases |text|
  {
    text == "" ||
    (LineEnd(text) < |text| && IsUtf8(text[..LineEnd(text)]) && Whole(text[LineEnd(text) + 1..]))
  }

  lemma {:induction false} LineEndWithin(a: Bytes, b: Bytes)
    ensures LineEnd(a + b) == if LineEnd(a) < |a| then LineEnd(a) else |a| + LineEnd(b)
  {
    if a == "" {
      assert a + b == b;
    } else {
      assert (a + b)[0] == a[0] && (a + b)[1..] == a[1..] + b;
      if a[0] != '\n' { LineEndWithin(a[1..], b); }
    }
  }

  lemma FirstPieces(a: Bytes, b: Bytes, n: nat)
    requires n < |a|
    ensures (a + b)[..n] == a[..n] && (a + b)[n + 1..] == a[n + 1..] + b && a + b != ""
  {
  }

  lemma {:induction false} WholeThenMore(text: Bytes, more: Bytes)
    requires Whole(text)
    ensures FileLines(text + more) == FileLines(text) + FileLines(more)
    ensures Whole(more) ==> Whole(text + more)
    decreases |text|
  {
    if text == "" {
      assert text + more == more;
    } else {
      var n := LineEnd(text);
      LineEndWithin(text, more);
      FirstPieces(text, more, n);
      WholeThenMore(text[n + 1..], more);
      AppendAssociates([StripReturn(text[..n])], FileLines(text[n + 1..]), FileLines(more));
    }
  }

  /** A text whose first line is not empty and starts with an ASCII character. */
  predicate Begins(more: Bytes) {
    more != "" && more[0] as int < 0x80 && 0 < LineEnd(more) < |more| && IsUtf8(more[..LineEnd(more)])
  }

  lemma Utf8Front(a: Bytes, b: Bytes)
    requires b != "" && b[0] as int < 0x80 && IsUtf8(a + b)
    ensures IsUtf8(a)
  {
    assert a + b == a + [b[0]] + b[1..];
    Utf8Cut(a, b[0], b[1..]);
  }

  /** How many lines a text has, read off its first one. */
  lemma LinesCount(text: Bytes)
    requires text != ""
    ensures var n := LineEnd(text);
            |FileLines(text)| ==
            if !IsUtf8(text[..n]) then 0 else if n == |text| then 1 else 1 + |FileLines(text[n + 1..])|
  {
  }

  lemma SwallowPieces(text: Bytes, more: Bytes, n: nat)
    requires n < |more|
    ensures (text + more)[..|text| + n] == text + more[..n] && (text + more)[|text| + n + 1..] == more[n + 1..]
    ensures more[..n] != "" ==> more[..n][0] == more[0]
  {
  }

  lemma OpenLine(text: Bytes)
    requires text != "" && LineEnd(text) == |text|
    ensures |FileLines(text)| == if IsUtf8(text) then 1 else 0
  {
    assert text[..|text|] == text;
    LinesCount(text);
  }

  lemma MergedHead(text: Bytes, more: Bytes)
    requires text != "" && LineEnd(text) == |text| && LineEnd(more) < |more|
    ensures var n, all := LineEnd(more), text + more;
            && LineEnd(all) == |text| + n < |all|
            && all[..LineEnd(all)] == text + more[..n] && all[LineEnd(all) + 1..] == more[n + 1..]
            && (n > 0 ==> more[..n] != "" && more[..n][0] == more[0])
  {
    LineEndWithin(text, more);
    SwallowPieces(text, more, LineEnd(more));
  }

  lemma MergedLine(text: Bytes, more: Bytes)
    requires text != "" && LineEnd(text) == |text| && Begins(more)
    ensures |FileLines(text + more)| <= if IsUtf8(text) then |FileLines(more)| else 0
  {
    var n := LineEnd(more);
    MergedHead(text, more);
    LinesCount(more);
    LinesCount(text + more);
    if IsUtf8(text + more[..n]) { Utf8Front(text, more[..n]); }
  }

  /** A last line without LF, malformed or not, swallows the first line that follows. */
  lemma OpenLineSwallows(text: Bytes, more: Bytes)
    requires text != "" && LineEnd(text) == |text| && Begins(more)
    ensures |FileLines(text + more)| < |FileLines(text)| + |FileLines(more)|
  {
    OpenLine(text);
    MergedLine(text, more);
    LinesCount(more);
  }

  /** And nothing behind a malformed line is ever read. */
  lemma {:induction false} UnwholeLoses(text: Bytes, more: Bytes)
    requires !Whole(text) && Begins(more)
    ensures |FileLines(text + more)| < |FileLines(text)| + |FileLines(more)|
    decreases |text|
  {
    var n := LineEnd(text);
    if n == |text| {
      OpenLineSwallows(text, more);
    } else {
      LineEndWithin(text, more);
      FirstPieces(text, more, n);
      LinesCount(text);
      LinesCount(more);
      LinesCount(text + more);
      if IsUtf8(text[..n]) { UnwholeLoses(text[n + 1..], more); }
    }
  }

  lemma {:induction false} ParseLinesAppend(a: seq<Bytes>, b: seq<Bytes>)
    ensures ParseLines(a + b) == ParseLines(a) + ParseLines(b)
  {
    if a == [] {
      assert a + b == b;
    } else {
      var rest := a[1..];
      assert (a + b)[1..] == rest + b && (a + b)[0] == a[0];
      ParseLinesAppend(rest, b);
      AppendAssociates([ParseCommand(Tokens(a[0]))], ParseLines(rest), ParseLines(b));
    }
  }

  lemma {:induction false} ParseLinesLength(lines: seq<Bytes>)
    ensures |ParseLines(lines)| == |lines|
  {
    if lines != [] { ParseLinesLength(lines[1..]); }
  }

  lemma LineStarts(fields: seq<Field>)
    requires fields != [] && fields[0].Bare? && fields[0].text != ""
    ensures Line(fields) != "" && Line(fields)[0] == fields[0].text[0]
  {
  }

  lemma PrintedBegins(c: Command, rest: Bytes, style: Style)
    requires Logged(c) && Loggable(c, style)
    ensures Begins(PrintRecord(c, style) + rest)
    ensures Whole(rest) ==> Whole(PrintRecord(c, style) + rest)
  {
    var line := RecordLine(c, style);
    VerbShape(c);
    VerbLetters(c);
    SurvivorsSplit(Verb(c), Arguments(c), Quoting(c, style));
    assert PrintRecord(c, style) + rest == line + "\n" + rest;
    LineEndAt(line, rest);
    LineStarts(FieldsOf(Verb(c), Arguments(c), Quoting(c, style)));
    var text := line + "\n" + rest;
    assert text[..|line|] == line && text[|line| + 1..] == rest;
  }

  lemma {:induction false} PrintedIsWhole(records: seq<Command>, style: Style)
    requires AllLogged(records) && AllLoggable(records, style)
    ensures Whole(PrintLog(records, style))
  {
    if records != [] {
      PrintedIsWhole(records[1..], style);
      PrintedBegins(records[0], PrintLog(records[1..], style), style);
    }
  }

  /** Records appended to an older file are read behind what it holds exactly when all its lines are whole. */
  lemma SessionsReadApart(start: Bytes, records: seq<Command>, style: Style)
    requires records != [] && AllLogged(records) && AllLoggable(records, style)
    ensures ParseLog(start + PrintLog(records, style)) == ParseLog(start) + records <==> Whole(start)
  {
    var more := PrintLog(records, style);
    LoggableLogReads(records, style);
    PrintedBegins(records[0], PrintLog(records[1..], style), style);
    ParseLinesAppend(FileLines(start), FileLines(more));
    ParseLinesLength(FileLines(start));
    ParseLinesLength(FileLines(more));
    ParseLinesLength(FileLines(start + more));
    if Whole(start) {
      WholeThenMore(start, more);
    } else {
      UnwholeLoses(start, more);
    }
  }
}
