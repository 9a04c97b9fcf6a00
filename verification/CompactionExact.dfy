/** Exactly when a compacted file rebuilds the keyspace it was printed from. */
module CompactionExact {
  import opened Prelude
  import opened Decimal
  import opened Utf8
  import opened Tokenizer
  import opened Protocol
  import opened Keyspace
  import opened LogText
  import opened Expiry
  import opened Compaction

  // ---- Words of a well-formed line are well-formed ----

  function FirstQuote(w: Bytes): (n: nat)
    ensures n <= |w| && (n < |w| ==> w[n] == '"') && forall k :: 0 <= k < n ==> w[k] != '"'
  {
    if w == "" || w[0] == '"' then 0 else 1 + FirstQuote(w[1..])
  }

  lemma FirstQuotePieces(w: Bytes)
    requires w != "" && w[0] != '"'
    ensures var n, t := FirstQuote(w), w[1..];
            n > 0 && w[..n] == [w[0]] + t[..n - 1] && (n < |w| ==> t[n..] == w[n + 1..])
  {
  }

  lemma {:induction false} UnquotedFrom(w: Bytes)
    ensures var n := FirstQuote(w); Unquoted(w) == w[..n] + if n < |w| then Unquoted(w[n + 1..]) else ""
  {
    if w != "" && w[0] != '"' {
      var n, c, t := FirstQuote(w), [w[0]], w[1..];
      UnquotedFrom(t);
      FirstQuotePieces(w);
      AppendAssociates(c, t[..n - 1], if n < |w| then Unquoted(w[n + 1..]) else "");
    }
  }

  lemma {:induction false} UnquotedUtf8(w: Bytes)
    requires IsUtf8(w)
    ensures IsUtf8(Unquoted(w))
    decreases |w|
  {
    var n := FirstQuote(w);
    UnquotedFrom(w);
    if n < |w| {
      CutAt(w, n);
      UnquotedUtf8(w[n + 1..]);
      Utf8Append(w[..n], Unquoted(w[n + 1..]));
    } else {
      assert w[..n] + "" == w;
    }
  }

  lemma {:induction false} WordEndIsSeparator(s: Bytes, quoted: bool)
    ensures WordEnd(s, quoted) < |s| ==> IsSeparator(s[WordEnd(s, quoted)])
  {
    if s != "" { WordEndIsSeparator(s[1..], if s[0] == '"' then !quoted else quoted); }
  }

  lemma {:induction false} TokensUtf8(s: Bytes)
    requires IsUtf8(s)
    ensures forall t :: t in Tokens(s) ==> IsUtf8(t)
    decreases |s|
  {
    var n := WordEnd(s, false);
    WordEndIsSeparator(s, false);
    if n < |s| {
      CutAt(s, n);
      TokensUtf8(s[n + 1..]);
    } else {
      assert s[..n] == s;
    }
    UnquotedUtf8(s[..n]);
  }

  lemma StrippedUtf8(line: Bytes)
    requires IsUtf8(line)
    ensures IsUtf8(StripReturn(line))
  {
    if StripReturn(line) != line { CutAt(line, |line| - 1); }
  }

  lemma {:induction false} LinesWellFormed(text: Bytes)
    ensures forall line :: line in FileLines(text) ==> IsUtf8(line) && '\n' !in line
    decreases |text|
  {
    var n := LineEnd(text);
    if text != "" && IsUtf8(text[..n]) {
      if n == |text| {
        assert text[..n] == text;
      } else {
        StrippedUtf8(text[..n]);
        LinesWellFormed(text[n + 1..]);
      }
    }
  }

  /** Whatever the file holds, replay only ever sees words that could be printed between quotes. */
  lemma WordsOk(line: Bytes)
    requires IsUtf8(line) && '\n' !in line
    ensures forall w :: w in Tokens(line) ==> QuotedOk(w)
  {
    TokensUtf8(line);
    TokenShape(line);
    TokenAlphabet(line, '\n');
  }

  // ---- What the strings of a replayed keyspace are like ----

  /** Conditions on keys, on hash fields, and on all other strings. */
  datatype Shape = Shape(key: Bytes -> bool, field: Bytes -> bool, text: Bytes -> bool)

  predicate EntryIn(e: Entry, p: Shape) {
    match e.value
    case Str(v) => p.text(v)
    case List(items) => forall v :: v in items ==> p.text(v)
    case Hash(fields) => forall f :: f in fields ==> p.field(f) && p.text(fields[f])
    case Members(members) => forall v :: v in members ==> p.text(v)
  }

  predicate CellIn(cell: Cell, p: Shape) { cell.Some? ==> EntryIn(cell.value, p) }

  ghost predicate StateIn(db: Store, p: Shape) { forall k :: k in db ==> p.key(k) && EntryIn(db[k], p) }

  /** The strings of a command that replay may store. */
  predicate CommandIn(c: Command, p: Shape) {
    && (SingleKey(c) ==> p.key(c.key))
    && (c.Set? || c.SetEx? || c.LPush? || c.RPush? || c.SAdd? || c.HSet? ==> p.text(c.value))
    && (c.HSet? ==> p.field(c.field))
    && (c.RPopLPush? ==> p.key(c.source) && p.key(c.destination))
  }

  ghost predicate Numbers(p: Shape) { forall i: int :: p.text(PrintInt(i)) }

  lemma {:induction false} RemovedIn(items: seq<Bytes>, v: Bytes)
    ensures forall x :: x in RemoveFirst(items, v) ==> x in items
  {
    if items != [] { RemovedIn(items[1..], v); }
  }

  lemma CellReplayedIn(cell: Cell, c: Command, now: nat, p: Shape)
    requires SingleKey(c) && CellIn(cell, p) && CommandIn(c, p) && Numbers(p)
    ensures CellIn(ReplayCell(cell, c, now), p)
  {
    if c.LRem? && cell.Some? && cell.value.value.List? { RemovedIn(cell.value.value.items, c.value); }
  }

  lemma PutIn(db: Store, k: Bytes, cell: Cell, p: Shape)
    requires StateIn(db, p) && p.key(k) && CellIn(cell, p)
    ensures StateIn(Put(db, k, cell), p)
  {
  }

  lemma MovedIn(db: Store, s: Bytes, d: Bytes, p: Shape)
    requires StateIn(db, p) && p.key(s) && p.key(d) && MoveTail(db, s, d).Some?
    ensures StateIn(MoveTail(db, s, d).value.1, p)
  {
    var items := db[s].value.items;
    var v := items[|items| - 1];
    var cell := Some(Entry(List(items[..|items| - 1]), db[s].expiresAt));
    var popped := Put(db, s, cell);
    assert EntryIn(db[s], p);
    PutIn(db, s, cell, p);
    assert CellIn(Look(popped, d), p);
    PutIn(popped, d, PushedFront(Look(popped, d), v), p);
  }

  lemma CommandReplayedIn(db: Store, c: Command, now: nat, p: Shape)
    requires StateIn(db, p) && CommandIn(c, p) && Numbers(p) && ReplayCommand(db, c, now).Some?
    ensures StateIn(ReplayCommand(db, c, now).value, p)
  {
    if SingleKey(c) {
      assert CellIn(Look(db, c.key), p);
      CellReplayedIn(Look(db, c.key), c, now, p);
      PutIn(db, c.key, ReplayCell(Look(db, c.key), c, now), p);
    } else if c.RPopLPush? && MoveTail(db, c.source, c.destination).Some? {
      MovedIn(db, c.source, c.destination, p);
    }
  }

  lemma {:induction false} LogReplayedIn(db: Store, cs: seq<Command>, now: nat, p: Shape)
    requires StateIn(db, p) && Numbers(p) && (forall c :: c in cs ==> CommandIn(c, p))
    requires ReplayAll(db, cs, now).Some?
    ensures StateIn(ReplayAll(db, cs, now).value, p)
    decreases |cs|
  {
    if cs != [] {
      assert cs[0] in cs;
      assert forall c :: c in cs[1..] ==> c in cs;
      CommandReplayedIn(db, cs[0], now, p);
      LogReplayedIn(ReplayCommand(db, cs[0], now).value, cs[1..], now, p);
    }
  }

  // ---- First pass: nothing unprintable can be read ----

  function PrintableShape(): Shape { Shape(QuotedOk, QuotedOk, QuotedOk) }

  function SharpShape(): Shape { Shape(BareOk, BareOk, QuotedOk) }

  lemma PrintableNumbers()
    ensures Numbers(PrintableShape()) && Numbers(SharpShape())
  {
    forall i: int
      ensures QuotedOk(PrintInt(i))
    {
      NumeralShape(i);
    }
  }

  lemma DispatchedStrings(verb: Bytes, parts: seq<Bytes>)
    requires parts != []
    ensures var c := DispatchWrite(verb, parts);
            && (SingleKey(c) ==> |parts| >= 2 && c.key == parts[1])
            && (c.Set? || c.LPush? || c.RPush? || c.SAdd? ==> |parts| == 3 && c.value == parts[2])
            && (c.SetEx? || c.HSet? ==> |parts| == 4 && c.value == parts[3])
            && (c.HSet? ==> c.field == parts[2])
            && (c.RPopLPush? ==> |parts| == 3 && c.source == parts[1] && c.destination == parts[2])
            && !c.Get? && !c.LRange?
  {
  }

  lemma ReadStrings(verb: Bytes, parts: seq<Bytes>)
    requires parts != []
    ensures var c := DispatchRead(verb, parts);
            && !Logged(c) && !c.LRem? && (c.Get? || c.LRange? ==> |parts| >= 2 && c.key == parts[1])
  {
  }

  lemma ParsedIn(parts: seq<Bytes>, p: Shape)
    requires forall w :: w in parts ==> p.key(w) && p.field(w) && p.text(w)
    ensures CommandIn(ParseCommand(parts), p)
  {
    if parts != [] {
      DispatchedStrings(Upper(parts[0]), parts);
      ReadStrings(Upper(parts[0]), parts);
    }
  }

  lemma {:induction false} ParsedLinesIn(lines: seq<Bytes>)
    requires forall line :: line in lines ==> IsUtf8(line) && '\n' !in line
    ensures forall c :: c in ParseLines(lines) ==> CommandIn(c, PrintableShape())
  {
    if lines != [] {
      assert lines[0] in lines;
      WordsOk(lines[0]);
      ParsedIn(Tokens(lines[0]), PrintableShape());
      ParsedLinesIn(lines[1..]);
    }
  }

  /** Whatever is in the file: a keyspace rebuilt from it holds printable strings only. */
  lemma ReplayedIsPrintable(text: Bytes, later: nat)
    requires ReplayAll(map[], ParseLog(text), later).Some?
    ensures StateIn(ReplayAll(map[], ParseLog(text), later).value, PrintableShape())
  {
    LinesWellFormed(text);
    ParsedLinesIn(FileLines(text));
    PrintableNumbers();
    LogReplayedIn(map[], ParseLog(text), later, PrintableShape());
  }

  // ---- Second pass: no separator can be read back in a key or a field ----

  lemma {:induction false} PlainWord(s: Bytes)
    requires QuoteFree(s)
    ensures var n := WordEnd(s, false);
            && SeparatorFree(s[..n]) && Unquoted(s[..n]) == s[..n]
            && (n < |s| ==> IsSeparator(s[n]))
  {
    if s != "" && !IsSeparator(s[0]) {
      var n := WordEnd(s, false);
      PlainWord(s[1..]);
      assert s[..n] == [s[0]] + s[1..][..n - 1];
      assert s[..n][1..] == s[1..][..n - 1];
    }
  }

  /** Words that were printed bare have no separator in them. */
  lemma {:induction false} PlainTokens(s: Bytes)
    requires QuoteFree(s)
    ensures forall t :: t in Tokens(s) ==> SeparatorFree(t)
    decreases |s|
  {
    var n := WordEnd(s, false);
    PlainWord(s);
    if n < |s| { PlainTokens(s[n + 1..]); }
  }

  lemma {:induction false} WordEndPlain(s: Bytes, rest: Bytes)
    requires QuoteFree(s)
    ensures WordEnd(s + " " + rest, false) == WordEnd(s, false)
  {
    var text := s + " " + rest;
    if s != "" && !IsSeparator(s[0]) {
      assert text[1..] == s[1..] + " " + rest;
      WordEndPlain(s[1..], rest);
    }
  }

  lemma TextPieces(s: Bytes, rest: Bytes, n: nat)
    requires n <= |s|
    ensures var text := s + " " + rest;
            text[..n] == s[..n] && text[n + 1..] == if n < |s| then s[n + 1..] + " " + rest else rest
  {
  }

  /** A bare text and what follows it are split apart. */
  lemma {:induction false} TokensAfterBare(s: Bytes, rest: Bytes)
    requires QuoteFree(s)
    ensures Tokens(s + " " + rest) == Tokens(s) + Tokens(rest)
    decreases |s|
  {
    var n := WordEnd(s, false);
    WordEndPlain(s, rest);
    TextPieces(s, rest, n);
    var word := NonEmpty(Unquoted(s[..n]));
    if n < |s| {
      TokensAfterBare(s[n + 1..], rest);
      AppendAssociates(word, Tokens(s[n + 1..]), Tokens(rest));
    } else {
      assert Tokens(s) == word + [] == word;
    }
  }

  /** A line that ends in its only quoted field. */
  predicate QuotedLast(fields: seq<Field>) {
    && fields != [] && fields[|fields| - 1].Quoted? && fields[|fields| - 1].text != ""
    && (forall i :: 0 <= i < |fields| ==> QuoteFree(fields[i].text))
    && (forall i :: 0 <= i < |fields| - 1 ==> fields[i].Bare?)
  }

  lemma QuotedRest(fields: seq<Field>) returns (rest: seq<Field>)
    requires QuotedLast(fields) && |fields| > 1
    ensures rest == fields[1..] && QuotedLast(rest) && rest[|rest| - 1] == fields[|fields| - 1]
    ensures QuoteFree(fields[0].text) && Line(fields) == fields[0].text + " " + Line(rest)
  {
    rest := fields[1..];
    assert forall i :: 0 <= i < |rest| ==> rest[i] == fields[i + 1];
  }

  lemma PlainBefore(words: seq<Bytes>, more: seq<Bytes>)
    requires more != [] && (forall w :: w in words ==> SeparatorFree(w))
    requires forall i :: 0 <= i < |more| - 1 ==> SeparatorFree(more[i])
    ensures var all := words + more;
            all[|all| - 1] == more[|more| - 1] && forall i :: 0 <= i < |all| - 1 ==> SeparatorFree(all[i])
  {
    forall i | 0 <= i < |words + more| - 1
      ensures SeparatorFree((words + more)[i])
    {
      if i < |words| { assert words[i] in words; }
    }
  }

  lemma {:induction false} AllButLastPlain(fields: seq<Field>)
    requires QuotedLast(fields)
    ensures var words := Tokens(Line(fields));
            && words != [] && words[|words| - 1] == fields[|fields| - 1].text
            && forall i :: 0 <= i < |words| - 1 ==> SeparatorFree(words[i])
  {
    if |fields| == 1 {
      SplitFirst(fields[0], "");
    } else {
      var rest := QuotedRest(fields);
      AllButLastPlain(rest);
      PlainTokens(fields[0].text);
      TokensAfterBare(fields[0].text, Line(rest));
      PlainBefore(Tokens(fields[0].text), Tokens(Line(rest)));
    }
  }

  /** A record of the compactor whose strings all came back once. */
  predicate RecordPrintable(c: Command) {
    (c.Set? || c.LPush? || c.SAdd? || c.SetEx? || c.HSet?) &&
    QuotedOk(c.key) && QuotedOk(c.value) && (c.HSet? ==> QuotedOk(c.field))
  }

  lemma PrintableArguments(c: Command)
    requires RecordPrintable(c)
    ensures var args, quoted := Arguments(c), Quoting(c, Compacted);
            && |args| >= 2 && (forall i :: 0 <= i < |args| ==> QuotedOk(args[i]))
            && (forall i :: 0 <= i < |args| ==> (quoted[i] <==> i == |args| - 1))
  {
    if c.SetEx? { NumeralShape(c.seconds); }
  }

  predicate FieldsPrintable(fields: seq<Field>) {
    && |fields| >= 3 && QuotedLast(fields) && Clean(fields[0])
    && forall i :: 0 <= i < |fields| ==> IsUtf8(fields[i].text) && '\n' !in fields[i].text
  }

  lemma PrintableFields(c: Command) returns (fields: seq<Field>)
    requires RecordPrintable(c)
    ensures fields == RecordFields(c, Compacted) && FieldsPrintable(fields)
    ensures RecordLine(c, Compacted) == Line(fields)
  {
    VerbShape(c);
    VerbLetters(c);
    PrintableArguments(c);
    fields := RecordFields(c, Compacted);
    var args, quoted := Arguments(c), Quoting(c, Compacted);
    forall i | 0 <= i < |fields|
      ensures IsUtf8(fields[i].text) && '\n' !in fields[i].text && QuoteFree(fields[i].text) && fields[i].text != ""
      ensures fields[i].Quoted? <==> i == |fields| - 1
    {
      if i > 0 { assert fields[i] == ShownField(args[i - 1], quoted[i - 1]) && QuotedOk(args[i - 1]); }
    }
  }

  /** A line that `next_line` delivers as it is. */
  predicate LineOk(line: Bytes) { '\n' !in line && IsUtf8(line) && StripReturn(line) == line }

  lemma FieldsLine(fields: seq<Field>)
    requires FieldsPrintable(fields)
    ensures LineOk(Line(fields))
  {
    LineHasNoNewline(fields);
    LineIsUtf8(fields);
    LineLast(fields);
  }

  lemma PrintableLine(c: Command)
    requires RecordPrintable(c)
    ensures LineOk(RecordLine(c, Compacted))
  {
    var fields := PrintableFields(c);
    FieldsLine(fields);
  }

  /** The compactor's verbs take a value after the key, so neither key nor field is the last word. */
  lemma CompactorVerbs(c: Command, parts: seq<Bytes>)
    requires RecordPrintable(c) && parts != [] && parts[0] == Verb(c)
    ensures var d := ParseCommand(parts);
            d.Unknown? || ((d.Set? || d.LPush? || d.SAdd?) && |parts| == 3) || ((d.SetEx? || d.HSet?) && |parts| == 4)
  {
    WriteVerbs(c);
  }

  lemma SharpWords(c: Command, parts: seq<Bytes>)
    requires RecordPrintable(c) && parts != [] && parts[0] == Verb(c)
    requires forall w :: w in parts ==> QuotedOk(w)
    requires forall i :: 0 <= i < |parts| - 1 ==> SeparatorFree(parts[i])
    ensures CommandIn(ParseCommand(parts), SharpShape())
  {
    WriteVerbs(c);
    CompactorVerbs(c, parts);
    DispatchedStrings(Upper(parts[0]), parts);
    assert forall i :: 0 <= i < |parts| ==> QuotedOk(parts[i]);
    assert forall i :: 0 <= i < |parts| - 1 ==> BareOk(parts[i]);
  }

  lemma SharpLine(c: Command)
    requires RecordPrintable(c)
    ensures CommandIn(ParseCommand(Tokens(RecordLine(c, Compacted))), SharpShape())
  {
    var fields := PrintableFields(c);
    var words := Tokens(RecordLine(c, Compacted));
    PrintableLine(c);
    WordsOk(RecordLine(c, Compacted));
    AllButLastPlain(fields);
    SplitFirst(fields[0], Line(fields[1..]));
    assert fields[0] == Bare(Verb(c));
    SharpWords(c, words);
  }

  lemma ParsedFirst(line: Bytes, rest: Bytes)
    requires FileLines(line + "\n" + rest) == [StripReturn(line)] + FileLines(rest) && StripReturn(line) == line
    ensures ParseLog(line + "\n" + rest) == [ParseCommand(Tokens(line))] + ParseLog(rest)
  {
    assert ([line] + FileLines(rest))[1..] == FileLines(rest);
  }

  lemma {:induction false} SharpLog(cs: seq<Command>)
    requires AllLogged(cs) && forall c :: c in cs ==> RecordPrintable(c)
    ensures forall d :: d in ParseLog(PrintLog(cs, Compacted)) ==> CommandIn(d, SharpShape())
  {
    if cs != [] {
      var c, rest := cs[0], PrintLog(cs[1..], Compacted);
      var line := RecordLine(c, Compacted);
      assert c in cs;
      PrintableLine(c);
      SharpLine(c);
      SharpLog(cs[1..]);
      LineReads(line, rest);
      ParsedFirst(line, rest);
    }
  }

  // ---- The theorem ----

  /** The file brings the keyspace back, pruned as a compaction prunes. */
  ghost predicate Rebuilds(db: Store, text: Bytes, clock: Bytes -> nat, later: nat) {
    match ReplayAll(map[], ParseLog(text), later)
    case Some(r) => IsCompacted(db, clock, later, r)
    case None => false
  }

  lemma EmittedPrintable(k: Bytes, e: Entry, now: nat, later: nat, c: Command)
    requires Emits(k, e, now, c) && (Restored(e, now, later).Some? ==> QuotedOk(k))
    requires CellIn(Restored(e, now, later), PrintableShape())
    ensures RecordPrintable(c)
  {
    assert Restored(e, now, later).Some? && Restored(e, now, later).value.value == e.value;
  }

  lemma KeptClean(k: Bytes, e: Entry, now: nat, later: nat)
    requires (Restored(e, now, later).Some? ==> BareOk(k)) && CellIn(Restored(e, now, later), SharpShape())
    ensures EntryClean(k, e, now)
  {
    assert Restored(e, now, later).Some? ==> Restored(e, now, later).value.value == e.value;
  }

  lemma RebuiltIsClean(db: Store, l: Listing, clock: Bytes -> nat, later: nat)
    requires OnlyStringsExpire(db) && IsListing(db, l) && AllLogged(Snapshot(db, l, clock))
    requires Rebuilds(db, PrintLog(Snapshot(db, l, clock), Compacted), clock, later)
    ensures CleanState(db, clock)
  {
    var records := Snapshot(db, l, clock);
    var log := ParseLog(PrintLog(records, Compacted));
    var r := ReplayAll(map[], log, later).value;
    ReplayedIsPrintable(PrintLog(records, Compacted), later);
    forall c | c in records
      ensures RecordPrintable(c)
    {
      SnapshotEmits(db, l, clock, c);
      var k :| k in db && Emits(k, db[k], clock(k), c);
      assert Look(r, k) == Restored(db[k], clock(k), later);
      EmittedPrintable(k, db[k], clock(k), later, c);
    }
    SharpLog(records);
    PrintableNumbers();
    LogReplayedIn(map[], log, later, SharpShape());
    forall k | k in db
      ensures EntryClean(k, db[k], clock(k))
    {
      assert Look(r, k) == Restored(db[k], clock(k), later);
      KeptClean(k, db[k], clock(k), later);
    }
  }

  /**
    A compacted file rebuilds its keyspace exactly when every key and hash field it prints is free of blanks and
    quotes, every value free of quotes and line ends, all of them non-empty UTF-8.
   */
  lemma CompactionIsExact(db: Store, l: Listing, clock: Bytes -> nat, later: nat)
    requires OnlyStringsExpire(db) && IsListing(db, l) && forall k :: k in db ==> Fits(db[k], clock(k), later)
    ensures AllLogged(Snapshot(db, l, clock))
    ensures Rebuilds(db, PrintLog(Snapshot(db, l, clock), Compacted), clock, later) <==> CleanState(db, clock)
  {
    SnapshotLogged(db, l, clock);
    if CleanState(db, clock) {
      var r := CompactedTextReplays(db, l, clock, later);
    } else if Rebuilds(db, PrintLog(Snapshot(db, l, clock), Compacted), clock, later) {
      RebuiltIsClean(db, l, clock, later);
    }
  }
}
