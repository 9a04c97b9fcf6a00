/** The wire protocol: replies as the server encodes them, and `read_resp` as it decodes requests. */
module Resp {
  import opened Prelude
  import opened Decimal
  import opened Utf8
  import opened Tokenizer
  import opened Keyspace

  // ---- Encoding ----

  function EncodeBulk(data: Bytes): Bytes { "$" + PrintNat(|data|) + "\r\n" + data + "\r\n" }

  function ArrayHeader(n: nat): Bytes { "*" + PrintNat(n) + "\r\n" }

  function EncodeReply(r: Reply): Bytes {
    match r
    case Okay => "+OK\r\n"
    case Number(n) => ":" + PrintInt(n) + "\r\n"
    case Bulk(data) => EncodeBulk(data)
    case Nil => "$-1\r\n"
    case Error(message) => "-" + message + "\r\n"
    case Array(elements) => ArrayHeader(|elements|) + EncodeAll(elements)
    case _ => ""
  }

  function EncodeAll(rs: seq<Reply>): Bytes {
    if rs == [] then "" else EncodeReply(rs[0]) + EncodeAll(rs[1..])
  }

  lemma {:induction false} EncodeAllLast(rs: seq<Reply>, r: Reply)
    ensures EncodeAll(rs + [r]) == EncodeAll(rs) + EncodeReply(r)
  {
    if rs == [] {
      assert [r][1..] == [] && rs + [r] == [r];
    } else {
      var rest := rs[1..];
      EncodeAllLast(rest, r);
      assert (rs + [r])[1..] == rest + [r] && (rs + [r])[0] == rs[0];
      AppendAssociates(EncodeReply(rs[0]), EncodeAll(rest), EncodeReply(r));
    }
  }

  lemma EncodeNext(rs: seq<Reply>, i: nat)
    requires i < |rs|
    ensures EncodeAll(rs[..i + 1]) == EncodeAll(rs[..i]) + EncodeReply(rs[i])
  {
    EncodeAllLast(rs[..i], rs[i]);
    assert rs[..i + 1] == rs[..i] + [rs[i]];
  }

  class WriteBuffer {
    var bytes: Bytes

    constructor ()
      ensures bytes == ""
    {
      bytes := "";
    }

    method Bulk(data: Bytes)
      modifies this
      ensures bytes == old(bytes) + EncodeBulk(data)
    {
      bytes := bytes + ("$" + PrintNat(|data|) + "\r\n");
      bytes := bytes + data;
      bytes := bytes + "\r\n";
      assert bytes == old(bytes) + EncodeBulk(data);
    }

    /** A header with the count, then every element as a bulk string. */
    method Strings(items: seq<Bytes>)
      modifies this
      ensures bytes == old(bytes) + EncodeReply(BulkArray(items))
    {
      var elements := BulkArray(items).elements;
      bytes := bytes + ArrayHeader(|items|);
      assert elements[..0] == [];
      for i := 0 to |items|
        invariant bytes == old(bytes) + (ArrayHeader(|items|) + EncodeAll(elements[..i]))
      {
        EncodeNext(elements, i);
        Bulk(items[i]);
        AppendAssociates(ArrayHeader(|items|), EncodeAll(elements[..i]), EncodeBulk(items[i]));
        AppendAssociates(old(bytes), ArrayHeader(|items|) + EncodeAll(elements[..i]), EncodeBulk(items[i]));
      }
      assert elements[..|items|] == elements;
    }
  }

  // ---- Decoding ----

  predicate IsWideWhite(a: int, b: int, c: int) {
    || (a == 0xE1 && b == 0x9A && c == 0x80)
    || (a == 0xE2 && b == 0x80 && (0x80 <= c <= 0x8A || c == 0xA8 || c == 0xA9 || c == 0xAF))
    || (a == 0xE2 && b == 0x81 && c == 0x9F)
    || (a == 0xE3 && b == 0x80 && c == 0x80)
  }

  /** The UTF-8 encoding of one character that Unicode calls white space. */
  predicate IsWhite(s: Bytes) {
    || (|s| == 1 && (s[0] == ' ' || 9 <= s[0] as int <= 13))
    || (|s| == 2 && s[0] as int == 0xC2 && (s[1] as int == 0x85 || s[1] as int == 0xA0))
    || (|s| == 3 && IsWideWhite(s[0] as int, s[1] as int, s[2] as int))
  }

  function TrimStart(s: Bytes): Bytes {
    if |s| >= 1 && IsWhite(s[..1]) then TrimStart(s[1..])
    else if |s| >= 2 && IsWhite(s[..2]) then TrimStart(s[2..])
    else if |s| >= 3 && IsWhite(s[..3]) then TrimStart(s[3..])
    else s
  }

  function TrimEnd(s: Bytes): Bytes {
    if |s| >= 1 && IsWhite(s[|s| - 1..]) then TrimEnd(s[..|s| - 1])
    else if |s| >= 2 && IsWhite(s[|s| - 2..]) then TrimEnd(s[..|s| - 2])
    else if |s| >= 3 && IsWhite(s[|s| - 3..]) then TrimEnd(s[..|s| - 3])
    else s
  }

  function WithoutLeading(s: Bytes, c: char): Bytes {
    if s != "" && s[0] == c then WithoutLeading(s[1..], c) else s
  }

  /** The number in a header line: prefix characters and white space removed. */
  function HeaderNumber(line: Bytes, prefix: char): Option<nat> {
    ParseUnsigned(TrimEnd(TrimStart(WithoutLeading(line, prefix))), USIZE_MAX)
  }

  /** Length of the first line, its LF included. */
  function LineLength(input: Bytes): (n: nat)
    ensures n <= |input|
    ensures input != "" ==> n > 0
  {
    if input == "" then 0 else if input[0] == '\n' then 1 else 1 + LineLength(input[1..])
  }

  /** How many bytes one allocation can get: never more than `isize::MAX`, often less. */
  type Memory = m: nat | m <= I64_MAX

  /** `size_of::<Bytes>()`. */
  const BYTES_SIZE: nat := 32

  /** Dies: an allocation that cannot be had, or an index out of bounds. */
  datatype Read = Args(args: seq<Bytes>, rest: Bytes) | Failed | Dies

  predicate StartsWith(line: Bytes, c: char) { line != "" && line[0] == c }

  /** One pass of the argument loop: an argument, a line that is no bulk header, an error, or none of these. */
  datatype Pass = Got(arg: Bytes, rest: Bytes) | Skipped(rest: Bytes) | Bad | Fatal

  /** The size of the buffer, `len + 2` with the wrap-around of a release build. */
  function BufferSize(len: nat): nat { (len + 2) % (USIZE_MAX + 1) }

  function ReadBuffer(len: nat, rest: Bytes, memory: Memory): Pass {
    var size := BufferSize(len);
    if size > memory then Fatal
    else if size > |rest| then Bad
    else if len > size then Fatal
    else Got(rest[..len], rest[size..])
  }

  function ReadBulk(input: Bytes, memory: Memory): Pass {
    var n := LineLength(input);
    var line, rest := input[..n], input[n..];
    if !IsUtf8(line) then Bad
    else if !StartsWith(line, '$') then Skipped(rest)
    else
      match HeaderNumber(line, '$')
      case None => Bad
      case Some(len) => ReadBuffer(len, rest, memory)
  }

  function Prepend(args: seq<Bytes>, r: Read): Read {
    match r
    case Args(more, left) => Args(args + more, left)
    case _ => r
  }

  /** `count` passes; a skipped line is counted like an argument. */
  function ReadArgs(count: nat, input: Bytes, memory: Memory): Read
    decreases count
  {
    if count == 0 then Args([], input)
    else
      match ReadBulk(input, memory)
      case Bad => Failed
      case Fatal => Dies
      case Skipped(rest) => ReadArgs(count - 1, rest, memory)
      case Got(arg, rest) => Prepend([arg], ReadArgs(count - 1, rest, memory))
  }

  lemma PrependTwice(args: seq<Bytes>, arg: Bytes, r: Read)
    ensures Prepend(args, Prepend([arg], r)) == Prepend(args + [arg], r)
  {
    if r.Args? { assert args + ([arg] + r.args) == (args + [arg]) + r.args; }
  }

  function ReadRequest(input: Bytes, memory: Memory): Read {
    var n := LineLength(input);
    var line, rest := input[..n], input[n..];
    if !IsUtf8(line) then Failed
    else if !StartsWith(line, '*') then Args(Tokens(line), rest)
    else
      match HeaderNumber(line, '*')
      case None => Failed
      case Some(count) => if count * BYTES_SIZE > memory then Dies else ReadArgs(count, rest, memory)
  }

  /** The socket: the bytes that have not been read yet. */
  class Reader {
    var unread: Bytes

    constructor (input: Bytes)
      ensures unread == input
    {
      unread := input;
    }

    method ReadLine() returns (line: Bytes)
      modifies this
      ensures var n := LineLength(old(unread)); line == old(unread)[..n] && unread == old(unread)[n..]
    {
      var n := LineLength(unread);
      line, unread := unread[..n], unread[n..];
    }

    method ReadExact(n: nat) returns (ok: bool, buf: Bytes)
      modifies this
      ensures ok == (n <= |old(unread)|)
      ensures ok ==> buf == old(unread)[..n] && unread == old(unread)[n..]
    {
      ok := n <= |unread|;
      buf := "";
      if ok { buf, unread := unread[..n], unread[n..]; }
    }
  }

  method ReadArgument(reader: Reader, memory: Memory) returns (pass: Pass)
    modifies reader
    ensures pass == ReadBulk(old(reader.unread), memory)
    ensures pass.Got? || pass.Skipped? ==> reader.unread == pass.rest
  {
    var lenLine := reader.ReadLine();
    if !IsUtf8(lenLine) { return Bad; }
    if !StartsWith(lenLine, '$') { return Skipped(reader.unread); }
    var len := HeaderNumber(lenLine, '$');
    if len.None? { return Bad; }
    var size := BufferSize(len.value);
    if size > memory { return Fatal; }
    var filled, buf := reader.ReadExact(size);
    if !filled { return Bad; }
    if len.value > size { return Fatal; }
    pass := Got(buf[..len.value], reader.unread);
  }

  /** The argument loop. */
  method ReadArguments(reader: Reader, count: nat, memory: Memory) returns (r: Read)
    modifies reader
    ensures r == ReadArgs(count, old(reader.unread), memory)
    ensures r.Args? ==> reader.unread == r.rest
  {
    var args: seq<Bytes> := [];
    ghost var body := reader.unread;
    for i := 0 to count
      invariant ReadArgs(count, body, memory) == Prepend(args, ReadArgs(count - i, reader.unread, memory))
    {
      var pass := ReadArgument(reader, memory);
      match pass {
        case Bad => return Failed;
        case Fatal => return Dies;
        case Skipped(_) =>
        case Got(arg, rest) =>
          PrependTwice(args, arg, ReadArgs(count - i - 1, rest, memory));
          args := args + [arg];
      }
    }
    r := Args(args, reader.unread);
  }

  method ReadResp(reader: Reader, memory: Memory) returns (r: Read)
    modifies reader
    ensures r == ReadRequest(old(reader.unread), memory)
    ensures r.Args? ==> reader.unread == r.rest
  {
    var line := reader.ReadLine();
    if !IsUtf8(line) { return Failed; }
    if !StartsWith(line, '*') {
      var words := Tokenize(line);
      return Args(words, reader.unread);
    }
    var count := HeaderNumber(line, '*');
    if count.None? { return Failed; }
    if count.value * BYTES_SIZE > memory { return Dies; }
    r := ReadArguments(reader, count.value, memory);
  }

  // ---- Round trip ----

  lemma DigitFirst(t: Bytes)
    requires t != "" && '0' <= t[0] <= '9'
    ensures !IsWhite(t)
  {
  }

  lemma NoTrimStart(s: Bytes)
    requires s != "" && '0' <= s[0] <= '9'
    ensures TrimStart(s) == s
  {
    DigitFirst(s[..1]);
    if |s| >= 2 { DigitFirst(s[..2]); }
    if |s| >= 3 { DigitFirst(s[..3]); }
  }

  lemma NoTrimEnd(s: Bytes)
    requires s != "" && AllDigits(s)
    ensures TrimEnd(s) == s
  {
    DigitFirst(s[|s| - 1..]);
    if |s| >= 2 { DigitFirst(s[|s| - 2..]); }
    if |s| >= 3 { DigitFirst(s[|s| - 3..]); }
  }

  lemma TrimEndLast(s: Bytes, c: char)
    requires c == '\r' || c == '\n'
    ensures TrimEnd(s + [c]) == TrimEnd(s)
  {
    var line := s + [c];
    assert line[|line| - 1..] == [c] && line[..|line| - 1] == s;
  }

  lemma DigitsAreWords(s: Bytes)
    requires s != "" && AllDigits(s)
    ensures TrimEnd(TrimStart(s + "\r\n")) == s
    ensures IsUtf8(s + "\r\n")
  {
    AsciiIsUtf8(s + "\r\n");
    NoTrimStart(s + "\r\n");
    assert s + "\r\n" == (s + ['\r']) + ['\n'];
    TrimEndLast(s + ['\r'], '\n');
    TrimEndLast(s, '\r');
    NoTrimEnd(s);
  }

  lemma {:induction false} LineLengthOf(line: Bytes, more: Bytes)
    requires '\n' !in line
    ensures LineLength(line + "\n" + more) == |line| + 1
  {
    var text := line + "\n" + more;
    if line != "" {
      assert text[1..] == line[1..] + "\n" + more;
      LineLengthOf(line[1..], more);
    }
  }

  lemma HeaderReads(prefix: char, n: nat, more: Bytes)
    requires prefix == '*' || prefix == '$'
    ensures var line := [prefix] + PrintNat(n) + "\r\n";
            && LineLength(line + more) == |line| && IsUtf8(line) && StartsWith(line, prefix)
            && HeaderNumber(line, prefix) == if n <= USIZE_MAX then Some(n) else None
  {
    var digits := PrintNat(n);
    var line := [prefix] + digits + "\r\n";
    assert line + more == ([prefix] + digits + "\r") + "\n" + more;
    LineLengthOf([prefix] + digits + "\r", more);
    AsciiIsUtf8(line);
    assert line[1..] == digits + "\r\n";
    assert WithoutLeading(line, prefix) == digits + "\r\n";
    DigitsAreWords(digits);
    UnsignedRoundTrip(n, USIZE_MAX);
  }

  /** The request can be held in memory. */
  predicate FitsMemory(data: Bytes, memory: Memory) { |data| + 2 <= memory }

  ghost predicate AllFit(items: seq<Bytes>, memory: Memory) {
    |items| * BYTES_SIZE <= memory && forall x :: x in items ==> FitsMemory(x, memory)
  }

  lemma BufferRoundTrip(data: Bytes, more: Bytes, memory: Memory)
    requires |data| <= USIZE_MAX
    ensures var p := ReadBuffer(|data|, data + "\r\n" + more, memory);
            if FitsMemory(data, memory) then p == Got(data, more) else p == Fatal
  {
    var body := data + "\r\n" + more;
    assert |body| >= |data| + 2 && body[..|data|] == data && body[|data| + 2..] == more;
  }

  /** A bulk string is read back exactly when it fits. */
  lemma BulkRoundTrip(data: Bytes, more: Bytes, memory: Memory)
    ensures var p := ReadBulk(EncodeBulk(data) + more, memory);
            if FitsMemory(data, memory) then p == Got(data, more) else p == Bad || p == Fatal
  {
    var header := ['$'] + PrintNat(|data|) + "\r\n";
    var body := data + "\r\n" + more;
    var input := EncodeBulk(data) + more;
    assert input == header + body;
    HeaderReads('$', |data|, body);
    assert input[..|header|] == header && input[|header|..] == body;
    if |data| <= USIZE_MAX { BufferRoundTrip(data, more, memory); }
  }

  lemma {:induction false} ArgsRoundTrip(items: seq<Bytes>, more: Bytes, memory: Memory)
    ensures var r := ReadArgs(|items|, EncodeAll(BulkArray(items).elements) + more, memory);
            if forall x :: x in items ==> FitsMemory(x, memory) then r == Args(items, more) else !r.Args?
  {
    var elements := BulkArray(items).elements;
    if items == [] {
      assert EncodeAll(elements) + more == more;
    } else {
      var data, rest := items[0], items[1..];
      assert items == [data] + rest && elements[1..] == BulkArray(rest).elements;
      var tail := EncodeAll(elements[1..]) + more;
      AppendAssociates(EncodeBulk(data), EncodeAll(elements[1..]), more);
      BulkRoundTrip(data, tail, memory);
      ArgsRoundTrip(rest, more, memory);
    }
  }

  /** The array the server encodes is read back as its strings, whatever bytes they hold, exactly when they fit. */
  lemma RespRoundTrip(items: seq<Bytes>, more: Bytes, memory: Memory)
    ensures var r := ReadRequest(EncodeReply(BulkArray(items)) + more, memory);
            if AllFit(items, memory) then r == Args(items, more) else !r.Args?
  {
    var header := ArrayHeader(|items|);
    var body := EncodeAll(BulkArray(items).elements);
    var input := EncodeReply(BulkArray(items)) + more;
    AppendAssociates(header, body, more);
    HeaderReads('*', |items|, body + more);
    assert input[..|header|] == header && input[|header|..] == body + more;
    ArgsRoundTrip(items, more, memory);
  }

  function EncodeFrames(frames: seq<seq<Bytes>>): Bytes {
    if frames == [] then "" else EncodeReply(BulkArray(frames[0])) + EncodeFrames(frames[1..])
  }

  datatype Frames = Frames(frames: seq<seq<Bytes>>, rest: Bytes) | Broken

  function ReadFrames(n: nat, input: Bytes, memory: Memory): Frames {
    if n == 0 then Frames([], input)
    else
      match ReadRequest(input, memory)
      case Args(args, rest) =>
        (match ReadFrames(n - 1, rest, memory)
         case Broken => Broken
         case Frames(frames, left) => Frames([args] + frames, left))
      case _ => Broken
  }

  /** Pipelined requests are decoded one after the other exactly when they all fit. */
  lemma {:induction false} PipelineRoundTrip(frames: seq<seq<Bytes>>, more: Bytes, memory: Memory)
    ensures ReadFrames(|frames|, EncodeFrames(frames) + more, memory) ==
            if forall f :: f in frames ==> AllFit(f, memory) then Frames(frames, more) else Broken
  {
    if frames == [] {
      assert EncodeFrames(frames) + more == more;
    } else {
      var tail := EncodeFrames(frames[1..]) + more;
      AppendAssociates(EncodeReply(BulkArray(frames[0])), EncodeFrames(frames[1..]), more);
      RespRoundTrip(frames[0], tail, memory);
      assert frames == [frames[0]] + frames[1..];
      PipelineRoundTrip(frames[1..], more, memory);
    }
  }
}
