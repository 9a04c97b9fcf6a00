/** The replies as a client reads them: a reader of the reply format, and the server's encoding against it. */
module Replies {
  import opened Prelude
  import opened Decimal
  import opened Keyspace
  import opened Resp

  datatype Heard = Heard(reply: Reply, rest: Bytes) | Garbled

  datatype HeardAll = HeardAll(replies: seq<Reply>, rest: Bytes) | GarbledAll

  /** The text of a line, without its CRLF, and what follows. */
  function SplitLine(input: Bytes): Option<(Bytes, Bytes)> {
    var n := LineLength(input);
    if n >= 2 && input[n - 2..n] == "\r\n" then Some((input[..n - 2], input[n..])) else None
  }

  function HearBulk(len: int, rest: Bytes): Heard {
    if len == -1 then Heard(Nil, rest)
    else if 0 <= len && len + 2 <= |rest| && rest[len..len + 2] == "\r\n" then Heard(Bulk(rest[..len]), rest[len + 2..])
    else Garbled
  }

  /** A status, an error, a number, a bulk string or an array. */
  function Hear(input: Bytes): (h: Heard)
    ensures h.Heard? ==> |h.rest| < |input|
    decreases |input|, 0, 0
  {
    if input == "" then Garbled
    else
      match SplitLine(input[1..])
      case None => Garbled
      case Some((text, rest)) =>
        if input[0] == '+' then (if text == "OK" then Heard(Okay, rest) else Garbled)
        else if input[0] == '-' then Heard(Error(text), rest)
        else
          match ParseSigned(text, I64_MIN, I64_MAX)
          case None => Garbled
          case Some(n) => HearNumbered(input[0], n, rest)
  }

  /** What the number of a line means. */
  function HearNumbered(kind: char, n: int, rest: Bytes): (h: Heard)
    ensures h.Heard? ==> |h.rest| <= |rest|
    decreases |rest|, 2, 0
  {
    if kind == ':' then Heard(Number(n), rest)
    else if kind == '$' then HearBulk(n, rest)
    else if kind == '*' && n >= 0 then
      match HearAll(n, rest)
      case GarbledAll => Garbled
      case HeardAll(replies, left) => Heard(Array(replies), left)
    else Garbled
  }

  function HearAll(n: nat, input: Bytes): (h: HeardAll)
    ensures h.HeardAll? ==> |h.rest| <= |input|
    decreases |input|, 1, n
  {
    if n == 0 then HeardAll([], input)
    else
      match Hear(input)
      case Garbled => GarbledAll
      case Heard(first, rest) =>
        match HearAll(n - 1, rest)
        case GarbledAll => GarbledAll
        case HeardAll(others, left) => HeardAll([first] + others, left)
  }

  /** A reply the server can write: numbers of 64 bits, error messages of one line. */
  predicate Sayable(r: Reply) {
    match r
    case Okay => true
    case Nil => true
    case Number(n) => I64_MIN <= n <= I64_MAX
    case Bulk(data) => |data| <= I64_MAX
    case Error(message) => '\n' !in message
    case Array(elements) => |elements| <= I64_MAX && forall i :: 0 <= i < |elements| ==> Sayable(elements[i])
    case _ => false
  }

  lemma LineIsSplit(text: Bytes, rest: Bytes)
    requires '\n' !in text
    ensures SplitLine(text + "\r\n" + rest) == Some((text, rest))
  {
    var input := text + "\r\n" + rest;
    assert input == (text + "\r") + "\n" + rest;
    LineLengthOf(text + "\r", rest);
    var n := LineLength(input);
    assert n == |text| + 2 && input[n - 2..n] == "\r\n";
    assert input[..n - 2] == text && input[n..] == rest;
  }

  lemma NumeralLine(kind: char, n: int, rest: Bytes)
    requires I64_MIN <= n <= I64_MAX
    ensures var input := [kind] + PrintInt(n) + "\r\n" + rest;
            && input != "" && input[0] == kind && SplitLine(input[1..]) == Some((PrintInt(n), rest))
            && (kind != '+' && kind != '-' ==> Hear(input) == HearNumbered(kind, n, rest))
  {
    SignedRoundTrip(n, I64_MIN, I64_MAX);
    LineIsSplit(PrintInt(n), rest);
    var input := [kind] + PrintInt(n) + "\r\n" + rest;
    assert input[1..] == PrintInt(n) + "\r\n" + rest;
  }

  lemma BulkIsHeard(data: Bytes, more: Bytes)
    requires |data| <= I64_MAX
    ensures Hear(EncodeBulk(data) + more) == Heard(Bulk(data), more)
  {
    var body := data + "\r\n" + more;
    assert EncodeBulk(data) + more == ['$'] + PrintInt(|data|) + "\r\n" + body;
    NumeralLine('$', |data|, body);
    assert body[..|data|] == data && body[|data|..|data| + 2] == "\r\n" && body[|data| + 2..] == more;
  }

  lemma SimpleIsHeard(r: Reply, more: Bytes)
    requires Sayable(r) && (r.Okay? || r.Nil? || r.Number? || r.Error?)
    ensures Hear(EncodeReply(r) + more) == Heard(r, more)
  {
    var input := EncodeReply(r) + more;
    match r {
      case Okay =>
        assert input[1..] == "OK" + "\r\n" + more;
        LineIsSplit("OK", more);
      case Nil =>
        assert PrintInt(-1) == "-1";
        assert input == ['$'] + PrintInt(-1) + "\r\n" + more;
        NumeralLine('$', -1, more);
      case Number(n) =>
        assert input == [':'] + PrintInt(n) + "\r\n" + more;
        NumeralLine(':', n, more);
      case Error(message) =>
        assert input[1..] == message + "\r\n" + more;
        LineIsSplit(message, more);
    }
  }

  lemma ArrayIsHeard(n: nat, elements: seq<Reply>, body: Bytes, more: Bytes)
    requires 0 <= n <= I64_MAX && HearAll(n, body) == HeardAll(elements, more)
    ensures Hear(['*'] + PrintInt(n) + "\r\n" + body) == Heard(Array(elements), more)
  {
    NumeralLine('*', n, body);
  }

  lemma OneMoreIsHeard(r: Reply, rs: seq<Reply>, input: Bytes, tail: Bytes, more: Bytes)
    requires Hear(input) == Heard(r, tail) && HearAll(|rs|, tail) == HeardAll(rs, more)
    ensures HearAll(|rs| + 1, input) == HeardAll([r] + rs, more)
  {
  }

  /** Whatever the server replies, the client hears that reply and nothing of what follows it. */
  lemma {:induction false} RepliesAreHeard(r: Reply, more: Bytes)
    requires Sayable(r)
    ensures Hear(EncodeReply(r) + more) == Heard(r, more)
    decreases r, 1
  {
    match r {
      case Bulk(data) => BulkIsHeard(data, more);
      case Array(elements) =>
        var body := EncodeAll(elements) + more;
        assert EncodeReply(r) + more == ['*'] + PrintInt(|elements|) + "\r\n" + body;
        AllAreHeard(elements, more);
        ArrayIsHeard(|elements|, elements, body, more);
      case _ => SimpleIsHeard(r, more);
    }
  }

  lemma {:induction false} AllAreHeard(rs: seq<Reply>, more: Bytes)
    requires forall i :: 0 <= i < |rs| ==> Sayable(rs[i])
    ensures HearAll(|rs|, EncodeAll(rs) + more) == HeardAll(rs, more)
    decreases rs, 0
  {
    if rs == [] {
      assert EncodeAll(rs) + more == more;
    } else {
      var tail := EncodeAll(rs[1..]) + more;
      AppendAssociates(EncodeReply(rs[0]), EncodeAll(rs[1..]), more);
      RepliesAreHeard(rs[0], tail);
      AllAreHeard(rs[1..], more);
      OneMoreIsHeard(rs[0], rs[1..], EncodeAll(rs) + more, tail, more);
      assert rs == [rs[0]] + rs[1..];
    }
  }
}
