/** Commands and their dispatch from a list of arguments, as in protocol.rs. */
module Protocol {
  import opened Prelude
  import opened Decimal

  datatype Command =
    | Auth(password: Bytes) | Ping
    | Set(key: Bytes, value: Bytes) | Get(key: Bytes) | Del(key: Bytes) | Exists(key: Bytes) | Incr(key: Bytes)
    | SetEx(key: Bytes, seconds: int, value: Bytes)
    | Publish(channel: Bytes, message: Bytes) | Subscribe(channel: Bytes) | Unsubscribe(channel: Bytes)
    | LPush(key: Bytes, value: Bytes) | LPop(key: Bytes) | RPop(key: Bytes) | RPush(key: Bytes, value: Bytes)
    | RPopLPush(source: Bytes, destination: Bytes)
    | LRem(key: Bytes, count: int, value: Bytes)
    | LTrim(key: Bytes, start: int, stop: int) | LRange(key: Bytes, start: int, stop: int)
    | HSet(key: Bytes, field: Bytes, value: Bytes) | HGetAll(key: Bytes) | HGet(key: Bytes, field: Bytes)
    | MGet(keyA: Bytes, keyB: Bytes)
    | SAdd(key: Bytes, value: Bytes) | SInter(keyA: Bytes, keyB: Bytes)
    | Keys(pattern: Bytes) | Scan(cursor: nat, matching: Option<Bytes>)
    | Monitor | Info | Type(key: Bytes) | Ttl(key: Bytes) | Pttl(key: Bytes) | Memory
    | Llen(key: Bytes) | Hlen(key: Bytes) | Scard(key: Bytes) | SMembers(key: Bytes)
    | ClientList | Client | Strlen(key: Bytes) | DbSize
    | Unknown

  function UpperChar(c: char): char {
    if 'a' <= c <= 'z' then (c as int - 32) as char else c
  }

  function Upper(s: Bytes): (u: Bytes)
    ensures |u| == |s|
  {
    seq(|s|, i requires 0 <= i < |s| => UpperChar(s[i]))
  }

  function ParseI64(s: Bytes): Option<int> { ParseSigned(s, I64_MIN, I64_MAX) }

  function ParseI32(s: Bytes): Option<int> { ParseSigned(s, I32_MIN, I32_MAX) }

  /** The verbs whose commands can reach the append-only file. */
  predicate IsWriteVerb(verb: Bytes) {
    verb == "SET" || verb == "DEL" || verb == "INCR" || verb == "SETEX" || verb == "LPUSH" || verb == "LPOP" ||
    verb == "RPOP" || verb == "RPUSH" || verb == "RPOPLPUSH" || verb == "LREM" || verb == "LTRIM" ||
    verb == "HSET" || verb == "SADD"
  }

  function DispatchWrite(verb: Bytes, parts: seq<Bytes>): Command
    requires parts != []
  {
    var n := |parts|;
    if verb == "SET" && n == 3 then Set(parts[1], parts[2])
    else if verb == "DEL" && n == 2 then Del(parts[1])
    else if verb == "INCR" && n == 2 then Incr(parts[1])
    else if verb == "SETEX" && n == 4 then
      match ParseI64(parts[2])
      case Some(seconds) => SetEx(parts[1], seconds, parts[3])
      case None => Unknown
    else if verb == "LPUSH" && n == 3 then LPush(parts[1], parts[2])
    else if verb == "LPOP" && n == 2 then LPop(parts[1])
    else if verb == "RPOP" && n == 2 then RPop(parts[1])
    else if verb == "RPUSH" && n == 3 then RPush(parts[1], parts[2])
    else if verb == "RPOPLPUSH" && n == 3 then RPopLPush(parts[1], parts[2])
    else if verb == "LREM" && n == 4 then
      LRem(parts[1], match ParseI64(parts[2]) case Some(c) => c case None => 1, parts[3])
    else if verb == "LTRIM" && n == 4 then
      match (ParseI32(parts[2]), ParseI32(parts[3]))
      case (Some(start), Some(stop)) => LTrim(parts[1], start, stop)
      case _ => Unknown
    else if verb == "HSET" && n == 4 then HSet(parts[1], parts[2], parts[3])
    else if verb == "SADD" && n == 3 then SAdd(parts[1], parts[2])
    else Unknown
  }

  predicate Logged(c: Command) {
    c.Set? || c.SetEx? || c.Del? || c.Incr? || c.LPush? || c.RPush? || c.LPop? || c.RPop? || c.LTrim? ||
    c.HSet? || c.SAdd? || c.RPopLPush? || (c.LRem? && c.count == 1)
  }

  function DispatchServer(verb: Bytes, parts: seq<Bytes>): (c: Command)
    requires parts != []
    ensures !Logged(c)
  {
    var n := |parts|;
    if verb == "MONITOR" && n == 1 then Monitor
    else if verb == "INFO" then Info
    else if verb == "TYPE" && n == 2 then Type(parts[1])
    else if verb == "TTL" && n == 2 then Ttl(parts[1])
    else if verb == "PTTL" && n == 2 then Pttl(parts[1])
    else if verb == "MEMORY" && n >= 2 then (if Upper(parts[1]) == "USAGE" then Memory else Unknown)
    else if verb == "LLEN" && n == 2 then Llen(parts[1])
    else if verb == "HLEN" && n == 2 then Hlen(parts[1])
    else if verb == "SCARD" && n == 2 then Scard(parts[1])
    else if verb == "SMEMBERS" && n == 2 then SMembers(parts[1])
    else if verb == "CLIENT" && n >= 2 then (if Upper(parts[1]) == "LIST" then ClientList else Client)
    else if verb == "STRLEN" && n == 2 then Strlen(parts[1])
    else if verb == "DBSIZE" then DbSize
    else if verb == "CLIENT" then Client
    else Unknown
  }

  function DispatchRead(verb: Bytes, parts: seq<Bytes>): (c: Command)
    requires parts != []
    ensures !Logged(c)
  {
    var n := |parts|;
    if verb == "AUTH" && n == 2 then Auth(parts[1])
    else if verb == "PING" then Ping
    else if verb == "GET" && n == 2 then Get(parts[1])
    else if verb == "EXISTS" && n == 2 then Exists(parts[1])
    else if verb == "PUBLISH" && n == 3 then Publish(parts[1], parts[2])
    else if verb == "SUBSCRIBE" && n == 2 then Subscribe(parts[1])
    else if verb == "UNSUBSCRIBE" && n == 2 then Unsubscribe(parts[1])
    else if verb == "LRANGE" && n == 4 then
      match (ParseI32(parts[2]), ParseI32(parts[3]))
      case (Some(start), Some(stop)) => LRange(parts[1], start, stop)
      case _ => Unknown
    else if verb == "HGETALL" && n == 2 then HGetAll(parts[1])
    else if verb == "HGET" && n == 3 then HGet(parts[1], parts[2])
    else if verb == "MGET" && n == 3 then MGet(parts[1], parts[2])
    else if verb == "SINTER" && n == 3 then SInter(parts[1], parts[2])
    else if verb == "KEYS" && n == 2 then Keys(parts[1])
    else if verb == "SCAN" && n >= 2 then
      var cursor := match ParseUnsigned(parts[1], USIZE_MAX) case Some(c) => c case None => 0;
      Scan(cursor, if n == 4 && Upper(parts[2]) == "MATCH" then Some(parts[3]) else None)
    else DispatchServer(verb, parts)
  }

  function ParseCommand(parts: seq<Bytes>): Command {
    if parts == [] then Unknown
    else
      var verb := Upper(parts[0]);
      if IsWriteVerb(verb) then DispatchWrite(verb, parts) else DispatchRead(verb, parts)
  }

  // ---- The commands that are written to the append-only file ----

  function Verb(c: Command): Bytes
    requires Logged(c)
  {
    match c
    case Set(_, _) => "SET"
    case SetEx(_, _, _) => "SETEX"
    case Del(_) => "DEL"
    case Incr(_) => "INCR"
    case LPush(_, _) => "LPUSH"
    case RPush(_, _) => "RPUSH"
    case LPop(_) => "LPOP"
    case RPop(_) => "RPOP"
    case LTrim(_, _, _) => "LTRIM"
    case HSet(_, _, _) => "HSET"
    case SAdd(_, _) => "SADD"
    case RPopLPush(_, _) => "RPOPLPUSH"
    case LRem(_, _, _) => "LREM"
  }

  /** The arguments a record of this command carries, numbers printed in decimal. */
  function Arguments(c: Command): seq<Bytes>
    requires Logged(c)
  {
    match c
    case Set(k, v) => [k, v]
    case SetEx(k, s, v) => [k, PrintInt(s), v]
    case LTrim(k, start, stop) => [k, PrintInt(start), PrintInt(stop)]
    case HSet(k, f, v) => [k, f, v]
    case LPush(k, v) => [k, v]
    case RPush(k, v) => [k, v]
    case SAdd(k, v) => [k, v]
    case RPopLPush(s, d) => [s, d]
    case LRem(k, _, v) => [k, "1", v]
    case Del(k) => [k]
    case Incr(k) => [k]
    case LPop(k) => [k]
    case RPop(k) => [k]
  }

  /** Argument `i` of the record is a number. */
  predicate Numeral(c: Command, i: int) {
    ((c.SetEx? || c.LRem?) && i == 1) || (c.LTrim? && (i == 1 || i == 2))
  }

  /** The numbers of a command fit the types its parser reads them with. */
  predicate InRange(c: Command) {
    && (c.SetEx? ==> I64_MIN <= c.seconds <= I64_MAX)
    && (c.LTrim? || c.LRange? ==> I32_MIN <= c.start <= I32_MAX && I32_MIN <= c.stop <= I32_MAX)
  }

  lemma ParsedInRange(parts: seq<Bytes>)
    ensures InRange(ParseCommand(parts))
  {
  }

  lemma WriteVerbs(c: Command)
    requires Logged(c)
    ensures IsWriteVerb(Verb(c)) && Upper(Verb(c)) == Verb(c)
  {
  }

  lemma DispatchSetEx(c: Command, parts: seq<Bytes>)
    requires c.SetEx? && InRange(c) && |parts| == 4
    requires parts[1] == c.key && parts[2] == PrintInt(c.seconds) && parts[3] == c.value
    ensures DispatchWrite("SETEX", parts) == c
  {
    SignedRoundTrip(c.seconds, I64_MIN, I64_MAX);
  }

  lemma DispatchLTrim(c: Command, parts: seq<Bytes>)
    requires c.LTrim? && InRange(c) && |parts| == 4
    requires parts[1] == c.key && parts[2] == PrintInt(c.start) && parts[3] == PrintInt(c.stop)
    ensures DispatchWrite("LTRIM", parts) == c
  {
    SignedRoundTrip(c.start, I32_MIN, I32_MAX);
    SignedRoundTrip(c.stop, I32_MIN, I32_MAX);
  }

  lemma DispatchLRem(c: Command, parts: seq<Bytes>)
    requires c.LRem? && c.count == 1 && |parts| == 4
    requires parts[1] == c.key && parts[2] == "1" && parts[3] == c.value
    ensures DispatchWrite("LREM", parts) == c
  {
    SignedRoundTrip(1, I64_MIN, I64_MAX);
    assert PrintInt(1) == "1";
  }

  lemma DispatchTexts(c: Command, parts: seq<Bytes>)
    requires Logged(c) && !c.SetEx? && !c.LTrim? && !c.LRem? && |parts| == 1 + |Arguments(c)|
    requires forall i :: 0 <= i < |Arguments(c)| ==> parts[i + 1] == Arguments(c)[i]
    ensures DispatchWrite(Verb(c), parts) == c
  {
    assert parts[1] == Arguments(c)[0];
    assert |parts| > 2 ==> parts[2] == Arguments(c)[1];
    assert |parts| > 3 ==> parts[3] == Arguments(c)[2];
  }

  /** The words of a record are dispatched back to the command. */
  lemma ParseWords(c: Command)
    requires Logged(c) && InRange(c)
    ensures ParseCommand([Verb(c)] + Arguments(c)) == c
  {
    WriteVerbs(c);
    var parts := [Verb(c)] + Arguments(c);
    if c.SetEx? {
      DispatchSetEx(c, parts);
    } else if c.LTrim? {
      DispatchLTrim(c, parts);
    } else if c.LRem? {
      DispatchLRem(c, parts);
    } else {
      DispatchTexts(c, parts);
    }
  }

  lemma DispatchInverse(verb: Bytes, parts: seq<Bytes>, c: Command)
    requires parts != [] && Logged(c) && DispatchWrite(verb, parts) == c
    ensures verb == Verb(c)
    ensures |parts| == 1 + |Arguments(c)|
    ensures parts[1] == if c.RPopLPush? then c.source else c.key
    ensures c.Set? || c.LPush? || c.RPush? || c.SAdd? ==> parts[2] == c.value
    ensures c.RPopLPush? ==> parts[2] == c.destination
    ensures c.HSet? ==> parts[2] == c.field
    ensures c.SetEx? || c.HSet? || c.LRem? ==> parts[3] == c.value
    ensures c.SetEx? ==> ParseI64(parts[2]) == Some(c.seconds)
    ensures c.LTrim? ==> ParseI32(parts[2]) == Some(c.start) && ParseI32(parts[3]) == Some(c.stop)
  {
  }

  lemma ArgumentSources(parts: seq<Bytes>, c: Command, i: nat)
    requires parts != [] && Logged(c) && DispatchWrite(Upper(parts[0]), parts) == c && i < |Arguments(c)|
    requires forall p :: p in parts ==> p != ""
    ensures |parts| == 1 + |Arguments(c)|
    ensures if Numeral(c, i) then |Arguments(c)[i]| <= |parts[i + 1]| else parts[i + 1] == Arguments(c)[i]
  {
    DispatchInverse(Upper(parts[0]), parts, c);
    if Numeral(c, i) {
      assert parts[i + 1] in parts;
      if c.SetEx? {
        PrintedIsShortest(parts[2], I64_MIN, I64_MAX);
      } else if c.LTrim? {
        PrintedIsShortest(parts[i + 1], I32_MIN, I32_MAX);
      }
    }
  }

  /** Whatever words a logged command was parsed from, they are at least as long as its own. */
  lemma ParsedFrom(parts: seq<Bytes>, c: Command)
    requires Logged(c) && ParseCommand(parts) == c && forall p :: p in parts ==> p != ""
    ensures |parts| == 1 + |Arguments(c)| && |parts[0]| == |Verb(c)|
    ensures forall i :: 0 <= i < |Arguments(c)| ==>
              if Numeral(c, i) then |Arguments(c)[i]| <= |parts[i + 1]| else parts[i + 1] == Arguments(c)[i]
  {
    DispatchInverse(Upper(parts[0]), parts, c);
    forall i | 0 <= i < |Arguments(c)|
      ensures if Numeral(c, i) then |Arguments(c)[i]| <= |parts[i + 1]| else parts[i + 1] == Arguments(c)[i]
    {
      ArgumentSources(parts, c, i);
    }
  }
}
