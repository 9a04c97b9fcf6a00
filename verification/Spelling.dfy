/** Which words spell which command: parse_command against a table of verbs and arguments. */
module Spelling {
  import opened Prelude
  import opened Decimal
  import opened Protocol

  // ---- Verbs in any case ----

  predicate IsCapital(c: char) { 'A' <= c <= 'Z' }

  predicate AllCapitals(verb: Bytes) { forall i :: 0 <= i < |verb| ==> IsCapital(verb[i]) }

  /** The word is taken for the verb. */
  predicate Says(word: Bytes, verb: Bytes) { Upper(word) == verb }

  /** That is so exactly when each of its letters is the verb's, in upper or in lower case. */
  lemma SaysInAnyCase(word: Bytes, verb: Bytes)
    requires AllCapitals(verb)
    ensures Says(word, verb) <==>
            |word| == |verb| &&
            forall i :: 0 <= i < |verb| ==> word[i] == verb[i] || word[i] as int == verb[i] as int + 32
  {
    if |word| == |verb| && forall i :: 0 <= i < |verb| ==> word[i] == verb[i] || word[i] as int == verb[i] as int + 32 {
      forall i | 0 <= i < |verb|
        ensures Upper(word)[i] == verb[i]
      {
        assert IsCapital(verb[i]);
      }
    } else if Says(word, verb) {
      forall i | 0 <= i < |verb|
        ensures word[i] == verb[i] || word[i] as int == verb[i] as int + 32
      {
        assert Upper(word)[i] == UpperChar(word[i]);
      }
    }
  }

  // ---- The table ----

  /** The verb, then exactly this argument. */
  predicate With(parts: seq<Bytes>, verb: Bytes, a: Bytes) {
    |parts| == 2 && Says(parts[0], verb) && parts[1] == a
  }

  predicate WithTwo(parts: seq<Bytes>, verb: Bytes, a: Bytes, b: Bytes) {
    |parts| == 3 && Says(parts[0], verb) && parts[1] == a && parts[2] == b
  }

  predicate WithThree(parts: seq<Bytes>, verb: Bytes, a: Bytes, b: Bytes, c: Bytes) {
    |parts| == 4 && Says(parts[0], verb) && parts[1] == a && parts[2] == b && parts[3] == c
  }

  /** The verb, and whatever arguments. */
  predicate Opens(parts: seq<Bytes>, verb: Bytes) { parts != [] && Says(parts[0], verb) }

  /** The verb and a word that must be this one. */
  predicate OpensWith(parts: seq<Bytes>, verb: Bytes, sub: Bytes) {
    |parts| >= 2 && Says(parts[0], verb) && Says(parts[1], sub)
  }

  /** A count that is no number is read as 1. */
  function CountOf(word: Bytes): int { match ParseI64(word) case Some(n) => n case None => 1 }

  /** A cursor that is no number is read as 0. */
  function CursorOf(word: Bytes): nat { match ParseUnsigned(word, USIZE_MAX) case Some(n) => n case None => 0 }

  predicate SpellsString(parts: seq<Bytes>, c: Command) {
    match c
    case Auth(p) => With(parts, "AUTH", p)
    case Ping => Opens(parts, "PING")
    case Set(k, v) => WithTwo(parts, "SET", k, v)
    case Get(k) => With(parts, "GET", k)
    case Del(k) => With(parts, "DEL", k)
    case Exists(k) => With(parts, "EXISTS", k)
    case Incr(k) => With(parts, "INCR", k)
    case SetEx(k, s, v) => |parts| == 4 && WithThree(parts, "SETEX", k, parts[2], v) && ParseI64(parts[2]) == Some(s)
    case MGet(a, b) => WithTwo(parts, "MGET", a, b)
    case Strlen(k) => With(parts, "STRLEN", k)
    case _ => false
  }

  predicate SpellsList(parts: seq<Bytes>, c: Command) {
    match c
    case LPush(k, v) => WithTwo(parts, "LPUSH", k, v)
    case RPush(k, v) => WithTwo(parts, "RPUSH", k, v)
    case LPop(k) => With(parts, "LPOP", k)
    case RPop(k) => With(parts, "RPOP", k)
    case RPopLPush(s, d) => WithTwo(parts, "RPOPLPUSH", s, d)
    case LRem(k, n, v) => |parts| == 4 && WithThree(parts, "LREM", k, parts[2], v) && CountOf(parts[2]) == n
    case LTrim(k, i, j) =>
      |parts| == 4 && WithThree(parts, "LTRIM", k, parts[2], parts[3]) &&
      ParseI32(parts[2]) == Some(i) && ParseI32(parts[3]) == Some(j)
    case LRange(k, i, j) =>
      |parts| == 4 && WithThree(parts, "LRANGE", k, parts[2], parts[3]) &&
      ParseI32(parts[2]) == Some(i) && ParseI32(parts[3]) == Some(j)
    case Llen(k) => With(parts, "LLEN", k)
    case _ => false
  }

  predicate SpellsTable(parts: seq<Bytes>, c: Command) {
    match c
    case HSet(k, f, v) => WithThree(parts, "HSET", k, f, v)
    case HGet(k, f) => WithTwo(parts, "HGET", k, f)
    case HGetAll(k) => With(parts, "HGETALL", k)
    case Hlen(k) => With(parts, "HLEN", k)
    case SAdd(k, v) => WithTwo(parts, "SADD", k, v)
    case SInter(a, b) => WithTwo(parts, "SINTER", a, b)
    case SMembers(k) => With(parts, "SMEMBERS", k)
    case Scard(k) => With(parts, "SCARD", k)
    case Publish(ch, m) => WithTwo(parts, "PUBLISH", ch, m)
    case Subscribe(ch) => With(parts, "SUBSCRIBE", ch)
    case Unsubscribe(ch) => With(parts, "UNSUBSCRIBE", ch)
    case _ => false
  }

  predicate SpellsServer(parts: seq<Bytes>, c: Command) {
    match c
    case Keys(p) => With(parts, "KEYS", p)
    case Scan(n, matching) =>
      |parts| >= 2 && Says(parts[0], "SCAN") && CursorOf(parts[1]) == n &&
      matching == if |parts| == 4 && Says(parts[2], "MATCH") then Some(parts[3]) else None
    case Type(k) => With(parts, "TYPE", k)
    case Ttl(k) => With(parts, "TTL", k)
    case Pttl(k) => With(parts, "PTTL", k)
    case Monitor => |parts| == 1 && Says(parts[0], "MONITOR")
    case Info => Opens(parts, "INFO")
    case DbSize => Opens(parts, "DBSIZE")
    case Memory => OpensWith(parts, "MEMORY", "USAGE")
    case ClientList => OpensWith(parts, "CLIENT", "LIST")
    case Client => Opens(parts, "CLIENT") && !OpensWith(parts, "CLIENT", "LIST")
    case _ => false
  }

  /** The words spell the command; no words spell Unknown. */
  predicate Spells(parts: seq<Bytes>, c: Command) {
    SpellsString(parts, c) || SpellsList(parts, c) || SpellsTable(parts, c) || SpellsServer(parts, c)
  }

  // ---- What spells a command is parsed to it ----

  lemma StringWritesParse(parts: seq<Bytes>, c: Command)
    requires SpellsString(parts, c) && (c.Set? || c.Del? || c.Incr? || c.SetEx?)
    ensures ParseCommand(parts) == c
  {
  }

  lemma GetParse(parts: seq<Bytes>, c: Command)
    requires SpellsString(parts, c) && c.Get?
    ensures ParseCommand(parts) == c
  {
  }

  lemma ExistsParse(parts: seq<Bytes>, c: Command)
    requires SpellsString(parts, c) && c.Exists?
    ensures ParseCommand(parts) == c
  {
  }

  lemma MGetParse(parts: seq<Bytes>, c: Command)
    requires SpellsString(parts, c) && c.MGet?
    ensures ParseCommand(parts) == c
  {
  }

  lemma AuthParse(parts: seq<Bytes>, c: Command)
    requires SpellsString(parts, c) && c.Auth?
    ensures ParseCommand(parts) == c
  {
  }

  lemma PingParse(parts: seq<Bytes>, c: Command)
    requires SpellsString(parts, c) && c.Ping?
    ensures ParseCommand(parts) == c
  {
  }

  lemma StrlenParse(parts: seq<Bytes>, c: Command)
    requires SpellsString(parts, c) && c.Strlen?
    ensures ParseCommand(parts) == c
  {
  }

  lemma StringParses(parts: seq<Bytes>, c: Command)
    requires SpellsString(parts, c)
    ensures ParseCommand(parts) == c
  {
    if c.Set? || c.Del? || c.Incr? || c.SetEx? {
      StringWritesParse(parts, c);
    } else if c.Get? {
      GetParse(parts, c);
    } else if c.Exists? {
      ExistsParse(parts, c);
    } else if c.MGet? {
      MGetParse(parts, c);
    } else if c.Auth? {
      AuthParse(parts, c);
    } else if c.Ping? {
      PingParse(parts, c);
    } else {
      StrlenParse(parts, c);
    }
  }

  lemma ListPushesParse(parts: seq<Bytes>, c: Command)
    requires SpellsList(parts, c) && (c.LPush? || c.RPush? || c.LPop?)
    ensures ParseCommand(parts) == c
  {
  }

  lemma ListEndsParse(parts: seq<Bytes>, c: Command)
    requires SpellsList(parts, c) && (c.RPop? || c.RPopLPush? || c.LRem?)
    ensures ParseCommand(parts) == c
  {
  }

  lemma LTrimParse(parts: seq<Bytes>, c: Command)
    requires SpellsList(parts, c) && c.LTrim?
    ensures ParseCommand(parts) == c
  {
  }

  lemma LRangeParse(parts: seq<Bytes>, c: Command)
    requires SpellsList(parts, c) && c.LRange?
    ensures ParseCommand(parts) == c
  {
  }

  lemma LlenParse(parts: seq<Bytes>, c: Command)
    requires SpellsList(parts, c) && c.Llen?
    ensures ParseCommand(parts) == c
  {
  }

  lemma ListParses(parts: seq<Bytes>, c: Command)
    requires SpellsList(parts, c)
    ensures ParseCommand(parts) == c
  {
    if c.LPush? || c.RPush? || c.LPop? {
      ListPushesParse(parts, c);
    } else if c.RPop? || c.RPopLPush? || c.LRem? {
      ListEndsParse(parts, c);
    } else if c.LTrim? {
      LTrimParse(parts, c);
    } else if c.LRange? {
      LRangeParse(parts, c);
    } else {
      LlenParse(parts, c);
    }
  }

  lemma TableWritesParse(parts: seq<Bytes>, c: Command)
    requires SpellsTable(parts, c) && (c.HSet? || c.SAdd? || c.HGet?)
    ensures ParseCommand(parts) == c
  {
  }

  lemma HGetAllParse(parts: seq<Bytes>, c: Command)
    requires SpellsTable(parts, c) && c.HGetAll?
    ensures ParseCommand(parts) == c
  {
  }

  lemma HlenParse(parts: seq<Bytes>, c: Command)
    requires SpellsTable(parts, c) && c.Hlen?
    ensures ParseCommand(parts) == c
  {
  }

  lemma SInterParse(parts: seq<Bytes>, c: Command)
    requires SpellsTable(parts, c) && c.SInter?
    ensures ParseCommand(parts) == c
  {
  }

  lemma SMembersParse(parts: seq<Bytes>, c: Command)
    requires SpellsTable(parts, c) && c.SMembers?
    ensures ParseCommand(parts) == c
  {
  }

  lemma ScardParse(parts: seq<Bytes>, c: Command)
    requires SpellsTable(parts, c) && c.Scard?
    ensures ParseCommand(parts) == c
  {
  }

  lemma PublishParse(parts: seq<Bytes>, c: Command)
    requires SpellsTable(parts, c) && c.Publish?
    ensures ParseCommand(parts) == c
  {
  }

  lemma SubscribeParse(parts: seq<Bytes>, c: Command)
    requires SpellsTable(parts, c) && c.Subscribe?
    ensures ParseCommand(parts) == c
  {
  }

  lemma UnsubscribeParse(parts: seq<Bytes>, c: Command)
    requires SpellsTable(parts, c) && c.Unsubscribe?
    ensures ParseCommand(parts) == c
  {
  }

  lemma TableParses(parts: seq<Bytes>, c: Command)
    requires SpellsTable(parts, c)
    ensures ParseCommand(parts) == c
  {
    if c.HSet? || c.SAdd? || c.HGet? {
      TableWritesParse(parts, c);
    } else if c.HGetAll? {
      HGetAllParse(parts, c);
    } else if c.Hlen? {
      HlenParse(parts, c);
    } else if c.SInter? {
      SInterParse(parts, c);
    } else if c.SMembers? {
      SMembersParse(parts, c);
    } else if c.Scard? {
      ScardParse(parts, c);
    } else if c.Publish? {
      PublishParse(parts, c);
    } else if c.Subscribe? {
      SubscribeParse(parts, c);
    } else {
      UnsubscribeParse(parts, c);
    }
  }

  lemma KeysParse(parts: seq<Bytes>, c: Command)
    requires SpellsServer(parts, c) && c.Keys?
    ensures ParseCommand(parts) == c
  {
  }

  lemma TypeParse(parts: seq<Bytes>, c: Command)
    requires SpellsServer(parts, c) && c.Type?
    ensures ParseCommand(parts) == c
  {
  }

  lemma TtlParse(parts: seq<Bytes>, c: Command)
    requires SpellsServer(parts, c) && c.Ttl?
    ensures ParseCommand(parts) == c
  {
  }

  lemma PttlParse(parts: seq<Bytes>, c: Command)
    requires SpellsServer(parts, c) && c.Pttl?
    ensures ParseCommand(parts) == c
  {
  }

  lemma MonitorParse(parts: seq<Bytes>, c: Command)
    requires SpellsServer(parts, c) && c.Monitor?
    ensures ParseCommand(parts) == c
  {
  }

  lemma InfoParse(parts: seq<Bytes>, c: Command)
    requires SpellsServer(parts, c) && c.Info?
    ensures ParseCommand(parts) == c
  {
  }

  lemma DbSizeParse(parts: seq<Bytes>, c: Command)
    requires SpellsServer(parts, c) && c.DbSize?
    ensures ParseCommand(parts) == c
  {
  }

  lemma MemoryParse(parts: seq<Bytes>, c: Command)
    requires SpellsServer(parts, c) && c.Memory?
    ensures ParseCommand(parts) == c
  {
  }

  lemma ClientListParse(parts: seq<Bytes>, c: Command)
    requires SpellsServer(parts, c) && c.ClientList?
    ensures ParseCommand(parts) == c
  {
  }

  lemma ClientParse(parts: seq<Bytes>, c: Command)
    requires SpellsServer(parts, c) && c.Client?
    ensures ParseCommand(parts) == c
  {
  }

  lemma ScanParse(parts: seq<Bytes>, c: Command)
    requires SpellsServer(parts, c) && c.Scan?
    ensures ParseCommand(parts) == c
  {
  }

  lemma ServerParses(parts: seq<Bytes>, c: Command)
    requires SpellsServer(parts, c)
    ensures ParseCommand(parts) == c
  {
    if c.Keys? {
      KeysParse(parts, c);
    } else if c.Type? {
      TypeParse(parts, c);
    } else if c.Ttl? {
      TtlParse(parts, c);
    } else if c.Pttl? {
      PttlParse(parts, c);
    } else if c.Monitor? {
      MonitorParse(parts, c);
    } else if c.Info? {
      InfoParse(parts, c);
    } else if c.DbSize? {
      DbSizeParse(parts, c);
    } else if c.Memory? {
      MemoryParse(parts, c);
    } else if c.ClientList? {
      ClientListParse(parts, c);
    } else if c.Client? {
      ClientParse(parts, c);
    } else {
      ScanParse(parts, c);
    }
  }

  // ---- And nothing else is ----

  lemma StringSpelledOne(parts: seq<Bytes>, c: Command)
    requires ParseCommand(parts) == c
    requires c.Set? || c.Del? || c.Incr?
    ensures SpellsString(parts, c)
  {
  }

  lemma StringSpelledTwo(parts: seq<Bytes>, c: Command)
    requires ParseCommand(parts) == c
    requires c.SetEx? || c.Get? || c.Exists?
    ensures SpellsString(parts, c)
  {
  }

  lemma StringSpelledThree(parts: seq<Bytes>, c: Command)
    requires ParseCommand(parts) == c
    requires c.MGet? || c.Auth? || c.Ping?
    ensures SpellsString(parts, c)
  {
  }

  lemma StringSpelledFour(parts: seq<Bytes>, c: Command)
    requires ParseCommand(parts) == c
    requires c.Strlen?
    ensures SpellsString(parts, c)
  {
  }

  lemma ListSpelledOne(parts: seq<Bytes>, c: Command)
    requires ParseCommand(parts) == c
    requires c.LPush? || c.RPush? || c.LPop?
    ensures SpellsList(parts, c)
  {
  }

  lemma ListSpelledTwo(parts: seq<Bytes>, c: Command)
    requires ParseCommand(parts) == c
    requires c.RPop? || c.RPopLPush? || c.LRem?
    ensures SpellsList(parts, c)
  {
  }

  lemma ListSpelledThree(parts: seq<Bytes>, c: Command)
    requires ParseCommand(parts) == c
    requires c.LTrim? || c.LRange? || c.Llen?
    ensures SpellsList(parts, c)
  {
  }

  lemma TableSpelledOne(parts: seq<Bytes>, c: Command)
    requires ParseCommand(parts) == c
    requires c.HSet? || c.SAdd? || c.HGet?
    ensures SpellsTable(parts, c)
  {
  }

  lemma TableSpelledTwo(parts: seq<Bytes>, c: Command)
    requires ParseCommand(parts) == c
    requires c.HGetAll? || c.Hlen? || c.SInter?
    ensures SpellsTable(parts, c)
  {
  }

  lemma TableSpelledThree(parts: seq<Bytes>, c: Command)
    requires ParseCommand(parts) == c
    requires c.SMembers? || c.Scard? || c.Publish?
    ensures SpellsTable(parts, c)
  {
  }

  lemma TableSpelledFour(parts: seq<Bytes>, c: Command)
    requires ParseCommand(parts) == c
    requires c.Subscribe? || c.Unsubscribe?
    ensures SpellsTable(parts, c)
  {
  }

  lemma ServerSpelledOne(parts: seq<Bytes>, c: Command)
    requires ParseCommand(parts) == c
    requires c.Keys? || c.Type? || c.Ttl?
    ensures SpellsServer(parts, c)
  {
  }

  lemma ServerSpelledTwo(parts: seq<Bytes>, c: Command)
    requires ParseCommand(parts) == c
    requires c.Pttl? || c.Monitor? || c.Info?
    ensures SpellsServer(parts, c)
  {
  }

  lemma ServerSpelledThree(parts: seq<Bytes>, c: Command)
    requires ParseCommand(parts) == c
    requires c.DbSize? || c.Memory? || c.ClientList?
    ensures SpellsServer(parts, c)
  {
  }

  lemma ServerSpelledFour(parts: seq<Bytes>, c: Command)
    requires ParseCommand(parts) == c
    requires c.Client? || c.Scan?
    ensures SpellsServer(parts, c)
  {
  }

  lemma Spelled(parts: seq<Bytes>, c: Command)
    requires ParseCommand(parts) == c && !c.Unknown?
    ensures Spells(parts, c)
  {
    if c.Set? || c.Del? || c.Incr? {
      StringSpelledOne(parts, c);
    } else if c.SetEx? || c.Get? || c.Exists? {
      StringSpelledTwo(parts, c);
    } else if c.MGet? || c.Auth? || c.Ping? {
      StringSpelledThree(parts, c);
    } else if c.Strlen? {
      StringSpelledFour(parts, c);
    } else if c.LPush? || c.RPush? || c.LPop? {
      ListSpelledOne(parts, c);
    } else if c.RPop? || c.RPopLPush? || c.LRem? {
      ListSpelledTwo(parts, c);
    } else if c.LTrim? || c.LRange? || c.Llen? {
      ListSpelledThree(parts, c);
    } else if c.HSet? || c.SAdd? || c.HGet? {
      TableSpelledOne(parts, c);
    } else if c.HGetAll? || c.Hlen? || c.SInter? {
      TableSpelledTwo(parts, c);
    } else if c.SMembers? || c.Scard? || c.Publish? {
      TableSpelledThree(parts, c);
    } else if c.Subscribe? || c.Unsubscribe? {
      TableSpelledFour(parts, c);
    } else if c.Keys? || c.Type? || c.Ttl? {
      ServerSpelledOne(parts, c);
    } else if c.Pttl? || c.Monitor? || c.Info? {
      ServerSpelledTwo(parts, c);
    } else if c.DbSize? || c.Memory? || c.ClientList? {
      ServerSpelledThree(parts, c);
    } else {
      ServerSpelledFour(parts, c);
    }
  }

  /** Words are parsed to a command exactly when they spell it, the verb in any case. */
  lemma ParsedExactly(parts: seq<Bytes>, c: Command)
    requires !c.Unknown?
    ensures ParseCommand(parts) == c <==> Spells(parts, c)
  {
    if SpellsString(parts, c) {
      StringParses(parts, c);
    } else if SpellsList(parts, c) {
      ListParses(parts, c);
    } else if SpellsTable(parts, c) {
      TableParses(parts, c);
    } else if SpellsServer(parts, c) {
      ServerParses(parts, c);
    } else if ParseCommand(parts) == c {
      Spelled(parts, c);
    }
  }

  lemma SpelledIsKnown(parts: seq<Bytes>, c: Command)
    ensures Spells(parts, c) ==> !c.Unknown? && !ParseCommand(parts).Unknown?
  {
    if Spells(parts, c) { ParsedExactly(parts, c); }
  }

  /** And what spells nothing is unknown. */
  lemma UnknownExactly(parts: seq<Bytes>)
    ensures ParseCommand(parts).Unknown? <==> forall c :: !Spells(parts, c)
  {
    if ParseCommand(parts).Unknown? {
      forall c
        ensures !Spells(parts, c)
      {
        SpelledIsKnown(parts, c);
      }
    } else {
      ParsedExactly(parts, ParseCommand(parts));
    }
  }

  // ---- Every command has words ----

  function VerbFor(c: Command): Bytes
    requires !c.Unknown?
  {
    match c
    case Auth(_) => "AUTH" case Ping => "PING" case Set(_, _) => "SET" case Get(_) => "GET" case Del(_) => "DEL"
    case Exists(_) => "EXISTS" case Incr(_) => "INCR" case SetEx(_, _, _) => "SETEX" case Publish(_, _) => "PUBLISH"
    case Subscribe(_) => "SUBSCRIBE" case Unsubscribe(_) => "UNSUBSCRIBE" case LPush(_, _) => "LPUSH"
    case LPop(_) => "LPOP" case RPop(_) => "RPOP" case RPush(_, _) => "RPUSH" case RPopLPush(_, _) => "RPOPLPUSH"
    case LRem(_, _, _) => "LREM" case LTrim(_, _, _) => "LTRIM" case LRange(_, _, _) => "LRANGE"
    case HSet(_, _, _) => "HSET" case HGetAll(_) => "HGETALL" case HGet(_, _) => "HGET" case MGet(_, _) => "MGET"
    case SAdd(_, _) => "SADD" case SInter(_, _) => "SINTER" case Keys(_) => "KEYS" case Scan(_, _) => "SCAN"
    case Monitor => "MONITOR" case Info => "INFO" case Type(_) => "TYPE" case Ttl(_) => "TTL" case Pttl(_) => "PTTL"
    case Memory => "MEMORY" case Llen(_) => "LLEN" case Hlen(_) => "HLEN" case Scard(_) => "SCARD"
    case SMembers(_) => "SMEMBERS" case ClientList => "CLIENT" case Client => "CLIENT" case Strlen(_) => "STRLEN"
    case DbSize => "DBSIZE"
  }

  /** Its arguments, numbers in decimal. */
  function ArgumentsFor(c: Command): seq<Bytes>
    requires !c.Unknown?
  {
    match c
    case Auth(p) => [p]
    case SetEx(k, s, v) => [k, PrintInt(s), v]
    case LRem(k, n, v) => [k, PrintInt(n), v]
    case LTrim(k, i, j) => [k, PrintInt(i), PrintInt(j)]
    case LRange(k, i, j) => [k, PrintInt(i), PrintInt(j)]
    case Scan(n, matching) => if matching.Some? then [PrintNat(n), "MATCH", matching.value] else [PrintNat(n)]
    case HSet(k, f, v) => [k, f, v]
    case HGet(k, f) => [k, f]
    case Set(k, v) => [k, v] case LPush(k, v) => [k, v] case RPush(k, v) => [k, v] case SAdd(k, v) => [k, v]
    case RPopLPush(s, d) => [s, d]
    case MGet(a, b) => [a, b] case SInter(a, b) => [a, b]
    case Publish(ch, m) => [ch, m] case Subscribe(ch) => [ch] case Unsubscribe(ch) => [ch]
    case Keys(p) => [p]
    case Memory => ["USAGE"]
    case ClientList => ["LIST"]
    case Get(k) => [k] case Del(k) => [k] case Exists(k) => [k] case Incr(k) => [k] case LPop(k) => [k]
    case RPop(k) => [k] case HGetAll(k) => [k] case Type(k) => [k] case Ttl(k) => [k] case Pttl(k) => [k]
    case Llen(k) => [k] case Hlen(k) => [k] case Scard(k) => [k] case SMembers(k) => [k] case Strlen(k) => [k]
    case _ => []
  }

  /** The numbers of the command fit the types they are parsed to. */
  predicate Fitting(c: Command) {
    && InRange(c) && (c.LRem? ==> I64_MIN <= c.count <= I64_MAX) && (c.Scan? ==> c.cursor <= USIZE_MAX)
  }

  lemma SubwordsSay()
    ensures Says("MATCH", "MATCH") && Says("USAGE", "USAGE") && Says("LIST", "LIST")
  {
  }

  predicate OnOneKey(c: Command) {
    c.Set? || c.Get? || c.Del? || c.Exists? || c.Incr? || c.SetEx? || c.LPush? || c.LPop? || c.RPop? || c.RPush? ||
    c.LRem? || c.LTrim? || c.LRange? || c.HSet? || c.HGetAll? || c.HGet? || c.SAdd?
  }

  predicate Numbered(c: Command) { c.SetEx? || c.LRem? || c.LTrim? || c.LRange? || c.Scan? }

  /** These words are the verb, in some case, and the arguments of the command. */
  predicate AreWords(c: Command, parts: seq<Bytes>)
    requires !c.Unknown?
  {
    |parts| == 1 + |ArgumentsFor(c)| && Says(parts[0], VerbFor(c)) && parts[1..] == ArgumentsFor(c)
  }

  lemma ArgumentsAt(c: Command, parts: seq<Bytes>)
    requires !c.Unknown? && AreWords(c, parts)
    ensures forall i :: 0 <= i < |ArgumentsFor(c)| ==> parts[i + 1] == ArgumentsFor(c)[i]
  {
    forall i | 0 <= i < |ArgumentsFor(c)|
      ensures parts[i + 1] == ArgumentsFor(c)[i]
    {
      assert parts[1..][i] == parts[i + 1];
    }
  }

  lemma ThreeAt(parts: seq<Bytes>, a: Bytes, b: Bytes, c: Bytes)
    requires |parts| > 0 && parts[1..] == [a, b, c]
    ensures |parts| == 4 && parts[1] == a && parts[2] == b && parts[3] == c
  {
    assert parts[1] == parts[1..][0] && parts[2] == parts[1..][1] && parts[3] == parts[1..][2];
  }

  lemma SetExWordsSpell(c: Command, parts: seq<Bytes>)
    requires c.SetEx? && Fitting(c) && AreWords(c, parts)
    ensures SpellsString(parts, c)
  {
    SignedRoundTrip(c.seconds, I64_MIN, I64_MAX);
    ThreeAt(parts, c.key, PrintInt(c.seconds), c.value);
  }

  lemma LRemWordsSpell(c: Command, parts: seq<Bytes>)
    requires c.LRem? && Fitting(c) && AreWords(c, parts)
    ensures SpellsList(parts, c)
  {
    SignedRoundTrip(c.count, I64_MIN, I64_MAX);
    ThreeAt(parts, c.key, PrintInt(c.count), c.value);
  }

  lemma RangeWordsSpell(c: Command, parts: seq<Bytes>)
    requires (c.LTrim? || c.LRange?) && Fitting(c) && AreWords(c, parts)
    ensures SpellsList(parts, c)
  {
    SignedRoundTrip(c.start, I32_MIN, I32_MAX);
    SignedRoundTrip(c.stop, I32_MIN, I32_MAX);
    ThreeAt(parts, c.key, PrintInt(c.start), PrintInt(c.stop));
  }

  lemma ScanWordsSpell(c: Command, parts: seq<Bytes>)
    requires c.Scan? && Fitting(c) && AreWords(c, parts)
    ensures Spells(parts, c)
  {
    UnsignedRoundTrip(c.cursor, USIZE_MAX);
    ArgumentsAt(c, parts);
    SubwordsSay();
  }

  lemma KeyWordsSpell(c: Command, parts: seq<Bytes>)
    requires OnOneKey(c) && !Numbered(c) && AreWords(c, parts)
    ensures Spells(parts, c)
  {
    ArgumentsAt(c, parts);
  }

  lemma OtherWordsSpell(c: Command, parts: seq<Bytes>)
    requires !c.Unknown? && !OnOneKey(c) && !Numbered(c) && AreWords(c, parts)
    ensures Spells(parts, c)
  {
    ArgumentsAt(c, parts);
    SubwordsSay();
  }

  lemma WordsSpell(c: Command, parts: seq<Bytes>)
    requires !c.Unknown? && Fitting(c) && AreWords(c, parts)
    ensures Spells(parts, c)
  {
    if c.Scan? {
      ScanWordsSpell(c, parts);
    } else if c.SetEx? {
      SetExWordsSpell(c, parts);
    } else if c.LRem? {
      LRemWordsSpell(c, parts);
    } else if c.LTrim? || c.LRange? {
      RangeWordsSpell(c, parts);
    } else if OnOneKey(c) {
      KeyWordsSpell(c, parts);
    } else {
      OtherWordsSpell(c, parts);
    }
  }

  /** The verb of any command, in any case, and its arguments are parsed to that command. */
  lemma EveryCommandParses(c: Command, word: Bytes)
    requires !c.Unknown? && Fitting(c) && Says(word, VerbFor(c))
    ensures ParseCommand([word] + ArgumentsFor(c)) == c
  {
    var parts := [word] + ArgumentsFor(c);
    assert parts[1..] == ArgumentsFor(c);
    WordsSpell(c, parts);
    ParsedExactly(parts, c);
  }

  lemma KeyVerbsAreCapitals(c: Command)
    requires OnOneKey(c)
    ensures AllCapitals(VerbFor(c))
  {
  }

  lemma OtherVerbsAreCapitals(c: Command)
    requires !c.Unknown? && !OnOneKey(c)
    ensures AllCapitals(VerbFor(c))
  {
  }

  /** Whether the word says the verb of the command, letter by letter. */
  lemma VerbInAnyCase(c: Command, word: Bytes)
    requires !c.Unknown?
    ensures var verb := VerbFor(c);
            Says(word, verb) <==>
            |word| == |verb| &&
            forall i :: 0 <= i < |verb| ==> word[i] == verb[i] || word[i] as int == verb[i] as int + 32
  {
    if OnOneKey(c) { KeyVerbsAreCapitals(c); } else { OtherVerbsAreCapitals(c); }
    SaysInAnyCase(word, VerbFor(c));
  }
}
