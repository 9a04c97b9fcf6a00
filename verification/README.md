# Titan KV: a verified model of its core

Titan KV is an in-memory key-value server with a Redis-like protocol. Its keyspace is split over 64 maps behind
read-write locks; every change is sent as a text line to an append-only file (the log), which is replayed at start-up
and rewritten once a minute by a compactor; expired keys go lazily in GET and actively in a sweeper.

This project models that core in Dafny and proves what the design promises, or, where a promise does not hold, exactly
when it does. Check everything with `dafny verify dfyconfig.toml`.

## How the model is built

- A byte string is a `string` whose characters stand for bytes. `bytes_to_str` and `bstr` print text that is not UTF-8
  as nothing (`Utf8.Shown`). The tokenizer cuts only at ASCII characters, so working on bytes is the same as working
  on characters.
- Clock readings are numbers of nanoseconds passed in. The hash of a key is an arbitrary function; iteration orders of
  hash tables are arbitrary.
- `Keyspace` says what each command does to one flat map, live (`LiveCommand`) and in replay (`ReplayCommand`). These
  functions are the specification. `Server`, `Recovery` and `Background` hold the imperative code of the command arms,
  of `replay_aof`, and of the writer, sweeper and compactor loops, over the sharded store of `Engine`; each method is
  proved to do on the flat map what the specification says. The theorems about runs, crashes, compaction, expiry,
  lists and counters are lemmas about the specification, so they hold of these methods.
- Concurrency is modelled by step relations: `Interleaving` (commands and their records), `Locks` (shard locks and the
  bounded channel) and `ThreadPool`. Theorems there are about every run of the steps.

| file | content |
|---|---|
| Prelude, Decimal, Utf8 | options, enumerations, decimal print and parse with Rust's ranges, UTF-8 |
| Tokenizer, Protocol, Spelling, LogText | the tokenizer loop, command dispatch and the table of verbs, log lines and how they are read back |
| Keyspace | the specification of all commands, live and in replay |
| Durability | replay against sequential runs, crashes, restarts |
| Commuting, Overtaking, Interleaving | which records may change places, interleaved runs and crashes in them |
| Compaction, CompactionExact | printing a keyspace back as commands, and exactly when that works |
| Expiry | which commands can tell a swept keyspace from an unswept one |
| SweepOrder, SweepLag | DEL lines ahead of buffered records, and behind later ones |
| ClientLaws, Counter, ListLaws, ScanWalk | what a client reads back, INCR under concurrency, list laws, a SCAN walk |
| Locks, ThreadPool | deadlock freedom, shutdown |
| Resp, Headers, Inline, Replies, Wire | the wire format: requests in both forms, header lines, replies as a client hears them, and the way from bytes to bytes |
| Engine, Server, Recovery, Background | the imperative code |

## Where the code and its documentation disagree

The model follows the code.

- Descending reads: `read_multi_shards` locks the first key's shard first in both branches (src/engine.rs:157-161),
  although its comment and README.md:393 promise ordered locking. `Locks.SafeUnlessDescending`: in company that locks
  in ascending order, a request is never part of a deadlock exactly when it is not a two-key read whose first shard
  has the higher index. `Locks.DescendingReadDeadlocks`: such a read and an RPOPLPUSH can block each other.
- LTRIM is logged (src/server.rs:831-837) but replay has no arm for it (src/main.rs:190). `Durability.TrimAgrees`:
  replay keeps the state exactly when the LTRIM trimmed nothing.
- SET, SETEX and SADD print their value bare (src/server.rs:414-419, 456, 1208-1212), so a value with a blank is lost.
  `LogText.RecordSurvives`: a record is read back exactly when its arguments are loggable.
- The record of RPOPLPUSH is sent after its guards are dropped (src/server.rs:1065-1074), so records of two keys can
  be logged out of order. `Overtaking.HarmlessExactly`: a command whose record overtakes that of the move does no harm
  in any keyspace exactly when it is one of `Overtaking.MayOvertake`. `Interleaving.OrderlyInterleavingAgrees`: as
  long as only such records are sent past an earlier move's, log and keyspace stay together;
  `Interleaving.EveryOtherCommandCanDisagree`: every other command can separate them.
- README.md:195 calls the file authoritative at any moment; records wait in a channel and a buffer first
  (src/main.rs:306-324). `Background.AofWriter.CrashRecoversPrefix`: what is recovered is an earlier state of the run.
- The writer appends to the file of earlier sessions without looking at its end (src/main.rs:302-303).
  `LogText.SessionsReadApart`: new records are read behind the old ones exactly when every line of the file is UTF-8
  and ends in LF; a cut last line swallows the first new record, and nothing behind a line that is not UTF-8 is ever
  read.
- After a compaction the writer still appends to the file that lost its name (src/main.rs:289, 302).
  `Background.AofWriter.Tick`: buffered records reach the named file exactly when no rename came between.
  `Background.CompactThenWrite`: until the next start the named file stays what the compaction made it, whatever is
  received, so the next start has the keyspace of that compaction.
- The sweeper appends its DEL lines past the writer's buffer (src/main.rs:229-237). `SweepOrder.SweepMayOvertake`:
  replay gives the swept keyspace exactly when no buffered record is on a swept key.
- The sweeper also writes them after it has let go of the shard (src/main.rs:214-237), so a key that was set again in
  between is deleted in the log. `SweepLag.SweepMayAlwaysLag`: wherever the DEL lines come in the run that goes on,
  they do no harm exactly when no swept key ever comes back. For one given place that is not enough: replay still
  holds the expired string, so an element pushed to a swept key and moved on by RPOPLPUSH is lost even if the key is
  deleted again (`SweepLag.EscapeCanHide`). `SweepLag.SweepMayLag`: without such an escape replay agrees there exactly
  when no swept key is present; `SweepLag.EscapeSpoils`: the first escape spoils the log at once.
- Of the modelled commands only GET looks at a deadline. Pushes, HSET, SADD, INCR and RPOPLPUSH onto another key build
  on an expired entry as if it were alive: `Expiry.BlindUnlessBuilding` says that exactly these lead from a swept and
  an unswept keyspace to different ones. DEL, LPOP, RPOP, LTRIM and LRANGE answer by it: `Expiry.TellsExactly` says
  that exactly SET, SETEX, GET, LREM and RPOPLPUSH of a list onto itself can tell by neither. MGET reads expired
  strings (`Server.MGetReadsExpired`), and SCAN lists their keys.
- The tail loop of LTRIM does not end when the normalised stop is below -1 (src/server.rs:804-813).
  `ListLaws.TrimTerminates`: it ends exactly when that stop is at least -1.
- LRANGE on an empty list with a negative start and a stop that is not casts -1 to usize (src/server.rs:873-886): the
  loop then probes 2^64 indices under the read guard, and where overflow is checked `e - s + 1` panics.
  `Server.ProbesAreBounded`: these are exactly the calls that probe more indices than there are elements;
  `Server.PoppedListIsEmpty`: LPOP leaves such a list behind.

## Model

| member | source | states |
|---|---|---|
| `Decimal.SignedRoundTrip` | src/protocol.rs:80-84 | printing a signed number and parsing it gives it back exactly when it is in the range of the type, and fails otherwise |
| `Decimal.UnsignedRoundTrip` | src/protocol.rs:200 | the same for unsigned lengths and cursors |
| `Decimal.NumeralsAppend` | src/protocol.rs:80-84 | a numeral is decimal, its greatest digit first |
| `Decimal.DigitIsRead` | src/protocol.rs:80-84 | each digit is read and printed as its value |
| `Decimal.NoLeadingZero` | src/server.rs:617-637 | printed numbers have no leading zero |
| `Utf8.Utf8Exactly` | src/server.rs:69-71 | accepted are exactly the encodings of sequences of Unicode scalar values |
| `Tokenizer.Tokenize` | src/protocol.rs:164-182 | the loop delivers the reference split: cut at separators outside quotes, delete quotes, drop empty words |
| `Tokenizer.TokenizerInverse` | src/protocol.rs:164-182 | tokenizing rendered arguments returns them exactly when each is non-empty and quote-free and the bare ones hold no separator |
| `Tokenizer.SeparatorsExactly` | src/protocol.rs:164-182 | blank, tab and line feed separate words, and no other character does |
| `Protocol.ParseWords` | src/protocol.rs:64-160 | the words of any logged command are dispatched back to that command |
| `Protocol.ParsedInRange` | src/protocol.rs:64-160 | the numbers of any parsed command fit their types, so every run of parsed commands is well typed |
| `Protocol.ParsedFrom` | src/protocol.rs:64-160 | a logged command has exactly as many words as it was parsed from, its strings are those words, and its numerals are no longer than theirs |
| `Spelling.ParsedExactly` | src/protocol.rs:64-160 | words are parsed to a command, of any kind, exactly when they are those of a table of verbs and arguments |
| `Spelling.UnknownExactly` | src/protocol.rs:64-160 | and to the unknown command exactly when they are those of none |
| `Spelling.EveryCommandParses` | src/protocol.rs:64-160 | the verb of any command in any case and its arguments, numbers in decimal, are parsed to that command |
| `Spelling.VerbInAnyCase` | src/protocol.rs:70 | a word is taken for a verb exactly when its letters are the verb's, each in upper or lower case |
| `LogText.PairFormats` | src/server.rs:456 | SET and SADD records: value bare in the live log, quoted by the compactor |
| `LogText.ListFormats` | src/server.rs:669-673 | LPUSH and RPUSH records |
| `LogText.MoveFormat` | src/server.rs:1069-1073 | RPOPLPUSH records |
| `LogText.KeyFormats` | src/server.rs:541 | DEL and INCR records |
| `LogText.PopFormats` | src/server.rs:703 | LPOP and RPOP records |
| `LogText.SetExFormats` | src/server.rs:414-419 | SETEX records, live and compacted |
| `LogText.HashFormat` | src/server.rs:927-932 | HSET records |
| `LogText.TrimFormat` | src/server.rs:831-836 | LTRIM records |
| `LogText.RemoveFormat` | src/server.rs:1112-1116 | LREM records, always with count 1 |
| `LogText.RecordSurvives` | src/main.rs:108-113 | a printed record is read back as the same command exactly when all its arguments are non-empty UTF-8 without quotes and newlines, and, where printed bare, without blanks and without a carriage return at the end of the line |
| `LogText.LogSurvives` | src/main.rs:108-113 | a whole log is read back as the records it was printed from exactly when all of them are loggable, whatever an unloggable argument contains |
| `LogText.LineEndings` | src/main.rs:108 | a line of the file ends with LF or CRLF, which do not belong to it, or with the file |
| `LogText.MalformedEnds` | src/main.rs:108 | a line that is not UTF-8 ends the reading |
| `LogText.PrintedIsUtf8` | src/server.rs:69-71 | whatever bytes a client sends, the log stays UTF-8 |
| `LogText.MalformedIsEmpty` | src/server.rs:69-71 | a key that is not UTF-8 is logged as an empty one |
| `LogText.SessionsReadApart` | src/main.rs:302-303 | records appended to a file of earlier sessions are read behind what it holds exactly when all its lines are whole |
| `Keyspace.ReplayPanics` | src/main.rs:119-124 | replaying a log at one time panics exactly when one of its records has a deadline that cannot be represented then |
| `Keyspace.ClockedPanics` | src/main.rs:119-124 | the same with a clock that is read once per record |
| `Durability.TrimAgrees` | src/server.rs:794-842 | the state after an LTRIM agrees with the state before, which is what replay has, exactly when nothing was trimmed |
| `Durability.StepReplays` | src/main.rs:113-191 | one command on any state, wrong types, panics, failures and lazy expiry included: its records, replayed at any time on an agreeing state, agree again |
| `Durability.RunReplays` | src/main.rs:102-195 | the log of any sequential run replays to the same keys, values and presence of deadlines exactly when none of its records makes replay panic |
| `Durability.LogReplaysToLiveState` | src/main.rs:102-195 | the same through the text: print, split into lines, tokenize, parse, replay from empty |
| `Durability.PrintableRun` | src/server.rs:444-459 | a run of commands whose arguments can be printed safely logs only records that can be read back |
| `Durability.ClockedReplays` | src/main.rs:119-124 | a replay with the clock running gives the same keys, values and presence of deadlines as one at the epoch |
| `Durability.ReplaysAnyTime` | src/main.rs:119-124 | a log that replays to a keyspace once does so at exactly those times at which it does not panic |
| `Durability.LogPrefixIsRunPrefix` | src/main.rs:306-324 | every prefix of the log is the whole log of a prefix of the run |
| `Durability.CrashRecovers` | src/main.rs:306-324 | replaying any prefix of the records recovers a state the run really had, exactly when it does not panic |
| `Durability.RestartRecovers` | src/main.rs:102-324 | a server starts from any whole file, serves a run and loses its last records: the file, replayed with the clock running, gives a state the run really had, and is whole again for the next start |
| `Durability.SpaceIsLost` | src/server.rs:444-459 | SET of a value with a blank is stored but not read back from its record |
| `Durability.TrimIsForgotten` | src/main.rs:190 | a run of two pushes and an LTRIM whose replay rebuilds the untrimmed list |
| `Commuting.ReplayCommutes` | src/main.rs:113-191 | records on different keys can be replayed in either order |
| `Overtaking.HarmlessExactly` | src/server.rs:1018-1080 | a command whose records are sent before that of an earlier RPOPLPUSH leaves log and keyspace in agreement in every keyspace and at all times exactly when it is one of a decidable set; every other one, of any kind, clashes somewhere |
| `Interleaving.InterleavingAgrees` | src/server.rs:444-459 | in every interleaving of single-key tasks, LRANGEs sharing a shard included, log plus records still owed, whoever sends first, replays to the live state exactly when no record makes replay panic |
| `Interleaving.OrderlyInterleavingAgrees` | src/server.rs:1018-1080 | with RPOPLPUSH the same holds as long as a record is sent past that of an RPOPLPUSH carried out before it only when it may overtake it; what is carried out meanwhile and sent afterwards is free |
| `Interleaving.EveryOtherCommandCanDisagree` | src/server.rs:1018-1080 | for every other command, and every routing, there is a keyspace and a finished run of two tasks, all records sent, whose log does not replay to the live state |
| `Interleaving.OvertakenMoveDisagrees` | src/server.rs:1065-1074 | after any RPOPLPUSH that moved an element, one RPUSH of another value to its source before the record is sent makes log and keyspace disagree |
| `Interleaving.MoveRunsCanDisagree` | src/server.rs:1018-1080 | for every routing and every keyspace with an element to move there is a finished run of two tasks, all records sent, whose log does not replay to the live state |
| `Interleaving.ConcurrentCrashRecovers` | src/main.rs:306-324 | after a crash in an interleaved run of single-key tasks, each key comes back with a cell it had at some moment of the run |
| `Interleaving.GuardsExclude` | src/engine.rs:110-142 | in every run two tasks hold guards of one shard only if both read a range |
| `Interleaving.GuardsShare` | src/engine.rs:110-142 | ranges of one shard, and commands on different shards, are guarded at the same time |
| `Locks.ShardsExclude` | src/engine.rs:110-119 | in every state reachable by any clients, descending reads included, two tasks hold one shard only for reading |
| `Locks.ReadersShare` | src/engine.rs:110-113 | and two readers do hold one shard together |
| `Locks.NobodyJumpsTheQueue` | src/engine.rs:110-119 | nobody who asks for a shard later is let in before a task that has been waiting for it |
| `Locks.FullChannelWaits` | src/engine.rs:89 | sending a record waits exactly while the channel holds its 100000 records |
| `Locks.ProgramLocks` | src/engine.rs:124-162 | each request acquires exactly its shards in its mode; a one-key record is sent under the guard, that of RPOPLPUSH after it |
| `Locks.AscendingNeverStuck` | src/engine.rs:124-162 | clients without a descending read never reach a deadlock, with fair locks and a bounded channel |
| `Locks.EveryScheduleFinishes` | src/engine.rs:89-162 | every schedule of such clients ends finished, after the same number of steps |
| `Locks.DescendingReadDeadlocks` | src/engine.rs:145-162 | a descending two-key read and one RPOPLPUSH can block each other for ever |
| `Locks.SafeUnlessDescending` | src/engine.rs:145-162 | a request is safe in all ascending company exactly when it is not a descending two-key read |
| `Resp.WriteBuffer.Bulk` | src/server.rs:59-66 | appends the bulk encoding of any bytes |
| `Resp.WriteBuffer.Strings` | src/server.rs:882-892 | appends the array encoding of any list of strings |
| `Resp.ReadArgument` | src/protocol.rs:203-218 | one pass of the argument loop: an argument, a skipped line, an error, or a buffer that cannot be had or is too short to slice |
| `Resp.ReadResp` | src/protocol.rs:188-221 | the whole reader: result and unread bytes are those of the reference decoder, errors, Unicode white space in headers and announced sizes beyond memory included |
| `Resp.BulkRoundTrip` | src/protocol.rs:203-218 | decoding an encoded bulk string returns its bytes and leaves the rest exactly when it fits in memory |
| `Resp.RespRoundTrip` | src/protocol.rs:188-221 | decoding an encoded array of arbitrary byte strings returns the list and leaves the rest unread exactly when they fit in memory |
| `Resp.PipelineRoundTrip` | src/protocol.rs:188-221 | pipelined requests are decoded one after the other exactly when all of them fit |
| `Headers.HeaderTolerates` | src/protocol.rs:199-200 | repeated prefix characters and white space on both sides of the number of a header line do not matter |
| `Headers.WhiteExactly` | src/protocol.rs:199-200 | trimmed are exactly the characters Unicode calls white space |
| `Headers.StrayLineCounts` | src/protocol.rs:203-208 | a line that is no bulk header uses up one argument |
| `Headers.LengthWrapsAround` | src/protocol.rs:209-216 | an announced length close to the greatest one leaves a buffer too short to slice |
| `Inline.InlineRoundTrip` | src/protocol.rs:191-197 | an inline request is read as its arguments exactly when each is non-empty and quote-free and the bare ones hold no separator |
| `Inline.InlineCrlf` | src/protocol.rs:191-197 | ended by CRLF, its last argument keeps the CR |
| `Inline.MixedPipeline` | src/protocol.rs:188-221 | inline requests and arrays on one connection are read one after the other exactly when each is read back |
| `Replies.RepliesAreHeard` | src/server.rs:59-66 | a client that knows the reply format hears from the encoded reply that reply, nested arrays included, and nothing of what follows |
| `Wire.CommandsAreUnderstood` | src/protocol.rs:64-221 | from the bytes of pipelined commands, verbs in any case, the server parses just these commands |
| `Wire.SetIsAnswered` | src/server.rs:444-524 | what one request sets is the answer to the next one, from bytes to bytes |
| `Engine.ShardOfHash` | src/engine.rs:102-107 | masking any 64-bit hash gives a shard index below 64 |
| `Engine.LowBitsDecide` | src/engine.rs:102-107 | the low six bits of the hash are the index, so every index is hit |
| `Engine.FlattenLook` | src/engine.rs:102-119 | a key of the flat map is looked up in the one shard it is routed to |
| `Engine.FlattenPut` | src/engine.rs:102-119 | changing one key in its shard changes just that key of the flat map and keeps every key in its shard |
| `Engine.ShardedDb.constructor` | src/engine.rs:78-99 | a new store is an empty, well-routed flat map |
| `Engine.ShardedDb.Guarded` | src/engine.rs:110-119 | the guarded shard holds for the key what the flat map holds |
| `Engine.ShardedDb.Update` | src/engine.rs:116-119 | writing under the guard is one update of the flat map |
| `Engine.ShardedDb.ReadAt` | src/engine.rs:110-113 | behind the guard of its shard a key holds what the flat map holds |
| `Engine.ShardedDb.WriteAt` | src/engine.rs:116-119 | writing behind a guard changes one key of the flat map and no other shard |
| `Engine.ShardedDb.WriteMultiShards` | src/engine.rs:124-142 | the first guard is that of the first key's shard, the second that of the second key's, and the locks are taken in ascending order, each shard once, as in the lock protocol |
| `Engine.ShardedDb.ReadMultiShards` | src/engine.rs:145-162 | the same guards, and the locks ascend exactly when the first key's shard is not the higher one |
| `Engine.ShardedDb.ScanShard` | src/engine.rs:197-203 | exactly the keys routed to the cursor's shard, each once; none beyond the last shard |
| `Engine.ShardedDb.GetAllKeys` | src/engine.rs:183-194 | exactly the keys of the flat map, each once |
| `Engine.ShardedDb.DbSize` | src/server.rs:280-289 | the size of the flat map |
| `ClientLaws.SetIsRead` | src/server.rs:444-524 | GET answers what SET stored, whatever was there before and whatever runs on other keys since |
| `ClientLaws.SetExIsReadUntil` | src/server.rs:397-524 | after SETEX it does so exactly until the deadline, then answers nil and removes the key |
| `ClientLaws.SetExPanics` | src/server.rs:397-422 | SETEX panics exactly when the clock cannot represent its deadline, and then changes nothing |
| `ClientLaws.MissingIsNil` | src/server.rs:478-524 | a key never written is answered with nil |
| `ClientLaws.DelIsGone` | src/server.rs:534-547 | DEL says whether the key was there, and leaves nothing for GET or a second DEL |
| `ClientLaws.WrongTypeIsTold` | src/server.rs:478-524 | a key made by a push, HSET or SADD answers GET with an error |
| `ClientLaws.WrapIsCongruent` | src/server.rs:582-637 | INCR differs from unbounded counting by a multiple of 2^64 |
| `ClientLaws.IncrIsRead` | src/server.rs:582-637 | the number INCR answers is the numeral GET reads, and behind the greatest comes the least |
| `ClientLaws.IncrRefuses` | src/server.rs:582-637 | both errors of INCR, which change nothing |
| `ClientLaws.ElementsAreSeen` | src/server.rs:860-903 | LRANGE 0 -1 answers the whole list |
| `ClientLaws.PushIsSeen` | src/server.rs:653-750 | a push puts its value at its end and answers the new length |
| `ClientLaws.PushIsRefused` | src/server.rs:653-750 | on another type LPUSH answers an error and RPUSH nothing |
| `ClientLaws.PopTakes` | src/server.rs:695-719 | a pop answers the element at its end and leaves the others |
| `ClientLaws.PopFindsNothing` | src/server.rs:695-719 | nil or an error, and no change |
| `ClientLaws.PushesAreSeen` | src/server.rs:653-750 | any number of pushes to one end: their order at the tail, the opposite one at the head |
| `ClientLaws.RemIsSeen` | src/server.rs:1095-1121 | LREM takes out the first equal element, whatever its count |
| `ClientLaws.RemFindsNothing` | src/server.rs:1095-1121 | and answers 0 when there is none |
| `ClientLaws.MoveIsPopAndPush` | src/server.rs:1018-1080 | RPOPLPUSH is an RPOP and an LPUSH of its answer, onto the same key too |
| `ClientLaws.MoveFindsNothing` | src/server.rs:1018-1080 | with nothing to move it answers nil and changes nothing |
| `ClientLaws.HSetIsSeen` | src/server.rs:913-938 | HSET sets its field and leaves the others |
| `ClientLaws.SAddIsSeen` | src/server.rs:1195-1218 | SADD answers and logs whether the member is new |
| `Server.Set` | src/server.rs:444-459 | store, record and reply are those of the specification |
| `Server.SetEx` | src/server.rs:397-422 | the same, with the panic on a deadline that cannot be represented |
| `Server.Get` | src/server.rs:478-524 | the same, with lazy deletion and its DEL record |
| `Server.Del` | src/server.rs:534-547 | the same |
| `Server.Incr` | src/server.rs:582-637 | the same, with 64-bit wrap-around and both error replies |
| `Server.LPush` | src/server.rs:653-684 | the same |
| `Server.RPush` | src/server.rs:727-750 | the same, with the silent wrong-type case |
| `Server.Pop` | src/server.rs:695-719 | LPOP and RPOP, which differ in the end they pop |
| `Server.TrimList` | src/server.rs:799-825 | the trimming loops end exactly when the tail loop does not wait for a negative length, and then leave the range a client would read |
| `Server.LTrim` | src/server.rs:794-847 | store, record and reply; the key goes when nothing is left, and an arm that never ends leaves an empty list and no record |
| `Server.ListSlice` | src/server.rs:865-893 | the element loop delivers the range, whose length was announced, and how many indices it probes for that |
| `Server.ProbesAreBounded` | src/server.rs:873-886 | at most as many probes as elements, except exactly on an empty list with a negative start and a stop that is not: there 2^64 |
| `Server.PoppedListIsEmpty` | src/server.rs:695-719 | RPUSH and LPOP leave an empty list under the key |
| `Server.LRange` | src/server.rs:860-903 | the reply of the specification, after the probes that `Server.ProbesAreBounded` counts |
| `Server.RemoveMatch` | src/server.rs:1104-1107 | position and remove take out the first match |
| `Server.LRem` | src/server.rs:1095-1121 | store, record with count 1, and reply |
| `Server.HSet` | src/server.rs:913-938 | store, record and reply |
| `Server.SAdd` | src/server.rs:1195-1218 | store, record only for a new member, and reply |
| `Server.MoveSingle` | src/server.rs:1023-1042 | with the one guard, the one-shard arm of RPOPLPUSH moves on the flat map |
| `Server.MoveDouble` | src/server.rs:1045-1063 | the two-shard arm does the same, popping behind the first guard and pushing behind the second |
| `Server.RPopLPush` | src/server.rs:1018-1080 | with the guards as they come from either lock order, both arms give the one result of the specification |
| `Server.MGet` | src/server.rs:1137-1183 | with the guards as they come, both arms read the two keys of the flat map |
| `Server.MGetLikeGet` | src/server.rs:1137-1183 | for a key that is not expired MGET answers as GET does, with nil for another type |
| `Server.MGetReadsExpired` | src/server.rs:1137-1183 | MGET answers for a key as after a sweep exactly when there is no expired string under it |
| `Server.Retain` | src/server.rs:1458-1463 | the matching keys of a list, each once |
| `Server.Scan` | src/server.rs:1443-1486 | the matching keys of the cursor's shard and the next cursor |
| `Server.ExecuteModelled` | src/server.rs:240-1486 | whichever arm is dispatched to, store, records and reply are those of the specification |
| `Server.Execute` | src/server.rs:240-1486 | for any command; the others leave store and log alone |
| `Server.Serve` | src/server.rs:74-1500 | a whole sequential run on the sharded store, up to a command that panics or never ends: state, sent text and replies are those of the run |
| `ScanWalk.WalkEndsAfter64` | src/server.rs:1443-1486 | a walk ends with its 64th call, not earlier and not later |
| `ScanWalk.WalkReturnsEachKeyOnce` | src/engine.rs:197-203 | whatever runs between the calls, a key comes once if it was there when its shard was read, and never otherwise |
| `ScanWalk.WalkCoversTheKeyspace` | src/server.rs:1443-1486 | keys present throughout come exactly once, no key comes twice, no absent key comes |
| `ListLaws.RangeIsSlice` | src/server.rs:865-893 | between two positions lie the elements from the one to the other, both included |
| `ListLaws.RangeFromTheEnd` | src/server.rs:868-872 | an index below zero counts from the end |
| `ListLaws.RangeOutside` | src/server.rs:873-880 | a start before the list acts as its first index, a stop behind it as its last; otherwise nothing is in range |
| `ListLaws.RangeIsAnswered` | src/server.rs:860-903 | LRANGE answers the elements of the range in order |
| `ListLaws.RangeFindsNothing` | src/server.rs:794-903 | LRANGE and LTRIM without a list |
| `ListLaws.TrimLeavesSlice` | src/server.rs:794-847 | LTRIM between two positions, counted from either end, leaves just these elements |
| `ListLaws.TrimOutside` | src/server.rs:794-847 | indices outside the list act as for LRANGE, and with nothing left the key goes |
| `ListLaws.TrimHangsBefore` | src/server.rs:804-813 | LTRIM never comes back exactly when both indices lie, in order, more than one place before the list |
| `ListLaws.TrimTerminates` | src/server.rs:804-818 | the tail loop ends exactly when the normalised stop is at least -1 |
| `ListLaws.TrimIsRange` | src/server.rs:794-892 | after LTRIM the list is what LRANGE would have returned, and the key is gone exactly when that is nothing |
| `ListLaws.MovesOntoItselfRotate` | src/server.rs:1023-1042 | any number of RPOPLPUSHes of a list onto itself turns it by that number modulo its length; full turns, and an empty list, change nothing |
| `ListLaws.ElementsAreConserved` | src/server.rs:653-1121 | over any run on list-only keys, each value is pushed as often as it is still stored, popped, removed or dropped by a wrong-type destination |
| `Counter.IncrementsCount` | src/server.rs:582-637 | in any interleaving with no other writer the key holds the numeral of start plus INCRs |
| `Counter.IncrementsAreConsecutive` | src/server.rs:582-637 | the m-th INCR of an interleaving is answered with start plus m |
| `Counter.ReplayCounts` | src/main.rs:130-141 | replay, whose parse falls back to zero, counts the logged INCRs of a key in the same way, whatever records on other keys stand between them |
| `Expiry.BlindUnlessBuilding` | src/server.rs:478-1218 | a command leads from states equal up to expired entries to such states exactly when it does not build on the entry it finds |
| `Expiry.BuildersNotice` | src/main.rs:200-240 | for every such command, and at any time, client commands lead to a keyspace in which a sweep just before it makes a lasting difference |
| `Expiry.TellsExactly` | src/server.rs:397-1218 | neither the reply nor the keyspace left behind depends on a sweep, from all keyspaces in which only strings expire, exactly for SET, SETEX, GET, LREM, RPOPLPUSH onto itself and commands outside the model |
| `Expiry.AnswersNotice` | src/main.rs:200-240 | for DEL, the pops, LTRIM and LRANGE, and at any time, client commands lead to a keyspace in which a sweep just before changes the reply |
| `Expiry.SweepsAreInvisible` | src/main.rs:200-240 | sweeps at any points change no GET reply of a run of commands blind to them |
| `Expiry.SweepsChangeNoReply` | src/main.rs:200-240 | sweeps at any points change no reply at all of a run of commands that cannot tell |
| `Expiry.ReachableOnlyStringsExpire` | src/main.rs:113-191 | after any replay and any run with sweeps only strings carry a deadline, and one the clock can represent |
| `Compaction.CompactionReplays` | src/main.rs:252-284 | for every state and all iteration orders, replaying the compacted records rebuilds exactly the pruned state |
| `Compaction.CompactionPreserves` | src/main.rs:252-284 | at the instant of compaction only empty aggregates, passed deadlines and less than a second of each deadline are lost |
| `Compaction.SnapshotEmits` | src/main.rs:252-284 | which records a compaction prints does not depend on iteration orders |
| `Compaction.CompactedTextReads` | src/main.rs:252-284 | the compacted text is read back as its records exactly when the keyspace is clean |
| `Compaction.CompactedTextReplays` | src/main.rs:252-284 | the compacted text of a clean keyspace rebuilds it, pruned |
| `Compaction.SweepThenCompact` | src/main.rs:214-284 | sweeping first changes no line of a compaction made at the same instant |
| `CompactionExact.ReplayedIsPrintable` | src/main.rs:102-195 | whatever bytes the log holds, a replayed keyspace holds only non-empty UTF-8 strings without quotes and newlines |
| `CompactionExact.CompactionIsExact` | src/main.rs:246-284 | replaying the compacted file rebuilds the pruned keyspace exactly when every key, field and value it prints is clean |
| `ThreadPool.JobsAreNeverLost` | src/thread_pool.rs:34-58 | in every reachable state jobs left the queue in submission order, and submitted jobs are queued, running or finished, as often |
| `ThreadPool.Progress` | src/thread_pool.rs:44-83 | until drop has returned, some thread can step |
| `ThreadPool.DropReturnsWhenDone` | src/thread_pool.rs:69-83 | drop returns only when every job has run exactly once and all workers are gone |
| `ThreadPool.EveryScheduleReturns` | src/thread_pool.rs:17-83 | every schedule ends with drop returned, after the same number of steps |
| `ThreadPool.JobsRunSideBySide` | src/thread_pool.rs:34-58 | a pool of as many workers as jobs can come to run all of them at the same time |
| `ThreadPool.OneReceives` | src/thread_pool.rs:44-58 | never do two workers hold the receiver |
| `Recovery.ReplaySetEx` | src/main.rs:119-124 | the deadline restarts at the replay, and one that cannot be represented panics |
| `Recovery.ReplayIncr` | src/main.rs:130-141 | INCR in replay, where anything that is no number counts as zero |
| `Recovery.IncrStartsAgain` | src/main.rs:130-141 | whatever is no number is replaced by 1 |
| `Recovery.ReplayLPush` | src/main.rs:142-146 | the arm carries out the record on the flat map |
| `Recovery.ReplayRPush` | src/main.rs:147-151 | the same |
| `Recovery.ReplayPop` | src/main.rs:152-159 | LPOP and RPOP in replay, counted on an empty list too |
| `Recovery.ReplayHSet` | src/main.rs:160-164 | the same |
| `Recovery.ReplaySAdd` | src/main.rs:165-169 | the same |
| `Recovery.ReplayLRem` | src/main.rs:170-177 | the same |
| `Recovery.ReplayMove` | src/main.rs:178-189 | RPOPLPUSH in replay, one shard after the other, is the atomic move of the flat map |
| `Recovery.ReplayOneCommand` | src/main.rs:113-191 | whichever arm, or none, the result is the replayed command; a deadline that cannot be represented panics |
| `Recovery.ReplayAof` | src/main.rs:102-195 | for any file, and a clock read at each record, the loop ends with the replay of the parsed log in the sharded store and the number of restored records, or panics exactly when a record has a deadline that cannot be represented then |
| `Recovery.LoggedIsRestored` | src/main.rs:113-193 | what a live command logged is counted as restored, but for LTRIM and a move whose element is lost |
| `Background.Disk.Replace` | src/main.rs:287-289 | a rename gives the name to a new file and leaves the old one to those who have it open |
| `Background.AofWriter.constructor` | src/main.rs:302-303 | the writer opens the named file |
| `Background.AofWriter.NothingMissing` | src/main.rs:306-324 | file and buffer together are what was there at the start and all records received |
| `Background.AofWriter.Receive` | src/main.rs:308-315 | one more record, flushed at 64 KiB; the file stays on a record boundary |
| `Background.AofWriter.Tick` | src/main.rs:317-323 | everything is flushed; the named file changes exactly when it is still the open one |
| `Background.AofWriter.Run` | src/main.rs:306-324 | the whole select loop: all records that arrive are received in order, and only the open file grows |
| `Background.AofWriter.CrashRecoversPrefix` | src/main.rs:296-324 | at any time between compactions, in the first session or a later one, replaying the named file recovers a state the run had and leaves a whole file |
| `Background.Sweep` | src/main.rs:205-238 | the store loses exactly its expired keys, and one DEL line per key is appended to the named file |
| `SweepOrder.SweepReplays` | src/main.rs:229-237 | DEL lines behind all earlier records carry the replayed state along with the sweep |
| `SweepOrder.SweepOvertakesOtherKeys` | src/main.rs:229-237 | DEL lines ahead of buffered records on other keys do no harm |
| `SweepOrder.SweepMayOvertake` | src/main.rs:205-238 | for any run cut in two, the second part still buffered when the swept keys' DEL lines are written: replay gives the swept keyspace exactly when no buffered record is on a swept key |
| `SweepOrder.OvertakenSetExReturns` | src/main.rs:229-237 | a swept key whose SETEX was still buffered is back after replay |
| `SweepLag.SweepMayLag` | src/main.rs:214-237 | records of a run that went on after the sweep stand before the DEL lines: unless an element escapes from a key replay still believes to hold the old string, replay agrees exactly when no swept key is present at the end |
| `SweepLag.EscapeSpoils` | src/main.rs:214-237 | the first such escape makes replay disagree at once |
| `SweepLag.SweepMayAlwaysLag` | src/main.rs:214-237 | replay agrees wherever in the run the DEL lines come exactly when no swept key is ever present |
| `SweepLag.EscapeCanHide` | src/main.rs:178-189 | a run at whose end no swept key is present and whose replay has lost an element all the same |
| `Background.PrintEntry` | src/main.rs:256-282 | the lines of one entry, in the order its hash or set was iterated |
| `Background.Compact` | src/main.rs:246-291 | the named file becomes the print of the keyspace for some iteration order |
| `Background.CompactThenWrite` | src/main.rs:246-324 | after a compaction, whatever the writer receives, the named file rebuilds the keyspace of that compaction exactly when it was clean |

## Left out

- Sockets, fsync, failing writes and renames, the timing of `select!`: appends and renames are
  atomic steps that succeed.
- Interleavings of compactor, writer and sweeper with each other and with clients: compaction and sweeping are atomic
  here. What their separate file handles do to the log is stated for one step at a time.
- Background.AofWriter.CrashRecoversPrefix: does not cover a file the sweeper wrote to; what its DEL lines do among
  the writer's records is `SweepOrder.SweepMayOvertake`.
- Locks.AscendingNeverStuck: assumes that every arm ends once it has its guards. An LTRIM whose tail loop hangs
  (`ListLaws.TrimTerminates`) keeps its shard for ever.
- Locks.EveryScheduleFinishes: makes the same assumption.
- Keyspace.Range: counts list positions without bound; the source counts them in 32 bits. So the members that meet the
  source's casts do not cover lists longer than a 32-bit integer can count:
- Server.TrimList: does not cover such lists.
- Server.LTrim: does not cover such lists.
- Server.ListSlice: does not cover such lists.
- Server.LRange: does not cover such lists.
- Server.ExecuteModelled: does not cover LTRIM and LRANGE on such lists.
- Server.Execute: does not give the replies of commands outside the string, list, hash, set and counter commands of the
  log. MGET and SCAN have methods of their own.
- Server.Serve: does not give these replies either.
- Resp.ReadResp: takes the memory that one allocation can get as a number and does not model what else uses memory.
- Replies are values; `Resp.EncodeReply` gives their bytes, and the writing of each arm into the output buffer is
  modelled for bulk strings and arrays only.
- INCR overflow wraps around as in a release build, which the Dockerfile makes; a debug build would panic.
- HGETALL, HGET, SMEMBERS, SINTER, EXISTS, TTL, PTTL, TYPE, STRLEN, LLEN, HLEN, SCARD, INFO, MEMORY, CLIENT: replies
  read off one entry.
- KEYS: the regex crate decides.
- PUBLISH, SUBSCRIBE, MONITOR: behaviour of Tokio's broadcast channels.
- AUTH, configuration, logger, web page. The password of AUTH is taken as bytes; the source replaces what is not UTF-8.
- Jobs of the thread pool that panic or never end.
