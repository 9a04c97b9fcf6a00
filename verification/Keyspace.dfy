/** What each command does to the keyspace, live (server.rs) and during replay (main.rs). */
module Keyspace {
  import opened Prelude
  import opened Decimal
  import opened Protocol

  datatype Value =
    | Str(text: Bytes)
    | List(items: seq<Bytes>)
    | Hash(fields: map<Bytes, Bytes>)
    | Members(members: set<Bytes>)

  datatype Entry = Entry(value: Value, expiresAt: Option<nat>)

  /** The slot of one key: absent, or holding an entry. */
  type Cell = Option<Entry>

  type Store = map<Bytes, Entry>

  function Look(db: Store, k: Bytes): Cell { if k in db then Some(db[k]) else None }

  function Put(db: Store, k: Bytes, cell: Cell): Store {
    match cell
    case Some(e) => db[k := e]
    case None => db - {k}
  }

  lemma SameStore(a: Store, b: Store)
    requires forall k :: Look(a, k) == Look(b, k)
    ensures a == b
  {
    forall k
      ensures k in a <==> k in b
      ensures k in a ==> a[k] == b[k]
    {
      assert Look(a, k) == Look(b, k);
    }
  }

  lemma PutFrame(db: Store, k: Bytes, cell: Cell)
    ensures Look(Put(db, k, cell), k) == cell
    ensures forall j :: j != k ==> Look(Put(db, k, cell), j) == Look(db, j)
  {
  }

  lemma PutSame(db: Store, k: Bytes)
    ensures Put(db, k, Look(db, k)) == db
  {
  }

  // ---- Time ----

  /** Clock readings are nanoseconds since the epoch. */
  const NANOS: nat := 1_000_000_000

  /** `SystemTime::now() + Duration::from_secs(seconds as u64)`; None when the addition panics. */
  function Deadline(now: nat, seconds: int): Option<nat> {
    var s := if seconds < 0 then seconds + 0x1_0000_0000_0000_0000 else seconds;
    if 0 <= s && now / NANOS + s <= I64_MAX then Some(now + s * NANOS) else None
  }

  predicate Expired(e: Entry, now: nat) { e.expiresAt.Some? && now > e.expiresAt.value }

  // ---- Replies ----

  datatype Reply =
    | Okay | Number(n: int) | Bulk(data: Bytes) | Nil | Error(message: Bytes) | Array(elements: seq<Reply>)
    | Silent   // nothing is written
    | Panics   // the connection task dies
    | Hangs    // the arm never finishes

  const NOT_INTEGER := Error("ERR Value is not an integer or out of range")

  const WRONG := Error("WRONGTYPE")

  const WRONG_KIND_PUSH := Error("WRONGTYPE Operation against a key holding the wrong kind of value ")

  const WRONG_TYPE := Error("WRONGTYPE Operation against a key holding the wrong type of value")

  const WRONG_KIND := Error("WRONGTYPE Operation against a key holding the wrong kind of value")

  // ---- Lists ----

  /** A list index of the client: negative ones count from the end. */
  function Norm(i: int, len: nat): int { if i < 0 then len + i else i }

  /** The elements whose positions, counted from `base`, lie between `lo` and `hi`. */
  function Between(items: seq<Bytes>, base: int, lo: int, hi: int): seq<Bytes> {
    if items == [] then []
    else (if lo <= base <= hi then [items[0]] else []) + Between(items[1..], base + 1, lo, hi)
  }

  /** The elements a client asks for with a start and a stop index. */
  function Range(items: seq<Bytes>, start: int, stop: int): seq<Bytes> {
    Between(items, 0, Norm(start, |items|), Norm(stop, |items|))
  }

  /** The tail loop of LTRIM waits for a length below zero. */
  predicate TrimHangs(len: nat, start: int, stop: int) {
    Norm(start, len) <= Norm(stop, len) < -1
  }

  function RemoveFirst(items: seq<Bytes>, v: Bytes): seq<Bytes> {
    if items == [] then []
    else if items[0] == v then items[1..]
    else [items[0]] + RemoveFirst(items[1..], v)
  }

  /** 64-bit wrap-around of a release build. */
  function Wrap64(i: int): int { (i - I64_MIN) % 0x1_0000_0000_0000_0000 + I64_MIN }

  // ---- One live command on the cell of its key ----

  datatype Outcome = Outcome(cell: Cell, log: seq<Command>, reply: Reply)

  /** Commands whose arm locks one shard for one key. */
  predicate SingleKey(c: Command) {
    c.Set? || c.SetEx? || c.Get? || c.Del? || c.Incr? || c.LPush? || c.RPush? || c.LPop? || c.RPop? ||
    c.LTrim? || c.LRange? || c.LRem? || c.HSet? || c.SAdd?
  }

  function PushOutcome(cell: Cell, c: Command, front: bool): Outcome
    requires c.LPush? || c.RPush?
  {
    match cell
    case None => Outcome(Some(Entry(List([c.value]), None)), [c], Number(1))
    case Some(Entry(List(items), exp)) =>
      var items' := if front then [c.value] + items else items + [c.value];
      Outcome(Some(Entry(List(items'), exp)), [c], Number(|items'|))
    case _ => Outcome(cell, [], if front then WRONG_KIND_PUSH else Silent)
  }

  function PopOutcome(cell: Cell, c: Command, front: bool): Outcome {
    match cell
    case None => Outcome(cell, [], Nil)
    case Some(Entry(List(items), exp)) =>
      if items == [] then Outcome(cell, [], Nil)
      else if front then Outcome(Some(Entry(List(items[1..]), exp)), [c], Bulk(items[0]))
      else Outcome(Some(Entry(List(items[..|items| - 1]), exp)), [c], Bulk(items[|items| - 1]))
    case _ => Outcome(cell, [], WRONG_KIND)
  }

  function Incremented(c: Command, n: int): Outcome {
    Outcome(Some(Entry(Str(PrintInt(Wrap64(n + 1))), None)), [c], Number(Wrap64(n + 1)))
  }

  function IncrOutcome(cell: Cell, c: Command): Outcome {
    match cell
    case None => Incremented(c, 0)
    case Some(Entry(Str(text), _)) =>
      (match ParseI64(text)
       case Some(n) => Incremented(c, n)
       case None => Outcome(cell, [], NOT_INTEGER))
    case _ => Outcome(cell, [], WRONG_KIND)
  }

  function TrimOutcome(cell: Cell, c: Command): Outcome
    requires c.LTrim?
  {
    match cell
    case None => Outcome(None, [], Okay)
    case Some(Entry(List(items), exp)) =>
      var kept := Range(items, c.start, c.stop);
      if TrimHangs(|items|, c.start, c.stop) then Outcome(Some(Entry(List([]), exp)), [], Hangs)
      else if kept == [] then Outcome(None, [c], Okay)
      else Outcome(Some(Entry(List(kept), exp)), [c], Okay)
    case _ => Outcome(cell, [], WRONG_KIND)
  }

  function BulkArray(items: seq<Bytes>): Reply {
    Array(seq(|items|, i requires 0 <= i < |items| => Bulk(items[i])))
  }

  function RangeReply(cell: Cell, start: int, stop: int): Reply {
    match cell
    case None => Array([])
    case Some(Entry(List(items), _)) => BulkArray(Range(items, start, stop))
    case _ => WRONG_KIND
  }

  function LiveCell(cell: Cell, c: Command, now: nat): Outcome
    requires SingleKey(c)
  {
    match c
    case Set(_, v) => Outcome(Some(Entry(Str(v), None)), [c], Okay)
    case SetEx(_, s, v) =>
      (match Deadline(now, s)
       case Some(t) => Outcome(Some(Entry(Str(v), Some(t))), [c], Okay)
       case None => Outcome(cell, [], Panics))
    case Get(k) =>
      if cell.None? then Outcome(None, [], Nil)
      else if Expired(cell.value, now) then Outcome(None, [Del(k)], Nil)
      else Outcome(cell, [], if cell.value.value.Str? then Bulk(cell.value.value.text) else WRONG_TYPE)
    case Del(_) => if cell.Some? then Outcome(None, [c], Number(1)) else Outcome(None, [], Number(0))
    case Incr(_) => IncrOutcome(cell, c)
    case LPush(_, _) => PushOutcome(cell, c, true)
    case RPush(_, _) => PushOutcome(cell, c, false)
    case LPop(_) => PopOutcome(cell, c, true)
    case RPop(_) => PopOutcome(cell, c, false)
    case LTrim(_, _, _) => TrimOutcome(cell, c)
    case LRange(_, start, stop) => Outcome(cell, [], RangeReply(cell, start, stop))
    case LRem(k, _, v) =>
      (match cell
       case Some(Entry(List(items), exp)) =>
         if v in items then Outcome(Some(Entry(List(RemoveFirst(items, v)), exp)), [LRem(k, 1, v)], Number(1))
         else Outcome(cell, [], Number(0))
       case _ => Outcome(cell, [], Number(0)))
    case HSet(_, f, v) =>
      (match cell
       case None => Outcome(Some(Entry(Hash(map[f := v]), None)), [c], Okay)
       case Some(Entry(Hash(fields), exp)) => Outcome(Some(Entry(Hash(fields[f := v]), exp)), [c], Okay)
       case _ => Outcome(cell, [], WRONG))
    case SAdd(_, m) =>
      (match cell
       case None => Outcome(Some(Entry(Members({m}), None)), [c], Number(1))
       case Some(Entry(Members(ms), exp)) =>
         if m in ms then Outcome(cell, [], Number(0))
         else Outcome(Some(Entry(Members(ms + {m}), exp)), [c], Number(1))
       case _ => Outcome(cell, [], Number(0)))
  }

  // ---- Live commands on the whole keyspace ----

  datatype Result = Result(db: Store, log: seq<Command>, reply: Reply)

  /** `entry().or_insert_with(empty list)` and a push that is skipped on another type. */
  function PushedFront(cell: Cell, v: Bytes): Cell {
    match cell
    case None => Some(Entry(List([v]), None))
    case Some(Entry(List(items), exp)) => Some(Entry(List([v] + items), exp))
    case _ => cell
  }

  /** Pop from the tail of the source, then push to the head of the destination. */
  function MoveTail(db: Store, source: Bytes, destination: Bytes): Option<(Bytes, Store)> {
    match Look(db, source)
    case Some(Entry(List(items), exp)) =>
      if items == [] then None
      else
        var v := items[|items| - 1];
        var popped := db[source := Entry(List(items[..|items| - 1]), exp)];
        Some((v, Put(popped, destination, PushedFront(Look(popped, destination), v))))
    case _ => None
  }

  function LiveCommand(db: Store, c: Command, now: nat): Result {
    if SingleKey(c) then
      var o := LiveCell(Look(db, c.key), c, now);
      Result(Put(db, c.key, o.cell), o.log, o.reply)
    else if c.RPopLPush? then
      match MoveTail(db, c.source, c.destination)
      case Some((v, db')) => Result(db', [c], Bulk(v))
      case None => Result(db, [], Nil)
    else Result(db, [], Silent)
  }

  /** The keys whose entries a command reads or writes. */
  function KeysOf(c: Command): set<Bytes> {
    if SingleKey(c) then {c.key} else if c.RPopLPush? then {c.source, c.destination} else {}
  }

  // ---- Replay ----

  /** Replay of a single-key record on the cell of its key. */
  function ReplayCell(cell: Cell, c: Command, now: nat): Cell
    requires SingleKey(c)
  {
    match c
    case Set(_, v) => Some(Entry(Str(v), None))
    case SetEx(_, s, v) => (match Deadline(now, s) case Some(t) => Some(Entry(Str(v), Some(t))) case None => cell)
    case Del(_) => None
    case Incr(_) =>
      var current := match cell
        case Some(Entry(Str(text), _)) => (match ParseI64(text) case Some(n) => n case None => 0)
        case _ => 0;
      Some(Entry(Str(PrintInt(Wrap64(current + 1))), None))
    case LPush(_, v) => PushedFront(cell, v)
    case RPush(_, v) =>
      (match cell
       case None => Some(Entry(List([v]), None))
       case Some(Entry(List(items), exp)) => Some(Entry(List(items + [v]), exp))
       case _ => cell)
    case LPop(_) =>
      (match cell
       case Some(Entry(List(items), exp)) => Some(Entry(List(if items == [] then [] else items[1..]), exp))
       case _ => cell)
    case RPop(_) =>
      (match cell
       case Some(Entry(List(items), exp)) =>
         Some(Entry(List(if items == [] then [] else items[..|items| - 1]), exp))
       case _ => cell)
    case HSet(_, f, v) =>
      (match cell
       case None => Some(Entry(Hash(map[f := v]), None))
       case Some(Entry(Hash(fields), exp)) => Some(Entry(Hash(fields[f := v]), exp))
       case _ => cell)
    case SAdd(_, m) =>
      (match cell
       case None => Some(Entry(Members({m}), None))
       case Some(Entry(Members(ms), exp)) => Some(Entry(Members(ms + {m}), exp))
       case _ => cell)
    case LRem(_, _, v) =>
      (match cell
       case Some(Entry(List(items), exp)) => Some(Entry(List(RemoveFirst(items, v)), exp))
       case _ => cell)
    case _ => cell
  }

  /** A SETEX record whose deadline cannot be represented makes replay panic. */
  predicate Replayable(c: Command, now: nat) { c.SetEx? ==> Deadline(now, c.seconds).Some? }

  function ReplayCommand(db: Store, c: Command, now: nat): Option<Store> {
    if !Replayable(c, now) then None
    else if SingleKey(c) then Some(Put(db, c.key, ReplayCell(Look(db, c.key), c, now)))
    else if c.RPopLPush? then
      match MoveTail(db, c.source, c.destination)
      case Some((_, db')) => Some(db')
      case None => Some(db)
    else Some(db)
  }

  function ReplayAll(db: Store, cs: seq<Command>, now: nat): Option<Store>
    decreases |cs|
  {
    if cs == [] then Some(db)
    else
      match ReplayCommand(db, cs[0], now)
      case Some(db') => ReplayAll(db', cs[1..], now)
      case None => None
  }

  predicate RecordsReplayable(cs: seq<Command>, now: nat) { forall c :: c in cs ==> Replayable(c, now) }

  /** Replay panics exactly when one of its records has a deadline that cannot be represented. */
  lemma {:induction false} ReplayPanics(db: Store, cs: seq<Command>, now: nat)
    ensures ReplayAll(db, cs, now).Some? <==> RecordsReplayable(cs, now)
    decreases |cs|
  {
    if cs != [] {
      assert cs == [cs[0]] + cs[1..];
      if Replayable(cs[0], now) { ReplayPanics(ReplayCommand(db, cs[0], now).value, cs[1..], now); }
    }
  }

  /** Replay as it runs: record `i` is carried out at the clock reading `clock(i)`. */
  function ReplayClocked(db: Store, cs: seq<Command>, clock: nat -> nat, i: nat): Option<Store>
    decreases |cs|
  {
    if cs == [] then Some(db)
    else
      match ReplayCommand(db, cs[0], clock(i))
      case Some(db') => ReplayClocked(db', cs[1..], clock, i + 1)
      case None => None
  }

  ghost predicate ClockReplayable(cs: seq<Command>, clock: nat -> nat, i: nat) {
    forall j :: 0 <= j < |cs| ==> Replayable(cs[j], clock(i + j))
  }

  lemma {:induction false} ClockedPanics(db: Store, cs: seq<Command>, clock: nat -> nat, i: nat)
    ensures ReplayClocked(db, cs, clock, i).Some? <==> ClockReplayable(cs, clock, i)
    decreases |cs|
  {
    if cs != [] {
      var rest := cs[1..];
      assert Replayable(cs[0], clock(i + 0)) <==> ReplayCommand(db, cs[0], clock(i)).Some?;
      if Replayable(cs[0], clock(i)) {
        ClockedPanics(ReplayCommand(db, cs[0], clock(i)).value, rest, clock, i + 1);
        assert forall j :: 0 <= j < |rest| ==> rest[j] == cs[j + 1] && i + 1 + j == i + (j + 1);
        if ClockReplayable(rest, clock, i + 1) {
          forall j | 0 <= j < |cs|
            ensures Replayable(cs[j], clock(i + j))
          {
            if j > 0 { assert Replayable(rest[j - 1], clock(i + 1 + (j - 1))); }
          }
        }
      }
    }
  }

  lemma ReplayOne(db: Store, c: Command, now: nat)
    ensures ReplayAll(db, [c], now) == ReplayCommand(db, c, now)
  {
    assert [c][1..] == [];
  }

  lemma {:induction false} ReplayAppend(db: Store, a: seq<Command>, b: seq<Command>, now: nat)
    ensures ReplayAll(db, a + b, now) ==
            match ReplayAll(db, a, now) case Some(mid) => ReplayAll(mid, b, now) case None => None
    decreases |a|
  {
    if a == [] {
      assert a + b == b;
    } else {
      assert (a + b)[1..] == a[1..] + b;
      match ReplayCommand(db, a[0], now) {
        case Some(mid) => ReplayAppend(mid, a[1..], b, now);
        case None =>
      }
    }
  }

  /** Same value, and a deadline on both or on neither: replay restarts the clocks of its keys. */
  predicate SimilarCell(a: Cell, b: Cell) {
    && a.Some? == b.Some?
    && (a.Some? ==> a.value.value == b.value.value && a.value.expiresAt.Some? == b.value.expiresAt.Some?)
  }

  ghost predicate Similar(a: Store, b: Store) {
    forall k :: SimilarCell(Look(a, k), Look(b, k))
  }
}
