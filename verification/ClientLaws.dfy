/** What a client reads back: laws between commands and the replies to later ones. */
module ClientLaws {
  import opened Prelude
  import opened Decimal
  import opened Protocol
  import opened Keyspace
  import opened Durability
  import ListLaws

  // ---- Meanwhile ----

  /** None of the commands is on the key. */
  predicate LeavesAlone(run: seq<Timed>, k: Bytes) { forall t :: t in run ==> k !in KeysOf(t.command) }

  lemma OtherKeyKept(db: Store, c: Command, now: nat, k: Bytes)
    requires k !in KeysOf(c)
    ensures Look(LiveCommand(db, c, now).db, k) == Look(db, k)
  {
    if SingleKey(c) { PutFrame(db, c.key, LiveCell(Look(db, c.key), c, now).cell); }
  }

  lemma {:induction false} RunKeepsKey(db: Store, run: seq<Timed>, k: Bytes)
    requires LeavesAlone(run, k)
    ensures Look(LiveRun(db, run).db, k) == Look(db, k)
  {
    if run != [] {
      var front, t := run[..|run| - 1], run[|run| - 1];
      assert t in run;
      RunKeepsKey(db, front, k);
      OtherKeyKept(LiveRun(db, front).db, t.command, t.now, k);
    }
  }

  /** A command, and then a run on other keys. */
  function Meanwhile(db: Store, c: Command, now: nat, run: seq<Timed>): Store {
    LiveRun(LiveCommand(db, c, now).db, run).db
  }

  lemma KeptMeanwhile(db: Store, c: Command, now: nat, run: seq<Timed>)
    requires SingleKey(c) && LeavesAlone(run, c.key)
    ensures Look(Meanwhile(db, c, now, run), c.key) == LiveCell(Look(db, c.key), c, now).cell
  {
    PutFrame(db, c.key, LiveCell(Look(db, c.key), c, now).cell);
    RunKeepsKey(LiveCommand(db, c, now).db, run, c.key);
  }

  // ---- Strings ----

  /** What was set is read back, whatever was there before and whatever happened to other keys since. */
  lemma SetIsRead(db: Store, k: Bytes, v: Bytes, now: nat, run: seq<Timed>, later: nat)
    requires LeavesAlone(run, k)
    ensures LiveCommand(db, Set(k, v), now).reply == Okay
    ensures var d := Meanwhile(db, Set(k, v), now, run);
            LiveCommand(d, Get(k), later) == Result(d, [], Bulk(v))
  {
    KeptMeanwhile(db, Set(k, v), now, run);
    PutSame(Meanwhile(db, Set(k, v), now, run), k);
  }

  /** With a deadline it is read back exactly until then; the first GET behind it removes the key. */
  lemma SetExIsReadUntil(db: Store, k: Bytes, seconds: nat, v: Bytes, now: nat, run: seq<Timed>, later: nat)
    requires LeavesAlone(run, k) && now / NANOS + seconds <= I64_MAX
    ensures LiveCommand(db, SetEx(k, seconds, v), now).reply == Okay
    ensures var d := Meanwhile(db, SetEx(k, seconds, v), now, run);
            LiveCommand(d, Get(k), later) ==
            if later <= now + seconds * 1_000_000_000 then Result(d, [], Bulk(v)) else Result(d - {k}, [Del(k)], Nil)
  {
    KeptMeanwhile(db, SetEx(k, seconds, v), now, run);
    PutSame(Meanwhile(db, SetEx(k, seconds, v), now, run), k);
  }

  /** SETEX panics, and changes nothing, exactly when the clock cannot represent its deadline. */
  lemma SetExPanics(db: Store, k: Bytes, seconds: int, v: Bytes, now: nat)
    requires I64_MIN <= seconds <= I64_MAX
    ensures LiveCommand(db, SetEx(k, seconds, v), now).reply == Panics <==>
            seconds < 0 || now / NANOS + seconds > I64_MAX
    ensures LiveCommand(db, SetEx(k, seconds, v), now).reply == Panics ==>
              LiveCommand(db, SetEx(k, seconds, v), now) == Result(db, [], Panics)
  {
    PutSame(db, k);
  }

  /** A key that is not there is answered with nil. */
  lemma MissingIsNil(db: Store, k: Bytes, run: seq<Timed>, later: nat)
    requires k !in db && LeavesAlone(run, k)
    ensures var d := LiveRun(db, run).db; LiveCommand(d, Get(k), later) == Result(d, [], Nil)
  {
    RunKeepsKey(db, run, k);
    var d := LiveRun(db, run).db;
    assert Look(d, k) == None;
    PutSame(d, k);
  }

  /** DEL says whether the key was there; afterwards it is not, and a second DEL says so. */
  lemma DelIsGone(db: Store, k: Bytes, now: nat, run: seq<Timed>, later: nat)
    requires LeavesAlone(run, k)
    ensures LiveCommand(db, Del(k), now).reply == if k in db then Number(1) else Number(0)
    ensures var d := Meanwhile(db, Del(k), now, run);
            && LiveCommand(d, Get(k), later) == Result(d, [], Nil)
            && LiveCommand(d, Del(k), later) == Result(d, [], Number(0))
  {
    KeptMeanwhile(db, Del(k), now, run);
    var d := Meanwhile(db, Del(k), now, run);
    assert k !in LiveCommand(db, Del(k), now).db;
    MissingIsNil(LiveCommand(db, Del(k), now).db, k, run, later);
    assert Look(d, k) == None;
    PutSame(d, k);
  }

  /** A key that holds a list, a hash or a set answers GET with an error and keeps it. */
  lemma WrongTypeIsTold(db: Store, c: Command, now: nat, run: seq<Timed>, later: nat)
    requires (c.LPush? || c.RPush? || c.HSet? || c.SAdd?) && c.key !in db && LeavesAlone(run, c.key)
    ensures var d := Meanwhile(db, c, now, run); LiveCommand(d, Get(c.key), later) == Result(d, [], WRONG_TYPE)
  {
    KeptMeanwhile(db, c, now, run);
    PutSame(Meanwhile(db, c, now, run), c.key);
  }

  // ---- Numbers ----

  /** A 64-bit number that differs from the unbounded one by a multiple of 2^64. */
  lemma WrapIsCongruent(i: int) returns (turns: int)
    ensures I64_MIN <= Wrap64(i) <= I64_MAX && i == Wrap64(i) + turns * 0x1_0000_0000_0000_0000
  {
    turns := (i - I64_MIN) / 0x1_0000_0000_0000_0000;
  }

  lemma WrapNext(n: int)
    requires I64_MIN <= n <= I64_MAX
    ensures Wrap64(n + 1) == if n == I64_MAX then I64_MIN else n + 1
  {
  }

  lemma IncrNext(cell: Cell, k: Bytes, n: int, now: nat)
    requires I64_MIN <= n <= I64_MAX && cell.Some? && cell.value.value == Str(PrintInt(n))
    ensures var next := if n == I64_MAX then I64_MIN else n + 1;
            LiveCell(cell, Incr(k), now) ==
            Outcome(Some(Entry(Str(PrintInt(next)), None)), [Incr(k)], Number(next))
  {
    SignedRoundTrip(n, I64_MIN, I64_MAX);
    WrapNext(n);
  }

  /** What INCR makes of a numeral: the next one, which it answers and a GET reads, or from the greatest the least. */
  lemma IncrIsRead(db: Store, k: Bytes, n: int, now: nat, run: seq<Timed>, later: nat)
    requires LeavesAlone(run, k) && I64_MIN <= n <= I64_MAX
    requires k in db && db[k].value == Str(PrintInt(n))
    ensures var next := if n == I64_MAX then I64_MIN else n + 1;
            var d := Meanwhile(db, Incr(k), now, run);
            && LiveCommand(db, Incr(k), now).reply == Number(next)
            && LiveCommand(d, Get(k), later) == Result(d, [], Bulk(PrintInt(next)))
  {
    IncrNext(Look(db, k), k, n, now);
    KeptMeanwhile(db, Incr(k), now, run);
    PutSame(Meanwhile(db, Incr(k), now, run), k);
  }

  /** INCR starts from zero, and refuses what is no number without touching it. */
  lemma IncrRefuses(db: Store, k: Bytes, now: nat)
    ensures k !in db ==> LiveCommand(db, Incr(k), now).reply == Number(1)
    ensures k in db && !db[k].value.Str? ==> LiveCommand(db, Incr(k), now) == Result(db, [], WRONG_KIND)
    ensures k in db && db[k].value.Str? ==>
              (LiveCommand(db, Incr(k), now) == Result(db, [], NOT_INTEGER) <==> ParseI64(db[k].value.text).None?)
  {
    PutSame(db, k);
  }

  // ---- Lists ----

  /** The elements a client sees with LRANGE 0 -1. */
  function Listed(cell: Cell): seq<Bytes> {
    match cell
    case Some(Entry(List(items), _)) => items
    case _ => []
  }

  lemma WholeRange(items: seq<Bytes>)
    ensures Range(items, 0, -1) == items
  {
    if items != [] {
      ListLaws.RangeIsSlice(items, 0, |items| - 1);
      ListLaws.RangeFromTheEnd(items, |items| - 1, 0);
      assert items[0..|items|] == items;
    }
  }

  lemma ElementsAreSeen(db: Store, k: Bytes, now: nat)
    requires k in db ==> db[k].value.List?
    ensures LiveCommand(db, LRange(k, 0, -1), now) == Result(db, [], BulkArray(Listed(Look(db, k))))
  {
    PutSame(db, k);
    WholeRange(Listed(Look(db, k)));
    assert BulkArray([]) == Array([]);
  }

  /** The key may hold a list, or nothing. */
  predicate Listlike(db: Store, k: Bytes) { k in db ==> db[k].value.List? }

  /** A push puts its value at its end of the list and answers how many elements there are now. */
  lemma PushIsSeen(db: Store, k: Bytes, v: Bytes, now: nat)
    requires Listlike(db, k)
    ensures var items := Listed(Look(db, k));
            var l, r := LiveCommand(db, LPush(k, v), now), LiveCommand(db, RPush(k, v), now);
            && Listed(Look(l.db, k)) == [v] + items && l.reply == Number(|items| + 1)
            && Listed(Look(r.db, k)) == items + [v] && r.reply == Number(|items| + 1)
            && Listlike(l.db, k) && Listlike(r.db, k)
  {
    assert [v] + [] == [v] && [] + [v] == [v];
  }

  /** PushRun onto another type change nothing; LPUSH says so, RPUSH writes nothing. */
  lemma PushIsRefused(db: Store, k: Bytes, v: Bytes, now: nat)
    requires !Listlike(db, k)
    ensures LiveCommand(db, LPush(k, v), now) == Result(db, [], WRONG_KIND_PUSH)
    ensures LiveCommand(db, RPush(k, v), now) == Result(db, [], Silent)
  {
    PutSame(db, k);
  }

  /** A pop answers the element at its end and leaves the others, an empty list too. */
  lemma PopTakes(db: Store, k: Bytes, now: nat)
    requires k in db && db[k].value.List? && db[k].value.items != []
    ensures var items, l, r := db[k].value.items, LiveCommand(db, LPop(k), now), LiveCommand(db, RPop(k), now);
            && l.reply == Bulk(items[0]) && k in l.db && [items[0]] + Listed(Look(l.db, k)) == items
            && r.reply == Bulk(items[|items| - 1]) && k in r.db && Listed(Look(r.db, k)) + [items[|items| - 1]] == items
  {
  }

  /** Nothing to pop is nil, another type an error; neither changes anything. */
  lemma PopFindsNothing(db: Store, k: Bytes, now: nat, front: bool)
    ensures var r := LiveCommand(db, if front then LPop(k) else RPop(k), now);
            && (k !in db || db[k].value == List([]) ==> r == Result(db, [], Nil))
            && (!Listlike(db, k) ==> r == Result(db, [], WRONG_KIND))
  {
    PutSame(db, k);
  }

  function PushRun(k: Bytes, vs: seq<Bytes>, front: bool, now: nat): seq<Timed> {
    seq(|vs|, i requires 0 <= i < |vs| => Timed(if front then LPush(k, vs[i]) else RPush(k, vs[i]), now))
  }

  function Reversed(vs: seq<Bytes>): seq<Bytes> {
    if vs == [] then [] else [vs[|vs| - 1]] + Reversed(vs[..|vs| - 1])
  }

  /** The values in their order behind the list, or in the opposite order before it. */
  function AfterPushes(items: seq<Bytes>, vs: seq<Bytes>, front: bool): seq<Bytes> {
    if front then Reversed(vs) + items else items + vs
  }

  lemma PushedNext(items: seq<Bytes>, vs: seq<Bytes>, front: bool)
    requires vs != []
    ensures var some, last := vs[..|vs| - 1], vs[|vs| - 1];
            AfterPushes(items, vs, front) ==
            if front then [last] + AfterPushes(items, some, front) else AfterPushes(items, some, front) + [last]
  {
    var some, last := vs[..|vs| - 1], vs[|vs| - 1];
    AppendAssociates([last], Reversed(some), items);
    AppendAssociates(items, some, [last]);
    assert some + [last] == vs;
  }

  lemma PushesLast(k: Bytes, vs: seq<Bytes>, front: bool, now: nat)
    requires vs != []
    ensures var last := vs[|vs| - 1];
            PushRun(k, vs, front, now) ==
            PushRun(k, vs[..|vs| - 1], front, now) + [Timed(if front then LPush(k, last) else RPush(k, last), now)]
  {
  }

  lemma OneMoreSeen(db: Store, k: Bytes, vs: seq<Bytes>, front: bool, now: nat)
    requires vs != [] && Listlike(LiveRun(db, PushRun(k, vs[..|vs| - 1], front, now)).db, k)
    ensures var last, before := vs[|vs| - 1], LiveRun(db, PushRun(k, vs[..|vs| - 1], front, now)).db;
            var after := LiveRun(db, PushRun(k, vs, front, now)).db;
            && Listlike(after, k)
            && Listed(Look(after, k)) ==
               if front then [last] + Listed(Look(before, k)) else Listed(Look(before, k)) + [last]
  {
    var some, last := vs[..|vs| - 1], vs[|vs| - 1];
    PushesLast(k, vs, front, now);
    RunOf(db, PushRun(k, some, front, now), Timed(if front then LPush(k, last) else RPush(k, last), now));
    PushIsSeen(LiveRun(db, PushRun(k, some, front, now)).db, k, last, now);
  }

  /** A queue: values pushed to one end are listed in their order, to the other end in the opposite one. */
  lemma {:induction false} PushesAreSeen(db: Store, k: Bytes, vs: seq<Bytes>, front: bool, now: nat)
    requires Listlike(db, k)
    ensures var d := LiveRun(db, PushRun(k, vs, front, now)).db;
            && Listlike(d, k)
            && Listed(Look(d, k)) == AfterPushes(Listed(Look(db, k)), vs, front)
  {
    if vs == [] {
      assert [] + Listed(Look(db, k)) == Listed(Look(db, k)) + [] == Listed(Look(db, k));
    } else {
      PushesAreSeen(db, k, vs[..|vs| - 1], front, now);
      OneMoreSeen(db, k, vs, front, now);
      PushedNext(Listed(Look(db, k)), vs, front);
    }
  }

  lemma {:induction false} RemovedFirst(a: seq<Bytes>, v: Bytes, b: seq<Bytes>)
    requires v !in a
    ensures RemoveFirst(a + [v] + b, v) == a + b
  {
    var all := a + [v] + b;
    if a == [] {
      assert all[1..] == b && a + b == b;
    } else {
      assert all[0] == a[0] && all[1..] == a[1..] + [v] + b;
      RemovedFirst(a[1..], v, b);
      AppendAssociates([a[0]], a[1..], b);
    }
  }

  /** LREM removes the first element equal to the value and answers 1, or finds none and answers 0. */
  lemma RemIsSeen(db: Store, k: Bytes, count: int, a: seq<Bytes>, v: Bytes, b: seq<Bytes>, now: nat)
    requires k in db && db[k].value == List(a + [v] + b) && v !in a
    ensures var r := LiveCommand(db, LRem(k, count, v), now);
            r.reply == Number(1) && r.db == db[k := db[k].(value := List(a + b))]
  {
    RemovedFirst(a, v, b);
    assert (a + [v] + b)[|a|] == v;
  }

  lemma RemFindsNothing(db: Store, k: Bytes, count: int, v: Bytes, now: nat)
    requires v !in Listed(Look(db, k))
    ensures LiveCommand(db, LRem(k, count, v), now) == Result(db, [], Number(0))
  {
    PutSame(db, k);
  }

  /** RPOPLPUSH is an RPOP and an LPUSH of what it answered, onto the same key too. */
  lemma MoveIsPopAndPush(db: Store, s: Bytes, d: Bytes, now: nat)
    requires s in db && db[s].value.List? && db[s].value.items != []
    ensures var pop, move := LiveCommand(db, RPop(s), now), LiveCommand(db, RPopLPush(s, d), now);
            && pop.reply.Bulk? && move.reply == pop.reply
            && move.db == LiveCommand(pop.db, LPush(d, pop.reply.data), now).db
  {
    var pop := LiveCommand(db, RPop(s), now);
    var v := pop.reply.data;
    PutSame(pop.db, d);
    assert [v] + [] == [v];
  }

  /** With nothing to move it answers nil and changes nothing, whatever the source holds. */
  lemma MoveFindsNothing(db: Store, s: Bytes, d: Bytes, now: nat)
    requires s !in db || !db[s].value.List? || db[s].value.items == []
    ensures LiveCommand(db, RPopLPush(s, d), now) == Result(db, [], Nil)
  {
  }

  // ---- Hashes and sets ----

  /** HSET sets its field and leaves the others; another type is refused. */
  lemma HSetIsSeen(db: Store, k: Bytes, f: Bytes, v: Bytes, now: nat)
    ensures var r := LiveCommand(db, HSet(k, f, v), now);
            if k in db && !db[k].value.Hash? then r == Result(db, [], WRONG)
            else
              && r.reply == Okay && k in r.db && r.db[k].value.Hash?
              && f in r.db[k].value.fields && r.db[k].value.fields[f] == v
              && forall g :: g != f ==>
                   if k in db && g in db[k].value.fields
                   then g in r.db[k].value.fields && r.db[k].value.fields[g] == db[k].value.fields[g]
                   else g !in r.db[k].value.fields
  {
    PutSame(db, k);
  }

  /** SADD answers whether the member is new, and writes a record only then; a second SADD answers 0. */
  lemma SAddIsSeen(db: Store, k: Bytes, m: Bytes, now: nat)
    ensures var r := LiveCommand(db, SAdd(k, m), now);
            if k in db && !db[k].value.Members? then r == Result(db, [], Number(0))
            else
              && k in r.db && r.db[k].value.Members? && m in r.db[k].value.members
              && (forall x :: x != m ==>
                    (x in r.db[k].value.members <==> k in db && x in db[k].value.members))
              && r.reply == (if k in db && m in db[k].value.members then Number(0) else Number(1))
              && (r.log == [] <==> r.reply == Number(0))
              && LiveCommand(r.db, SAdd(k, m), now) == Result(r.db, [], Number(0))
  {
    PutSame(db, k);
    PutSame(LiveCommand(db, SAdd(k, m), now).db, k);
  }
}
