/** The background services of main.rs: the log writer, the expiration sweeper and the compactor, with their files. */
module Background {
  import opened Prelude
  import opened Protocol
  import opened Keyspace
  import opened LogText
  import opened Durability
  import opened Expiry
  import opened Compaction
  import opened CompactionExact
  import opened SweepOrder
  import opened Engine

  // ---- Files ----

  /** A directory with one name, database.aof; a file that lost the name lives on for those who have it open. */
  class Disk {
    var files: seq<Bytes>
    var named: nat

    predicate Valid()
      reads this
    {
      named < |files|
    }

    function Content(): Bytes
      requires Valid()
      reads this
    {
      files[named]
    }

    constructor (content: Bytes)
      ensures Valid() && Content() == content && files == [content]
    {
      files, named := [content], 0;
    }

    method Append(handle: nat, text: Bytes)
      requires Valid() && handle < |files|
      modifies this`files
      ensures files == old(files)[handle := old(files[handle]) + text]
    {
      files := files[handle := files[handle] + text];
    }

    /** Write a new file and rename it over the old one. */
    method Replace(text: Bytes)
      modifies this
      ensures Valid() && files == old(files) + [text] && named == |old(files)|
    {
      files, named := files + [text], |files|;
    }
  }

  // ---- The writer ----

  const BATCH: nat := 64 * 1024

  /** What wakes the writer: a record from the channel, or the one-second tick. */
  datatype Wake = Arrived(record: Command) | Second

  function RecordsOf(wakes: seq<Wake>): seq<Command> {
    if wakes == [] then []
    else
      var last := wakes[|wakes| - 1];
      RecordsOf(wakes[..|wakes| - 1]) + if last.Arrived? then [last.record] else []
  }

  lemma {:induction false} RecordsSoFar(wakes: seq<Wake>, n: nat)
    requires n <= |wakes|
    ensures forall c :: c in RecordsOf(wakes[..n]) ==> c in RecordsOf(wakes)
    decreases |wakes|
  {
    if n < |wakes| {
      RecordsSoFar(wakes[..|wakes| - 1], n);
      assert wakes[..|wakes| - 1][..n] == wakes[..n];
    } else {
      assert wakes[..n] == wakes;
    }
  }

  lemma OneWake(wake: Wake)
    ensures RecordsOf([wake]) == if wake.Arrived? then [wake.record] else []
  {
    assert [wake][..0] == [];
  }

  lemma WakesNext(wakes: seq<Wake>, i: nat)
    requires i < |wakes| && AllLogged(RecordsOf(wakes))
    ensures RecordsOf(wakes[..i + 1]) == RecordsOf(wakes[..i]) + RecordsOf([wakes[i]])
    ensures AllLogged(RecordsOf([wakes[i]]))
  {
    assert wakes[..i + 1][..i] == wakes[..i];
    OneWake(wakes[i]);
    RecordsSoFar(wakes, i + 1);
    assert forall c :: c in RecordsOf([wakes[i]]) ==> c in RecordsOf(wakes[..i + 1]);
  }

  /** Collects records in a buffer and appends them to the file it opened at the start. */
  class AofWriter {
    const disk: Disk
    const handle: nat
    var buffer: Bytes
    /** What the file held when it was opened, the records received since, and how many of them are in the file. */
    ghost const start: Bytes
    ghost var received: seq<Command>
    ghost var written: nat

    ghost predicate Valid()
      reads this, disk
    {
      && disk.Valid() && handle < |disk.files| && AllLogged(received) && written <= |received|
      && disk.files[handle] == start + PrintLog(received[..written], Live)
      && buffer == PrintLog(received[written..], Live)
      && |buffer| < BATCH
    }

    constructor (disk: Disk)
      requires disk.Valid()
      ensures this.disk == disk && handle == disk.named && start == disk.Content() && received == []
      ensures Valid() && written == 0
    {
      this.disk, handle, buffer := disk, disk.named, "";
      start, received, written := disk.Content(), [], 0;
      new;
      assert start + PrintLog([], Live) == start;
    }

    lemma NothingMissingSoFar(records: seq<Command>, n: nat)
      requires AllLogged(records) && n <= |records|
      ensures (start + PrintLog(records[..n], Live)) + PrintLog(records[n..], Live) == start + PrintLog(records, Live)
    {
      PrintLogSplit(records, n, Live);
      AppendAssociates(start, PrintLog(records[..n], Live), PrintLog(records[n..], Live));
    }

    /** File and buffer together are what was there at the start and all records received. */
    lemma NothingMissing()
      requires Valid()
      ensures disk.files[handle] + buffer == start + PrintLog(received, Live)
    {
      NothingMissingSoFar(received, written);
    }

    method Flush()
      requires disk.Valid() && handle < |disk.files| && AllLogged(received) && written <= |received|
      requires disk.files[handle] == start + PrintLog(received[..written], Live)
      requires buffer == PrintLog(received[written..], Live)
      modifies this, disk`files
      ensures Valid() && received == old(received) && written == |received| && buffer == ""
      ensures disk.files == old(disk.files)[handle := old(disk.files[handle]) + old(buffer)]
    {
      NothingMissingSoFar(received, written);
      disk.Append(handle, buffer);
      buffer, written := "", |received|;
      assert received[..|received|] == received && received[|received|..] == [];
    }

    static lemma Buffered(records: seq<Command>, n: nat, record: Command)
      requires AllLogged(records) && n <= |records| && Logged(record) && InRange(record)
      ensures var more := records + [record];
              && AllLogged(more) && more[..n] == records[..n]
              && PrintLog(more[n..], Live) == PrintLog(records[n..], Live) + PrintRecord(record, Live)
    {
      var tail := records[n..];
      assert AllLogged(tail);
      PrintLogLast(tail, record, Live);
      assert (records + [record])[n..] == tail + [record];
    }

    /** A record arrives from the channel; a full buffer is flushed at once. */
    method Receive(log: Bytes, ghost record: Command)
      requires Valid() && Logged(record) && InRange(record) && log == PrintRecord(record, Live)
      modifies this, disk`files
      ensures Valid() && received == old(received) + [record]
      ensures disk.files == old(disk.files)[handle := disk.files[handle]]
      ensures if |old(buffer)| + |log| >= 65_536 then written == |received| else written == old(written)
    {
      Buffered(received, written, record);
      buffer := buffer + log;
      received := received + [record];
      if |buffer| >= BATCH {
        Flush();
      }
    }

    lemma EmptyPrint(records: seq<Command>)
      requires AllLogged(records) && PrintLog(records, Live) == ""
      ensures records == []
    {
    }

    /** Once a second whatever is buffered is flushed. */
    method Tick()
      requires Valid()
      modifies this, disk`files
      ensures Valid() && received == old(received) && written == |received| && buffer == ""
      ensures disk.files == old(disk.files)[handle := disk.files[handle]]
      // Replay will see what was buffered exactly when no compaction has renamed another file over the open one.
      ensures old(buffer) != "" ==> (disk.Content() != old(disk.Content()) <==> disk.named == handle)
    {
      if buffer != "" {
        Flush();
      } else {
        EmptyPrint(received[written..]);
        assert received[..written] == received;
        written := |received|;
        assert received[|received|..] == [];
      }
    }

    /** One round of the select loop. */
    method WakeUp(wake: Wake)
      requires Valid() && AllLogged(RecordsOf([wake]))
      modifies this, disk`files
      ensures Valid() && received == old(received) + RecordsOf([wake])
      ensures disk.files == old(disk.files)[handle := disk.files[handle]]
      ensures old(disk.files[handle]) <= disk.files[handle]
    {
      OneWake(wake);
      match wake {
        case Arrived(record) =>
          assert record in RecordsOf([wake]);
          Receive(PrintRecord(record, Live), record);
        case Second => Tick();
      }
      WrittenOnly(old(received), old(written), received, written);
    }

    lemma WrittenOnly(before: seq<Command>, n: nat, after: seq<Command>, m: nat)
      requires AllLogged(after) && before <= after && n <= |before| && n <= m <= |after| && AllLogged(before)
      ensures start + PrintLog(before[..n], Live) <= start + PrintLog(after[..m], Live)
    {
      assert after[..m][..n] == before[..n];
      PrintLogSplit(after[..m], n, Live);
    }

    /** The select loop: whatever arrives on the channel, and ticks in between. */
    method Run(wakes: seq<Wake>)
      requires Valid() && AllLogged(RecordsOf(wakes))
      modifies this, disk`files
      ensures Valid() && received == old(received) + RecordsOf(wakes)
      ensures disk.files == old(disk.files)[handle := disk.files[handle]]
      ensures old(disk.files[handle]) <= disk.files[handle]
    {
      assert wakes[..0] == [];
      for i := 0 to |wakes|
        invariant Valid() && received == old(received) + RecordsOf(wakes[..i])
        invariant disk.files == old(disk.files)[handle := disk.files[handle]]
        invariant old(disk.files[handle]) <= disk.files[handle]
      {
        WakesNext(wakes, i);
        WakeUp(wakes[i]);
        AppendAssociates(old(received), RecordsOf(wakes[..i]), RecordsOf([wakes[i]]));
      }
      assert wakes[..|wakes|] == wakes;
    }

    /**
      A crash at any time of any session: as long as the file is still the named one, and what it held at the start was
      whole and replayed to `base`, replaying it again recovers a state that the run served since really had, unless a
      deadline cannot be represented any more. The file left behind is whole, so this holds for the next session too.
     */
    lemma CrashRecoversPrefix(base: Store, boot: nat -> nat, run: seq<Timed>, clock: nat -> nat) returns (i: nat)
      requires Valid() && disk.named == handle
      requires Whole(start) && ReplayClocked(map[], ParseLog(start), boot, 0) == Some(base)
      requires WellTyped(run) && TrimsIdle(base, run) && LogsCleanly(base, run)
      requires received <= LiveRun(base, run).log
      ensures i <= |run| && Whole(disk.Content())
      ensures match ReplayClocked(map[], ParseLog(disk.Content()), clock, 0)
              case Some(next) => Similar(LiveRun(base, run[..i]).db, next)
              case None => !ClockReplayable(ParseLog(start) + LiveRun(base, run).log[..written], clock, 0)
    {
      i := RestartRecovers(start, base, boot, run, written, clock);
      assert LiveRun(base, run).log[..written] == received[..written];
    }
  }

  // ---- The sweeper ----

  /** The expired keys of one shard, in its iteration order. */
  method ShardExpired(shard: Store, now: nat) returns (keys: seq<Bytes>)
    ensures ExpiredKeys(shard, now, keys)
  {
    var all := Enumerate(shard.Keys);
    keys := [];
    for i := 0 to |all|
      invariant Lists(keys, set k | k in all[..i] && Expired(shard[k], now))
    {
      var k := all[i];
      assert all[..i + 1] == all[..i] + [k];
      assert k !in all[..i];
      if Expired(shard[k], now) {
        ListsAppend(keys, [k], (set j | j in all[..i] && Expired(shard[j], now)), {k});
        keys := keys + [k];
      }
      assert (set j | j in all[..i + 1] && Expired(shard[j], now)) ==
             (set j | j in all[..i] && Expired(shard[j], now)) + if Expired(shard[k], now) then {k} else {};
    }
    assert all[..|all|] == all;
  }

  lemma WithoutNext(db: Store, keys: seq<Bytes>, i: nat)
    requires i < |keys|
    ensures Put(Without(db, keys[..i]), keys[i], None) == Without(db, keys[..i + 1])
  {
    assert keys[..i + 1] == keys[..i] + [keys[i]];
  }

  /** Remove the listed keys of one shard from the store. */
  method RemoveAll(db: ShardedDb, keys: seq<Bytes>)
    requires db.Valid()
    modifies db.shards
    ensures db.Valid() && db.Flat() == Without(old(db.Flat()), keys)
  {
    ghost var before := db.Flat();
    assert Without(before, keys[..0]) == before;
    for i := 0 to |keys|
      invariant db.Valid() && db.Flat() == Without(before, keys[..i])
    {
      WithoutNext(before, keys, i);
      var shard := db.Guarded(keys[i]);
      db.Update(keys[i], shard - {keys[i]}, None);
    }
    assert keys[..|keys|] == keys;
  }

  /** The expired keys of the shards below `i`. */
  ghost function ExpiredBelow(db: ShardedDb, flat: Store, now: nat, i: nat): set<Bytes> {
    set k | k in flat && Expired(flat[k], now) && db.ShardIndex(k) < i
  }

  lemma SweptBelow(db: ShardedDb, flat: Store, now: nat, i: nat, keys: seq<Bytes>, more: seq<Bytes>)
    requires db.Valid() && i < SHARD_COUNT && Lists(keys, ExpiredBelow(db, flat, now, i))
    requires db.Flat() == Without(flat, keys) && ExpiredKeys(db.shards[i], now, more)
    ensures Lists(keys + more, ExpiredBelow(db, flat, now, i + 1))
    ensures Without(Without(flat, keys), more) == Without(flat, keys + more)
  {
    var shard := db.shards[i];
    var dead := set k | k in shard && Expired(shard[k], now);
    var seen := ExpiredBelow(db, flat, now, i);
    forall k
      ensures k in dead <==> k in flat && Expired(flat[k], now) && db.ShardIndex(k) == i
    {
      FlattenLook(db.shards[..], db.Route(), k);
      assert Look(db.Flat(), k) == Look(db.shards[db.ShardIndex(k)], k);
      assert k in db.Flat() ==> db.Flat()[k] == flat[k];
      assert k in seen <==> k in keys;
      db.ShardKeys(i);
    }
    ListsAppend(keys, more, seen, dead);
    assert seen + dead == ExpiredBelow(db, flat, now, i + 1);
  }

  lemma AllSwept(db: ShardedDb, flat: Store, now: nat, keys: seq<Bytes>)
    requires Lists(keys, ExpiredBelow(db, flat, now, SHARD_COUNT))
    ensures ExpiredKeys(flat, now, keys) && Without(flat, keys) == Swept(flat, now)
  {
    assert ExpiredBelow(db, flat, now, SHARD_COUNT) == set k | k in flat && Expired(flat[k], now);
  }

  lemma LineNext(before: Bytes, records: seq<Command>, c: Command)
    requires AllLogged(records) && Logged(c) && InRange(c)
    ensures AllLogged(records + [c])
    ensures before + PrintLog(records + [c], Live) == before + PrintLog(records, Live) + PrintRecord(c, Live)
  {
    PrintLogLast(records, c, Live);
    AppendAssociates(before, PrintLog(records, Live), PrintRecord(c, Live));
  }

  lemma DelLine(before: Bytes, keys: seq<Bytes>, i: nat)
    requires i < |keys| && AllLogged(Dels(keys[..i]))
    ensures AllLogged(Dels(keys[..i + 1]))
    ensures before + PrintLog(Dels(keys[..i + 1]), Live) ==
            before + PrintLog(Dels(keys[..i]), Live) + PrintRecord(Del(keys[i]), Live)
  {
    assert keys[..i + 1] == keys[..i] + [keys[i]];
    DelsNext(keys[..i], keys[i]);
    LineNext(before, Dels(keys[..i]), Del(keys[i]));
  }

  /** One line per key, appended to whatever file has the name now. */
  method WriteDels(disk: Disk, keys: seq<Bytes>)
    requires disk.Valid()
    modifies disk`files
    ensures disk.Valid() && AllLogged(Dels(keys))
    ensures disk.files == old(disk.files)[disk.named := old(disk.Content()) + PrintLog(Dels(keys), Live)]
  {
    ghost var before := disk.Content();
    assert before + PrintLog(Dels(keys[..0]), Live) == before;
    for i := 0 to |keys|
      invariant disk.Valid() && AllLogged(Dels(keys[..i]))
      invariant disk.files == old(disk.files)[disk.named := before + PrintLog(Dels(keys[..i]), Live)]
    {
      DelLine(before, keys, i);
      disk.Append(disk.named, PrintRecord(Del(keys[i]), Live));
    }
    assert keys[..|keys|] == keys;
  }

  /** One round of the sweeper: expired keys go, and then their DEL lines are appended to the log file. */
  method Sweep(db: ShardedDb, disk: Disk, now: nat) returns (keys: seq<Bytes>)
    requires db.Valid() && disk.Valid()
    modifies db.shards, disk`files
    ensures db.Valid() && db.Flat() == Swept(old(db.Flat()), now)
    ensures ExpiredKeys(old(db.Flat()), now, keys)
    ensures disk.Valid() && AllLogged(Dels(keys))
    ensures disk.files == old(disk.files)[disk.named := old(disk.Content()) + PrintLog(Dels(keys), Live)]
  {
    keys := [];
    ghost var flat := db.Flat();
    assert Without(flat, []) == flat;
    for i := 0 to SHARD_COUNT
      invariant db.Valid() && disk.Valid() && disk.files == old(disk.files)
      invariant Lists(keys, ExpiredBelow(db, flat, now, i)) && db.Flat() == Without(flat, keys)
    {
      var more := ShardExpired(db.shards[i], now);
      SweptBelow(db, flat, now, i, keys, more);
      RemoveAll(db, more);
      keys := keys + more;
    }
    AllSwept(db, flat, now, keys);
    WriteDels(disk, keys);
  }

  // ---- The compactor ----

  lemma {:induction false} RecordsInner(db: Store, keys: seq<Bytes>, inner: map<Bytes, seq<Bytes>>,
      clock: Bytes -> nat, k: Bytes, order: seq<Bytes>)
    requires k !in keys
    ensures Records(db, keys, inner[k := order], clock) == Records(db, keys, inner, clock)
  {
    if keys != [] {
      RecordsInner(db, keys[..|keys| - 1], inner, clock, k, order);
      assert keys[|keys| - 1] in keys;
    }
  }

  lemma EntryLogged(k: Bytes, e: Entry, now: nat, order: seq<Bytes>)
    requires EntryOk(e) && InnerOk(e.value, order)
    ensures AllLogged(EntryRecords(k, e, now, order))
  {
    forall c | c in EntryRecords(k, e, now, order)
      ensures Logged(c) && InRange(c)
    {
      EntryRecordsAre(k, e, now, order, c);
      EmittedIsLogged(k, e, now, c);
    }
  }

  method PrintList(k: Bytes, items: seq<Bytes>) returns (text: Bytes)
    ensures AllLogged(ListRecords(k, items)) && text == PrintLog(ListRecords(k, items), Compacted)
  {
    text := "";
    assert items[|items|..] == [];
    for i := |items| downto 0
      invariant AllLogged(ListRecords(k, items[i..])) && text == PrintLog(ListRecords(k, items[i..]), Compacted)
    {
      assert items[i..][1..] == items[i + 1..];
      PrintLogLast(ListRecords(k, items[i + 1..]), LPush(k, items[i]), Compacted);
      text := text + PrintRecord(LPush(k, items[i]), Compacted);
    }
    assert items[0..] == items;
  }

  method PrintHash(k: Bytes, fields: map<Bytes, Bytes>) returns (text: Bytes, order: seq<Bytes>)
    ensures Lists(order, fields.Keys)
    ensures AllLogged(HashRecords(k, fields, order)) && text == PrintLog(HashRecords(k, fields, order), Compacted)
  {
    order := Enumerate(fields.Keys);
    text := "";
    for i := 0 to |order|
      invariant AllLogged(HashRecords(k, fields, order[..i]))
      invariant text == PrintLog(HashRecords(k, fields, order[..i]), Compacted)
    {
      assert order[..i + 1][..i] == order[..i];
      PrintLogLast(HashRecords(k, fields, order[..i]), HSet(k, order[i], fields[order[i]]), Compacted);
      text := text + PrintRecord(HSet(k, order[i], fields[order[i]]), Compacted);
    }
    assert order[..|order|] == order;
  }

  method PrintSet(k: Bytes, members: set<Bytes>) returns (text: Bytes, order: seq<Bytes>)
    ensures Lists(order, members)
    ensures AllLogged(SetRecords(k, order)) && text == PrintLog(SetRecords(k, order), Compacted)
  {
    order := Enumerate(members);
    text := "";
    for i := 0 to |order|
      invariant AllLogged(SetRecords(k, order[..i])) && text == PrintLog(SetRecords(k, order[..i]), Compacted)
    {
      assert order[..i + 1][..i] == order[..i];
      PrintLogLast(SetRecords(k, order[..i]), SAdd(k, order[i]), Compacted);
      text := text + PrintRecord(SAdd(k, order[i]), Compacted);
    }
    assert order[..|order|] == order;
  }

  lemma PrintSingle(c: Command)
    requires Logged(c) && InRange(c)
    ensures AllLogged([c]) && PrintLog([c], Compacted) == PrintRecord(c, Compacted)
  {
    assert AllLogged([]);
    PrintLogLast([], c, Compacted);
    assert [] + [c] == [c] && "" + PrintRecord(c, Compacted) == PrintRecord(c, Compacted);
  }

  method PrintString(k: Bytes, v: Bytes, expiresAt: Option<nat>, now: nat) returns (text: Bytes)
    requires EntryOk(Entry(Str(v), expiresAt))
    ensures forall order :: AllLogged(EntryRecords(k, Entry(Str(v), expiresAt), now, order)) &&
                            text == PrintLog(EntryRecords(k, Entry(Str(v), expiresAt), now, order), Compacted)
  {
    EntryLogged(k, Entry(Str(v), expiresAt), now, []);
    text := "";
    if expiresAt.None? {
      PrintSingle(Set(k, v));
      text := PrintRecord(Set(k, v), Compacted);
    } else if expiresAt.value >= now {
      var c := SetEx(k, (expiresAt.value - now) / NANOS, v);
      PrintSingle(c);
      text := PrintRecord(c, Compacted);
    }
  }

  /** The lines of one entry; the order is the one its hash or set was iterated in. */
  method PrintEntry(k: Bytes, e: Entry, now: nat) returns (text: Bytes, order: seq<Bytes>)
    requires EntryOk(e)
    ensures InnerOk(e.value, order) && AllLogged(EntryRecords(k, e, now, order))
    ensures text == PrintLog(EntryRecords(k, e, now, order), Compacted)
  {
    text, order := "", [];
    match e.value {
      case Str(v) => text := PrintString(k, v, e.expiresAt, now);
      case List(items) => text := PrintList(k, items);
      case Hash(fields) => text, order := PrintHash(k, fields);
      case Members(members) => text, order := PrintSet(k, members);
    }
  }

  /** What the loops of the compactor have done when the listed keys are printed. */
  ghost predicate Printed(db: Store, l: Listing, clock: Bytes -> nat, text: Bytes) {
    && (forall k :: k in l.keys ==> k in db && InnerOk(db[k].value, Inner(l, k)))
    && AllLogged(Snapshot(db, l, clock)) && text == PrintLog(Snapshot(db, l, clock), Compacted)
  }

  lemma SnapshotNext(db: Store, l: Listing, clock: Bytes -> nat, k: Bytes, order: seq<Bytes>)
    requires k in db && k !in l.keys && forall j :: j in l.keys ==> j in db
    ensures Snapshot(db, Listing(l.keys + [k], l.inner[k := order]), clock) ==
            Snapshot(db, l, clock) + EntryRecords(k, db[k], clock(k), order)
  {
    RecordsInner(db, l.keys, l.inner, clock, k, order);
    assert (l.keys + [k])[..|l.keys|] == l.keys;
  }

  lemma PrintedNext(db: Store, l: Listing, clock: Bytes -> nat, text: Bytes, k: Bytes, order: seq<Bytes>, more: Bytes)
    requires Printed(db, l, clock, text) && k in db && k !in l.keys
    requires InnerOk(db[k].value, order) && AllLogged(EntryRecords(k, db[k], clock(k), order))
    requires more == PrintLog(EntryRecords(k, db[k], clock(k), order), Compacted)
    ensures Printed(db, Listing(l.keys + [k], l.inner[k := order]), clock, text + more)
  {
    var next := Listing(l.keys + [k], l.inner[k := order]);
    SnapshotNext(db, l, clock, k, order);
    PrintLogAppend(Snapshot(db, l, clock), EntryRecords(k, db[k], clock(k), order), Compacted);
    forall j | j in next.keys
      ensures j in db && InnerOk(db[j].value, Inner(next, j))
    {
      assert j != k ==> Inner(next, j) == Inner(l, j);
    }
  }

  /** The lines of one more key. */
  method PrintKey(k: Bytes, e: Entry, ghost flat: Store, clock: Bytes -> nat, before: Bytes, ghost l: Listing)
      returns (text: Bytes, ghost next: Listing)
    requires k in flat && flat[k] == e && EntryOk(e) && k !in l.keys && Printed(flat, l, clock, before)
    ensures Printed(flat, next, clock, text) && next.keys == l.keys + [k]
  {
    var more, order := PrintEntry(k, e, clock(k));
    PrintedNext(flat, l, clock, before, k, order, more);
    text, next := before + more, Listing(l.keys + [k], l.inner[k := order]);
  }

  lemma NextIsNew(shard: Store, flat: Store, done: seq<Bytes>, keys: seq<Bytes>, i: nat)
    requires Lists(keys, shard.Keys) && i < |keys|
    requires forall k :: k in shard ==> k in flat && flat[k] == shard[k] && k !in done
    ensures keys[i] in shard && keys[i] in flat && flat[keys[i]] == shard[keys[i]]
    ensures keys[i] !in done + keys[..i] && (done + keys[..i]) + [keys[i]] == done + keys[..i + 1]
  {
    assert keys[i] in keys;
  }

  /** The lines of all entries of one map, in its iteration order, after those of earlier maps. */
  method PrintShard(shard: Store, ghost flat: Store, clock: Bytes -> nat, before: Bytes, ghost l: Listing)
      returns (text: Bytes, ghost next: Listing)
    requires OnlyStringsExpire(flat) && Printed(flat, l, clock, before)
    requires forall k :: k in shard ==> k in flat && flat[k] == shard[k] && k !in l.keys
    ensures Printed(flat, next, clock, text)
    ensures l.keys <= next.keys && Lists(next.keys[|l.keys|..], shard.Keys)
  {
    var keys := Enumerate(shard.Keys);
    text, next := before, l;
    for i := 0 to |keys|
      invariant Printed(flat, next, clock, text)
      invariant next.keys == l.keys + keys[..i]
    {
      NextIsNew(shard, flat, l.keys, keys, i);
      text, next := PrintKey(keys[i], shard[keys[i]], flat, clock, text, next);
    }
    assert next.keys[|l.keys|..] == keys;
  }

  ghost function KeysBelow(db: ShardedDb, flat: Store, i: nat): set<Bytes> {
    set k | k in flat && db.ShardIndex(k) < i
  }

  lemma ShardOfFlat(db: ShardedDb, i: nat)
    requires db.Valid() && i < SHARD_COUNT
    ensures forall k :: k in db.shards[i] ==> k in db.Flat() && db.Flat()[k] == db.shards[i][k]
    ensures forall k :: k in db.shards[i] <==> k in db.Flat() && db.ShardIndex(k) == i
  {
    db.ShardKeys(i);
    forall k | k in db.shards[i]
      ensures k in db.Flat() && db.Flat()[k] == db.shards[i][k]
    {
      FlattenLook(db.shards[..], db.Route(), k);
      assert Look(db.Flat(), k) == Look(db.shards[db.ShardIndex(k)], k);
      assert k in db.Flat() && db.ShardIndex(k) == i;
    }
  }

  lemma ListedBelow(db: ShardedDb, i: nat, before: seq<Bytes>, keys: seq<Bytes>)
    requires db.Valid() && i < SHARD_COUNT && Lists(before, KeysBelow(db, db.Flat(), i))
    requires before <= keys && Lists(keys[|before|..], db.shards[i].Keys)
    ensures Lists(keys, KeysBelow(db, db.Flat(), i + 1))
  {
    ShardOfFlat(db, i);
    assert keys == before + keys[|before|..];
    ListsAppend(before, keys[|before|..], KeysBelow(db, db.Flat(), i), db.shards[i].Keys);
    assert KeysBelow(db, db.Flat(), i + 1) == KeysBelow(db, db.Flat(), i) + db.shards[i].Keys;
  }

  /** One round of the compactor: the file of that name becomes a print of the keyspace. */
  method Compact(db: ShardedDb, disk: Disk, clock: Bytes -> nat) returns (ghost l: Listing)
    requires db.Valid() && disk.Valid() && OnlyStringsExpire(db.Flat())
    modifies disk
    ensures disk.Valid() && IsListing(db.Flat(), l) && AllLogged(Snapshot(db.Flat(), l, clock))
    ensures disk.Content() == PrintLog(Snapshot(db.Flat(), l, clock), Compacted)
    ensures disk.named == |old(disk.files)| && disk.files[..disk.named] == old(disk.files)
  {
    var content: Bytes := "";
    ghost var flat := db.Flat();
    l := Listing([], map[]);
    for i := 0 to SHARD_COUNT
      invariant Printed(flat, l, clock, content) && Lists(l.keys, KeysBelow(db, flat, i))
      invariant disk.files == old(disk.files)
    {
      ShardOfFlat(db, i);
      ghost var before := l.keys;
      content, l := PrintShard(db.shards[i], flat, clock, content, l);
      ListedBelow(db, i, before, l.keys);
    }
    assert KeysBelow(db, flat, SHARD_COUNT) == flat.Keys;
    disk.Replace(content);
  }

  /**
    After a compaction the writer goes on writing to the file that lost the name. Whatever it receives until the next
    start, the named file rebuilds the keyspace of the compaction, exactly when that was clean.
   */
  method CompactThenWrite(db: ShardedDb, writer: AofWriter, clock: Bytes -> nat, wakes: seq<Wake>)
    requires db.Valid() && writer.Valid() && OnlyStringsExpire(db.Flat()) && AllLogged(RecordsOf(wakes))
    modifies writer, writer.disk
    ensures writer.Valid() && writer.received == old(writer.received) + RecordsOf(wakes)
    ensures writer.disk.named != writer.handle
    ensures forall later :: (forall k :: k in db.Flat() ==> Fits(db.Flat()[k], clock(k), later)) ==>
              (Rebuilds(db.Flat(), writer.disk.Content(), clock, later) <==> CleanState(db.Flat(), clock))
  {
    ghost var l := Compact(db, writer.disk, clock);
    ghost var text := writer.disk.Content();
    writer.Run(wakes);
    assert writer.disk.Content() == text;
    forall later | forall k :: k in db.Flat() ==> Fits(db.Flat()[k], clock(k), later)
      ensures Rebuilds(db.Flat(), text, clock, later) <==> CleanState(db.Flat(), clock)
    {
      CompactionIsExact(db.Flat(), l, clock, later);
    }
  }
}
