/** The compactor: printing a keyspace back as the commands that rebuild it. */
module Compaction {
  import opened Prelude
  import opened Decimal
  import opened Protocol
  import opened Keyspace
  import opened LogText
  import opened Expiry

  // ---- What is printed ----

  /** An iteration order of the keyspace, and of the hash or set under each key. */
  datatype Listing = Listing(keys: seq<Bytes>, inner: map<Bytes, seq<Bytes>>)

  function Inner(l: Listing, k: Bytes): seq<Bytes> { if k in l.inner then l.inner[k] else [] }

  ghost predicate InnerOk(v: Value, order: seq<Bytes>) {
    && (v.Hash? ==> Lists(order, v.fields.Keys))
    && (v.Members? ==> Lists(order, v.members))
  }

  ghost predicate IsListing(db: Store, l: Listing) {
    Lists(l.keys, db.Keys) && forall k :: k in db ==> InnerOk(db[k].value, Inner(l, k))
  }

  /** Pushed from the last element to the first. */
  function ListRecords(k: Bytes, items: seq<Bytes>): seq<Command> {
    if items == [] then [] else ListRecords(k, items[1..]) + [LPush(k, items[0])]
  }

  function HashRecords(k: Bytes, fields: map<Bytes, Bytes>, order: seq<Bytes>): seq<Command> {
    if order == [] then []
    else
      var f := order[|order| - 1];
      HashRecords(k, fields, order[..|order| - 1]) + [HSet(k, f, if f in fields then fields[f] else "")]
  }

  function SetRecords(k: Bytes, order: seq<Bytes>): seq<Command> {
    if order == [] then [] else SetRecords(k, order[..|order| - 1]) + [SAdd(k, order[|order| - 1])]
  }

  /** The records of one entry, printed when the clock shows `now`; a passed deadline prints nothing. */
  function EntryRecords(k: Bytes, e: Entry, now: nat, order: seq<Bytes>): seq<Command> {
    match e.value
    case Str(v) =>
      if e.expiresAt.None? then [Set(k, v)]
      else if e.expiresAt.value >= now then [SetEx(k, (e.expiresAt.value - now) / NANOS, v)]
      else []
    case List(items) => ListRecords(k, items)
    case Hash(fields) => HashRecords(k, fields, order)
    case Members(_) => SetRecords(k, order)
  }

  /** The records of the listed keys; `clock(k)` is the reading when the entry of `k` is printed. */
  function Records(db: Store, keys: seq<Bytes>, inner: map<Bytes, seq<Bytes>>, clock: Bytes -> nat): seq<Command> {
    if keys == [] then []
    else
      var k := keys[|keys| - 1];
      Records(db, keys[..|keys| - 1], inner, clock) +
      if k in db then EntryRecords(k, db[k], clock(k), Inner(Listing(keys, inner), k)) else []
  }

  function Snapshot(db: Store, l: Listing, clock: Bytes -> nat): seq<Command> { Records(db, l.keys, l.inner, clock) }

  // ---- What replay makes of it ----

  /** The entry a compacted and replayed key holds: no empty aggregates, no passed deadlines, whole seconds left. */
  function Restored(e: Entry, now: nat, later: nat): Cell {
    match e.value
    case Str(_) =>
      if e.expiresAt.None? then Some(e)
      else if e.expiresAt.value >= now then
        Some(Entry(e.value, Some(later + (e.expiresAt.value - now) / NANOS * NANOS)))
      else None
    case List(items) => if items == [] then None else Some(Entry(e.value, None))
    case Hash(fields) => if fields == map[] then None else Some(Entry(e.value, None))
    case Members(members) => if members == {} then None else Some(Entry(e.value, None))
  }

  ghost predicate IsCompacted(db: Store, clock: Bytes -> nat, later: nat, r: Store) {
    forall k :: Look(r, k) == if k in db then Restored(db[k], clock(k), later) else None
  }

  /** The remaining seconds, counted from the replay, still make a deadline. */
  predicate Fits(e: Entry, now: nat, later: nat) {
    e.expiresAt.Some? && e.expiresAt.value >= now ==>
      later / NANOS + (e.expiresAt.value - now) / NANOS <= I64_MAX
  }

  lemma PutAgain(base: Store, k: Bytes, x: Cell, y: Cell)
    ensures Put(Put(base, k, x), k, y) == Put(base, k, y)
  {
    SameStore(Put(Put(base, k, x), k, y), Put(base, k, y));
  }

  /** One more record of the same key. */
  lemma KeyReplaysOn(base: Store, k: Bytes, records: seq<Command>, c: Command, cell: Cell, later: nat)
    requires SingleKey(c) && c.key == k && Replayable(c, later)
    requires ReplayAll(base, records, later) == Some(Put(base, k, cell))
    ensures ReplayAll(base, records + [c], later) == Some(Put(base, k, ReplayCell(cell, c, later)))
  {
    var mid := Put(base, k, cell);
    ReplayAppend(base, records, [c], later);
    ReplayOne(mid, c, later);
    PutFrame(base, k, cell);
    PutAgain(base, k, cell, ReplayCell(cell, c, later));
  }

  lemma NoRecords(base: Store, k: Bytes, later: nat)
    requires k !in base
    ensures ReplayAll(base, [], later) == Some(Put(base, k, None))
  {
    PutSame(base, k);
  }

  function ListCell(items: seq<Bytes>): Cell { if items == [] then None else Some(Entry(List(items), None)) }

  lemma {:induction false} ListReplays(base: Store, k: Bytes, items: seq<Bytes>, later: nat)
    requires k !in base
    ensures ReplayAll(base, ListRecords(k, items), later) == Some(Put(base, k, ListCell(items)))
  {
    if items == [] {
      NoRecords(base, k, later);
    } else {
      var v, rest := items[0], items[1..];
      ListReplays(base, k, rest, later);
      KeyReplaysOn(base, k, ListRecords(k, rest), LPush(k, v), ListCell(rest), later);
      assert [v] + rest == items && (rest == [] ==> [v] == items);
    }
  }

  /** The part of a hash that an enumeration has reached. */
  function HashCell(fields: map<Bytes, Bytes>, order: seq<Bytes>): Cell {
    if order == [] then None
    else Some(Entry(Hash(map f | f in order :: if f in fields then fields[f] else ""), None))
  }

  lemma HashCellNext(fields: map<Bytes, Bytes>, front: seq<Bytes>, k: Bytes, f: Bytes, later: nat)
    ensures var v := if f in fields then fields[f] else "";
            HashCell(fields, front + [f]) == ReplayCell(HashCell(fields, front), HSet(k, f, v), later)
  {
    var v := if f in fields then fields[f] else "";
    var cell := ReplayCell(HashCell(fields, front), HSet(k, f, v), later);
    assert cell.value.value.fields == HashCell(fields, front + [f]).value.value.fields;
  }

  lemma {:induction false} HashReplays(base: Store, k: Bytes, fields: map<Bytes, Bytes>, order: seq<Bytes>, later: nat)
    requires k !in base
    ensures ReplayAll(base, HashRecords(k, fields, order), later) == Some(Put(base, k, HashCell(fields, order)))
  {
    if order == [] {
      NoRecords(base, k, later);
    } else {
      var front, f := order[..|order| - 1], order[|order| - 1];
      HashReplays(base, k, fields, front, later);
      KeyReplaysOn(base, k, HashRecords(k, fields, front), HSet(k, f, if f in fields then fields[f] else ""),
                   HashCell(fields, front), later);
      HashCellNext(fields, front, k, f, later);
      assert order == front + [f];
    }
  }

  function Elements(order: seq<Bytes>): set<Bytes> { set m | m in order }

  function SetCell(order: seq<Bytes>): Cell {
    if order == [] then None else Some(Entry(Members(Elements(order)), None))
  }

  lemma SetCellNext(front: seq<Bytes>, k: Bytes, m: Bytes, later: nat)
    ensures SetCell(front + [m]) == ReplayCell(SetCell(front), SAdd(k, m), later)
  {
    assert Elements(front + [m]) == Elements(front) + {m};
    assert front == [] ==> Elements(front) + {m} == {m};
  }

  lemma {:induction false} SetReplays(base: Store, k: Bytes, order: seq<Bytes>, later: nat)
    requires k !in base
    ensures ReplayAll(base, SetRecords(k, order), later) == Some(Put(base, k, SetCell(order)))
  {
    if order == [] {
      NoRecords(base, k, later);
    } else {
      var front, m := order[..|order| - 1], order[|order| - 1];
      SetReplays(base, k, front, later);
      KeyReplaysOn(base, k, SetRecords(k, front), SAdd(k, m), SetCell(front), later);
      SetCellNext(front, k, m, later);
      assert order == front + [m];
    }
  }

  lemma StringReplays(base: Store, k: Bytes, e: Entry, now: nat, later: nat, order: seq<Bytes>)
    requires k !in base && e.value.Str? && Fits(e, now, later)
    ensures ReplayAll(base, EntryRecords(k, e, now, order), later) == Some(Put(base, k, Restored(e, now, later)))
  {
    if e.expiresAt.None? {
      ReplayOne(base, Set(k, e.value.text), later);
    } else if e.expiresAt.value >= now {
      ReplayOne(base, SetEx(k, (e.expiresAt.value - now) / NANOS, e.value.text), later);
    } else {
      NoRecords(base, k, later);
    }
  }

  lemma EmptyOrder(order: seq<Bytes>, s: set<Bytes>)
    requires Lists(order, s)
    ensures order == [] <==> s == {}
    ensures Elements(order) == s
  {
    if order != [] { assert order[0] in s; }
  }

  /** One entry comes back as it is to be kept, in any order its hash or set was listed. */
  lemma EntryReplays(base: Store, k: Bytes, e: Entry, now: nat, later: nat, order: seq<Bytes>)
    requires k !in base && InnerOk(e.value, order) && Fits(e, now, later)
    ensures ReplayAll(base, EntryRecords(k, e, now, order), later) == Some(Put(base, k, Restored(e, now, later)))
  {
    match e.value {
      case Str(_) => StringReplays(base, k, e, now, later, order);
      case List(items) => ListReplays(base, k, items, later);
      case Hash(fields) =>
        HashReplays(base, k, fields, order, later);
        EmptyOrder(order, fields.Keys);
        assert order != [] ==> HashCell(fields, order).value.value.fields == fields;
      case Members(_) =>
        SetReplays(base, k, order, later);
        EmptyOrder(order, e.value.members);
    }
  }

  lemma {:induction false} KeysReplay(db: Store, l: Listing, clock: Bytes -> nat, later: nat, n: nat) returns (r: Store)
    requires IsListing(db, l) && n <= |l.keys| && forall k :: k in db ==> Fits(db[k], clock(k), later)
    ensures ReplayAll(map[], Records(db, l.keys[..n], l.inner, clock), later) == Some(r)
    ensures forall k :: Look(r, k) == if k in l.keys[..n] then Restored(db[k], clock(k), later) else None
  {
    if n == 0 {
      r := map[];
    } else {
      var front, k := l.keys[..n - 1], l.keys[n - 1];
      assert l.keys[..n] == front + [k];
      assert l.keys[..n][..n - 1] == front;
      assert k in l.keys;
      var before := KeysReplay(db, l, clock, later, n - 1);
      assert k !in front;
      assert Look(before, k) == None;
      EntryReplays(before, k, db[k], clock(k), later, Inner(l, k));
      ReplayAppend(map[], Records(db, front, l.inner, clock), EntryRecords(k, db[k], clock(k), Inner(l, k)), later);
      r := Put(before, k, Restored(db[k], clock(k), later));
    }
  }

  /** Whatever the iteration orders, replaying the compacted records rebuilds the keyspace, pruned. */
  lemma CompactionReplays(db: Store, l: Listing, clock: Bytes -> nat, later: nat) returns (r: Store)
    requires IsListing(db, l) && forall k :: k in db ==> Fits(db[k], clock(k), later)
    ensures ReplayAll(map[], Snapshot(db, l, clock), later) == Some(r) && IsCompacted(db, clock, later, r)
  {
    r := KeysReplay(db, l, clock, later, |l.keys|);
    assert l.keys[..|l.keys|] == l.keys;
  }

  /** Replayed at the instant of compaction: what is lost is empty aggregates, passed deadlines and part of a second. */
  lemma CompactionPreserves(db: Store, l: Listing, now: nat) returns (r: Store)
    requires OnlyStringsExpire(db) && IsListing(db, l)
    ensures ReplayAll(map[], Snapshot(db, l, _ => now), now) == Some(r)
    ensures forall k :: k !in db ==> k !in r
    ensures forall k :: k in db ==>
              (k !in r <==> Expired(db[k], now) || db[k].value in {List([]), Hash(map[]), Members({})})
    ensures forall k :: k in r ==>
              && r[k].value == db[k].value && r[k].expiresAt.Some? == db[k].expiresAt.Some?
              && (r[k].expiresAt.Some? ==> 0 <= db[k].expiresAt.value - r[k].expiresAt.value < NANOS)
  {
    forall k | k in db
      ensures Fits(db[k], now, now)
    {
      assert EntryOk(db[k]);
    }
    r := CompactionReplays(db, l, _ => now, now);
    forall k
      ensures k !in db ==> k !in r
      ensures k in db ==>
                (k !in r <==> Expired(db[k], now) || db[k].value in {List([]), Hash(map[]), Members({})})
      ensures k in r ==>
              && r[k].value == db[k].value && r[k].expiresAt.Some? == db[k].expiresAt.Some?
              && (r[k].expiresAt.Some? ==> 0 <= db[k].expiresAt.value - r[k].expiresAt.value < NANOS)
    {
      assert Look(r, k) == if k in db then Restored(db[k], now, now) else None;
      assert k in db ==> EntryOk(db[k]);
    }
  }

  // ---- Which records, and which text ----

  /** The records of an entry as a set, whatever the iteration order. */
  predicate Emits(k: Bytes, e: Entry, now: nat, c: Command) {
    match e.value
    case Str(v) =>
      if e.expiresAt.None? then c == Set(k, v)
      else e.expiresAt.value >= now && c == SetEx(k, (e.expiresAt.value - now) / NANOS, v)
    case List(items) => c.LPush? && c.key == k && c.value in items
    case Hash(fields) => c.HSet? && c.key == k && c.field in fields && c.value == fields[c.field]
    case Members(members) => c.SAdd? && c.key == k && c.value in members
  }

  lemma {:induction false} ListRecordsAre(k: Bytes, items: seq<Bytes>, c: Command)
    ensures c in ListRecords(k, items) <==> c.LPush? && c.key == k && c.value in items
  {
    if items != [] {
      ListRecordsAre(k, items[1..], c);
      assert items == [items[0]] + items[1..];
    }
  }

  lemma {:induction false} HashRecordsAre(k: Bytes, fields: map<Bytes, Bytes>, order: seq<Bytes>, c: Command)
    requires forall f :: f in order ==> f in fields
    ensures c in HashRecords(k, fields, order) <==>
            c.HSet? && c.key == k && c.field in order && c.value == fields[c.field]
  {
    if order != [] {
      var front := order[..|order| - 1];
      assert order == front + [order[|order| - 1]];
      HashRecordsAre(k, fields, front, c);
    }
  }

  lemma {:induction false} SetRecordsAre(k: Bytes, order: seq<Bytes>, c: Command)
    ensures c in SetRecords(k, order) <==> c.SAdd? && c.key == k && c.value in order
  {
    if order != [] {
      var front := order[..|order| - 1];
      assert order == front + [order[|order| - 1]];
      SetRecordsAre(k, front, c);
    }
  }

  lemma EntryRecordsAre(k: Bytes, e: Entry, now: nat, order: seq<Bytes>, c: Command)
    requires InnerOk(e.value, order)
    ensures c in EntryRecords(k, e, now, order) <==> Emits(k, e, now, c)
  {
    match e.value {
      case Str(_) =>
      case List(items) => ListRecordsAre(k, items, c);
      case Hash(fields) => HashRecordsAre(k, fields, order, c);
      case Members(_) => SetRecordsAre(k, order, c);
    }
  }

  lemma {:induction false} RecordsAre(db: Store, l: Listing, clock: Bytes -> nat, n: nat, c: Command)
    requires IsListing(db, l) && n <= |l.keys|
    ensures c in Records(db, l.keys[..n], l.inner, clock) <==>
            exists k :: k in l.keys[..n] && k in db && Emits(k, db[k], clock(k), c)
  {
    if n > 0 {
      var k := l.keys[n - 1];
      assert l.keys[..n] == l.keys[..n - 1] + [k];
      assert k in db;
      RecordsAre(db, l, clock, n - 1, c);
      EntryRecordsAre(k, db[k], clock(k), Inner(l, k), c);
    }
  }

  lemma SnapshotEmits(db: Store, l: Listing, clock: Bytes -> nat, c: Command)
    requires IsListing(db, l)
    ensures c in Snapshot(db, l, clock) <==> exists k :: k in db && Emits(k, db[k], clock(k), c)
  {
    RecordsAre(db, l, clock, |l.keys|, c);
    assert l.keys[..|l.keys|] == l.keys;
  }

  /** Key and hash fields are printed bare, all values between quotes. */
  predicate BareOk(s: Bytes) { Survives(s, false, false) }

  predicate QuotedOk(s: Bytes) { Survives(s, true, true) }

  /** What an entry must look like for its lines to be read back. */
  predicate EntryClean(k: Bytes, e: Entry, now: nat) {
    match e.value
    case Str(v) => !Expired(e, now) ==> BareOk(k) && QuotedOk(v)
    case List(items) => forall v :: v in items ==> BareOk(k) && QuotedOk(v)
    case Hash(fields) => forall f :: f in fields ==> BareOk(k) && BareOk(f) && QuotedOk(fields[f])
    case Members(members) => forall v :: v in members ==> BareOk(k) && QuotedOk(v)
  }

  lemma EmittedIsLogged(k: Bytes, e: Entry, now: nat, c: Command)
    requires Emits(k, e, now, c) && EntryOk(e)
    ensures Logged(c) && InRange(c)
  {
  }

  lemma PairLoggable(c: Command)
    requires c.Set? || c.LPush? || c.SAdd?
    ensures Loggable(c, Compacted) <==> BareOk(c.key) && QuotedOk(c.value)
  {
    assert Arguments(c) == [c.key, c.value] && Quoting(c, Compacted) == [false, true];
    assert Arguments(c)[0] == c.key && Arguments(c)[1] == c.value;
    assert Quoting(c, Compacted)[0] == false && Quoting(c, Compacted)[1] == true;
  }

  lemma SetExLoggable(c: Command)
    requires c.SetEx?
    ensures Loggable(c, Compacted) <==> BareOk(c.key) && QuotedOk(c.value)
  {
    NumeralShape(c.seconds);
    var args, quoted := Arguments(c), Quoting(c, Compacted);
    assert args[0] == c.key && args[1] == PrintInt(c.seconds) && args[2] == c.value;
    assert !quoted[0] && !quoted[1] && quoted[2];
  }

  lemma HSetLoggable(c: Command)
    requires c.HSet?
    ensures Loggable(c, Compacted) <==> BareOk(c.key) && BareOk(c.field) && QuotedOk(c.value)
  {
    var args, quoted := Arguments(c), Quoting(c, Compacted);
    assert args[0] == c.key && args[1] == c.field && args[2] == c.value;
    assert !quoted[0] && !quoted[1] && quoted[2];
  }

  lemma EmittedLoggable(k: Bytes, e: Entry, now: nat, c: Command)
    requires Emits(k, e, now, c) && EntryOk(e)
    ensures Logged(c)
    ensures Loggable(c, Compacted) <==> BareOk(k) && QuotedOk(c.value) && (c.HSet? ==> BareOk(c.field))
  {
    if c.HSet? {
      HSetLoggable(c);
    } else if c.SetEx? {
      SetExLoggable(c);
    } else {
      PairLoggable(c);
    }
  }

  /** An entry is clean exactly when all its records are loggable. */
  lemma CleanMeansLoggable(k: Bytes, e: Entry, now: nat)
    requires EntryOk(e)
    ensures forall c :: Emits(k, e, now, c) ==> Logged(c)
    ensures EntryClean(k, e, now) <==> forall c :: Emits(k, e, now, c) ==> Loggable(c, Compacted)
  {
    forall c | Emits(k, e, now, c)
      ensures Logged(c)
      ensures Loggable(c, Compacted) <==> BareOk(k) && QuotedOk(c.value) && (c.HSet? ==> BareOk(c.field))
    {
      EmittedLoggable(k, e, now, c);
    }
    match e.value {
      case Str(v) =>
        assert !Expired(e, now) ==>
          Emits(k, e, now, if e.expiresAt.None? then Set(k, v) else SetEx(k, (e.expiresAt.value - now) / NANOS, v));
      case List(items) => assert forall v :: v in items ==> Emits(k, e, now, LPush(k, v));
      case Hash(fields) => assert forall f :: f in fields ==> Emits(k, e, now, HSet(k, f, fields[f]));
      case Members(members) => assert forall v :: v in members ==> Emits(k, e, now, SAdd(k, v));
    }
  }

  ghost predicate CleanState(db: Store, clock: Bytes -> nat) { forall k :: k in db ==> EntryClean(k, db[k], clock(k)) }

  lemma SnapshotLogged(db: Store, l: Listing, clock: Bytes -> nat)
    requires OnlyStringsExpire(db) && IsListing(db, l)
    ensures AllLogged(Snapshot(db, l, clock))
    ensures AllLoggable(Snapshot(db, l, clock), Compacted) <==> CleanState(db, clock)
  {
    forall c
      ensures c in Snapshot(db, l, clock) <==> exists k :: k in db && Emits(k, db[k], clock(k), c)
      ensures c in Snapshot(db, l, clock) ==> Logged(c) && InRange(c)
    {
      SnapshotEmits(db, l, clock, c);
      if c in Snapshot(db, l, clock) {
        var k :| k in db && Emits(k, db[k], clock(k), c);
        EmittedIsLogged(k, db[k], clock(k), c);
      }
    }
    forall k | k in db
      ensures EntryClean(k, db[k], clock(k)) <==>
              forall c :: Emits(k, db[k], clock(k), c) ==> Logged(c) && Loggable(c, Compacted)
    {
      assert EntryOk(db[k]);
      CleanMeansLoggable(k, db[k], clock(k));
    }
  }

  /** The compacted file is read back as the records it was printed from exactly when the keyspace is clean. */
  lemma CompactedTextReads(db: Store, l: Listing, clock: Bytes -> nat)
    requires OnlyStringsExpire(db) && IsListing(db, l)
    ensures AllLogged(Snapshot(db, l, clock))
    ensures ParseLog(PrintLog(Snapshot(db, l, clock), Compacted)) == Snapshot(db, l, clock) <==> CleanState(db, clock)
  {
    SnapshotLogged(db, l, clock);
    LogSurvives(Snapshot(db, l, clock), Compacted);
  }

  /** The compacted file of a clean keyspace, read back and replayed, rebuilds it, pruned. */
  lemma CompactedTextReplays(db: Store, l: Listing, clock: Bytes -> nat, later: nat) returns (r: Store)
    requires OnlyStringsExpire(db) && IsListing(db, l) && CleanState(db, clock)
    requires forall k :: k in db ==> Fits(db[k], clock(k), later)
    ensures AllLogged(Snapshot(db, l, clock))
    ensures ReplayAll(map[], ParseLog(PrintLog(Snapshot(db, l, clock), Compacted)), later) == Some(r)
    ensures IsCompacted(db, clock, later, r)
  {
    CompactedTextReads(db, l, clock);
    r := CompactionReplays(db, l, clock, later);
  }

  // ---- Compacting and sweeping ----

  /** Sweeping first changes no line of a compaction made at the same instant. */
  lemma SweepThenCompact(db: Store, l: Listing, m: Listing, now: nat, c: Command)
    requires OnlyStringsExpire(db) && IsListing(db, l) && IsListing(Swept(db, now), m)
    ensures c in Snapshot(db, l, _ => now) <==> c in Snapshot(Swept(db, now), m, _ => now)
  {
    SnapshotEmits(db, l, _ => now, c);
    SnapshotEmits(Swept(db, now), m, _ => now, c);
    forall k | k in db && Expired(db[k], now)
      ensures !Emits(k, db[k], now, c)
    {
      assert EntryOk(db[k]);
    }
    assert forall k :: k in db && !Expired(db[k], now) ==> k in Swept(db, now) && Swept(db, now)[k] == db[k];
  }
}
