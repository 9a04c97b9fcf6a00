/** INCR as a shared counter: what concurrent increments of one key are answered. */
module Counter {
  import opened Prelude
  import opened Decimal
  import opened Protocol
  import opened Keyspace
  import opened Durability
  import opened Commuting
  import opened Interleaving

  /** The key counts `v`: it is missing and `v` is zero, or it holds the numeral of `v`. */
  predicate Counts(cell: Cell, v: int) {
    match cell
    case None => v == 0
    case Some(e) => e.value == Str(PrintInt(v))
  }

  predicate Untimed(cell: Cell) { cell.Some? ==> cell.value.expiresAt.None? }

  /** A command that leaves the count alone; a GET may delete a key with a deadline. */
  predicate Bystander(c: Command, k: Bytes, cell: Cell) {
    k in KeysOf(c) ==> c.LRange? || (c.Get? && Untimed(cell))
  }

  lemma WrapKeeps(i: int)
    requires I64_MIN <= i <= I64_MAX
    ensures Wrap64(i) == i
  {
  }

  /** INCR reads the count back from the text, or starts from zero. */
  lemma IncrementReads(cell: Cell, k: Bytes, v: int)
    requires Counts(cell, v) && I64_MIN <= v <= I64_MAX
    ensures IncrOutcome(cell, Incr(k)) == Incremented(Incr(k), v)
  {
    SignedRoundTrip(v, I64_MIN, I64_MAX);
  }

  lemma IncrementReplies(cell: Cell, k: Bytes, v: int)
    requires Counts(cell, v) && I64_MIN <= v < I64_MAX
    ensures IncrOutcome(cell, Incr(k)) ==
            Outcome(Some(Entry(Str(PrintInt(v + 1)), None)), [Incr(k)], Number(v + 1))
  {
    IncrementReads(cell, k, v);
    WrapKeeps(v + 1);
  }

  lemma BystanderKeeps(db: Store, c: Command, k: Bytes, now: nat)
    requires Bystander(c, k, Look(db, k))
    ensures Look(LiveCommand(db, c, now).db, k) == Look(db, k)
  {
    if SingleKey(c) {
      assert c.key in KeysOf(c);
      PutFrame(db, c.key, LiveCell(Look(db, c.key), c, now).cell);
    } else if c.RPopLPush? {
      assert c.source in KeysOf(c) && c.destination in KeysOf(c);
    }
  }

  ghost predicate IncrStep(s: System, s': System, k: Bytes) {
    exists t: nat, now: nat :: MutateStep(s, s', t, now) && s.tasks[t].phase == Locked(Incr(k))
  }

  /** Step `i` of the run carries out an INCR of the key. */
  ghost predicate IncrAt(run: seq<System>, i: nat, k: Bytes)
    requires 0 < i < |run|
  {
    IncrStep(run[i - 1], run[i], k)
  }

  /** The number of INCRs of the key carried out by the first `n` steps. */
  ghost function Incrs(run: seq<System>, k: Bytes, n: nat): nat
    requires n < |run|
  {
    if n == 0 then 0 else Incrs(run, k, n - 1) + (if IncrAt(run, n, k) then 1 else 0)
  }

  /** Apart from INCR, nobody who holds a guard of the run writes the key. */
  ghost predicate OnlyIncrs(run: seq<System>, k: Bytes) {
    forall i, t :: 0 <= i < |run| && 0 <= t < |run[i].tasks| && run[i].tasks[t].phase.Locked? ==>
      var c := run[i].tasks[t].phase.c;
      c == Incr(k) || Bystander(c, k, Look(run[i].db, k))
  }

  lemma StepCounts(shard: Router, run: seq<System>, k: Bytes, n: nat, v: int, next: int)
    requires IsRun(shard, run) && OnlyIncrs(run, k) && 0 < n < |run|
    requires Counts(Look(run[n - 1].db, k), v) && I64_MIN <= v <= next <= I64_MAX
    requires next == if IncrAt(run, n, k) then v + 1 else v
    ensures Counts(Look(run[n].db, k), next)
    ensures if IncrAt(run, n, k) then Untimed(Look(run[n].db, k)) else Look(run[n].db, k) == Look(run[n - 1].db, k)
  {
    var s, s' := run[n - 1], run[n];
    assert Step(shard, s, s');
    if s'.db != s.db || IncrAt(run, n, k) {
      var t: nat, now: nat :| MutateStep(s, s', t, now) && (IncrAt(run, n, k) ==> s.tasks[t].phase == Locked(Incr(k)));
      var c := s.tasks[t].phase.c;
      if c == Incr(k) {
        IncrementReplies(Look(s.db, k), k, v);
      } else {
        BystanderKeeps(s.db, c, k, now);
      }
    }
  }

  /** After any number of steps the key counts its INCRs, and has no deadline once there was one. */
  lemma {:induction false} IncrementsCount(shard: Router, run: seq<System>, k: Bytes, n: nat, v: int, total: int)
    requires IsRun(shard, run) && OnlyIncrs(run, k) && n < |run|
    requires Counts(Look(run[0].db, k), v) && I64_MIN <= v && total == v + Incrs(run, k, n) <= I64_MAX
    ensures Counts(Look(run[n].db, k), total)
    ensures Incrs(run, k, n) > 0 ==> Look(run[n].db, k).Some? && Untimed(Look(run[n].db, k))
  {
    if n > 0 {
      var before := v + Incrs(run, k, n - 1);
      IncrementsCount(shard, run, k, n - 1, v, before);
      StepCounts(shard, run, k, n, before, total);
    }
  }

  lemma IncrReply(db: Store, k: Bytes, v: int, next: int, now: nat)
    requires Counts(Look(db, k), v) && I64_MIN <= v && next == v + 1 <= I64_MAX
    ensures LiveCommand(db, Incr(k), now).reply == Number(next)
  {
    IncrementReads(Look(db, k), k, v);
    WrapKeeps(next);
  }

  /** The m-th INCR of an interleaving is answered `v + m`: consecutive numbers, no two alike. */
  lemma IncrementsAreConsecutive(shard: Router, run: seq<System>, k: Bytes, n: nat, v: int, total: int, now: nat)
    requires IsRun(shard, run) && OnlyIncrs(run, k) && 0 < n < |run| && IncrAt(run, n, k)
    requires Counts(Look(run[0].db, k), v) && I64_MIN <= v && total == v + Incrs(run, k, n) <= I64_MAX
    ensures LiveCommand(run[n - 1].db, Incr(k), now).reply == Number(total)
  {
    var before := v + Incrs(run, k, n - 1);
    IncrementsCount(shard, run, k, n - 1, v, before);
    IncrReply(run[n - 1].db, k, before, total, now);
  }

  lemma ReplayIncrement(db: Store, k: Bytes, v: int, later: nat)
    requires Counts(Look(db, k), v) && I64_MIN <= v < I64_MAX
    ensures ReplayCommand(db, Incr(k), later) == Some(db[k := Entry(Str(PrintInt(v + 1)), None)])
  {
    SignedRoundTrip(v, I64_MIN, I64_MAX);
    WrapKeeps(v + 1);
  }

  /** Any record that is an INCR of the key, or not on it at all. */
  lemma CountsNext(db: Store, k: Bytes, c: Command, v: int, next: int, later: nat)
    requires (c == Incr(k) || k !in KeysOf(c)) && Replayable(c, later)
    requires Counts(Look(db, k), v) && I64_MIN <= v <= next <= I64_MAX && next == if c == Incr(k) then v + 1 else v
    ensures ReplayCommand(db, c, later).Some? && Counts(Look(ReplayCommand(db, c, later).value, k), next)
  {
    if c == Incr(k) {
      ReplayIncrement(db, k, v, later);
    } else {
      ReplayFrame(db, db, c, later);
    }
  }

  /** How many records of the log are INCRs of the key. */
  function IncrRecords(records: seq<Command>, k: Bytes): nat {
    if records == [] then 0 else (if records[0] == Incr(k) then 1 else 0) + IncrRecords(records[1..], k)
  }

  /**
    Replay, whose parse falls back to zero, counts the INCRs of the key up in the same way, whatever records on other
    keys stand between them.
   */
  lemma {:induction false} ReplayCounts(db: Store, k: Bytes, records: seq<Command>, v: int, total: int, later: nat)
      returns (last: Store)
    requires RecordsReplayable(records, later)
    requires forall c :: c in records ==> c == Incr(k) || k !in KeysOf(c)
    requires Counts(Look(db, k), v) && I64_MIN <= v && total == v + IncrRecords(records, k) <= I64_MAX
    ensures ReplayAll(db, records, later) == Some(last) && Counts(Look(last, k), total)
    decreases |records|
  {
    last := db;
    if records != [] {
      var c, rest := records[0], records[1..];
      assert c in records && forall d :: d in rest ==> d in records;
      var next := if c == Incr(k) then v + 1 else v;
      CountsNext(db, k, c, v, next, later);
      last := ReplayCounts(ReplayCommand(db, c, later).value, k, rest, next, total, later);
    }
  }
}
