/** The DEL lines of the sweeper, which go to the log file past the writer's buffer. */
module SweepOrder {
  import opened Prelude
  import opened Decimal
  import opened Protocol
  import opened Keyspace
  import opened Durability
  import opened Expiry
  import opened Commuting

  function Dels(keys: seq<Bytes>): seq<Command> { seq(|keys|, i requires 0 <= i < |keys| => Del(keys[i])) }

  lemma DelsNext(keys: seq<Bytes>, k: Bytes)
    ensures Dels(keys + [k]) == Dels(keys) + [Del(k)]
  {
  }

  ghost predicate ExpiredKeys(db: Store, now: nat, keys: seq<Bytes>) {
    Lists(keys, set k | k in db && Expired(db[k], now))
  }

  /** `map.remove` for every key of the list. */
  function Without(db: Store, keys: seq<Bytes>): Store { map k | k in db && k !in keys :: db[k] }

  lemma {:induction false} DelsReplay(db: Store, keys: seq<Bytes>, later: nat, n: nat)
    requires n <= |keys|
    ensures ReplayAll(db, Dels(keys[..n]), later) == Some(Without(db, keys[..n]))
  {
    if n == 0 {
      assert Without(db, keys[..0]) == db;
    } else {
      var front, k := keys[..n - 1], keys[n - 1];
      var mid := Without(db, front);
      DelsReplay(db, keys, later, n - 1);
      assert keys[..n] == front + [k];
      DelsNext(front, k);
      ReplayAppend(db, Dels(front), [Del(k)], later);
      ReplayOne(mid, Del(k), later);
      assert mid - {k} == Without(db, keys[..n]);
    }
  }

  lemma WithoutSimilar(a: Store, b: Store, keys: seq<Bytes>)
    requires Similar(a, b)
    ensures Similar(Without(a, keys), Without(b, keys))
  {
    forall k
      ensures SimilarCell(Look(Without(a, keys), k), Look(Without(b, keys), k))
    {
      assert SimilarCell(Look(a, k), Look(b, k));
    }
  }

  /** DEL lines that follow all earlier records carry the replayed state along with the sweep. */
  lemma SweepReplays(db: Store, replayed: Store, now: nat, keys: seq<Bytes>, later: nat)
    requires Similar(db, replayed) && ExpiredKeys(db, now, keys)
    ensures ReplayAll(replayed, Dels(keys), later).Some?
    ensures Similar(Swept(db, now), ReplayAll(replayed, Dels(keys), later).value)
  {
    DelsReplay(replayed, keys, later, |keys|);
    assert keys[..|keys|] == keys;
    WithoutSimilar(db, replayed, keys);
    assert Without(db, keys) == Swept(db, now);
  }

  /** DEL lines that reach the file before buffered records on other keys do no harm. */
  lemma {:induction false} SweepOvertakesOtherKeys(db: Store, keys: seq<Bytes>, buffered: seq<Command>, later: nat)
    requires forall c :: c in buffered ==> Replayable(c, later) && forall k :: k in keys ==> k !in KeysOf(c)
    ensures ReplayAll(db, Dels(keys) + buffered, later) == ReplayAll(db, buffered + Dels(keys), later)
    decreases |keys|
  {
    if keys == [] {
      assert Dels(keys) + buffered == buffered + Dels(keys);
    } else {
      var k, rest := keys[0], keys[1..];
      var next := ReplayCommand(db, Del(k), later).value;
      assert Dels(keys) == [Del(k)] + Dels(rest);
      assert Dels(keys) + buffered == [Del(k)] + (Dels(rest) + buffered);
      assert buffered + Dels(keys) == (buffered + [Del(k)]) + Dels(rest);
      assert [Del(k)] + (buffered + Dels(rest)) == ([Del(k)] + buffered) + Dels(rest);
      ReplayOne(db, Del(k), later);
      ReplayAppend(db, [Del(k)], Dels(rest) + buffered, later);
      ReplayAppend(db, [Del(k)], buffered + Dels(rest), later);
      SweepOvertakesOtherKeys(next, rest, buffered, later);
      forall c | c in buffered
        ensures KeysOf(Del(k)) !! KeysOf(c)
      {
        assert k in keys;
      }
      ReplayLater(db, Del(k), buffered, later);
      ReplayAppend(db, [Del(k)] + buffered, Dels(rest), later);
      ReplayAppend(db, buffered + [Del(k)], Dels(rest), later);
    }
  }

  /** But a swept key whose SETEX was still buffered comes back: its DEL line is in the file first. */
  lemma OvertakenSetExReturns(db: Store, replayed: Store, now: nat, keys: seq<Bytes>, k: Bytes, s: int, v: Bytes,
      later: nat)
    requires ExpiredKeys(db, now, keys) && k in keys && Replayable(SetEx(k, s, v), later)
    ensures k !in Swept(db, now)
    ensures match ReplayAll(replayed, Dels(keys) + [SetEx(k, s, v)], later)
            case Some(next) => k in next && !Similar(Swept(db, now), next)
            case None => false
  {
    DelsReplay(replayed, keys, later, |keys|);
    assert keys[..|keys|] == keys;
    ReplayAppend(replayed, Dels(keys), [SetEx(k, s, v)], later);
    var mid := Without(replayed, keys);
    ReplayOne(mid, SetEx(k, s, v), later);
    var next := ReplayCommand(mid, SetEx(k, s, v), later).value;
    assert Look(next, k).Some? && Look(Swept(db, now), k).None?;
    assert !SimilarCell(Look(Swept(db, now), k), Look(next, k));
  }

  // ---- Exactly when overtaking does no harm ----

  /** No buffered record is on a swept key. */
  predicate Untouched(records: seq<Command>, keys: seq<Bytes>) {
    forall c, k :: c in records && k in keys ==> k !in KeysOf(c)
  }

  predicate HasDeadline(db: Store, k: Bytes) { k in db && db[k].expiresAt.Some? }

  /** The record pushes onto the key, which holds a string, so that the element is dropped. */
  predicate MovesInto(c: Command, k: Bytes) { c.RPopLPush? && c.destination == k && c.source != k }

  predicate SetAgain(records: seq<Command>, k: Bytes) { exists c :: c in records && c.SetEx? && c.key == k }

  lemma LiveRunNext(db: Store, front: seq<Timed>, some: seq<Timed>, t: Timed, h: History, g: History)
    requires LiveRun(db, front) == h && LiveRun(h.db, some) == g
    requires LiveRun(db, front + some) == History(g.db, h.log + g.log)
    ensures var r := LiveCommand(g.db, t.command, t.now);
            LiveRun(db, (front + some) + [t]) == History(r.db, h.log + (g.log + r.log))
  {
    RunOf(db, front + some, t);
    AppendAssociates(h.log, g.log, LiveCommand(g.db, t.command, t.now).log);
  }

  lemma SplitLast(rest: seq<Timed>) returns (front: seq<Timed>, t: Timed)
    requires rest != []
    ensures rest == front + [t] && |front| < |rest|
  {
    front, t := rest[..|rest| - 1], rest[|rest| - 1];
  }

  lemma {:induction false} LiveRunAppend(db: Store, front: seq<Timed>, rest: seq<Timed>)
    ensures var h := LiveRun(db, front);
            LiveRun(db, front + rest) == History(LiveRun(h.db, rest).db, h.log + LiveRun(h.db, rest).log)
    decreases |rest|
  {
    var h := LiveRun(db, front);
    if rest == [] {
      assert front + rest == front;
    } else {
      var some, t := SplitLast(rest);
      LiveRunAppend(db, front, some);
      LiveRunNext(db, front, some, t, h, LiveRun(h.db, some));
      AppendAssociates(front, some, [t]);
    }
  }

  lemma TrimsIdleParts(db: Store, front: seq<Timed>, rest: seq<Timed>)
    requires TrimsIdle(db, front + rest)
    ensures TrimsIdle(db, front) && TrimsIdle(LiveRun(db, front).db, rest)
  {
    var run := front + rest;
    forall i | 0 <= i < |front|
      ensures TrimIsIdle(LiveRun(db, front[..i]).db, front[i].command)
    {
      assert run[..i] == front[..i] && run[i] == front[i];
    }
    forall i | 0 <= i < |rest|
      ensures TrimIsIdle(LiveRun(LiveRun(db, front).db, rest[..i]).db, rest[i].command)
    {
      LiveRunAppend(db, front, rest[..i]);
      assert run[..|front| + i] == front + rest[..i] && run[|front| + i] == rest[i];
    }
  }

  lemma {:induction false} RunKeepsStrings(db: Store, run: seq<Timed>)
    requires OnlyStringsExpire(db)
    ensures OnlyStringsExpire(LiveRun(db, run).db)
  {
    if run != [] {
      var front, t := run[..|run| - 1], run[|run| - 1];
      RunKeepsStrings(db, front);
      LiveKeepsStrings(LiveRun(db, front).db, t.command, t.now);
    }
  }

  lemma SetsAgain(c: Command)
    ensures c.SetEx? ==> SetAgain([c], c.key)
  {
    assert c in [c];
  }

  lemma KeyKeepsDeadline(db: Store, c: Command, now: nat)
    requires OnlyStringsExpire(db) && InRange(c) && SingleKey(c) && HasDeadline(LiveCommand(db, c, now).db, c.key)
    requires !SetAgain(LiveCommand(db, c, now).log, c.key)
    ensures HasDeadline(db, c.key) && LiveCommand(db, c, now).log == []
  {
    var cell := Look(db, c.key);
    var o := LiveCell(cell, c, now);
    assert cell.Some? ==> EntryOk(cell.value);
    assert o.cell.Some? && o.cell.value.expiresAt.Some?;
    SetsAgain(c);
  }

  /** A key that has a deadline after a command, and was not given it just then, had one before. */
  lemma StepKeepsDeadline(db: Store, c: Command, now: nat, k: Bytes)
    requires OnlyStringsExpire(db) && InRange(c) && HasDeadline(LiveCommand(db, c, now).db, k)
    requires !SetAgain(LiveCommand(db, c, now).log, k)
    ensures HasDeadline(db, k)
    ensures forall e :: e in LiveCommand(db, c, now).log && k in KeysOf(e) ==> MovesInto(e, k)
  {
    LiveRecords(db, c, now);
    if SingleKey(c) {
      if c.key == k { KeyKeepsDeadline(db, c, now); }
    } else if c.RPopLPush? && k in KeysOf(c) && MoveTail(db, c.source, c.destination).Some? {
      assert EntryOk(db[c.source]);
      assert k in db ==> EntryOk(db[k]);
    }
  }

  lemma MoveKeepsKeys(db: Store, s: Bytes, d: Bytes, k: Bytes)
    requires k in db && MoveTail(db, s, d).Some?
    ensures k in MoveTail(db, s, d).value.1
  {
  }

  lemma PresenceKept(db: Store, c: Command, later: nat, k: Bytes)
    requires Replayable(c, later) && k in db && c != Del(k)
    ensures k in ReplayCommand(db, c, later).value
  {
    if c.RPopLPush? && MoveTail(db, c.source, c.destination).Some? {
      MoveKeepsKeys(db, c.source, c.destination, k);
    } else if SingleKey(c) && c.key == k {
      assert Look(db, k).Some?;
    }
  }

  /** Both the run and its log, one command shorter. */
  lemma RunLast(m: Store, rest: seq<Timed>)
    requires rest != []
    ensures var h := LiveRun(m, rest[..|rest| - 1]);
            var t := rest[|rest| - 1];
            var r := LiveCommand(h.db, t.command, t.now);
            LiveRun(m, rest) == History(r.db, h.log + r.log)
  {
  }

  /** A key that was set again with a deadline, and still has one, is there after the replay, whatever was before. */
  lemma {:induction false} ReSet(m: Store, rest: seq<Timed>, k: Bytes, y: Store, later: nat)
    requires OnlyStringsExpire(m) && WellTyped(rest) && HasDeadline(LiveRun(m, rest).db, k)
    requires SetAgain(LiveRun(m, rest).log, k) && RecordsReplayable(LiveRun(m, rest).log, later)
    ensures ReplayAll(y, LiveRun(m, rest).log, later).Some?
    ensures k in ReplayAll(y, LiveRun(m, rest).log, later).value
  {
    ReplayPanics(y, LiveRun(m, rest).log, later);
    var front, t := rest[..|rest| - 1], rest[|rest| - 1];
    var h := LiveRun(m, front);
    var r := LiveCommand(h.db, t.command, t.now);
    RunLast(m, rest);
    assert t in rest;
    ReplayAppend(y, h.log, r.log, later);
    var z := ReplayAll(y, h.log, later).value;
    LiveRecords(h.db, t.command, t.now);
    if r.log != [] { ReplayOne(z, r.log[0], later); }
    if !SetAgain(r.log, k) {
      RunKeepsStrings(m, front);
      StepKeepsDeadline(h.db, t.command, t.now, k);
      var c :| c in h.log + r.log && c.SetEx? && c.key == k;
      assert c in h.log;
      ReSet(m, front, k, y, later);
      if r.log != [] {
        assert r.log[0] in r.log;
        PresenceKept(z, r.log[0], later, k);
      }
    }
  }

  lemma MoveCreates(z: Store, s: Bytes, k: Bytes)
    requires s != k && s in z && z[s].value.List? && z[s].value.items != []
    ensures forall later :: var next := ReplayCommand(z, RPopLPush(s, k), later); next.Some? && k in next.value
  {
  }

  /** What the replay without the swept keys makes of records that do not touch them. */
  lemma WithoutKeys(x: Store, cs: seq<Command>, keys: seq<Bytes>, later: nat)
    requires Untouched(cs, keys) && RecordsReplayable(cs, later)
    ensures ReplayAll(x, cs, later).Some?
    ensures ReplayAll(Without(x, keys), cs, later) == Some(Without(ReplayAll(x, cs, later).value, keys))
  {
    ReplayPanics(x, cs, later);
    SweepOvertakesOtherKeys(x, keys, cs, later);
    DelsReplay(x, keys, later, |keys|);
    DelsReplay(ReplayAll(x, cs, later).value, keys, later, |keys|);
    assert keys[..|keys|] == keys;
    ReplayAppend(x, Dels(keys), cs, later);
    ReplayAppend(x, cs, Dels(keys), later);
  }

  /** The source of a move that was logged holds an element, in the replayed state without the swept keys too. */
  lemma SourceIsThere(db: Store, x: Store, e: Command, t: Timed, keys: seq<Bytes>)
    requires OnlyStringsExpire(db) && Similar(db, x) && LiveCommand(db, t.command, t.now).log == [e] && e.RPopLPush?
    requires RecordOf(t.command) == e && forall j :: j in keys ==> HasDeadline(db, j)
    ensures var y := Without(x, keys); e.source in y && y[e.source].value.List? && y[e.source].value.items != []
  {
    var s := e.source;
    assert s in db && db[s].value.List? && db[s].value.items != [];
    assert EntryOk(db[s]) && s !in keys;
    assert SimilarCell(Look(db, s), Look(x, s));
  }

  lemma LastArrives(db: Store, x: Store, t: Timed, keys: seq<Bytes>, k: Bytes, later: nat)
    requires OnlyStringsExpire(db) && Similar(db, x) && forall j :: j in keys ==> HasDeadline(db, j)
    requires var log := LiveCommand(db, t.command, t.now).log;
             log == [RecordOf(t.command)] && MovesInto(log[0], k) && k in keys
    ensures var log := LiveCommand(db, t.command, t.now).log;
            ReplayAll(Without(x, keys), log, later).Some? && k in ReplayAll(Without(x, keys), log, later).value
  {
    var e := LiveCommand(db, t.command, t.now).log[0];
    SourceIsThere(db, x, e, t, keys);
    MoveCreates(Without(x, keys), e.source, k);
    ReplayOne(Without(x, keys), e, later);
  }

  lemma NotSetAgainParts(a: seq<Command>, b: seq<Command>, k: Bytes)
    requires !SetAgain(a + b, k)
    ensures !SetAgain(a, k) && !SetAgain(b, k)
  {
    assert forall c :: c in a ==> c in a + b;
    assert forall c :: c in b ==> c in a + b;
  }

  /** The conditions on a run and its keys, for the run without its last command. */
  lemma ShorterRun(m: Store, front: seq<Timed>, t: Timed, keys: seq<Bytes>)
    requires OnlyStringsExpire(m) && WellTyped(front + [t]) && TrimsIdle(m, front + [t])
    requires forall j :: j in keys ==>
               HasDeadline(LiveRun(m, front + [t]).db, j) && !SetAgain(LiveRun(m, front + [t]).log, j)
    ensures WellTyped(front) && TrimsIdle(m, front) && OnlyStringsExpire(LiveRun(m, front).db) && InRange(t.command)
    ensures forall j :: j in keys ==> HasDeadline(LiveRun(m, front).db, j) && !SetAgain(LiveRun(m, front).log, j)
    ensures forall e, j ::
              e in LiveCommand(LiveRun(m, front).db, t.command, t.now).log && j in keys && j in KeysOf(e) ==>
                MovesInto(e, j)
  {
    var h := LiveRun(m, front);
    var r := LiveCommand(h.db, t.command, t.now);
    RunOf(m, front, t);
    TrimsIdleParts(m, front, [t]);
    RunKeepsStrings(m, front);
    assert t in front + [t] && forall u :: u in front ==> u in front + [t];
    forall j | j in keys
      ensures HasDeadline(h.db, j) && !SetAgain(h.log, j)
      ensures forall e :: e in r.log && j in KeysOf(e) ==> MovesInto(e, j)
    {
      NotSetAgainParts(h.log, r.log, j);
      StepKeepsDeadline(h.db, t.command, t.now, j);
    }
  }

  lemma StaysThere(z: Store, log: seq<Command>, later: nat, k: Bytes)
    requires k in z && |log| <= 1 && RecordsReplayable(log, later) && Del(k) !in log
    ensures ReplayAll(z, log, later).Some? && k in ReplayAll(z, log, later).value
  {
    if log != [] {
      assert log == [log[0]] && log[0] in log;
      ReplayOne(z, log[0], later);
      PresenceKept(z, log[0], later, k);
    }
  }

  lemma ReplayableParts(a: seq<Command>, b: seq<Command>, later: nat)
    requires RecordsReplayable(a + b, later)
    ensures RecordsReplayable(a, later) && RecordsReplayable(b, later)
  {
    assert forall c :: c in a ==> c in a + b;
    assert forall c :: c in b ==> c in a + b;
  }

  /** A run that ends with a deadline on each of the keys and sets none of them again. */
  ghost predicate Timing(m: Store, x: Store, rest: seq<Timed>, keys: seq<Bytes>, later: nat) {
    var h := LiveRun(m, rest);
    && OnlyStringsExpire(m) && Similar(m, x) && WellTyped(rest) && TrimsIdle(m, rest)
    && RecordsReplayable(h.log, later)
    && forall j :: j in keys ==> HasDeadline(h.db, j) && !SetAgain(h.log, j)
  }

  /** Replaying the records leaves something under the key. */
  predicate Arrives(y: Store, log: seq<Command>, k: Bytes, later: nat) {
    var z := ReplayAll(y, log, later);
    z.Some? && k in z.value
  }

  lemma LastTouches(a: seq<Command>, b: seq<Command>, keys: seq<Bytes>) returns (k: Bytes)
    requires Untouched(a, keys) && !Untouched(a + b, keys) && |b| <= 1
    ensures |b| == 1 && k in keys && k in KeysOf(b[0])
  {
    var c, j :| c in a + b && j in keys && j in KeysOf(c);
    k := j;
    assert c in b;
  }

  /** The first record on a swept key is the last of the run. */
  lemma ArrivesLast(m: Store, x: Store, front: seq<Timed>, t: Timed, keys: seq<Bytes>, later: nat) returns (k: Bytes)
    requires Timing(m, x, front + [t], keys, later)
    requires !Untouched(LiveRun(m, front + [t]).log, keys) && Untouched(LiveRun(m, front).log, keys)
    ensures k in keys && Arrives(Without(x, keys), LiveRun(m, front + [t]).log, k, later)
  {
    var h := LiveRun(m, front);
    var r := LiveCommand(h.db, t.command, t.now);
    RunOf(m, front, t);
    ShorterRun(m, front, t, keys);
    LiveRecords(h.db, t.command, t.now);
    k := LastTouches(h.log, r.log, keys);
    assert r.log[0] in r.log;
    ReplayableParts(h.log, r.log, later);
    RunReplays(m, x, front, later);
    WithoutKeys(x, h.log, keys, later);
    LastArrives(h.db, ReplayAll(x, h.log, later).value, t, keys, k, later);
    ReplayAppend(Without(x, keys), h.log, r.log, later);
  }

  lemma FrontReplayable(m: Store, front: seq<Timed>, t: Timed, later: nat)
    requires RecordsReplayable(LiveRun(m, front + [t]).log, later)
    ensures RecordsReplayable(LiveRun(m, front).log, later)
  {
    RunOf(m, front, t);
    ReplayableParts(LiveRun(m, front).log, LiveCommand(LiveRun(m, front).db, t.command, t.now).log, later);
  }

  lemma AppendArrives(y: Store, a: seq<Command>, b: seq<Command>, k: Bytes, later: nat)
    requires Arrives(y, a, k, later) && |b| <= 1 && RecordsReplayable(b, later) && Del(k) !in b
    ensures Arrives(y, a + b, k, later)
  {
    ReplayAppend(y, a, b, later);
    StaysThere(ReplayAll(y, a, later).value, b, later, k);
  }

  /** The last command of the run does not remove the key again. */
  lemma ArrivedEarlier(m: Store, y: Store, front: seq<Timed>, t: Timed, k: Bytes, later: nat)
    requires InRange(t.command) && RecordsReplayable(LiveRun(m, front + [t]).log, later)
    requires Del(k) !in LiveCommand(LiveRun(m, front).db, t.command, t.now).log
    requires Arrives(y, LiveRun(m, front).log, k, later)
    ensures Arrives(y, LiveRun(m, front + [t]).log, k, later)
  {
    var h := LiveRun(m, front);
    var log := LiveCommand(h.db, t.command, t.now).log;
    RunOf(m, front, t);
    ReplayableParts(h.log, log, later);
    LiveRecords(h.db, t.command, t.now);
    AppendArrives(y, h.log, log, k, later);
  }

  lemma {:induction false} ArrivesBy(m: Store, x: Store, front: seq<Timed>, t: Timed, keys: seq<Bytes>, later: nat)
      returns (k: Bytes)
    requires Timing(m, x, front + [t], keys, later) && !Untouched(LiveRun(m, front + [t]).log, keys)
    ensures k in keys && Arrives(Without(x, keys), LiveRun(m, front + [t]).log, k, later)
    decreases |front| + 1, 0
  {
    if Untouched(LiveRun(m, front).log, keys) {
      k := ArrivesLast(m, x, front, t, keys, later);
    } else {
      ShorterRun(m, front, t, keys);
      FrontReplayable(m, front, t, later);
      assert front != [] by { assert LiveRun(m, []).log == []; }
      k := MoveArrives(m, x, front, keys, later);
      assert !MovesInto(Del(k), k);
      ArrivedEarlier(m, Without(x, keys), front, t, k, later);
    }
  }

  /** None of the swept keys is set again: then a record on one of them pushes onto it, and replay makes it a list. */
  lemma {:induction false} MoveArrives(m: Store, x: Store, rest: seq<Timed>, keys: seq<Bytes>, later: nat)
      returns (k: Bytes)
    requires rest != [] && Timing(m, x, rest, keys, later) && !Untouched(LiveRun(m, rest).log, keys)
    ensures k in keys && Arrives(Without(x, keys), LiveRun(m, rest).log, k, later)
    decreases |rest|, 1
  {
    var front, t := SplitLast(rest);
    k := ArrivesBy(m, x, front, t, keys, later);
  }

  lemma SweepAgrees(db: Store, replayed: Store, f: seq<Command>, b: seq<Command>, now: nat, keys: seq<Bytes>,
      later: nat)
    requires ExpiredKeys(db, now, keys) && Untouched(b, keys) && RecordsReplayable(f + b, later)
    requires Agrees(replayed, f + b, db, later)
    ensures Agrees(replayed, (f + Dels(keys)) + b, Swept(db, now), later)
  {
    ReplayAppend(replayed, f, b, later);
    var x := ReplayAll(replayed, f, later).value;
    assert forall c :: c in b ==> c in f + b;
    SweepOvertakesOtherKeys(x, keys, b, later);
    ReplayAppend(x, b, Dels(keys), later);
    SweepReplays(db, ReplayAll(x, b, later).value, now, keys, later);
    AppendAssociates(f, Dels(keys), b);
    ReplayAppend(replayed, f, Dels(keys) + b, later);
  }

  lemma SpoilParts(f: seq<Command>, b: seq<Command>, front: seq<Timed>, rest: seq<Timed>, later: nat)
    requires RecordsReplayable(f + b, later) && WellTyped(front + rest)
    ensures RecordsReplayable(f, later) && RecordsReplayable(b, later) && WellTyped(front) && WellTyped(rest)
  {
    assert forall c :: c in f ==> c in f + b;
    assert forall c :: c in b ==> c in f + b;
    assert forall t :: t in front ==> t in front + rest;
    assert forall t :: t in rest ==> t in front + rest;
  }

  lemma SweepSpoils(base: Store, replayed: Store, front: seq<Timed>, rest: seq<Timed>, now: nat,
      keys: seq<Bytes>, later: nat)
    requires OnlyStringsExpire(base) && Similar(base, replayed)
    requires WellTyped(front + rest) && TrimsIdle(base, front + rest)
    requires RecordsReplayable(LiveRun(base, front).log + LiveRun(LiveRun(base, front).db, rest).log, later)
    requires LiveRun(base, front + rest).db == LiveRun(LiveRun(base, front).db, rest).db
    requires ExpiredKeys(LiveRun(base, front + rest).db, now, keys)
    requires !Untouched(LiveRun(LiveRun(base, front).db, rest).log, keys)
    ensures !Agrees(replayed, (LiveRun(base, front).log + Dels(keys)) + LiveRun(LiveRun(base, front).db, rest).log,
                    Swept(LiveRun(base, front + rest).db, now), later)
  {
    var db := LiveRun(base, front + rest).db;
    var m, f := LiveRun(base, front).db, LiveRun(base, front).log;
    var b := LiveRun(m, rest).log;
    TrimsIdleParts(base, front, rest);
    RunKeepsStrings(base, front);
    SpoilParts(f, b, front, rest, later);
    RunReplays(base, replayed, front, later);
    var x := ReplayAll(replayed, f, later).value;
    AppendAssociates(f, Dels(keys), b);
    ReplayAppend(replayed, f, Dels(keys) + b, later);
    DelsReplay(x, keys, later, |keys|);
    assert keys[..|keys|] == keys;
    ReplayAppend(x, Dels(keys), b, later);
    forall j | j in keys
      ensures HasDeadline(db, j)
    {
    }
    var k: Bytes;
    if exists j :: j in keys && SetAgain(b, j) {
      k :| k in keys && SetAgain(b, k);
      ReSet(m, rest, k, Without(x, keys), later);
    } else {
      assert rest != [] by { assert LiveRun(m, []).log == []; }
      k := MoveArrives(m, x, rest, keys, later);
    }
    var z := ReplayAll(Without(x, keys), b, later).value;
    assert Look(z, k).Some? && Look(Swept(db, now), k).None?;
    assert !SimilarCell(Look(Swept(db, now), k), Look(z, k));
  }

  /**
    A sweep after a run whose last commands are still in the writer's buffer: with the DEL lines in the file before the
    buffered records, replay gives the swept keyspace exactly when no buffered record is on a swept key.
   */
  lemma SweepMayOvertake(base: Store, replayed: Store, front: seq<Timed>, rest: seq<Timed>, now: nat,
      keys: seq<Bytes>, later: nat)
    requires OnlyStringsExpire(base) && Similar(base, replayed)
    requires WellTyped(front + rest) && TrimsIdle(base, front + rest)
    requires RecordsReplayable(LiveRun(base, front + rest).log, later)
    requires ExpiredKeys(LiveRun(base, front + rest).db, now, keys)
    ensures var written := LiveRun(base, front).log;
            var buffered := LiveRun(LiveRun(base, front).db, rest).log;
            && LiveRun(base, front + rest).log == written + buffered
            && (Agrees(replayed, (written + Dels(keys)) + buffered, Swept(LiveRun(base, front + rest).db, now), later)
                <==> Untouched(buffered, keys))
  {
    var db := LiveRun(base, front + rest).db;
    var m, f := LiveRun(base, front).db, LiveRun(base, front).log;
    var b := LiveRun(m, rest).log;
    LiveRunAppend(base, front, rest);
    if Untouched(b, keys) {
      RunReplays(base, replayed, front + rest, later);
      SweepAgrees(db, replayed, f, b, now, keys, later);
    } else {
      SweepSpoils(base, replayed, front, rest, now, keys, later);
    }
  }
}
