/**
  The sweeper removes keys under the shard locks and appends their DEL lines only afterwards. What if clients go on in
  between, and their records are in the file first?
 */
module SweepLag {
  import opened Prelude
  import opened Decimal
  import opened Protocol
  import opened Keyspace
  import opened Durability
  import opened Expiry
  import opened Commuting
  import opened SweepOrder

  // ---- Keys that replay still believes to hold what was swept ----

  /** The record brings the key to the same entry whatever was there. */
  predicate Resets(c: Command, k: Bytes) { (c.Set? || c.SetEx? || c.Del?) && c.key == k }

  predicate ResetIn(records: seq<Command>, k: Bytes) { exists c :: c in records && Resets(c, k) }

  /** The swept keys that none of the records has reset. */
  function Lagging(records: seq<Command>, keys: seq<Bytes>): set<Bytes> {
    set k | k in keys && !ResetIn(records, k)
  }

  lemma LaggingNext(records: seq<Command>, c: Command, keys: seq<Bytes>)
    ensures Lagging(records + [c], keys) == set k | k in Lagging(records, keys) && !Resets(c, k)
  {
    forall k | k in keys
      ensures ResetIn(records + [c], k) <==> ResetIn(records, k) || Resets(c, k)
    {
      assert c in records + [c];
      assert forall e :: e in records ==> e in records + [c];
    }
  }

  /** Replay holds a string under each lagging key, and is up to date elsewhere. */
  ghost predicate Behind(live: Store, z: Store, lag: set<Bytes>) {
    && (forall k :: k in lag ==> k in z && z[k].value.Str?)
    && (forall k :: k !in lag ==> SimilarCell(Look(live, k), Look(z, k)))
  }

  /** An element that replay does not have moves from a lagging key onto a list that replay has right. */
  predicate Escapes(live: Store, c: Command, lag: set<Bytes>) {
    && c.RPopLPush? && MoveTail(live, c.source, c.destination).Some?
    && c.source in lag && c.destination !in lag
    && (c.destination in live ==> live[c.destination].value.List?)
  }

  // ---- One command ----

  /** A keyspace like the live one that replay cannot tell from its own where it is up to date. */
  function Mixed(live: Store, z: Store, lag: set<Bytes>): Store {
    map k | k in live.Keys + z.Keys && (if k in lag then k in live else k in z) :: if k in lag then live[k] else z[k]
  }

  lemma MixedLooks(live: Store, z: Store, lag: set<Bytes>, k: Bytes)
    ensures Look(Mixed(live, z, lag), k) == if k in lag then Look(live, k) else Look(z, k)
  {
  }

  ghost predicate AgreeOutside(a: Store, b: Store, lag: set<Bytes>) {
    forall k :: k !in lag ==> Look(a, k) == Look(b, k)
  }

  lemma MixedIsSimilar(live: Store, z: Store, lag: set<Bytes>)
    requires Behind(live, z, lag)
    ensures Similar(live, Mixed(live, z, lag)) && AgreeOutside(Mixed(live, z, lag), z, lag)
  {
    forall k
      ensures SimilarCell(Look(live, k), Look(Mixed(live, z, lag), k))
      ensures k !in lag ==> Look(Mixed(live, z, lag), k) == Look(z, k)
    {
      MixedLooks(live, z, lag, k);
    }
  }

  /** A record on keys that are up to date. */
  lemma ElsewhereStep(live: Store, next: Store, z: Store, c: Command, lag: set<Bytes>, later: nat)
    requires Behind(live, z, lag) && Replayable(c, later) && KeysOf(c) !! lag
    requires Agrees(Mixed(live, z, lag), [c], next, later)
    ensures Behind(next, Replayed(z, c, later), lag)
  {
    var w := Mixed(live, z, lag);
    MixedIsSimilar(live, z, lag);
    ReplayOne(w, c, later);
    ReplayFrame(w, z, c, later);
    ReplayFrame(z, z, c, later);
    forall k
      ensures k in lag ==> Look(Replayed(z, c, later), k) == Look(z, k)
      ensures k !in lag ==> SimilarCell(Look(next, k), Look(Replayed(z, c, later), k))
    {
      assert SimilarCell(Look(next, k), Look(Replayed(w, c, later), k));
    }
    assert forall k :: k in lag ==> Look(Replayed(z, c, later), k).Some?;
  }

  /** No record but a reset makes anything but a string of a string. */
  lemma StringStays(cell: Cell, c: Command, later: nat)
    requires SingleKey(c) && cell.Some? && cell.value.value.Str? && !Resets(c, c.key)
    ensures var after := ReplayCell(cell, c, later); after.Some? && after.value.value.Str?
  {
  }

  lemma LaggingKeyStep(live: Store, next: Store, z: Store, c: Command, lag: set<Bytes>, later: nat)
    requires Behind(live, z, lag) && Replayable(c, later) && SingleKey(c) && c.key in lag && !Resets(c, c.key)
    requires forall k :: k != c.key ==> Look(next, k) == Look(live, k)
    ensures Behind(next, Replayed(z, c, later), lag)
  {
    StringStays(Look(z, c.key), c, later);
    PutFrame(z, c.key, ReplayCell(Look(z, c.key), c, later));
    var z' := Replayed(z, c, later);
    forall k
      ensures k in lag ==> k in z' && z'[k].value.Str?
      ensures k !in lag ==> SimilarCell(Look(next, k), Look(z', k))
    {
      assert k != c.key ==> Look(z', k) == Look(z, k);
      assert Look(z', c.key).Some?;
    }
  }

  lemma ResetStep(live: Store, next: Store, z: Store, c: Command, lag: set<Bytes>, later: nat)
    requires Behind(live, z, lag) && Replayable(c, later) && SingleKey(c) && Resets(c, c.key)
    requires forall k :: k != c.key ==> Look(next, k) == Look(live, k)
    requires SimilarCell(Look(next, c.key), ReplayCell(None, c, later))
    ensures Behind(next, Replayed(z, c, later), lag - {c.key})
  {
    PutFrame(z, c.key, ReplayCell(Look(z, c.key), c, later));
    var z' := Replayed(z, c, later);
    forall k
      ensures k in lag - {c.key} ==> k in z' && z'[k].value.Str?
      ensures k !in lag - {c.key} ==> SimilarCell(Look(next, k), Look(z', k))
    {
      assert k != c.key ==> Look(z', k) == Look(z, k);
      assert Look(z', c.key) == ReplayCell(None, c, later);
    }
  }

  /** A move out of a lagging key is nothing to replay; without an escape nothing up to date is touched. */
  lemma MoveOutStep(live: Store, z: Store, s: Bytes, d: Bytes, lag: set<Bytes>, later: nat)
    requires Behind(live, z, lag) && s in lag && !Escapes(live, RPopLPush(s, d), lag)
    requires MoveTail(live, s, d).Some?
    ensures Replayed(z, RPopLPush(s, d), later) == z && Behind(MoveTail(live, s, d).value.1, z, lag)
  {
    var next := MoveTail(live, s, d).value.1;
    forall k | k !in lag
      ensures Look(next, k) == Look(live, k)
    {
    }
  }

  /** A move into a lagging key drops its element in replay; the source is left the same. */
  lemma MoveInStep(live: Store, z: Store, s: Bytes, d: Bytes, lag: set<Bytes>, later: nat)
    requires Behind(live, z, lag) && s !in lag && d in lag && MoveTail(live, s, d).Some?
    ensures Behind(MoveTail(live, s, d).value.1, Replayed(z, RPopLPush(s, d), later), lag)
  {
    assert SimilarCell(Look(live, s), Look(z, s));
    var next, z' := MoveTail(live, s, d).value.1, Replayed(z, RPopLPush(s, d), later);
    assert Look(z', d) == Look(z, d);
    forall k
      ensures k in lag ==> Look(z', k) == Look(z, k)
      ensures k !in lag ==> SimilarCell(Look(next, k), Look(z', k))
    {
      assert k !in lag ==> SimilarCell(Look(live, k), Look(z, k));
    }
    assert forall k :: k in lag ==> Look(z', k).Some?;
  }

  lemma MoveStep(live: Store, z: Store, c: Command, now: nat, lag: set<Bytes>, later: nat)
    requires Behind(live, z, lag) && c.RPopLPush? && !Escapes(live, c, lag)
    requires MoveTail(live, c.source, c.destination).Some?
    ensures Behind(LiveCommand(live, c, now).db, Replayed(z, c, later), lag)
  {
    if c.source in lag {
      MoveOutStep(live, z, c.source, c.destination, lag, later);
    } else if c.destination in lag {
      MoveInStep(live, z, c.source, c.destination, lag, later);
    } else {
      MixedIsSimilar(live, z, lag);
      StepReplays(live, Mixed(live, z, lag), c, now, later);
      ElsewhereStep(live, LiveCommand(live, c, now).db, z, c, lag, later);
    }
  }

  lemma LiveFrame(live: Store, c: Command, now: nat)
    requires SingleKey(c)
    ensures forall k :: k != c.key ==> Look(LiveCommand(live, c, now).db, k) == Look(live, k)
    ensures Look(LiveCommand(live, c, now).db, c.key) == LiveCell(Look(live, c.key), c, now).cell
  {
    PutFrame(live, c.key, LiveCell(Look(live, c.key), c, now).cell);
  }

  lemma ResetCell(cell: Cell, c: Command, now: nat, later: nat)
    requires SingleKey(c) && InRange(c) && LiveCell(cell, c, now).log == [RecordOf(c)] && Resets(RecordOf(c), c.key)
    requires Replayable(RecordOf(c), later)
    ensures SimilarCell(LiveCell(cell, c, now).cell, ReplayCell(None, RecordOf(c), later))
  {
  }

  lemma KeyStep(live: Store, z: Store, c: Command, now: nat, lag: set<Bytes>, later: nat)
    requires Behind(live, z, lag) && SingleKey(c) && InRange(c) && TrimIsIdle(live, c)
    requires LiveCommand(live, c, now).log == [RecordOf(c)] && Replayable(RecordOf(c), later)
    ensures Behind(LiveCommand(live, c, now).db, Replayed(z, RecordOf(c), later),
                   set k | k in lag && !Resets(RecordOf(c), k))
  {
    var rec, next := RecordOf(c), LiveCommand(live, c, now).db;
    LiveFrame(live, c, now);
    assert rec.key == c.key;
    if Resets(rec, c.key) {
      ResetCell(Look(live, c.key), c, now, later);
      ResetStep(live, next, z, rec, lag, later);
      assert (set k | k in lag && !Resets(rec, k)) == lag - {c.key};
    } else {
      assert (set k | k in lag && !Resets(rec, k)) == lag;
      if c.key in lag {
        LaggingKeyStep(live, next, z, rec, lag, later);
      } else {
        MixedIsSimilar(live, z, lag);
        StepReplays(live, Mixed(live, z, lag), c, now, later);
        ElsewhereStep(live, next, z, rec, lag, later);
      }
    }
  }

  lemma NothingLogged(live: Store, next: Store, z: Store, c: Command, now: nat, lag: set<Bytes>, later: nat)
    requires Behind(live, z, lag) && TrimIsIdle(live, c)
    requires LiveCommand(live, c, now).log == [] && LiveCommand(live, c, now).db == next
    ensures Behind(next, z, lag)
  {
    assert Similar(live, live);
    StepReplays(live, live, c, now, later);
    forall k | k !in lag
      ensures SimilarCell(Look(next, k), Look(z, k))
    {
      assert SimilarCell(Look(next, k), Look(live, k)) && SimilarCell(Look(live, k), Look(z, k));
    }
  }

  /** What one live command, and the replay of its records, make of a replay that lags behind. */
  lemma StepLags(live: Store, z: Store, t: Timed, b: seq<Command>, keys: seq<Bytes>, later: nat)
    requires Behind(live, z, Lagging(b, keys)) && InRange(t.command) && TrimIsIdle(live, t.command)
    requires !Escapes(live, t.command, Lagging(b, keys))
    requires RecordsReplayable(LiveCommand(live, t.command, t.now).log, later)
    ensures var r := LiveCommand(live, t.command, t.now);
            && ReplayAll(z, r.log, later).Some?
            && Behind(r.db, ReplayAll(z, r.log, later).value, Lagging(b + r.log, keys))
  {
    var c, lag := t.command, Lagging(b, keys);
    var r := LiveCommand(live, c, t.now);
    LiveRecords(live, c, t.now);
    if r.log == [] {
      assert b + [] == b;
      NothingLogged(live, r.db, z, c, t.now, lag, later);
    } else {
      var rec := RecordOf(c);
      assert rec in r.log;
      LaggingNext(b, rec, keys);
      ReplayOne(z, rec, later);
      if SingleKey(c) {
        KeyStep(live, z, c, t.now, lag, later);
      } else {
        assert (set k | k in lag && !Resets(rec, k)) == lag;
        MoveStep(live, z, c, t.now, lag, later);
      }
    }
  }

  // ---- Runs after a sweep ----

  /** In no command of the run does anything escape. */
  predicate NoEscape(swept: Store, rest: seq<Timed>, keys: seq<Bytes>) {
    forall i :: 0 <= i < |rest| ==>
      !Escapes(LiveRun(swept, rest[..i]).db, rest[i].command, Lagging(LiveRun(swept, rest[..i]).log, keys))
  }

  lemma {:induction false} RunLags(swept: Store, x: Store, rest: seq<Timed>, keys: seq<Bytes>, later: nat)
    requires Behind(swept, x, Lagging([], keys)) && WellTyped(rest) && TrimsIdle(swept, rest)
    requires NoEscape(swept, rest, keys) && RecordsReplayable(LiveRun(swept, rest).log, later)
    ensures var h := LiveRun(swept, rest);
            && ReplayAll(x, h.log, later).Some?
            && Behind(h.db, ReplayAll(x, h.log, later).value, Lagging(h.log, keys))
    decreases |rest|, 1
  {
    if rest != [] {
      var front, t := SplitLast(rest);
      RunLagsNext(swept, x, front, t, keys, later);
    }
  }

  lemma FrontParts(front: seq<Timed>, t: Timed)
    ensures t in front + [t] && forall u :: u in front ==> u in front + [t]
    ensures (front + [t])[..|front|] == front && (front + [t])[|front|] == t
  {
  }

  lemma FrontOf(swept: Store, front: seq<Timed>, t: Timed, keys: seq<Bytes>)
    requires WellTyped(front + [t]) && TrimsIdle(swept, front + [t]) && NoEscape(swept, front + [t], keys)
    ensures WellTyped(front) && TrimsIdle(swept, front) && NoEscape(swept, front, keys)
    ensures InRange(t.command) && TrimIsIdle(LiveRun(swept, front).db, t.command)
    ensures !Escapes(LiveRun(swept, front).db, t.command, Lagging(LiveRun(swept, front).log, keys))
  {
    FrontParts(front, t);
    var run := front + [t];
    forall i | 0 <= i < |front|
      ensures TrimIsIdle(LiveRun(swept, front[..i]).db, front[i].command)
      ensures !Escapes(LiveRun(swept, front[..i]).db, front[i].command,
                       Lagging(LiveRun(swept, front[..i]).log, keys))
    {
      assert run[..i] == front[..i] && run[i] == front[i];
    }
  }

  lemma {:induction false} RunLagsNext(swept: Store, x: Store, front: seq<Timed>, t: Timed, keys: seq<Bytes>,
      later: nat)
    requires Behind(swept, x, Lagging([], keys)) && WellTyped(front + [t]) && TrimsIdle(swept, front + [t])
    requires NoEscape(swept, front + [t], keys) && RecordsReplayable(LiveRun(swept, front + [t]).log, later)
    ensures var h := LiveRun(swept, front + [t]);
            && ReplayAll(x, h.log, later).Some?
            && Behind(h.db, ReplayAll(x, h.log, later).value, Lagging(h.log, keys))
    decreases |front| + 1, 0
  {
    var h := LiveRun(swept, front);
    var r := LiveCommand(h.db, t.command, t.now);
    RunOf(swept, front, t);
    FrontOf(swept, front, t, keys);
    ReplayableParts(h.log, r.log, later);
    RunLags(swept, x, front, keys, later);
    StepLags(h.db, ReplayAll(x, h.log, later).value, t, h.log, keys, later);
    ReplayAppend(x, h.log, r.log, later);
  }

  /** Replay of everything before the sweep: the swept keys are still there, as strings. */
  lemma SweptIsBehind(m: Store, x: Store, now: nat, keys: seq<Bytes>)
    requires OnlyStringsExpire(m) && Similar(m, x) && ExpiredKeys(m, now, keys)
    ensures Behind(Swept(m, now), x, Lagging([], keys))
  {
    forall k
      ensures k in keys ==> k in x && x[k].value.Str?
      ensures k !in keys ==> SimilarCell(Look(Swept(m, now), k), Look(x, k))
    {
      assert SimilarCell(Look(m, k), Look(x, k));
      assert k in keys ==> k in m && EntryOk(m[k]) && Look(x, k).Some?;
    }
  }

  predicate NonePresent(db: Store, keys: seq<Bytes>) { forall k :: k in keys ==> k !in db }

  lemma PresentKeyIsLost(live: Store, z: Store, keys: seq<Bytes>)
    requires !NonePresent(live, keys)
    ensures !Similar(live, Without(z, keys))
  {
    var k :| k in keys && k in live;
    assert !SimilarCell(Look(live, k), Look(Without(z, keys), k));
  }

  /** The DEL lines finally remove all swept keys, whoever has brought them back. */
  lemma DelsCatchUp(live: Store, z: Store, keys: seq<Bytes>, lag: set<Bytes>)
    requires Behind(live, z, lag) && forall k :: k in lag ==> k in keys
    ensures Similar(live, Without(z, keys)) <==> NonePresent(live, keys)
  {
    if NonePresent(live, keys) {
      forall k
        ensures SimilarCell(Look(live, k), Look(Without(z, keys), k))
      {
        assert k !in keys ==> SimilarCell(Look(live, k), Look(z, k));
      }
    } else {
      PresentKeyIsLost(live, z, keys);
    }
  }

  lemma DelsBehind(x: Store, records: seq<Command>, keys: seq<Bytes>, later: nat)
    requires ReplayAll(x, records, later).Some?
    ensures ReplayAll(x, records + Dels(keys), later) == Some(Without(ReplayAll(x, records, later).value, keys))
  {
    ReplayAppend(x, records, Dels(keys), later);
    DelsReplay(ReplayAll(x, records, later).value, keys, later, |keys|);
    assert keys[..|keys|] == keys;
  }

  /** The file in which the records of a run that went on after the sweep stand before the DEL lines. */
  ghost predicate AgreesLate(replayed: Store, written: seq<Command>, swept: Store, rest: seq<Timed>, keys: seq<Bytes>,
      later: nat)
  {
    var h := LiveRun(swept, rest);
    Agrees(replayed, written + h.log + Dels(keys), h.db, later)
  }

  lemma LateReplay(replayed: Store, x: Store, written: seq<Command>, b: seq<Command>, keys: seq<Bytes>, later: nat)
    requires ReplayAll(replayed, written, later) == Some(x) && ReplayAll(x, b, later).Some?
    ensures ReplayAll(replayed, written + b + Dels(keys), later) ==
            Some(Without(ReplayAll(x, b, later).value, keys))
  {
    AppendAssociates(written, b, Dels(keys));
    ReplayAppend(replayed, written, b + Dels(keys), later);
    DelsBehind(x, b, keys, later);
  }

  /** A run up to the moment of a sweep, and what the sweep finds. */
  ghost predicate Sweeps(base: Store, replayed: Store, front: seq<Timed>, now: nat, keys: seq<Bytes>) {
    && OnlyStringsExpire(base) && Similar(base, replayed) && TrimsIdle(base, front)
    && ExpiredKeys(LiveRun(base, front).db, now, keys)
  }

  lemma ReplayedUpToSweep(base: Store, replayed: Store, front: seq<Timed>, now: nat, keys: seq<Bytes>, later: nat)
      returns (x: Store)
    requires Sweeps(base, replayed, front, now, keys) && RecordsReplayable(LiveRun(base, front).log, later)
    ensures ReplayAll(replayed, LiveRun(base, front).log, later) == Some(x)
    ensures Behind(Swept(LiveRun(base, front).db, now), x, Lagging([], keys))
  {
    RunReplays(base, replayed, front, later);
    RunKeepsStrings(base, front);
    x := ReplayAll(replayed, LiveRun(base, front).log, later).value;
    SweptIsBehind(LiveRun(base, front).db, x, now, keys);
  }

  // ---- The theorems ----

  /**
    A run goes on between the sweep and the DEL lines, and its records are in the file before them: as long as nothing
    escapes, replay gives the live keyspace exactly when none of the swept keys is there again.
   */
  lemma SweepMayLag(base: Store, replayed: Store, front: seq<Timed>, now: nat, keys: seq<Bytes>, rest: seq<Timed>,
      later: nat)
    requires Sweeps(base, replayed, front, now, keys)
    requires var swept := Swept(LiveRun(base, front).db, now);
             && WellTyped(rest) && TrimsIdle(swept, rest) && NoEscape(swept, rest, keys)
             && RecordsReplayable(LiveRun(base, front).log, later)
             && RecordsReplayable(LiveRun(swept, rest).log, later)
    ensures var swept := Swept(LiveRun(base, front).db, now);
            AgreesLate(replayed, LiveRun(base, front).log, swept, rest, keys, later) <==>
            NonePresent(LiveRun(swept, rest).db, keys)
  {
    var swept, written := Swept(LiveRun(base, front).db, now), LiveRun(base, front).log;
    var x := ReplayedUpToSweep(base, replayed, front, now, keys, later);
    RunLags(swept, x, rest, keys, later);
    var h := LiveRun(swept, rest);
    LateReplay(replayed, x, written, h.log, keys, later);
    DelsCatchUp(h.db, ReplayAll(x, h.log, later).value, keys, Lagging(h.log, keys));
  }

  lemma EscapedElement(live: Store, z: Store, c: Command, keys: seq<Bytes>, lag: set<Bytes>, later: nat)
    requires Behind(live, z, lag) && Escapes(live, c, lag)
    ensures Replayed(z, c, later) == z
    ensures !Similar(LiveCommand(live, c, 0).db, Without(z, keys))
  {
    var d, next := c.destination, LiveCommand(live, c, 0).db;
    assert SimilarCell(Look(live, d), Look(z, d));
    assert d in next && next[d].value.List?;
    if d in keys {
      PresentKeyIsLost(next, z, keys);
    } else {
      assert Look(Without(z, keys), d) == Look(z, d);
      assert d in live ==> |next[d].value.items| == |live[d].value.items| + 1;
      assert !SimilarCell(Look(next, d), Look(Without(z, keys), d));
    }
  }

  /** And the first escape spoils the log at once. */
  lemma EscapeSpoils(base: Store, replayed: Store, front: seq<Timed>, now: nat, keys: seq<Bytes>, some: seq<Timed>,
      t: Timed, later: nat)
    requires Sweeps(base, replayed, front, now, keys)
    requires var swept := Swept(LiveRun(base, front).db, now);
             && WellTyped(some) && TrimsIdle(swept, some) && NoEscape(swept, some, keys)
             && RecordsReplayable(LiveRun(base, front).log, later)
             && RecordsReplayable(LiveRun(swept, some).log, later)
             && Escapes(LiveRun(swept, some).db, t.command, Lagging(LiveRun(swept, some).log, keys))
    ensures var swept := Swept(LiveRun(base, front).db, now);
            !AgreesLate(replayed, LiveRun(base, front).log, swept, some + [t], keys, later)
  {
    var swept, written := Swept(LiveRun(base, front).db, now), LiveRun(base, front).log;
    var x := ReplayedUpToSweep(base, replayed, front, now, keys, later);
    RunLags(swept, x, some, keys, later);
    var h, c := LiveRun(swept, some), t.command;
    var z := ReplayAll(x, h.log, later).value;
    RunOf(swept, some, t);
    EscapedElement(h.db, z, c, keys, Lagging(h.log, keys), later);
    ReplayAppend(x, h.log, [c], later);
    ReplayOne(z, c, later);
    LateReplay(replayed, x, written, h.log + [c], keys, later);
  }

  /** Nothing escapes from a key that is not there. */
  lemma NonePresentNoEscape(swept: Store, rest: seq<Timed>, keys: seq<Bytes>)
    requires forall i :: 0 <= i <= |rest| ==> NonePresent(LiveRun(swept, rest[..i]).db, keys)
    ensures NoEscape(swept, rest, keys)
  {
    forall i | 0 <= i < |rest|
      ensures !Escapes(LiveRun(swept, rest[..i]).db, rest[i].command, Lagging(LiveRun(swept, rest[..i]).log, keys))
    {
      assert NonePresent(LiveRun(swept, rest[..i]).db, keys);
    }
  }

  lemma PrefixOf(swept: Store, rest: seq<Timed>, n: nat)
    requires n <= |rest| && WellTyped(rest) && TrimsIdle(swept, rest)
    ensures WellTyped(rest[..n]) && TrimsIdle(swept, rest[..n])
    ensures LiveRun(swept, rest[..n]).log <= LiveRun(swept, rest).log
  {
    assert forall i :: 0 <= i < n ==> rest[..n][..i] == rest[..i];
    assert rest == rest[..n] + rest[n..];
    LiveRunAppend(swept, rest[..n], rest[n..]);
  }

  lemma ReplayablePrefix(records: seq<Command>, all: seq<Command>, later: nat)
    requires records <= all && RecordsReplayable(all, later)
    ensures RecordsReplayable(records, later)
  {
    assert forall c :: c in records ==> c in all;
  }

  /** Whatever else happened: the DEL lines leave none of the swept keys. */
  lemma AgreementMeansNonePresent(replayed: Store, written: seq<Command>, swept: Store, rest: seq<Timed>,
      keys: seq<Bytes>, later: nat)
    requires AgreesLate(replayed, written, swept, rest, keys, later)
    requires RecordsReplayable(written, later) && RecordsReplayable(LiveRun(swept, rest).log, later)
    ensures NonePresent(LiveRun(swept, rest).db, keys)
  {
    var h := LiveRun(swept, rest);
    ReplayPanics(replayed, written, later);
    var x := ReplayAll(replayed, written, later).value;
    ReplayPanics(x, h.log, later);
    LateReplay(replayed, x, written, h.log, keys, later);
    if !NonePresent(h.db, keys) { PresentKeyIsLost(h.db, ReplayAll(x, h.log, later).value, keys); }
  }

  ghost predicate AlwaysAgrees(replayed: Store, written: seq<Command>, swept: Store, rest: seq<Timed>,
      keys: seq<Bytes>, later: nat)
  {
    forall i :: 0 <= i <= |rest| ==> AgreesLate(replayed, written, swept, rest[..i], keys, later)
  }

  predicate NeverPresent(swept: Store, rest: seq<Timed>, keys: seq<Bytes>) {
    forall i :: 0 <= i <= |rest| ==> NonePresent(LiveRun(swept, rest[..i]).db, keys)
  }

  lemma NeverPresentPrefix(swept: Store, rest: seq<Timed>, keys: seq<Bytes>, n: nat)
    requires n <= |rest| && NeverPresent(swept, rest, keys)
    ensures NoEscape(swept, rest[..n], keys) && NonePresent(LiveRun(swept, rest[..n]).db, keys)
  {
    assert forall i :: 0 <= i <= n ==> rest[..n][..i] == rest[..i];
    NonePresentNoEscape(swept, rest[..n], keys);
  }

  /**
    Wherever in the run the DEL lines come, replay gives the keyspace of that moment, exactly when none of the swept
    keys ever comes back.
   */
  lemma SweepMayAlwaysLag(base: Store, replayed: Store, front: seq<Timed>, now: nat, keys: seq<Bytes>,
      rest: seq<Timed>, later: nat)
    requires Sweeps(base, replayed, front, now, keys)
    requires var swept := Swept(LiveRun(base, front).db, now);
             && WellTyped(rest) && TrimsIdle(swept, rest)
             && RecordsReplayable(LiveRun(base, front).log, later)
             && RecordsReplayable(LiveRun(swept, rest).log, later)
    ensures var swept := Swept(LiveRun(base, front).db, now);
            AlwaysAgrees(replayed, LiveRun(base, front).log, swept, rest, keys, later) <==>
            NeverPresent(swept, rest, keys)
  {
    var swept, written := Swept(LiveRun(base, front).db, now), LiveRun(base, front).log;
    forall i | 0 <= i <= |rest|
      ensures AgreesLate(replayed, written, swept, rest[..i], keys, later) ==>
                NonePresent(LiveRun(swept, rest[..i]).db, keys)
      ensures NeverPresent(swept, rest, keys) ==> AgreesLate(replayed, written, swept, rest[..i], keys, later)
    {
      PrefixOf(swept, rest, i);
      ReplayablePrefix(LiveRun(swept, rest[..i]).log, LiveRun(swept, rest).log, later);
      if AgreesLate(replayed, written, swept, rest[..i], keys, later) {
        AgreementMeansNonePresent(replayed, written, swept, rest[..i], keys, later);
      }
      if NeverPresent(swept, rest, keys) {
        NeverPresentPrefix(swept, rest, keys, i);
        SweepMayLag(base, replayed, front, now, keys, rest[..i], later);
      }
    }
  }

  // ---- An escape that the end of the run does not show ----

  /** A swept key is pushed to again, its element moved on, and the key deleted. */
  function EscapingRun(k: Bytes, j: Bytes, v: Bytes): seq<Timed> {
    (([] + [Timed(RPush(k, v), 1)]) + [Timed(RPopLPush(k, j), 1)]) + [Timed(Del(k), 1)]
  }

  function EscapingLog(k: Bytes, j: Bytes, v: Bytes): seq<Command> {
    (([] + [RPush(k, v)]) + [RPopLPush(k, j)]) + [Del(k)]
  }

  lemma PushLive(k: Bytes, v: Bytes)
    ensures LiveCommand(map[], RPush(k, v), 1) == Result(map[k := Entry(List([v]), None)], [RPush(k, v)], Number(1))
  {
  }

  lemma MoveLive(k: Bytes, j: Bytes, v: Bytes)
    requires k != j
    ensures LiveCommand(map[k := Entry(List([v]), None)], RPopLPush(k, j), 1) ==
            Result(map[k := Entry(List([]), None)][j := Entry(List([v]), None)], [RPopLPush(k, j)], Bulk(v))
  {
  }

  lemma DelLive(k: Bytes, j: Bytes, v: Bytes)
    requires k != j
    ensures LiveCommand(map[k := Entry(List([]), None)][j := Entry(List([v]), None)], Del(k), 1) ==
            Result(map[j := Entry(List([v]), None)], [Del(k)], Number(1))
  {
  }

  lemma EscapingRunIs(k: Bytes, j: Bytes, v: Bytes)
    requires k != j
    ensures LiveRun(map[], EscapingRun(k, j, v)) == History(map[j := Entry(List([v]), None)], EscapingLog(k, j, v))
  {
    var a := [] + [Timed(RPush(k, v), 1)];
    RunOf(map[], [], Timed(RPush(k, v), 1));
    PushLive(k, v);
    RunOf(map[], a, Timed(RPopLPush(k, j), 1));
    MoveLive(k, j, v);
    RunOf(map[], a + [Timed(RPopLPush(k, j), 1)], Timed(Del(k), 1));
    DelLive(k, j, v);
  }

  lemma EscapingReplay(z: Store, k: Bytes, j: Bytes, v: Bytes, later: nat)
    requires k != j && k in z && z[k].value.Str?
    ensures ReplayAll(z, EscapingLog(k, j, v), later) == Some(z - {k})
  {
    var b := [] + [RPush(k, v)];
    ReplayAppend(z, [], [RPush(k, v)], later);
    ReplayOne(z, RPush(k, v), later);
    PutSame(z, k);
    ReplayAppend(z, b, [RPopLPush(k, j)], later);
    ReplayOne(z, RPopLPush(k, j), later);
    ReplayAppend(z, b + [RPopLPush(k, j)], [Del(k)], later);
    ReplayOne(z, Del(k), later);
  }

  lemma StaleRun(k: Bytes, x: Bytes, later: nat)
    requires later / NANOS <= I64_MAX
    ensures LiveRun(map[], [] + [Timed(SetEx(k, 0, x), 0)]) ==
            History(map[k := Entry(Str(x), Some(0))], [] + [SetEx(k, 0, x)])
    ensures ReplayAll(map[], [] + [SetEx(k, 0, x)], later) == Some(map[k := Entry(Str(x), Some(later))])
  {
    RunOf(map[], [], Timed(SetEx(k, 0, x), 0));
    ReplayAppend(map[], [], [SetEx(k, 0, x)], later);
    ReplayOne(map[], SetEx(k, 0, x), later);
  }

  lemma StaleIsSwept(k: Bytes, x: Bytes)
    ensures Swept(map[k := Entry(Str(x), Some(0))], 1) == map[]
    ensures ExpiredKeys(map[k := Entry(Str(x), Some(0))], 1, [k])
  {
  }

  lemma EscapeLost(k: Bytes, j: Bytes, v: Bytes, z: Store)
    requires k != j && j !in z
    ensures !Similar(map[j := Entry(List([v]), None)], Without(z, [k]))
  {
    assert !SimilarCell(Look(map[j := Entry(List([v]), None)], j), Look(Without(z, [k]), j));
  }

  /** At the end no swept key is there, and yet the element that escaped is missing in replay. */
  lemma EscapeCanHide(k: Bytes, j: Bytes, v: Bytes, x: Bytes, later: nat)
    requires k != j && later / NANOS <= I64_MAX
    ensures var front := [] + [Timed(SetEx(k, 0, x), 0)];
            var swept := Swept(LiveRun(map[], front).db, 1);
            && Sweeps(map[], map[], front, 1, [k])
            && NonePresent(LiveRun(swept, EscapingRun(k, j, v)).db, [k])
            && !AgreesLate(map[], LiveRun(map[], front).log, swept, EscapingRun(k, j, v), [k], later)
  {
    StaleRun(k, x, later);
    StaleIsSwept(k, x);
    EscapingRunIs(k, j, v);
    var z := map[k := Entry(Str(x), Some(later))];
    EscapingReplay(z, k, j, v, later);
    LateReplay(map[], z, [] + [SetEx(k, 0, x)], EscapingLog(k, j, v), [k], later);
    EscapeLost(k, j, v, z - {k});
  }
}
