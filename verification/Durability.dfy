/** Replaying the log of a sequential run rebuilds the state of the run. */
module Durability {
  import opened Prelude
  import opened Decimal
  import opened Protocol
  import opened Keyspace
  import opened LogText

  /** A command and the clock reading it is executed at. */
  datatype Timed = Timed(command: Command, now: nat)

  /** The record a command writes when it writes one. */
  function RecordOf(c: Command): Command {
    match c
    case Get(k) => Del(k)
    case LRem(k, _, v) => LRem(k, 1, v)
    case _ => c
  }

  /** The commands whose arms touch list, string, hash and set entries. */
  predicate Modelled(c: Command) { SingleKey(c) || c.RPopLPush? }

  /** LTRIM that keeps the whole list, or finds none to trim; an empty list outlives only an LTRIM that hangs. */
  predicate TrimIsIdle(db: Store, c: Command) {
    c.LTrim? ==>
      match Look(db, c.key)
      case Some(Entry(List(items), _)) =>
        if items == [] then TrimHangs(0, c.start, c.stop)
        else Norm(c.start, |items|) <= 0 && |items| - 1 <= Norm(c.stop, |items|)
      case _ => true
  }

  lemma {:induction false} BetweenAll(items: seq<Bytes>, base: int, lo: int, hi: int)
    requires lo <= base && base + |items| - 1 <= hi
    ensures Between(items, base, lo, hi) == items
  {
    if items != [] { BetweenAll(items[1..], base + 1, lo, hi); }
  }

  lemma {:induction false} BetweenLength(items: seq<Bytes>, base: int, lo: int, hi: int)
    ensures |Between(items, base, lo, hi)| <= |items|
    ensures |Between(items, base, lo, hi)| == |items| > 0 ==> lo <= base && base + |items| - 1 <= hi
  {
    if items != [] { BetweenLength(items[1..], base + 1, lo, hi); }
  }

  /** Replay has no LTRIM arm, so the two states agree after LTRIM exactly when it trimmed nothing. */
  lemma TrimAgrees(db: Store, c: Command, now: nat)
    requires c.LTrim?
    ensures Similar(LiveCommand(db, c, now).db, db) <==> TrimIsIdle(db, c)
  {
    var cell := Look(db, c.key);
    var out := TrimOutcome(cell, c).cell;
    var after := LiveCommand(db, c, now).db;
    match cell {
      case Some(Entry(List(items), _)) =>
        BetweenLength(items, 0, Norm(c.start, |items|), Norm(c.stop, |items|));
        if TrimIsIdle(db, c) && items != [] {
          BetweenAll(items, 0, Norm(c.start, |items|), Norm(c.stop, |items|));
        }
        assert SimilarCell(out, cell) <==> TrimIsIdle(db, c);
      case _ =>
    }
    assert Look(after, c.key) == out;
    assert forall k :: k != c.key ==> Look(after, k) == Look(db, k);
  }

  // ---- One step ----

  lemma LiveRecords(db: Store, c: Command, now: nat)
    requires InRange(c)
    ensures var log := LiveCommand(db, c, now).log;
            log == [] || (log == [RecordOf(c)] && Logged(RecordOf(c)) && InRange(RecordOf(c)) && Modelled(c))
  {
  }

  lemma ListCellReplays(live: Cell, replayed: Cell, c: Command, now: nat, later: nat)
    requires c.LPush? || c.RPush? || c.LPop? || c.RPop? || c.LRem? || c.LRange?
    requires SimilarCell(live, replayed)
    ensures var o := LiveCell(live, c, now);
            if o.log == [] then SimilarCell(o.cell, live)
            else o.log == [RecordOf(c)] && SimilarCell(o.cell, ReplayCell(replayed, RecordOf(c), later))
  {
  }

  lemma StringCellReplays(live: Cell, replayed: Cell, c: Command, now: nat, later: nat)
    requires c.Set? || c.SetEx? || c.Get? || c.Del?
    requires SimilarCell(live, replayed) && RecordsReplayable(LiveCell(live, c, now).log, later)
    ensures var o := LiveCell(live, c, now);
            if o.log == [] then SimilarCell(o.cell, live)
            else o.log == [RecordOf(c)] && SimilarCell(o.cell, ReplayCell(replayed, RecordOf(c), later))
  {
    if LiveCell(live, c, now).log != [] { assert LiveCell(live, c, now).log[0] in LiveCell(live, c, now).log; }
  }

  lemma OtherCellReplays(live: Cell, replayed: Cell, c: Command, now: nat, later: nat)
    requires c.Incr? || c.HSet? || c.SAdd?
    requires SimilarCell(live, replayed)
    ensures var o := LiveCell(live, c, now);
            if o.log == [] then SimilarCell(o.cell, live)
            else o.log == [RecordOf(c)] && SimilarCell(o.cell, ReplayCell(replayed, RecordOf(c), later))
  {
  }

  lemma CellReplays(live: Cell, replayed: Cell, c: Command, now: nat, later: nat)
    requires SingleKey(c) && !c.LTrim? && SimilarCell(live, replayed)
    requires RecordsReplayable(LiveCell(live, c, now).log, later)
    ensures var o := LiveCell(live, c, now);
            if o.log == [] then SimilarCell(o.cell, live)
            else o.log == [RecordOf(c)] && SimilarCell(o.cell, ReplayCell(replayed, RecordOf(c), later))
  {
    if c.LPush? || c.RPush? || c.LPop? || c.RPop? || c.LRem? || c.LRange? {
      ListCellReplays(live, replayed, c, now, later);
    } else if c.Set? || c.SetEx? || c.Get? || c.Del? {
      StringCellReplays(live, replayed, c, now, later);
    } else {
      OtherCellReplays(live, replayed, c, now, later);
    }
  }

  lemma PutSimilar(a: Store, b: Store, k: Bytes, x: Cell, y: Cell)
    requires Similar(a, b) && SimilarCell(x, y)
    ensures Similar(Put(a, k, x), Put(b, k, y))
  {
    forall j
      ensures SimilarCell(Look(Put(a, k, x), j), Look(Put(b, k, y), j))
    {
      assert SimilarCell(Look(a, j), Look(b, j));
    }
  }

  lemma MoveSimilar(a: Store, b: Store, s: Bytes, d: Bytes)
    requires Similar(a, b)
    ensures match (MoveTail(a, s, d), MoveTail(b, s, d))
            case (Some((v, a')), Some((w, b'))) => v == w && Similar(a', b')
            case (None, None) => true
            case _ => false
  {
    assert SimilarCell(Look(a, s), Look(b, s));
    match (Look(a, s), Look(b, s)) {
      case (Some(Entry(List(items), e1)), Some(Entry(List(_), e2))) =>
        if items != [] {
          var v := items[|items| - 1];
          var x := Some(Entry(List(items[..|items| - 1]), e1));
          var y := Some(Entry(List(items[..|items| - 1]), e2));
          PutSimilar(a, b, s, x, y);
          var a1, b1 := Put(a, s, x), Put(b, s, y);
          assert SimilarCell(Look(a1, d), Look(b1, d));
          PutSimilar(a1, b1, d, PushedFront(Look(a1, d), v), PushedFront(Look(b1, d), v));
        }
      case _ =>
    }
  }

  /** Replaying the records from `base` gives the keyspace, up to the exact deadlines. */
  ghost predicate Agrees(base: Store, records: seq<Command>, db: Store, later: nat) {
    match ReplayAll(base, records, later)
    case Some(next) => Similar(db, next)
    case None => false
  }

  lemma KeyStepReplays(db: Store, replayed: Store, c: Command, now: nat, later: nat)
    requires SingleKey(c) && !c.LTrim? && Similar(db, replayed)
    requires RecordsReplayable(LiveCommand(db, c, now).log, later)
    ensures Agrees(replayed, LiveCommand(db, c, now).log, LiveCommand(db, c, now).db, later)
  {
    var rec := RecordOf(c);
    var cell := Look(replayed, c.key);
    var o := LiveCell(Look(db, c.key), c, now);
    assert SimilarCell(Look(db, c.key), cell);
    CellReplays(Look(db, c.key), cell, c, now, later);
    if o.log == [] {
      PutSimilar(db, replayed, c.key, o.cell, cell);
      assert Put(replayed, c.key, cell) == replayed;
    } else {
      assert rec in o.log;
      PutSimilar(db, replayed, c.key, o.cell, ReplayCell(cell, rec, later));
      ReplayOne(replayed, rec, later);
    }
  }

  lemma SimilarAcross(a: Store, b: Store, c: Store)
    requires Similar(a, b) && Similar(b, c)
    ensures Similar(a, c)
  {
    forall k
      ensures SimilarCell(Look(a, k), Look(c, k))
    {
      assert SimilarCell(Look(a, k), Look(b, k)) && SimilarCell(Look(b, k), Look(c, k));
    }
  }

  lemma TrimStepReplays(db: Store, replayed: Store, c: Command, now: nat, later: nat)
    requires c.LTrim? && Similar(db, replayed) && TrimIsIdle(db, c)
    ensures Agrees(replayed, LiveCommand(db, c, now).log, LiveCommand(db, c, now).db, later)
  {
    var r := LiveCommand(db, c, now);
    TrimAgrees(db, c, now);
    SimilarAcross(r.db, db, replayed);
    ReplayOne(replayed, c, later);
    assert Put(replayed, c.key, Look(replayed, c.key)) == replayed;
  }

  /** The records of one command, replayed at any time, carry the state along. */
  lemma StepReplays(db: Store, replayed: Store, c: Command, now: nat, later: nat)
    requires Similar(db, replayed) && TrimIsIdle(db, c)
    requires RecordsReplayable(LiveCommand(db, c, now).log, later)
    ensures Agrees(replayed, LiveCommand(db, c, now).log, LiveCommand(db, c, now).db, later)
  {
    if c.LTrim? {
      TrimStepReplays(db, replayed, c, now, later);
    } else if SingleKey(c) {
      KeyStepReplays(db, replayed, c, now, later);
    } else if c.RPopLPush? {
      MoveSimilar(db, replayed, c.source, c.destination);
      ReplayOne(replayed, c, later);
    }
  }

  // ---- Two replays of one log ----

  lemma CellReplaysTwice(x: Cell, y: Cell, c: Command, s: nat, t: nat)
    requires SingleKey(c) && SimilarCell(x, y) && Replayable(c, s) && Replayable(c, t)
    ensures SimilarCell(ReplayCell(x, c, s), ReplayCell(y, c, t))
  {
  }

  lemma RecordReplaysTwice(a: Store, b: Store, c: Command, s: nat, t: nat)
    requires Similar(a, b) && Replayable(c, s) && Replayable(c, t)
    ensures Similar(ReplayCommand(a, c, s).value, ReplayCommand(b, c, t).value)
  {
    if SingleKey(c) {
      assert SimilarCell(Look(a, c.key), Look(b, c.key));
      CellReplaysTwice(Look(a, c.key), Look(b, c.key), c, s, t);
      PutSimilar(a, b, c.key, ReplayCell(Look(a, c.key), c, s), ReplayCell(Look(b, c.key), c, t));
    } else if c.RPopLPush? {
      MoveSimilar(a, b, c.source, c.destination);
    }
  }

  /**
    Whatever the clock shows at each record, a replay that does not panic gives, up to the exact deadlines, what a
    replay at the epoch gives.
   */
  lemma {:induction false} ClockedReplays(a: Store, b: Store, cs: seq<Command>, clock: nat -> nat, i: nat)
    requires Similar(a, b) && ReplayClocked(a, cs, clock, i).Some?
    ensures Agrees(b, cs, ReplayClocked(a, cs, clock, i).value, 0)
    decreases |cs|
  {
    if cs != [] {
      var c := cs[0];
      assert Replayable(c, clock(i)) && Replayable(c, 0);
      RecordReplaysTwice(a, b, c, clock(i), 0);
      ClockedReplays(ReplayCommand(a, c, clock(i)).value, ReplayCommand(b, c, 0).value, cs[1..], clock, i + 1);
    }
  }

  lemma {:induction false} SteadyClock(db: Store, cs: seq<Command>, later: nat, i: nat)
    ensures ReplayClocked(db, cs, _ => later, i) == ReplayAll(db, cs, later)
    decreases |cs|
  {
    if cs != [] && Replayable(cs[0], later) {
      SteadyClock(ReplayCommand(db, cs[0], later).value, cs[1..], later, i + 1);
    }
  }

  lemma SimilarBack(a: Store, b: Store)
    requires Similar(a, b)
    ensures Similar(b, a)
  {
    forall k
      ensures SimilarCell(Look(b, k), Look(a, k))
    {
      assert SimilarCell(Look(a, k), Look(b, k));
    }
  }

  /** A log that replays to a keyspace at the epoch does so at any time at which it does not panic. */
  lemma ReplaysAnyTime(base: Store, cs: seq<Command>, db: Store, later: nat)
    requires Agrees(base, cs, db, 0)
    ensures Agrees(base, cs, db, later) <==> RecordsReplayable(cs, later)
  {
    ReplayPanics(base, cs, later);
    if RecordsReplayable(cs, later) {
      var next := ReplayAll(base, cs, later).value;
      SteadyClock(base, cs, later, 0);
      ClockedReplays(base, base, cs, _ => later, 0);
      SimilarBack(next, ReplayAll(base, cs, 0).value);
      SimilarAcross(db, ReplayAll(base, cs, 0).value, next);
    }
  }

  // ---- Runs ----

  datatype History = History(db: Store, log: seq<Command>)

  function LiveRun(db: Store, run: seq<Timed>): History {
    if run == [] then History(db, [])
    else
      var front := LiveRun(db, run[..|run| - 1]);
      var last := run[|run| - 1];
      var r := LiveCommand(front.db, last.command, last.now);
      History(r.db, front.log + r.log)
  }

  predicate WellTyped(run: seq<Timed>) { forall t :: t in run ==> InRange(t.command) }

  /** Every LTRIM of the run keeps its list whole. */
  predicate TrimsIdle(db: Store, run: seq<Timed>) {
    forall i :: 0 <= i < |run| ==> TrimIsIdle(LiveRun(db, run[..i]).db, run[i].command)
  }

  lemma {:induction false} RunLog(db: Store, run: seq<Timed>)
    requires WellTyped(run)
    ensures AllLogged(LiveRun(db, run).log)
    ensures forall r :: r in LiveRun(db, run).log ==>
              exists t :: t in run && Modelled(t.command) && r == RecordOf(t.command)
  {
    if run != [] {
      var front, last := run[..|run| - 1], run[|run| - 1];
      RunLog(db, front);
      LiveRecords(LiveRun(db, front).db, last.command, last.now);
      assert last in run;
    }
  }

  lemma {:induction false} RunReplaysOn(db: Store, replayed: Store, run: seq<Timed>, later: nat)
    requires TrimsIdle(db, run) && Similar(db, replayed) && RecordsReplayable(LiveRun(db, run).log, later)
    ensures Agrees(replayed, LiveRun(db, run).log, LiveRun(db, run).db, later)
  {
    if run != [] {
      var front, last := run[..|run| - 1], run[|run| - 1];
      var h := LiveRun(db, front);
      var r := LiveCommand(h.db, last.command, last.now);
      assert forall i :: 0 <= i < |front| ==> front[..i] == run[..i];
      assert LiveRun(db, run).log == h.log + r.log;
      RunReplaysOn(db, replayed, front, later);
      var mid := ReplayAll(replayed, h.log, later).value;
      assert TrimIsIdle(LiveRun(db, run[..|run| - 1]).db, run[|run| - 1].command);
      StepReplays(h.db, mid, last.command, last.now, later);
      ReplayAppend(replayed, h.log, r.log, later);
    }
  }

  /** The log of a run replays to the state of the run exactly when no record of it makes replay panic. */
  lemma RunReplays(db: Store, replayed: Store, run: seq<Timed>, later: nat)
    requires TrimsIdle(db, run) && Similar(db, replayed)
    ensures Agrees(replayed, LiveRun(db, run).log, LiveRun(db, run).db, later) <==>
            RecordsReplayable(LiveRun(db, run).log, later)
  {
    ReplayPanics(replayed, LiveRun(db, run).log, later);
    if RecordsReplayable(LiveRun(db, run).log, later) { RunReplaysOn(db, replayed, run, later); }
  }

  /** The arguments a command would log can be printed safely. */
  predicate Printable(c: Command) {
    Modelled(c) && Logged(RecordOf(c)) ==> Loggable(RecordOf(c), Live)
  }

  /** Everything the run logged can be printed safely. */
  predicate LogsCleanly(db: Store, run: seq<Timed>) {
    AllLogged(LiveRun(db, run).log) && AllLoggable(LiveRun(db, run).log, Live)
  }

  /** A client can see to it before the run: arguments that can be printed safely are all it takes. */
  lemma PrintableRun(db: Store, run: seq<Timed>)
    requires WellTyped(run) && forall t :: t in run ==> Printable(t.command)
    ensures LogsCleanly(db, run)
  {
    RunLog(db, run);
    forall r | r in LiveRun(db, run).log
      ensures Loggable(r, Live)
    {
      var t :| t in run && Modelled(t.command) && r == RecordOf(t.command);
    }
  }

  /**
    The file a run leaves behind, read back and replayed from nothing at any time, rebuilds the run's state exactly
    when no record of it makes replay panic.
   */
  lemma LogReplaysToLiveState(run: seq<Timed>, later: nat)
    requires TrimsIdle(map[], run) && LogsCleanly(map[], run)
    ensures var h := LiveRun(map[], run);
            Agrees(map[], ParseLog(PrintLog(h.log, Live)), h.db, later) <==> RecordsReplayable(h.log, later)
  {
    LoggableLogReads(LiveRun(map[], run).log, Live);
    RunReplays(map[], map[], run, later);
  }

  // ---- Crashes ----

  /** Every prefix of the log is the whole log of a prefix of the run. */
  lemma {:induction false} LogPrefixIsRunPrefix(db: Store, run: seq<Timed>, n: nat) returns (i: nat)
    requires WellTyped(run) && n <= |LiveRun(db, run).log|
    ensures i <= |run| && LiveRun(db, run[..i]).log == LiveRun(db, run).log[..n]
  {
    i := |run|;
    if n == |LiveRun(db, run).log| {
      assert run[..i] == run;
    } else {
      var front, last := run[..|run| - 1], run[|run| - 1];
      LiveRecords(LiveRun(db, front).db, last.command, last.now);
      i := LogPrefixIsRunPrefix(db, front, n);
      assert front[..i] == run[..i];
    }
  }

  /** If only the first `n` records reached the file, replay recovers a state the run really had. */
  lemma CrashRecovers(base: Store, replayed: Store, run: seq<Timed>, n: nat, later: nat) returns (i: nat)
    requires WellTyped(run) && TrimsIdle(base, run) && Similar(base, replayed) && n <= |LiveRun(base, run).log|
    ensures i <= |run|
    ensures Agrees(replayed, LiveRun(base, run).log[..n], LiveRun(base, run[..i]).db, later) <==>
            RecordsReplayable(LiveRun(base, run).log[..n], later)
  {
    i := LogPrefixIsRunPrefix(base, run, n);
    assert forall j :: 0 <= j < i ==> run[..i][..j] == run[..j];
    RunReplays(base, replayed, run[..i], later);
  }

  lemma LoggablePrefix(records: seq<Command>, n: nat)
    requires AllLogged(records) && AllLoggable(records, Live) && n <= |records|
    ensures AllLogged(records[..n]) && AllLoggable(records[..n], Live)
  {
  }

  lemma ReadsBehind(start: Bytes, records: seq<Command>)
    requires Whole(start) && AllLogged(records) && AllLoggable(records, Live)
    ensures ParseLog(start + PrintLog(records, Live)) == ParseLog(start) + records
    ensures Whole(start + PrintLog(records, Live))
  {
    PrintedIsWhole(records, Live);
    WholeThenMore(start, PrintLog(records, Live));
    if records == [] {
      assert start + PrintLog(records, Live) == start;
    } else {
      SessionsReadApart(start, records, Live);
    }
  }

  /** What replaying older records, and then a prefix of those of a run, gives; `x` is the replay at the epoch. */
  lemma ReplaysBehind(past: seq<Command>, base: Store, boot: nat -> nat, run: seq<Timed>, n: nat, x: Store)
      returns (i: nat)
    requires ReplayClocked(map[], past, boot, 0) == Some(base)
    requires WellTyped(run) && TrimsIdle(base, run) && n <= |LiveRun(base, run).log|
    requires ReplayAll(map[], past + LiveRun(base, run).log[..n], 0) == Some(x)
    ensures i <= |run| && Similar(LiveRun(base, run[..i]).db, x)
  {
    var records := LiveRun(base, run).log[..n];
    ClockedReplays(map[], map[], past, boot, 0);
    ReplayAppend(map[], past, records, 0);
    var again := ReplayAll(map[], past, 0).value;
    ReplayPanics(again, records, 0);
    i := CrashRecovers(base, again, run, n, 0);
  }

  /**
    A server that replayed the file `start`, whenever that was, serves a run whose first `n` records are in the file
    when it goes down. Replaying the file, whatever the clock shows meanwhile, recovers a state the run really had,
    unless a deadline cannot be represented any more; and the next server finds a whole file again.
   */
  lemma RestartRecovers(start: Bytes, base: Store, boot: nat -> nat, run: seq<Timed>, n: nat, clock: nat -> nat)
      returns (i: nat)
    requires Whole(start) && ReplayClocked(map[], ParseLog(start), boot, 0) == Some(base)
    requires WellTyped(run) && TrimsIdle(base, run) && LogsCleanly(base, run) && n <= |LiveRun(base, run).log|
    ensures i <= |run| && AllLogged(LiveRun(base, run).log[..n])
    ensures var file := start + PrintLog(LiveRun(base, run).log[..n], Live);
            && Whole(file)
            && match ReplayClocked(map[], ParseLog(file), clock, 0)
               case Some(next) => Similar(LiveRun(base, run[..i]).db, next)
               case None => !ClockReplayable(ParseLog(start) + LiveRun(base, run).log[..n], clock, 0)
  {
    var records := LiveRun(base, run).log[..n];
    LoggablePrefix(LiveRun(base, run).log, n);
    ReadsBehind(start, records);
    var all := ParseLog(start) + records;
    ClockedPanics(map[], all, clock, 0);
    i := 0;
    if ReplayClocked(map[], all, clock, 0).Some? {
      ClockedReplays(map[], map[], all, clock, 0);
      var x := ReplayAll(map[], all, 0).value;
      i := ReplaysBehind(ParseLog(start), base, boot, run, n, x);
      SimilarBack(ReplayClocked(map[], all, clock, 0).value, x);
      SimilarAcross(LiveRun(base, run[..i]).db, x, ReplayClocked(map[], all, clock, 0).value);
    }
  }

  // ---- The promises that the log does not keep ----

  /** A value with a space is stored, logged bare, and lost by replay. */
  lemma SpaceIsLost(now: nat, later: nat)
    ensures var h := LiveRun(map[], [Timed(Set("k", "a b"), now)]);
            && AllLogged(h.log) && "k" in h.db
            && ParseLog(PrintLog(h.log, Live)) != h.log && !Printable(Set("k", "a b"))
  {
    var c := Set("k", "a b");
    var run := [Timed(c, now)];
    assert run[..0] == [];
    assert LiveRun(map[], run).log == [c];
    assert !Survives("a b", false, true) by { assert "a b"[1] == ' '; }
    assert !Loggable(c, Live) by { assert Arguments(c)[1] == "a b"; }
    LogSurvives([c], Live);
  }

  lemma RunOf(db: Store, run: seq<Timed>, t: Timed)
    ensures LiveRun(db, run + [t]) ==
            var r := LiveCommand(LiveRun(db, run).db, t.command, t.now);
            History(r.db, LiveRun(db, run).log + r.log)
  {
    assert (run + [t])[..|run|] == run;
  }

  lemma TwoPushes(now: nat)
    ensures LiveRun(map[], [Timed(LPush("k", "b"), now)] + [Timed(LPush("k", "a"), now)]) ==
            History(map["k" := Entry(List(["a", "b"]), None)], [LPush("k", "b")] + [LPush("k", "a")])
  {
    var p, q := Timed(LPush("k", "b"), now), Timed(LPush("k", "a"), now);
    var d1: Store := map["k" := Entry(List(["b"]), None)];
    assert LiveCommand(map[], p.command, now) == Result(d1, [p.command], Number(1));
    assert ["a"] + ["b"] == ["a", "b"];
    assert LiveCommand(d1, q.command, now).db == map["k" := Entry(List(["a", "b"]), None)];
    RunOf(map[], [], p);
    assert [] + [p] == [p];
    RunOf(map[], [p], q);
  }

  lemma TrimToOne(db: Store, now: nat)
    requires db == map["k" := Entry(List(["a", "b"]), None)]
    ensures var r := LiveCommand(db, LTrim("k", 0, 0), now);
            r.db == map["k" := Entry(List(["a"]), None)] && r.log == [LTrim("k", 0, 0)]
  {
    assert Range(["a", "b"], 0, 0) == ["a"] by {
      assert ["a", "b"][1..] == ["b"];
      assert Between(["b"], 1, 0, 0) == [];
    }
  }

  lemma PushesReplay(later: nat)
    ensures ReplayAll(map[], ([LPush("k", "b")] + [LPush("k", "a")]) + [LTrim("k", 0, 0)], later) ==
            Some(map["k" := Entry(List(["a", "b"]), None)])
  {
    var p, q, t := LPush("k", "b"), LPush("k", "a"), LTrim("k", 0, 0);
    var d1: Store := map["k" := Entry(List(["b"]), None)];
    var d2: Store := map["k" := Entry(List(["a", "b"]), None)];
    ReplayAppend(map[], [p] + [q], [t], later);
    ReplayAppend(map[], [p], [q], later);
    ReplayOne(map[], p, later);
    ReplayOne(d1, q, later);
    ReplayOne(d2, t, later);
    assert ["a"] + ["b"] == ["a", "b"];
    PutSame(d2, "k");
    assert ReplayCommand(map[], p, later) == Some(d1);
    assert ReplayCell(Look(d1, "k"), q, later) == Some(Entry(List(["a", "b"]), None));
    assert d1["k" := Entry(List(["a", "b"]), None)] == d2;
  }

  /** LPUSH twice and LTRIM to one element: replay rebuilds the untrimmed list. */
  lemma TrimIsForgotten(now: nat, later: nat)
    ensures var pushes := [Timed(LPush("k", "b"), now)] + [Timed(LPush("k", "a"), now)];
            var h := LiveRun(map[], pushes + [Timed(LTrim("k", 0, 0), now)]);
            && h.db == map["k" := Entry(List(["a"]), None)]
            && ReplayAll(map[], h.log, later) == Some(map["k" := Entry(List(["a", "b"]), None)])
  {
    var pushes := [Timed(LPush("k", "b"), now)] + [Timed(LPush("k", "a"), now)];
    TwoPushes(now);
    TrimToOne(LiveRun(map[], pushes).db, now);
    RunOf(map[], pushes, Timed(LTrim("k", 0, 0), now));
    PushesReplay(later);
    assert LiveRun(map[], pushes).log + [LTrim("k", 0, 0)] ==
           ([LPush("k", "b")] + [LPush("k", "a")]) + [LTrim("k", 0, 0)];
  }
}
