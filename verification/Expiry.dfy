/**
  Lazy deletion in GET beside the active sweeper: which commands lead from a swept and an unswept keyspace to different
  ones, and which answer differently.
 */
module Expiry {
  import opened Prelude
  import opened Decimal
  import opened Protocol
  import opened Keyspace

  /** What is left of a cell when a passed deadline counts as absence. */
  function Alive(cell: Cell, now: nat): Cell {
    if cell.Some? && Expired(cell.value, now) then None else cell
  }

  ghost predicate SameAlive(a: Store, b: Store, now: nat) {
    forall k :: Alive(Look(a, k), now) == Alive(Look(b, k), now)
  }

  /** The keyspace after the sweeper has been through all shards. */
  function Swept(db: Store, now: nat): Store { map k | k in db && !Expired(db[k], now) :: db[k] }

  datatype Event = Do(c: Command, now: nat) | Sweep(now: nat)

  function After(db: Store, e: Event): Store {
    match e
    case Do(c, now) => LiveCommand(db, c, now).db
    case Sweep(now) => Swept(db, now)
  }

  function AfterAll(db: Store, events: seq<Event>): Store {
    if events == [] then db else After(AfterAll(db, events[..|events| - 1]), events[|events| - 1])
  }

  lemma AfterNext(db: Store, events: seq<Event>, e: Event)
    ensures AfterAll(db, events + [e]) == After(AfterAll(db, events), e)
  {
    assert (events + [e])[..|events|] == events;
  }

  lemma SweepIsSameAlive(db: Store, now: nat)
    ensures SameAlive(Swept(db, now), db, now)
  {
    forall k
      ensures Alive(Look(Swept(db, now), k), now) == Alive(Look(db, k), now)
    {
    }
  }

  lemma SameAliveTurned(a: Store, b: Store, now: nat)
    requires SameAlive(a, b, now)
    ensures SameAlive(b, a, now)
  {
    assert forall k :: Alive(Look(a, k), now) == Alive(Look(b, k), now);
  }

  // ---- Only strings carry a deadline ----

  /** A deadline belongs to a string and is one that the clock can represent. */
  predicate EntryOk(e: Entry) { e.expiresAt.Some? ==> e.value.Str? && e.expiresAt.value / NANOS <= I64_MAX }

  predicate CellOk(cell: Cell) { cell.Some? ==> EntryOk(cell.value) }

  ghost predicate OnlyStringsExpire(db: Store) { forall k :: k in db ==> EntryOk(db[k]) }

  lemma DeadlineOk(now: nat, seconds: int)
    ensures Deadline(now, seconds).Some? ==> Deadline(now, seconds).value / NANOS <= I64_MAX
  {
  }

  lemma PutOk(db: Store, k: Bytes, cell: Cell)
    requires OnlyStringsExpire(db) && CellOk(cell)
    ensures OnlyStringsExpire(Put(db, k, cell))
  {
  }

  lemma LiveKeepsStrings(db: Store, c: Command, now: nat)
    requires OnlyStringsExpire(db)
    ensures OnlyStringsExpire(LiveCommand(db, c, now).db)
  {
    if SingleKey(c) {
      assert CellOk(Look(db, c.key));
      if c.SetEx? { DeadlineOk(now, c.seconds); }
      assert CellOk(LiveCell(Look(db, c.key), c, now).cell);
      PutOk(db, c.key, LiveCell(Look(db, c.key), c, now).cell);
    }
  }

  lemma ReplayKeepsStrings(db: Store, c: Command, now: nat)
    requires OnlyStringsExpire(db) && ReplayCommand(db, c, now).Some?
    ensures OnlyStringsExpire(ReplayCommand(db, c, now).value)
  {
    if SingleKey(c) {
      assert CellOk(Look(db, c.key));
      if c.SetEx? { DeadlineOk(now, c.seconds); }
      assert CellOk(ReplayCell(Look(db, c.key), c, now));
      PutOk(db, c.key, ReplayCell(Look(db, c.key), c, now));
    }
  }

  lemma {:induction false} ReplayAllKeepsStrings(db: Store, records: seq<Command>, now: nat)
    requires OnlyStringsExpire(db) && ReplayAll(db, records, now).Some?
    ensures OnlyStringsExpire(ReplayAll(db, records, now).value)
    decreases |records|
  {
    if records != [] {
      ReplayKeepsStrings(db, records[0], now);
      ReplayAllKeepsStrings(ReplayCommand(db, records[0], now).value, records[1..], now);
    }
  }

  /** Whatever the log held at start-up and whatever ran since, only strings carry a deadline. */
  lemma {:induction false} ReachableOnlyStringsExpire(records: seq<Command>, start: nat, events: seq<Event>)
    requires ReplayAll(map[], records, start).Some?
    ensures OnlyStringsExpire(AfterAll(ReplayAll(map[], records, start).value, events))
  {
    var db := ReplayAll(map[], records, start).value;
    if events == [] {
      ReplayAllKeepsStrings(map[], records, start);
    } else {
      var e := events[|events| - 1];
      ReachableOnlyStringsExpire(records, start, events[..|events| - 1]);
      if e.Do? { LiveKeepsStrings(AfterAll(db, events[..|events| - 1]), e.c, e.now); }
    }
  }

  // ---- Which commands are blind to sweeping ----

  /** From states that differ only in expired entries the command leads to such states again. */
  ghost predicate BlindToSweeps(c: Command) {
    forall a, b, now :: SameAlive(a, b, now) ==> SameAlive(LiveCommand(a, c, now).db, LiveCommand(b, c, now).db, now)
  }

  /** The arms that build on an entry without looking at its deadline. */
  predicate BuildsOnEntry(c: Command) {
    c.Incr? || c.LPush? || c.RPush? || c.HSet? || c.SAdd? || (c.RPopLPush? && c.source != c.destination)
  }

  lemma PutSameAlive(a: Store, b: Store, k: Bytes, x: Cell, y: Cell, now: nat)
    requires SameAlive(a, b, now) && Alive(x, now) == Alive(y, now)
    ensures SameAlive(Put(a, k, x), Put(b, k, y), now)
  {
    forall j
      ensures Alive(Look(Put(a, k, x), j), now) == Alive(Look(Put(b, k, y), j), now)
    {
      assert Alive(Look(a, j), now) == Alive(Look(b, j), now);
    }
  }

  /** An expired entry behaves like a missing one: it stays expired, or it goes. */
  lemma ExpiredStaysDead(cell: Cell, c: Command, now: nat)
    requires SingleKey(c) && !BuildsOnEntry(c) && cell.Some? && Expired(cell.value, now)
    ensures Alive(LiveCell(cell, c, now).cell, now) == Alive(LiveCell(None, c, now).cell, now)
    ensures c.Get? ==> LiveCell(cell, c, now).reply == LiveCell(None, c, now).reply
  {
  }

  lemma CellIsBlind(x: Cell, y: Cell, c: Command, now: nat)
    requires SingleKey(c) && !BuildsOnEntry(c) && Alive(x, now) == Alive(y, now)
    ensures Alive(LiveCell(x, c, now).cell, now) == Alive(LiveCell(y, c, now).cell, now)
    ensures c.Get? ==> LiveCell(x, c, now).reply == LiveCell(y, c, now).reply
  {
    if x.Some? && Expired(x.value, now) { ExpiredStaysDead(x, c, now); }
    if y.Some? && Expired(y.value, now) { ExpiredStaysDead(y, c, now); }
  }

  /** Turning a list by one place keeps its deadline. */
  lemma RotationKeepsDeadline(db: Store, k: Bytes)
    ensures var after := LiveCommand(db, RPopLPush(k, k), 0).db;
            && (forall j :: j != k ==> Look(after, j) == Look(db, j))
            && Look(after, k).Some? == Look(db, k).Some?
            && (Look(db, k).Some? ==> after[k].expiresAt == db[k].expiresAt)
  {
  }

  lemma RotationIsBlind(a: Store, b: Store, k: Bytes, now: nat)
    requires SameAlive(a, b, now)
    ensures SameAlive(LiveCommand(a, RPopLPush(k, k), now).db, LiveCommand(b, RPopLPush(k, k), now).db, now)
  {
    var x, y := LiveCommand(a, RPopLPush(k, k), now).db, LiveCommand(b, RPopLPush(k, k), now).db;
    RotationKeepsDeadline(a, k);
    RotationKeepsDeadline(b, k);
    assert Alive(Look(a, k), now) == Alive(Look(b, k), now);
    forall j
      ensures Alive(Look(x, j), now) == Alive(Look(y, j), now)
    {
      assert Alive(Look(a, j), now) == Alive(Look(b, j), now);
    }
  }

  lemma StepIsBlind(a: Store, b: Store, c: Command, now: nat)
    requires SameAlive(a, b, now) && !BuildsOnEntry(c)
    ensures SameAlive(LiveCommand(a, c, now).db, LiveCommand(b, c, now).db, now)
    ensures c.Get? ==> LiveCommand(a, c, now).reply == LiveCommand(b, c, now).reply
  {
    if SingleKey(c) {
      assert Alive(Look(a, c.key), now) == Alive(Look(b, c.key), now);
      CellIsBlind(Look(a, c.key), Look(b, c.key), c, now);
      PutSameAlive(a, b, c.key, LiveCell(Look(a, c.key), c, now).cell, LiveCell(Look(b, c.key), c, now).cell, now);
    } else if c.RPopLPush? {
      RotationIsBlind(a, b, c.source, now);
    }
  }

  /** A string that a SETEX of zero seconds leaves: it blocks a push, and INCR would count on from it. */
  function Stale(t: nat): Entry { Entry(Str("x"), Some(t)) }

  /** Client commands that leave such a string where the command will find it. */
  function Setup(c: Command, t: nat): seq<Event>
    requires SingleKey(c) || c.RPopLPush?
  {
    if c.RPopLPush? then [Do(RPush(c.source, "v"), t)] + [Do(SetEx(c.destination, 0, "x"), t)]
    else [] + [Do(SetEx(c.key, 0, "x"), t)]
  }

  lemma SetupLeaves(c: Command, t: nat)
    requires (SingleKey(c) || c.RPopLPush?) && t / NANOS <= I64_MAX
    ensures AfterAll(map[], Setup(c, t)) ==
            if c.RPopLPush? then map[c.source := Entry(List(["v"]), None)][c.destination := Stale(t)]
            else map[c.key := Stale(t)]
  {
    if c.RPopLPush? {
      AfterNext(map[], [], Do(RPush(c.source, "v"), t));
      assert [] + [Do(RPush(c.source, "v"), t)] == [Do(RPush(c.source, "v"), t)];
      AfterNext(map[], [Do(RPush(c.source, "v"), t)], Do(SetEx(c.destination, 0, "x"), t));
    } else {
      AfterNext(map[], [], Do(SetEx(c.key, 0, "x"), t));
    }
  }

  lemma KeyCommandNotices(c: Command, t: nat)
    requires SingleKey(c) && BuildsOnEntry(c)
    ensures var a: Store := map[c.key := Stale(t)];
            Alive(Look(LiveCommand(a, c, t + 1).db, c.key), t + 1) !=
            Alive(Look(LiveCommand(Swept(a, t + 1), c, t + 1).db, c.key), t + 1)
  {
    var a: Store := map[c.key := Stale(t)];
    assert Swept(a, t + 1) == map[];
    assert ParseI64("x").None?;
    assert Look(LiveCommand(a, c, t + 1).db, c.key) == Some(Stale(t));
    assert Look(LiveCommand(map[], c, t + 1).db, c.key).Some?;
  }

  lemma MoveNotices(s: Bytes, d: Bytes, t: nat)
    requires s != d
    ensures var a: Store := map[s := Entry(List(["v"]), None)][d := Stale(t)];
            Alive(Look(LiveCommand(a, RPopLPush(s, d), t + 1).db, d), t + 1) !=
            Alive(Look(LiveCommand(Swept(a, t + 1), RPopLPush(s, d), t + 1).db, d), t + 1)
  {
    var a: Store := map[s := Entry(List(["v"]), None)][d := Stale(t)];
    assert Swept(a, t + 1) == map[s := Entry(List(["v"]), None)];
  }

  /**
    At any time, clients can bring about a keyspace in which a sweep just before the command makes a difference that
    lasts.
   */
  lemma BuildersNotice(c: Command, t: nat)
    requires BuildsOnEntry(c) && t / NANOS <= I64_MAX
    ensures var a := AfterAll(map[], Setup(c, t));
            !SameAlive(LiveCommand(a, c, t + 1).db, LiveCommand(Swept(a, t + 1), c, t + 1).db, t + 1)
  {
    SetupLeaves(c, t);
    if c.RPopLPush? {
      MoveNotices(c.source, c.destination, t);
    } else {
      KeyCommandNotices(c, t);
    }
  }

  /** A command is blind to sweeps exactly when it does not build on the entry it finds. */
  lemma BlindUnlessBuilding(c: Command)
    ensures BlindToSweeps(c) <==> !BuildsOnEntry(c)
  {
    if !BuildsOnEntry(c) {
      forall a, b, now | SameAlive(a, b, now)
        ensures SameAlive(LiveCommand(a, c, now).db, LiveCommand(b, c, now).db, now)
      {
        StepIsBlind(a, b, c, now);
      }
    } else {
      var a := AfterAll(map[], Setup(c, 0));
      BuildersNotice(c, 0);
      SweepIsSameAlive(a, 1);
      SameAliveTurned(Swept(a, 1), a, 1);
    }
  }

  // ---- Which commands cannot tell at all ----

  /** The command leads to states that differ only in expired entries, and answers the same. */
  ghost predicate SameOutcome(a: Store, b: Store, c: Command, now: nat) {
    && SameAlive(LiveCommand(a, c, now).db, LiveCommand(b, c, now).db, now)
    && LiveCommand(a, c, now).reply == LiveCommand(b, c, now).reply
  }

  /** From states that differ only in expired entries, and these are strings, the outcome is the same. */
  ghost predicate CannotTell(c: Command) {
    forall a, b, now ::
      OnlyStringsExpire(a) && OnlyStringsExpire(b) && SameAlive(a, b, now) ==> SameOutcome(a, b, c, now)
  }

  /** The arms that answer by an entry without looking at its deadline. */
  predicate AnswersByEntry(c: Command) { c.Del? || c.LPop? || c.RPop? || c.LTrim? || c.LRange? }

  predicate Tells(c: Command) { BuildsOnEntry(c) || AnswersByEntry(c) }

  lemma CellAnswersSame(x: Cell, y: Cell, c: Command, now: nat)
    requires SingleKey(c) && !Tells(c) && CellOk(x) && CellOk(y) && Alive(x, now) == Alive(y, now)
    ensures LiveCell(x, c, now).reply == LiveCell(y, c, now).reply
  {
    assert c.Set? || c.SetEx? || c.Get? || c.LRem?;
  }

  /** Only a string can be expired, and nothing is popped off a string. */
  lemma RotationAnswersSame(a: Store, b: Store, k: Bytes, now: nat)
    requires OnlyStringsExpire(a) && OnlyStringsExpire(b) && SameAlive(a, b, now)
    ensures LiveCommand(a, RPopLPush(k, k), now).reply == LiveCommand(b, RPopLPush(k, k), now).reply
  {
    assert Alive(Look(a, k), now) == Alive(Look(b, k), now);
    assert CellOk(Look(a, k)) && CellOk(Look(b, k));
  }

  lemma StepCannotTell(a: Store, b: Store, c: Command, now: nat)
    requires OnlyStringsExpire(a) && OnlyStringsExpire(b) && SameAlive(a, b, now) && !Tells(c)
    ensures SameOutcome(a, b, c, now)
  {
    StepIsBlind(a, b, c, now);
    if SingleKey(c) {
      assert Alive(Look(a, c.key), now) == Alive(Look(b, c.key), now);
      CellAnswersSame(Look(a, c.key), Look(b, c.key), c, now);
    } else if c.RPopLPush? {
      RotationAnswersSame(a, b, c.source, now);
    }
  }

  lemma AnswersDiffer(c: Command, t: nat)
    requires AnswersByEntry(c)
    ensures var a: Store := map[c.key := Stale(t)];
            LiveCommand(a, c, t + 1).reply != LiveCommand(Swept(a, t + 1), c, t + 1).reply
  {
    var a: Store := map[c.key := Stale(t)];
    assert Swept(a, t + 1) == map[];
  }

  /** At any time, clients can bring about a keyspace in which such a command answers by what a sweep would remove. */
  lemma AnswersNotice(c: Command, t: nat)
    requires AnswersByEntry(c) && t / NANOS <= I64_MAX
    ensures var a := AfterAll(map[], Setup(c, t));
            LiveCommand(a, c, t + 1).reply != LiveCommand(Swept(a, t + 1), c, t + 1).reply
  {
    SetupLeaves(c, t);
    AnswersDiffer(c, t);
  }

  lemma SweptIsOk(a: Store, now: nat)
    requires OnlyStringsExpire(a)
    ensures OnlyStringsExpire(Swept(a, now)) && SameAlive(a, Swept(a, now), now)
  {
    SweepIsSameAlive(a, now);
    SameAliveTurned(Swept(a, now), a, now);
  }

  lemma SetupIsOk(c: Command, t: nat, now: nat)
    requires Tells(c)
    ensures var a := AfterAll(map[], Setup(c, t));
            OnlyStringsExpire(a) && OnlyStringsExpire(Swept(a, now)) && SameAlive(a, Swept(a, now), now)
  {
    ReachableOnlyStringsExpire([], 0, Setup(c, t));
    SweptIsOk(AfterAll(map[], Setup(c, t)), now);
  }

  /** What a sweep just before the command changes, in a keyspace that clients brought about. */
  lemma TellersNotice(c: Command, t: nat)
    requires Tells(c) && t / NANOS <= I64_MAX
    ensures var a := AfterAll(map[], Setup(c, t)); !SameOutcome(a, Swept(a, t + 1), c, t + 1)
  {
    if BuildsOnEntry(c) {
      BuildersNotice(c, t);
    } else {
      AnswersNotice(c, t);
    }
  }

  lemma Witnessed(a: Store, b: Store, c: Command, now: nat)
    requires OnlyStringsExpire(a) && OnlyStringsExpire(b) && SameAlive(a, b, now) && !SameOutcome(a, b, c, now)
    ensures !CannotTell(c)
  {
  }

  lemma TellingStates(c: Command, t: nat, now: nat) returns (a: Store, b: Store)
    requires Tells(c) && t / NANOS <= I64_MAX && now == t + 1
    ensures OnlyStringsExpire(a) && OnlyStringsExpire(b) && SameAlive(a, b, now) && !SameOutcome(a, b, c, now)
  {
    SetupIsOk(c, t, now);
    TellersNotice(c, t);
    a := AfterAll(map[], Setup(c, t));
    b := Swept(a, now);
  }

  lemma TellersTell(c: Command)
    requires Tells(c)
    ensures !CannotTell(c)
  {
    var a, b := TellingStates(c, 0, 1);
    Witnessed(a, b, c, 1);
  }

  lemma TellersAre(c: Command)
    ensures !Tells(c) <==>
            c.Set? || c.SetEx? || c.Get? || c.LRem? || (c.RPopLPush? && c.source == c.destination) ||
            !(SingleKey(c) || c.RPopLPush?)
  {
  }

  lemma OthersCannotTell(c: Command)
    requires !Tells(c)
    ensures CannotTell(c)
  {
    forall a, b, now | OnlyStringsExpire(a) && OnlyStringsExpire(b) && SameAlive(a, b, now)
      ensures SameOutcome(a, b, c, now)
    {
      StepCannotTell(a, b, c, now);
    }
  }

  /**
    A command cannot tell a swept keyspace from an unswept one, neither by its reply nor by what it leaves, exactly
    when it is SET, SETEX, GET, LREM, RPOPLPUSH of a list onto itself, or none of the commands modelled here.
   */
  lemma TellsExactly(c: Command)
    ensures CannotTell(c) <==> !Tells(c)
    ensures !Tells(c) <==>
            c.Set? || c.SetEx? || c.Get? || c.LRem? || (c.RPopLPush? && c.source == c.destination) ||
            !(SingleKey(c) || c.RPopLPush?)
  {
    if Tells(c) { TellersTell(c); } else { OthersCannotTell(c); }
    TellersAre(c);
  }

  // ---- Runs with sweeps ----

  predicate ClockNeverBack(events: seq<Event>) {
    forall i, j :: 0 <= i < j < |events| ==> events[i].now <= events[j].now
  }

  function GetReply(db: Store, e: Event): seq<Reply> {
    if e.Do? && e.c.Get? then [LiveCommand(db, e.c, e.now).reply] else []
  }

  /** The replies of the GETs of a run, in order. */
  function GetReplies(db: Store, events: seq<Event>): seq<Reply>
    decreases |events|
  {
    if events == [] then [] else GetReply(db, events[0]) + GetReplies(After(db, events[0]), events[1..])
  }

  function WithoutSweeps(events: seq<Event>): seq<Event> {
    if events == [] then []
    else (if events[0].Sweep? then [] else [events[0]]) + WithoutSweeps(events[1..])
  }

  lemma SameAliveLater(a: Store, b: Store, now: nat, later: nat)
    requires SameAlive(a, b, now) && now <= later
    ensures SameAlive(a, b, later)
  {
    forall k
      ensures Alive(Look(a, k), later) == Alive(Look(b, k), later)
    {
      assert Alive(Look(a, k), now) == Alive(Look(b, k), now);
    }
  }

  /** One event, with the sweeps left out on the right-hand side. */
  lemma EventIsBlind(a: Store, b: Store, e: Event)
    requires SameAlive(a, b, e.now) && (e.Do? ==> !BuildsOnEntry(e.c))
    ensures SameAlive(After(a, e), if e.Do? then After(b, e) else b, e.now)
    ensures GetReply(a, e) == if e.Do? then GetReply(b, e) else []
  {
    if e.Do? {
      StepIsBlind(a, b, e.c, e.now);
    } else {
      SweepIsSameAlive(a, e.now);
      forall k
        ensures Alive(Look(After(a, e), k), e.now) == Alive(Look(b, k), e.now)
      {
        assert Alive(Look(After(a, e), k), e.now) == Alive(Look(a, k), e.now);
      }
    }
  }

  lemma WithoutSweepsFirst(events: seq<Event>)
    requires events != []
    ensures var rest := WithoutSweeps(events[1..]);
            WithoutSweeps(events) == if events[0].Sweep? then rest else [events[0]] + rest
    ensures events[0].Do? ==> WithoutSweeps(events)[1..] == WithoutSweeps(events[1..])
  {
  }

  lemma ClockGoesOn(events: seq<Event>)
    requires events != [] && ClockNeverBack(events)
    ensures ClockNeverBack(events[1..]) && forall e :: e in events[1..] ==> e in events && events[0].now <= e.now
  {
  }

  lemma {:induction false} SimulatedGets(a: Store, b: Store, events: seq<Event>, since: nat)
    requires SameAlive(a, b, since) && ClockNeverBack(events) && forall e :: e in events ==> since <= e.now
    requires forall e :: e in events && e.Do? ==> !BuildsOnEntry(e.c)
    ensures GetReplies(a, events) == GetReplies(b, WithoutSweeps(events))
    decreases |events|
  {
    if events != [] {
      var e := events[0];
      assert e in events;
      SameAliveLater(a, b, since, e.now);
      EventIsBlind(a, b, e);
      ClockGoesOn(events);
      WithoutSweepsFirst(events);
      SimulatedGets(After(a, e), if e.Do? then After(b, e) else b, events[1..], e.now);
    }
  }

  /** Sweeps, at any points and in any number, change no GET reply of a run of commands blind to them. */
  lemma SweepsAreInvisible(db: Store, events: seq<Event>)
    requires ClockNeverBack(events)
    requires forall e :: e in events && e.Do? ==> !BuildsOnEntry(e.c)
    ensures GetReplies(db, events) == GetReplies(db, WithoutSweeps(events))
  {
    SimulatedGets(db, db, events, 0);
  }

  /** The replies to all commands of a run, in order. */
  function RunReplies(db: Store, events: seq<Event>): seq<Reply>
    decreases |events|
  {
    if events == [] then []
    else
      (if events[0].Do? then [LiveCommand(db, events[0].c, events[0].now).reply] else []) +
      RunReplies(After(db, events[0]), events[1..])
  }

  lemma EventCannotTell(a: Store, b: Store, e: Event)
    requires OnlyStringsExpire(a) && OnlyStringsExpire(b) && SameAlive(a, b, e.now) && (e.Do? ==> !Tells(e.c))
    ensures var next := if e.Do? then After(b, e) else b;
            OnlyStringsExpire(After(a, e)) && OnlyStringsExpire(next) && SameAlive(After(a, e), next, e.now)
    ensures e.Do? ==> LiveCommand(a, e.c, e.now).reply == LiveCommand(b, e.c, e.now).reply
  {
    EventIsBlind(a, b, e);
    if e.Do? {
      StepCannotTell(a, b, e.c, e.now);
      LiveKeepsStrings(a, e.c, e.now);
      LiveKeepsStrings(b, e.c, e.now);
    }
  }

  lemma {:induction false} SimulatedReplies(a: Store, b: Store, events: seq<Event>, since: nat)
    requires OnlyStringsExpire(a) && OnlyStringsExpire(b) && SameAlive(a, b, since)
    requires ClockNeverBack(events) && forall e :: e in events ==> since <= e.now
    requires forall e :: e in events && e.Do? ==> !Tells(e.c)
    ensures RunReplies(a, events) == RunReplies(b, WithoutSweeps(events))
    decreases |events|
  {
    if events != [] {
      var e := events[0];
      assert e in events;
      SameAliveLater(a, b, since, e.now);
      EventCannotTell(a, b, e);
      ClockGoesOn(events);
      WithoutSweepsFirst(events);
      SimulatedReplies(After(a, e), if e.Do? then After(b, e) else b, events[1..], e.now);
    }
  }

  /** And they change no reply at all of a run of commands that cannot tell. */
  lemma SweepsChangeNoReply(db: Store, events: seq<Event>)
    requires OnlyStringsExpire(db) && ClockNeverBack(events)
    requires forall e :: e in events && e.Do? ==> !Tells(e.c)
    ensures RunReplies(db, events) == RunReplies(db, WithoutSweeps(events))
  {
    SimulatedReplies(db, db, events, 0);
  }
}
