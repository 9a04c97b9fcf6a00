/**
  Client tasks on shared shards: each task locks the shards of its command, changes the keyspace, sends its
  record and unlocks. Only RPOPLPUSH unlocks before it sends, and only LRANGE locks for reading.
 */
module Interleaving {
  import opened Prelude
  import opened Protocol
  import opened Keyspace
  import opened Durability
  import opened Expiry
  import opened Commuting
  import opened Overtaking

  datatype Phase =
    | Idle
    | Locked(c: Command)               // guards taken, nothing done yet
    | Owing(c: Command, rec: Command)  // keyspace changed, record not yet sent
    | Sent(c: Command)                 // nothing left but dropping the guards

  datatype Task = Task(todo: seq<Command>, phase: Phase)

  /** `line` remembers who owes a record, in the order of the changes; no step looks at it. */
  datatype System = System(db: Store, log: seq<Command>, tasks: seq<Task>, line: seq<nat>)

  /** The routing of keys to shards, an arbitrary function. */
  type Router = Bytes -> nat

  function ShardsOf(shard: Router, c: Command): set<nat> { set k | k in KeysOf(c) :: shard(k) }

  /** The shards a task holds guards of. */
  function Held(shard: Router, t: Task): set<nat> {
    match t.phase
    case Idle => {}
    case Locked(c) => ShardsOf(shard, c)
    case Owing(c, _) => if c.RPopLPush? then {} else ShardsOf(shard, c)
    case Sent(c) => if c.RPopLPush? then {} else ShardsOf(shard, c)
  }

  predicate Reads(t: Task) { !t.phase.Idle? && t.phase.c.LRange? }

  /** Guards of one shard are held at the same time only for reading. */
  predicate Tolerates(shard: Router, a: Task, b: Task) {
    Held(shard, a) !! Held(shard, b) || (Reads(a) && Reads(b))
  }

  predicate LockStep(shard: Router, s: System, s': System, t: nat) {
    && t < |s.tasks| && s.tasks[t].phase.Idle? && s.tasks[t].todo != []
    && var task := Task(s.tasks[t].todo[1..], Locked(s.tasks[t].todo[0]));
    && (forall u :: 0 <= u < |s.tasks| && u != t ==> Tolerates(shard, s.tasks[u], task))
    && s' == s.(tasks := s.tasks[t := task])
  }

  predicate MutateStep(s: System, s': System, t: nat, now: nat) {
    && t < |s.tasks| && s.tasks[t].phase.Locked?
    && var c := s.tasks[t].phase.c;
    && var r := LiveCommand(s.db, c, now);
    && var phase := if r.log == [] then Sent(c) else Owing(c, r.log[0]);
    && s' == s.(db := r.db, tasks := s.tasks[t := s.tasks[t].(phase := phase)],
                line := if r.log == [] then s.line else s.line + [t])
  }

  function Leave(line: seq<nat>, t: nat): seq<nat> {
    if line == [] then [] else if line[0] == t then line[1..] else [line[0]] + Leave(line[1..], t)
  }

  predicate SendStep(s: System, s': System, t: nat) {
    && t < |s.tasks| && s.tasks[t].phase.Owing?
    && s' == s.(log := s.log + [s.tasks[t].phase.rec],
                tasks := s.tasks[t := s.tasks[t].(phase := Sent(s.tasks[t].phase.c))],
                line := Leave(s.line, t))
  }

  predicate UnlockStep(s: System, s': System, t: nat) {
    && t < |s.tasks| && s.tasks[t].phase.Sent?
    && s' == s.(tasks := s.tasks[t := s.tasks[t].(phase := Idle)])
  }

  predicate StepBy(shard: Router, s: System, s': System, t: nat, now: nat) {
    LockStep(shard, s, s', t) || SendStep(s, s', t) || UnlockStep(s, s', t) || MutateStep(s, s', t, now)
  }

  ghost predicate Step(shard: Router, s: System, s': System) {
    exists t: nat, now: nat :: StepBy(shard, s, s', t, now)
  }

  ghost predicate IsRun(shard: Router, run: seq<System>) {
    run != [] && forall i :: 0 < i < |run| ==> Step(shard, run[i - 1], run[i])
  }

  // ---- The line of those who owe a record ----

  /** Those in front of a task in the line. */
  function Before(line: seq<nat>, t: nat): seq<nat> {
    if line == [] || line[0] == t then [] else [line[0]] + Before(line[1..], t)
  }

  function CommandAt(tasks: seq<Task>, t: nat): Command {
    if t < |tasks| && !tasks[t].phase.Idle? then tasks[t].phase.c else Unknown
  }

  /** The task sends its record only past those it may pass. */
  predicate SendsPast(tasks: seq<Task>, line: seq<nat>, t: nat, strings: bool) {
    forall u :: u in Before(line, t) ==> MayPass(strings, CommandAt(tasks, t), CommandAt(tasks, u))
  }

  function CommandsOf(tasks: seq<Task>, order: seq<nat>): seq<Command> {
    seq(|order|, i requires 0 <= i < |order| => CommandAt(tasks, order[i]))
  }

  function RecordAt(tasks: seq<Task>, t: nat): Command {
    if t < |tasks| && tasks[t].phase.Owing? then tasks[t].phase.rec else Unknown
  }

  /** What the tasks of the list still have to send, in this order. */
  function Owed(tasks: seq<Task>, order: seq<nat>): seq<Command> {
    seq(|order|, i requires 0 <= i < |order| => RecordAt(tasks, order[i]))
  }

  /** The tasks can send their records in this order, and nobody passes anyone it may not pass. */
  predicate MaySend(tasks: seq<Task>, line: seq<nat>, order: seq<nat>, strings: bool)
    decreases |order|
  {
    if order == [] then line == []
    else
      && order[0] in line && SendsPast(tasks, line, order[0], strings)
      && MaySend(tasks, Leave(line, order[0]), order[1..], strings)
  }

  /**
    When a record is sent past the record of an RPOPLPUSH that was carried out before, it is one that may overtake it.
    Whatever is carried out while the record is owed, and sent after it, is free.
   */
  ghost predicate Orderly(s: System, s': System) {
    forall t: nat, u: nat ::
      SendStep(s, s', t) && u in Before(s.line, t) && CommandAt(s.tasks, u).RPopLPush? ==>
        Passes(s.tasks[t].phase.c, CommandAt(s.tasks, u).source, CommandAt(s.tasks, u).destination)
  }

  /** Nobody owes the record of an RPOPLPUSH. */
  predicate NoMoveOwed(s: System) {
    forall u :: 0 <= u < |s.tasks| && s.tasks[u].phase.Owing? ==> SingleKey(s.tasks[u].phase.c)
  }

  /** An LTRIM that changes its list is never replayed. */
  ghost predicate Idles(s: System, s': System) {
    forall t: nat, now: nat :: MutateStep(s, s', t, now) ==> TrimIsIdle(s.db, s.tasks[t].phase.c)
  }

  lemma {:induction false} LineParts(line: seq<nat>, t: nat) returns (b: seq<nat>)
    requires t in line && Distinct(line)
    ensures line == Before(line, t) + ([t] + b) && Leave(line, t) == Before(line, t) + b
    ensures t !in Before(line, t) + b && Distinct(Before(line, t) + b)
  {
    if line[0] == t {
      b := line[1..];
    } else {
      assert t in line[1..];
      b := LineParts(line[1..], t);
      var a := Before(line[1..], t);
      AppendAssociates([line[0]], a, b);
      AppendAssociates([line[0]], a, [t] + b);
      assert line == [line[0]] + line[1..];
      assert forall u :: u in a + b ==> u in line[1..];
      assert line[0] !in line[1..];
      assert [line[0]] + (a + b) == Leave(line, t);
    }
  }

  lemma CommandsAppend(tasks: seq<Task>, a: seq<nat>, b: seq<nat>)
    ensures CommandsOf(tasks, a + b) == CommandsOf(tasks, a) + CommandsOf(tasks, b)
    ensures Owed(tasks, a + b) == Owed(tasks, a) + Owed(tasks, b)
  {
  }

  lemma CommandsOfOne(tasks: seq<Task>, t: nat)
    ensures CommandsOf(tasks, [t]) == [CommandAt(tasks, t)] && Owed(tasks, [t]) == [RecordAt(tasks, t)]
  {
  }

  lemma CommandsFrame(tasks: seq<Task>, tasks': seq<Task>, line: seq<nat>)
    requires forall u :: u in line ==> CommandAt(tasks, u) == CommandAt(tasks', u)
    ensures CommandsOf(tasks, line) == CommandsOf(tasks', line)
  {
  }

  // ---- The invariant ----

  ghost predicate Exclusive(shard: Router, tasks: seq<Task>) {
    forall t, u :: 0 <= t < |tasks| && 0 <= u < |tasks| && t != u ==> Tolerates(shard, tasks[t], tasks[u])
  }

  /** A record that was written was representable then, so it is at the epoch. */
  predicate TaskOk(t: Task) {
    && (forall c :: c in t.todo ==> Modelled(c) && InRange(c))
    && (!t.phase.Idle? ==> Modelled(t.phase.c) && InRange(t.phase.c))
    && (t.phase.Owing? ==>
          t.phase.rec == RecordOf(t.phase.c) && Owable(t.phase.c, 0) && Logged(RecordOf(t.phase.c)))
  }

  ghost predicate TasksOk(tasks: seq<Task>) { forall t :: 0 <= t < |tasks| ==> TaskOk(tasks[t]) }

  /** The line holds exactly those who owe a record, each of them once. */
  ghost predicate InLine(tasks: seq<Task>, line: seq<nat>) {
    && Distinct(line)
    && forall u: nat :: u in line <==> u < |tasks| && tasks[u].phase.Owing?
  }

  /** Whoever keeps its guard until it has sent keeps those behind it away from its key. */
  predicate Apart(cs: seq<Command>) {
    forall i, j :: 0 <= i < j < |cs| && SingleKey(cs[i]) ==> KeysOf(cs[i]) !! KeysOf(cs[j])
  }

  /** Log and owed records, in the order of the line, replay to the live state; each finds what its command found. */
  ghost predicate Completes(base: Store, log: seq<Command>, cs: seq<Command>, db: Store) {
    match ReplayAll(base, log, 0)
    case Some(x) => AllReady(x, cs, 0) && Agrees(x, RecordsFor(cs), db, 0)
    case None => false
  }

  ghost predicate Inv(shard: Router, base: Store, s: System) {
    && Exclusive(shard, s.tasks) && TasksOk(s.tasks) && InLine(s.tasks, s.line)
    && Apart(CommandsOf(s.tasks, s.line)) && Completes(base, s.log, CommandsOf(s.tasks, s.line), s.db)
  }

  lemma ExclusiveUpdate(shard: Router, tasks: seq<Task>, t: nat, task: Task)
    requires t < |tasks| && Exclusive(shard, tasks)
    requires forall u :: 0 <= u < |tasks| && u != t ==> Tolerates(shard, tasks[u], task)
    ensures Exclusive(shard, tasks[t := task])
  {
  }

  lemma HeldShrinks(shard: Router, tasks: seq<Task>, t: nat, task: Task)
    requires t < |tasks| && Exclusive(shard, tasks)
    requires Held(shard, task) == {} || (Held(shard, task) == Held(shard, tasks[t]) && Reads(task) == Reads(tasks[t]))
    ensures Exclusive(shard, tasks[t := task])
  {
    forall u | 0 <= u < |tasks| && u != t
      ensures Tolerates(shard, tasks[u], task)
    {
      assert Tolerates(shard, tasks[u], tasks[t]);
    }
    ExclusiveUpdate(shard, tasks, t, task);
  }

  lemma TasksOkUpdate(tasks: seq<Task>, t: nat, task: Task)
    requires t < |tasks| && TasksOk(tasks) && TaskOk(task)
    ensures TasksOk(tasks[t := task])
  {
  }

  /** A task that owes nothing before and after. */
  lemma LineStays(tasks: seq<Task>, t: nat, task: Task, line: seq<nat>)
    requires t < |tasks| && InLine(tasks, line) && !tasks[t].phase.Owing? && !task.phase.Owing?
    ensures InLine(tasks[t := task], line) && CommandsOf(tasks[t := task], line) == CommandsOf(tasks, line)
  {
    CommandsFrame(tasks, tasks[t := task], line);
  }

  lemma LockedTaskOk(task: Task)
    requires TaskOk(task) && task.todo != []
    ensures TaskOk(Task(task.todo[1..], Locked(task.todo[0])))
  {
    assert task.todo[0] in task.todo;
    assert forall c :: c in task.todo[1..] ==> c in task.todo;
  }

  lemma LockKeeps(shard: Router, base: Store, s: System, s': System, t: nat)
    requires Inv(shard, base, s) && LockStep(shard, s, s', t)
    ensures Inv(shard, base, s')
  {
    ExclusiveUpdate(shard, s.tasks, t, s'.tasks[t]);
    LineStays(s.tasks, t, s'.tasks[t], s.line);
    LockedTaskOk(s.tasks[t]);
    TasksOkUpdate(s.tasks, t, s'.tasks[t]);
  }

  lemma UnlockKeeps(shard: Router, base: Store, s: System, s': System, t: nat)
    requires Inv(shard, base, s) && UnlockStep(s, s', t)
    ensures Inv(shard, base, s')
  {
    HeldShrinks(shard, s.tasks, t, s'.tasks[t]);
    LineStays(s.tasks, t, s'.tasks[t], s.line);
    TasksOkUpdate(s.tasks, t, s'.tasks[t]);
  }

  // ---- Sending ----

  lemma ApartWithout(a: seq<Command>, c: Command, b: seq<Command>)
    requires Apart(a + ([c] + b))
    ensures Apart(a + b)
    ensures forall e :: e in a && SingleKey(e) ==> KeysOf(c) !! KeysOf(e)
  {
    var all := a + ([c] + b);
    assert all[|a|] == c;
    forall i, j | 0 <= i < j < |a + b| && SingleKey((a + b)[i])
      ensures KeysOf((a + b)[i]) !! KeysOf((a + b)[j])
    {
      var i', j' := if i < |a| then i else i + 1, if j < |a| then j else j + 1;
      assert all[i'] == (a + b)[i] && all[j'] == (a + b)[j];
    }
    forall e | e in a && SingleKey(e)
      ensures KeysOf(c) !! KeysOf(e)
    {
      var i :| 0 <= i < |a| && a[i] == e;
      assert all[i] == e;
    }
  }

  lemma {:induction false} ReadyFront(x: Store, a: seq<Command>, b: seq<Command>)
    requires AllReady(x, a + b, 0)
    ensures AllReady(x, a, 0)
    decreases |a|
  {
    if a != [] {
      assert (a + b)[1..] == a[1..] + b && (a + b)[0] == a[0];
      ReadyFront(Replayed(x, RecordOf(a[0]), 0), a[1..], b);
    }
  }

  /** A record that may pass those in front goes first. */
  lemma GoesFirst(x: Store, a: seq<Command>, c: Command, b: seq<Command>, strings: bool)
    requires AllReady(x, a + ([c] + b), 0) && (strings ==> OnlyStringsExpire(x))
    requires forall e :: e in a ==> MayPass(strings, c, e)
    ensures AllReady(x, [c] + (a + b), 0)
    ensures ReplayAll(x, RecordsFor([c] + (a + b)), 0) == ReplayAll(x, RecordsFor(a + ([c] + b)), 0)
  {
    AppendAssociates(a, [c], b);
    AppendAssociates([c], a, b);
    ReadyFront(x, a + [c], b);
    AllReadyAppend(x, a + [c], b, 0);
    PassAll(x, c, a, strings, 0);
    AllReadyAppend(x, [c] + a, b, 0);
    RecordsAppend(a + [c], b);
    RecordsAppend([c] + a, b);
    ReplayAppend(x, RecordsFor(a + [c]), RecordsFor(b), 0);
    ReplayAppend(x, RecordsFor([c] + a), RecordsFor(b), 0);
  }

  /** The record of the first one is now in the log. */
  lemma FirstSent(base: Store, log: seq<Command>, c: Command, rest: seq<Command>, db: Store)
    requires Completes(base, log, [c] + rest, db)
    ensures Completes(base, log + [RecordOf(c)], rest, db)
  {
    var x := ReplayAll(base, log, 0).value;
    AllReadyFirst(x, c, rest, 0);
    ReplayAppend(base, log, [RecordOf(c)], 0);
    ReplayOne(x, RecordOf(c), 0);
  }

  lemma SentPast(base: Store, log: seq<Command>, a: seq<Command>, c: Command, b: seq<Command>, db: Store,
      strings: bool)
    requires Completes(base, log, a + ([c] + b), db) && (strings ==> OnlyStringsExpire(base))
    requires forall e :: e in a ==> MayPass(strings, c, e)
    ensures Completes(base, log + [RecordOf(c)], a + b, db)
  {
    if strings { ReplayAllKeepsStrings(base, log, 0); }
    GoesFirst(ReplayAll(base, log, 0).value, a, c, b, strings);
    FirstSent(base, log, c, a + b, db);
  }

  /** Those in front either hold a guard, or they move an element and may be passed. */
  lemma PassesThose(tasks: seq<Task>, line: seq<nat>, t: nat, strings: bool)
    requires SendsPast(tasks, line, t, strings)
    ensures forall e :: e in CommandsOf(tasks, Before(line, t)) ==> MayPass(strings, CommandAt(tasks, t), e)
  {
  }

  /** How the line looks with a task in its middle. */
  lemma LineAround(tasks: seq<Task>, line: seq<nat>, t: nat) returns (b: seq<nat>)
    requires t in line && Distinct(line)
    ensures Leave(line, t) == Before(line, t) + b && Distinct(Leave(line, t)) && t !in Leave(line, t)
    ensures line == Before(line, t) + ([t] + b)
    ensures CommandsOf(tasks, line) ==
            CommandsOf(tasks, Before(line, t)) + ([CommandAt(tasks, t)] + CommandsOf(tasks, b))
    ensures CommandsOf(tasks, Leave(line, t)) == CommandsOf(tasks, Before(line, t)) + CommandsOf(tasks, b)
    ensures forall u :: u in Leave(line, t) ==> u in line
  {
    b := LineParts(line, t);
    CommandsAppend(tasks, Before(line, t), [t] + b);
    CommandsAppend(tasks, [t], b);
    CommandsOfOne(tasks, t);
    CommandsAppend(tasks, Before(line, t), b);
  }

  lemma SendCompletes(base: Store, log: seq<Command>, tasks: seq<Task>, line: seq<nat>, t: nat, db: Store,
      strings: bool)
    requires t in line && Distinct(line) && SendsPast(tasks, line, t, strings) && (strings ==> OnlyStringsExpire(base))
    requires Apart(CommandsOf(tasks, line)) && Completes(base, log, CommandsOf(tasks, line), db)
    ensures Apart(CommandsOf(tasks, Leave(line, t)))
    ensures Completes(base, log + [RecordOf(CommandAt(tasks, t))], CommandsOf(tasks, Leave(line, t)), db)
  {
    var b := LineAround(tasks, line, t);
    PassesThose(tasks, line, t, strings);
    ApartWithout(CommandsOf(tasks, Before(line, t)), CommandAt(tasks, t), CommandsOf(tasks, b));
    SentPast(base, log, CommandsOf(tasks, Before(line, t)), CommandAt(tasks, t), CommandsOf(tasks, b), db, strings);
  }

  lemma LeaveLine(tasks: seq<Task>, line: seq<nat>, t: nat, task: Task)
    requires t < |tasks| && InLine(tasks, line) && tasks[t].phase.Owing? && !task.phase.Owing?
    ensures InLine(tasks[t := task], Leave(line, t))
    ensures CommandsOf(tasks[t := task], Leave(line, t)) == CommandsOf(tasks, Leave(line, t))
  {
    var b := LineAround(tasks, line, t);
    forall u: nat
      ensures u in Leave(line, t) <==> u in line && u != t
    {
      assert u in line <==> u in Before(line, t) || u == t || u in b;
    }
    CommandsFrame(tasks, tasks[t := task], Leave(line, t));
  }

  lemma {:induction false} BeforeIsInLine(line: seq<nat>, t: nat)
    ensures forall u :: u in Before(line, t) ==> u in line && u != t
  {
    if line != [] && line[0] != t {
      BeforeIsInLine(line[1..], t);
      assert forall u :: u in line[1..] ==> u in line;
    }
  }

  /** What an orderly step, or a state without moves, gives for the sending task. */
  lemma MaySendNow(base: Store, s: System, s': System, t: nat, strings: bool)
    requires TasksOk(s.tasks) && InLine(s.tasks, s.line) && Apart(CommandsOf(s.tasks, s.line))
    requires SendStep(s, s', t) && if strings then Orderly(s, s') else NoMoveOwed(s)
    ensures SendsPast(s.tasks, s.line, t, strings)
  {
    var b := LineAround(s.tasks, s.line, t);
    BeforeIsInLine(s.line, t);
    var front, c := CommandsOf(s.tasks, Before(s.line, t)), CommandAt(s.tasks, t);
    ApartWithout(front, c, CommandsOf(s.tasks, b));
    forall u | u in Before(s.line, t)
      ensures MayPass(strings, c, CommandAt(s.tasks, u))
    {
      assert TaskOk(s.tasks[u]);
      var i :| 0 <= i < |Before(s.line, t)| && Before(s.line, t)[i] == u;
      assert front[i] == CommandAt(s.tasks, u);
    }
  }

  lemma SendKeeps(shard: Router, base: Store, s: System, s': System, t: nat, strings: bool)
    requires Inv(shard, base, s) && SendStep(s, s', t) && (strings ==> OnlyStringsExpire(base))
    requires if strings then Orderly(s, s') else NoMoveOwed(s)
    ensures Inv(shard, base, s')
  {
    HeldShrinks(shard, s.tasks, t, s'.tasks[t]);
    TasksOkUpdate(s.tasks, t, s'.tasks[t]);
    MaySendNow(base, s, s', t, strings);
    SendCompletes(base, s.log, s.tasks, s.line, t, s.db, strings);
    LeaveLine(s.tasks, s.line, t, s'.tasks[t]);
    assert TaskOk(s.tasks[t]);
  }

  // ---- Changing the keyspace ----

  lemma WrittenAtEpoch(db: Store, c: Command, now: nat)
    requires InRange(c) && LiveCommand(db, c, now).log != []
    ensures LiveCommand(db, c, now).log == [RecordOf(c)] && Owable(c, 0) && Logged(RecordOf(c))
  {
    LiveRecords(db, c, now);
  }

  lemma NothingWritten(base: Store, log: seq<Command>, cs: seq<Command>, db: Store, c: Command, now: nat)
    requires Completes(base, log, cs, db) && TrimIsIdle(db, c) && LiveCommand(db, c, now).log == []
    ensures Completes(base, log, cs, LiveCommand(db, c, now).db)
  {
    var x := ReplayAll(base, log, 0).value;
    StepReplays(db, ReplayAll(x, RecordsFor(cs), 0).value, c, now, 0);
  }

  /** The record of a command goes to the end of the line. */
  lemma GoesLast(base: Store, log: seq<Command>, cs: seq<Command>, db: Store, c: Command, now: nat)
    requires Completes(base, log, cs, db) && TrimIsIdle(db, c) && Owable(c, 0)
    requires LiveCommand(db, c, now).log == [RecordOf(c)]
    ensures Completes(base, log, cs + [c], LiveCommand(db, c, now).db)
  {
    var x := ReplayAll(base, log, 0).value;
    var end := ReplayAll(x, RecordsFor(cs), 0).value;
    LoggedIsEffective(db, c, now);
    EffectiveSimilar(db, end, c);
    AllReadyAppend(x, cs, [c], 0);
    AllReadyFirst(end, c, [], 0);
    assert [c] + [] == [c];
    RecordsAppend(cs, [c]);
    assert RecordsFor([c]) == [RecordOf(c)];
    ReplayAppend(x, RecordsFor(cs), [RecordOf(c)], 0);
    assert RecordOf(c) in LiveCommand(db, c, now).log;
    StepReplays(db, end, c, now, 0);
  }

  /** A task behind a guard is on a key of its own. */
  lemma DifferentKeys(shard: Router, tasks: seq<Task>, t: nat, u: nat)
    requires t < |tasks| && u < |tasks| && t != u && Exclusive(shard, tasks) && TasksOk(tasks)
    requires tasks[t].phase.Locked? || (tasks[t].phase.Sent? && !tasks[t].phase.c.RPopLPush?)
    requires tasks[u].phase.Owing? && SingleKey(tasks[u].phase.c)
    ensures KeysOf(tasks[t].phase.c) !! KeysOf(tasks[u].phase.c)
  {
    assert Tolerates(shard, tasks[t], tasks[u]) && TaskOk(tasks[u]);
    forall k | k in KeysOf(tasks[t].phase.c)
      ensures k !in KeysOf(tasks[u].phase.c)
    {
      assert shard(k) in ShardsOf(shard, tasks[t].phase.c);
    }
  }

  lemma ApartLast(cs: seq<Command>, c: Command)
    requires Apart(cs) && forall e :: e in cs && SingleKey(e) ==> KeysOf(e) !! KeysOf(c)
    ensures Apart(cs + [c])
  {
    forall i, j | 0 <= i < j < |cs + [c]| && SingleKey((cs + [c])[i])
      ensures KeysOf((cs + [c])[i]) !! KeysOf((cs + [c])[j])
    {
      assert (cs + [c])[i] == cs[i] && cs[i] in cs;
    }
  }

  lemma JoinLine(shard: Router, tasks: seq<Task>, line: seq<nat>, t: nat, task: Task)
    requires t < |tasks| && Exclusive(shard, tasks) && TasksOk(tasks) && InLine(tasks, line)
    requires tasks[t].phase.Locked? && task.phase.Owing? && task.phase.c == tasks[t].phase.c
    requires Apart(CommandsOf(tasks, line))
    ensures InLine(tasks[t := task], line + [t])
    ensures CommandsOf(tasks[t := task], line + [t]) == CommandsOf(tasks, line) + [task.phase.c]
    ensures Apart(CommandsOf(tasks, line) + [task.phase.c])
  {
    var tasks' := tasks[t := task];
    assert t !in line;
    CommandsFrame(tasks, tasks', line);
    CommandsAppend(tasks', line, [t]);
    CommandsOfOne(tasks', t);
    forall e | e in CommandsOf(tasks, line) && SingleKey(e)
      ensures KeysOf(e) !! KeysOf(task.phase.c)
    {
      var i :| 0 <= i < |line| && CommandAt(tasks, line[i]) == e;
      assert line[i] in line;
      DifferentKeys(shard, tasks, t, line[i]);
    }
    ApartLast(CommandsOf(tasks, line), task.phase.c);
  }

  lemma MutateKeeps(shard: Router, base: Store, s: System, s': System, t: nat, now: nat)
    requires Inv(shard, base, s) && MutateStep(s, s', t, now) && TrimIsIdle(s.db, s.tasks[t].phase.c)
    ensures Inv(shard, base, s')
  {
    var c, cs := s.tasks[t].phase.c, CommandsOf(s.tasks, s.line);
    assert TaskOk(s.tasks[t]);
    HeldShrinks(shard, s.tasks, t, s'.tasks[t]);
    if LiveCommand(s.db, c, now).log == [] {
      LineStays(s.tasks, t, s'.tasks[t], s.line);
      NothingWritten(base, s.log, cs, s.db, c, now);
    } else {
      WrittenAtEpoch(s.db, c, now);
      JoinLine(shard, s.tasks, s.line, t, s'.tasks[t]);
      GoesLast(base, s.log, cs, s.db, c, now);
    }
    TasksOkUpdate(s.tasks, t, s'.tasks[t]);
  }

  // ---- Runs ----

  ghost predicate Starts(base: Store, s: System) {
    && s.log == [] && s.line == [] && Similar(s.db, base)
    && forall t :: 0 <= t < |s.tasks| ==> s.tasks[t].phase.Idle? && TaskOk(s.tasks[t])
  }

  lemma StartInv(shard: Router, base: Store, s: System)
    requires Starts(base, s)
    ensures Inv(shard, base, s)
  {
    assert CommandsOf(s.tasks, s.line) == [] && RecordsFor([]) == [];
  }

  lemma WhoSteps(shard: Router, s: System, s': System) returns (t: nat, now: nat)
    requires Step(shard, s, s')
    ensures StepBy(shard, s, s', t, now)
  {
    t, now :| StepBy(shard, s, s', t, now);
  }

  lemma StepInv(shard: Router, base: Store, s: System, s': System, strings: bool)
    requires Inv(shard, base, s) && Step(shard, s, s') && Idles(s, s') && (strings ==> OnlyStringsExpire(base))
    requires if strings then Orderly(s, s') else NoMoveOwed(s)
    ensures Inv(shard, base, s')
  {
    var t, now := WhoSteps(shard, s, s');
    if LockStep(shard, s, s', t) {
      LockKeeps(shard, base, s, s', t);
    } else if SendStep(s, s', t) {
      SendKeeps(shard, base, s, s', t, strings);
    } else if UnlockStep(s, s', t) {
      UnlockKeeps(shard, base, s, s', t);
    } else {
      MutateKeeps(shard, base, s, s', t, now);
    }
  }

  ghost predicate AllOrderly(run: seq<System>) { forall i :: 0 < i < |run| ==> Orderly(run[i - 1], run[i]) }

  ghost predicate AllIdle(run: seq<System>) { forall i :: 0 < i < |run| ==> Idles(run[i - 1], run[i]) }

  predicate NoMoves(run: seq<System>) { forall i :: 0 <= i < |run| ==> NoMoveOwed(run[i]) }

  lemma {:induction false} RunKeeps(shard: Router, base: Store, run: seq<System>, n: nat, strings: bool)
    requires IsRun(shard, run) && Starts(base, run[0]) && n < |run| && AllIdle(run)
    requires if strings then OnlyStringsExpire(base) && AllOrderly(run) else NoMoves(run)
    ensures Inv(shard, base, run[n])
  {
    if n == 0 {
      StartInv(shard, base, run[0]);
    } else {
      RunKeeps(shard, base, run, n - 1, strings);
      assert Step(shard, run[n - 1], run[n]) && Idles(run[n - 1], run[n]);
      assert strings ==> Orderly(run[n - 1], run[n]);
      StepInv(shard, base, run[n - 1], run[n], strings);
    }
  }

  // ---- The theorems ----

  lemma OwedFirst(log: seq<Command>, tasks: seq<Task>, line: seq<nat>, order: seq<nat>)
    requires order != [] && TasksOk(tasks) && order[0] in line
    requires forall u :: u in line ==> u < |tasks| && tasks[u].phase.Owing?
    ensures log + Owed(tasks, order) == (log + [RecordOf(CommandAt(tasks, order[0]))]) + Owed(tasks, order[1..])
  {
    assert TaskOk(tasks[order[0]]);
    assert order == [order[0]] + order[1..];
    assert Owed(tasks, order) == [RecordOf(CommandAt(tasks, order[0]))] + Owed(tasks, order[1..]);
  }

  /** The owed records, sent in an order that is allowed. */
  lemma {:induction false} SentInOrder(base: Store, log: seq<Command>, tasks: seq<Task>, line: seq<nat>,
      order: seq<nat>, db: Store, strings: bool)
    requires Distinct(line) && TasksOk(tasks) && MaySend(tasks, line, order, strings)
    requires forall u :: u in line ==> u < |tasks| && tasks[u].phase.Owing?
    requires Apart(CommandsOf(tasks, line)) && Completes(base, log, CommandsOf(tasks, line), db)
    requires strings ==> OnlyStringsExpire(base)
    ensures Agrees(base, log + Owed(tasks, order), db, 0)
    decreases |order|
  {
    if order == [] {
      assert CommandsOf(tasks, line) == [] && RecordsFor([]) == [];
      assert log + Owed(tasks, order) == log;
      ReplayAppend(base, log, [], 0);
      assert log + [] == log;
    } else {
      var t := order[0];
      var b := LineAround(tasks, line, t);
      SendCompletes(base, log, tasks, line, t, db, strings);
      OwedFirst(log, tasks, line, order);
      SentInOrder(base, log + [RecordOf(CommandAt(tasks, t))], tasks, Leave(line, t), order[1..], db, strings);
    }
  }

  lemma OrderRest(line: seq<nat>, order: seq<nat>, front: seq<nat>, b: seq<nat>)
    requires order != [] && multiset(order) == multiset(line) && line == front + ([order[0]] + b)
    ensures multiset(order[1..]) == multiset(front + b)
  {
    var t := order[0];
    assert order == [t] + order[1..];
    assert multiset(front + b) + multiset{t} == multiset(line);
    assert multiset(order[1..]) + multiset{t} == multiset(line);
    assert (multiset(front + b) + multiset{t}) - multiset{t} == multiset(front + b);
    assert (multiset(order[1..]) + multiset{t}) - multiset{t} == multiset(order[1..]);
  }

  lemma ApartMaySend(tasks: seq<Task>, line: seq<nat>, t: nat)
    requires t in line && Distinct(line) && Apart(CommandsOf(tasks, line))
    requires forall u :: u in line ==> SingleKey(CommandAt(tasks, u))
    ensures SendsPast(tasks, line, t, false) && Apart(CommandsOf(tasks, Leave(line, t)))
  {
    var b := LineAround(tasks, line, t);
    var front := Before(line, t);
    BeforeIsInLine(line, t);
    ApartWithout(CommandsOf(tasks, front), CommandAt(tasks, t), CommandsOf(tasks, b));
    forall u | u in front
      ensures MayPass(false, CommandAt(tasks, t), CommandAt(tasks, u))
    {
      var i :| 0 <= i < |front| && front[i] == u;
      assert CommandsOf(tasks, front)[i] == CommandAt(tasks, u);
    }
  }

  /** Single-key commands may send in any order: all of them hold their guards. */
  lemma {:induction false} AnyOrder(tasks: seq<Task>, line: seq<nat>, order: seq<nat>)
    requires Distinct(line) && Apart(CommandsOf(tasks, line)) && multiset(order) == multiset(line)
    requires forall u :: u in line ==> SingleKey(CommandAt(tasks, u))
    ensures MaySend(tasks, line, order, false)
    decreases |order|
  {
    if order == [] {
      assert |multiset(line)| == 0;
    } else {
      var t := order[0];
      assert t in multiset(order) && t in line;
      ApartMaySend(tasks, line, t);
      var b := LineAround(tasks, line, t);
      OrderRest(line, order, Before(line, t), b);
      AnyOrder(tasks, Leave(line, t), order[1..]);
    }
  }

  /**
    In every interleaving of single-key tasks, log plus owed records, whoever sends first, replays to the live state,
    exactly when none of these records makes replay panic.
   */
  lemma InterleavingAgrees(shard: Router, base: Store, run: seq<System>, later: nat, n: nat, order: seq<nat>)
    requires IsRun(shard, run) && Starts(base, run[0]) && n < |run| && NoMoves(run) && AllIdle(run)
    requires multiset(order) == multiset(run[n].line)
    ensures var records := run[n].log + Owed(run[n].tasks, order);
            Agrees(base, records, run[n].db, later) <==> RecordsReplayable(records, later)
  {
    var s := run[n];
    RunKeeps(shard, base, run, n, false);
    assert NoMoveOwed(s);
    AnyOrder(s.tasks, s.line, order);
    SentInOrder(base, s.log, s.tasks, s.line, order, s.db, false);
    ReplaysAnyTime(base, s.log + Owed(s.tasks, order), s.db, later);
  }

  /**
    With RPOPLPUSH the same holds as long as records are sent past that of an earlier move only when they may overtake
    it, up to now and by those who still have to send.
   */
  lemma OrderlyInterleavingAgrees(shard: Router, base: Store, run: seq<System>, later: nat, n: nat, order: seq<nat>)
    requires IsRun(shard, run) && Starts(base, run[0]) && n < |run| && AllOrderly(run) && AllIdle(run)
    requires OnlyStringsExpire(base) && MaySend(run[n].tasks, run[n].line, order, true)
    ensures var records := run[n].log + Owed(run[n].tasks, order);
            Agrees(base, records, run[n].db, later) <==> RecordsReplayable(records, later)
  {
    var s := run[n];
    RunKeeps(shard, base, run, n, true);
    SentInOrder(base, s.log, s.tasks, s.line, order, s.db, true);
    ReplaysAnyTime(base, s.log + Owed(s.tasks, order), s.db, later);
  }

  /** Live: the move, then the push. */
  lemma MovedThenPushed(db: Store, s: Bytes, d: Bytes, y: Bytes, now: nat)
    requires MoveTail(db, s, d).Some?
    ensures var items, v := db[s].value.items, MoveTail(db, s, d).value.0;
            var front := items[..|items| - 1];
            var pushed := LiveCommand(LiveCommand(db, RPopLPush(s, d), now).db, RPush(s, y), now);
            && pushed.log == [RPush(s, y)] && s in pushed.db
            && pushed.db[s].value == List((if s == d then [v] + front else front) + [y])
  {
    var items, v := db[s].value.items, MoveTail(db, s, d).value.0;
    var front := items[..|items| - 1];
    var moved := LiveCommand(db, RPopLPush(s, d), now).db;
    assert s in moved && moved[s].value == List(if s == d then [v] + front else front);
  }

  /** Replay: the push, then the move. */
  lemma PushedThenMoved(db: Store, s: Bytes, d: Bytes, y: Bytes, later: nat)
    requires MoveTail(db, s, d).Some?
    ensures match ReplayAll(db, [RPush(s, y), RPopLPush(s, d)], later)
            case Some(r) =>
              s in r && r[s].value == List(if s == d then [y] + db[s].value.items else db[s].value.items)
            case None => false
  {
    var items := db[s].value.items;
    var first := Replayed(db, RPush(s, y), later);
    assert s in first && first[s].value == List(items + [y]);
    assert (items + [y])[..|items|] == items;
    TwoReplay(db, RPush(s, y), RPopLPush(s, d), later);
  }

  /**
    The orderly condition is needed in every state: after any RPOPLPUSH that moved an element, one RPUSH of another
    value to its source, finished before the owed record is sent, makes the log disagree with the keyspace.
   */
  lemma OvertakenMoveDisagrees(db: Store, s: Bytes, d: Bytes, y: Bytes, now: nat, later: nat)
    requires MoveTail(db, s, d).Some? && y != MoveTail(db, s, d).value.0
    ensures var moved := LiveCommand(db, RPopLPush(s, d), now).db;
            var pushed := LiveCommand(moved, RPush(s, y), now);
            && pushed.log == [RPush(s, y)]
            && !Agrees(db, [RPush(s, y), RPopLPush(s, d)], pushed.db, later)
  {
    var items, v := db[s].value.items, MoveTail(db, s, d).value.0;
    var front := items[..|items| - 1];
    MovedThenPushed(db, s, d, y, now);
    PushedThenMoved(db, s, d, y, later);
    var pushed := LiveCommand(LiveCommand(db, RPopLPush(s, d), now).db, RPush(s, y), now).db;
    var replayed := ReplayAll(db, [RPush(s, y), RPopLPush(s, d)], later).value;
    if s == d {
      assert ([v] + front + [y])[0] == v && ([y] + items)[0] == y;
    } else {
      assert (front + [y])[|items| - 1] == y && items[|items| - 1] == v;
    }
    assert !SimilarCell(Look(pushed, s), Look(replayed, s));
  }

  /** A task moves an element and unlocks; another task does its command and finishes; then the move is logged. */
  function OvertakingRun(db: Store, s: Bytes, d: Bytes, p: Command, now: nat): seq<System> {
    var c := RPopLPush(s, d);
    var moved := LiveCommand(db, c, 0).db;
    var after, rec := LiveCommand(moved, p, now).db, RecordOf(p);
    var waiting, done := Task([p], Idle), Task([], Idle);
    [ System(db, [], [Task([c], Idle), waiting], []),
      System(db, [], [Task([], Locked(c)), waiting], []),
      System(moved, [], [Task([], Owing(c, c)), waiting], [0]),
      System(moved, [], [Task([], Owing(c, c)), Task([], Locked(p))], [0]),
      System(after, [], [Task([], Owing(c, c)), Task([], Owing(p, rec))], [0, 1]),
      System(after, [rec], [Task([], Owing(c, c)), Task([], Sent(p))], [0]),
      System(after, [rec], [Task([], Owing(c, c)), done], [0]),
      System(after, [rec, c], [Task([], Sent(c)), done], []),
      System(after, [rec, c], [done, done], []) ]
  }

  lemma OvertakingLocks(shard: Router, db: Store, s: Bytes, d: Bytes, p: Command, now: nat)
    ensures var run := OvertakingRun(db, s, d, p, now);
            LockStep(shard, run[0], run[1], 0) && LockStep(shard, run[2], run[3], 1)
  {
    var run := OvertakingRun(db, s, d, p, now);
    assert run[0].tasks[0].todo[1..] == [] && run[2].tasks[1].todo[1..] == [];
  }

  lemma OvertakingMutates(db: Store, s: Bytes, d: Bytes, p: Command, now: nat)
    requires MoveTail(db, s, d).Some? && LiveCommand(Moved(db, s, d), p, now).log == [RecordOf(p)]
    ensures var run := OvertakingRun(db, s, d, p, now);
            MutateStep(run[1], run[2], 0, 0) && MutateStep(run[3], run[4], 1, now)
  {
  }

  lemma OvertakingSends(db: Store, s: Bytes, d: Bytes, p: Command, now: nat)
    ensures var run := OvertakingRun(db, s, d, p, now);
            SendStep(run[4], run[5], 1) && UnlockStep(run[5], run[6], 1)
  {
    assert [] + [RecordOf(p)] == [RecordOf(p)];
    assert [0, 1][1..] == [1] && Leave([1], 1) == [];
    assert Leave([0, 1], 1) == [0];
  }

  lemma OvertakenSends(db: Store, s: Bytes, d: Bytes, p: Command, now: nat)
    ensures var run := OvertakingRun(db, s, d, p, now);
            SendStep(run[6], run[7], 0) && UnlockStep(run[7], run[8], 0)
  {
    assert [RecordOf(p)] + [RPopLPush(s, d)] == [RecordOf(p), RPopLPush(s, d)];
    assert Leave([0], 0) == [];
  }

  lemma OvertakingSteps(shard: Router, db: Store, s: Bytes, d: Bytes, p: Command, now: nat)
    requires MoveTail(db, s, d).Some? && LiveCommand(Moved(db, s, d), p, now).log == [RecordOf(p)]
    ensures var run := OvertakingRun(db, s, d, p, now);
            && Step(shard, run[0], run[1]) && Step(shard, run[1], run[2]) && Step(shard, run[2], run[3])
            && Step(shard, run[3], run[4]) && Step(shard, run[4], run[5]) && Step(shard, run[5], run[6])
            && Step(shard, run[6], run[7]) && Step(shard, run[7], run[8])
  {
    var run := OvertakingRun(db, s, d, p, now);
    OvertakingLocks(shard, db, s, d, p, now);
    OvertakingMutates(db, s, d, p, now);
    OvertakingSends(db, s, d, p, now);
    OvertakenSends(db, s, d, p, now);
    assert StepBy(shard, run[0], run[1], 0, 0);
    assert StepBy(shard, run[1], run[2], 0, 0);
    assert StepBy(shard, run[2], run[3], 1, 0);
    assert StepBy(shard, run[3], run[4], 1, now);
    assert StepBy(shard, run[4], run[5], 1, 0);
    assert StepBy(shard, run[5], run[6], 1, 0);
    assert StepBy(shard, run[6], run[7], 0, 0);
    assert StepBy(shard, run[7], run[8], 0, 0);
  }

  lemma NineStates(shard: Router, run: seq<System>)
    requires |run| == 9
    requires Step(shard, run[0], run[1]) && Step(shard, run[1], run[2]) && Step(shard, run[2], run[3])
    requires Step(shard, run[3], run[4]) && Step(shard, run[4], run[5]) && Step(shard, run[5], run[6])
    requires Step(shard, run[6], run[7]) && Step(shard, run[7], run[8])
    ensures IsRun(shard, run)
  {
  }

  lemma NoTrimIsIdle(s: System, s': System)
    requires |s.tasks| == 2 && (s.tasks[0].phase.Locked? ==> !s.tasks[0].phase.c.LTrim?)
    requires s.tasks[1].phase.Locked? ==> !s.tasks[1].phase.c.LTrim?
    ensures Idles(s, s')
  {
  }

  /** A run that has come to its end, everything sent. */
  predicate Finished(s: System) { forall t :: 0 <= t < |s.tasks| ==> s.tasks[t] == Task([], Idle) }

  lemma OvertakingEnds(db: Store, s: Bytes, d: Bytes, p: Command, now: nat)
    requires MoveTail(db, s, d).Some? && LiveCommand(Moved(db, s, d), p, now).log == [RecordOf(p)]
    requires InRange(p) && Modelled(p)
    ensures var run := OvertakingRun(db, s, d, p, now);
            && |run| == 9 && Starts(db, run[0]) && Finished(run[8]) && run[8].log == [RecordOf(p), RPopLPush(s, d)]
            && run[8].log == LiveCommand(Moved(db, s, d), p, now).log + [RPopLPush(s, d)]
            && run[8].db == LiveCommand(Moved(db, s, d), p, now).db
  {
  }

  /** Without an LTRIM nothing is ever trimmed. */
  lemma OvertakingIdles(db: Store, s: Bytes, d: Bytes, p: Command, now: nat)
    requires !p.LTrim?
    ensures AllIdle(OvertakingRun(db, s, d, p, now))
  {
    var run := OvertakingRun(db, s, d, p, now);
    forall i | 0 < i < |run|
      ensures Idles(run[i - 1], run[i])
    {
      NoTrimIsIdle(run[i - 1], run[i]);
    }
  }

  lemma OvertakingIsRun(shard: Router, db: Store, s: Bytes, d: Bytes, p: Command, now: nat)
    requires MoveTail(db, s, d).Some? && LiveCommand(Moved(db, s, d), p, now).log == [RecordOf(p)]
    ensures IsRun(shard, OvertakingRun(db, s, d, p, now))
  {
    OvertakingSteps(shard, db, s, d, p, now);
    NineStates(shard, OvertakingRun(db, s, d, p, now));
  }

  /**
    Whatever the routing and the keyspace, as long as there is an element to move: a finished run of two tasks, all
    records sent, whose log does not replay to the live state.
   */
  lemma MoveRunsCanDisagree(shard: Router, db: Store, s: Bytes, d: Bytes, y: Bytes, later: nat)
      returns (run: seq<System>)
    requires MoveTail(db, s, d).Some? && y != MoveTail(db, s, d).value.0
    ensures IsRun(shard, run) && Starts(db, run[0])
    ensures var end := run[|run| - 1]; Finished(end) && !Agrees(db, end.log, end.db, later)
  {
    run := OvertakingRun(db, s, d, RPush(s, y), 0);
    MovedThenPushed(db, s, d, y, 0);
    OvertakingIsRun(shard, db, s, d, RPush(s, y), 0);
    OvertakingEnds(db, s, d, RPush(s, y), 0);
    OvertakenMoveDisagrees(db, s, d, y, 0, later);
  }

  /**
    And the orderly condition forbids no command that it could allow: for every other one, and whatever the routing,
    there is a keyspace and a finished run in which overtaking the record of the move spoils the log.
   */
  lemma EveryOtherCommandCanDisagree(shard: Router, p: Command, s: Bytes, d: Bytes)
      returns (base: Store, run: seq<System>)
    requires InRange(p) && Modelled(p) && !Passes(p, s, d)
    ensures OnlyStringsExpire(base) && IsRun(shard, run) && Starts(base, run[0]) && AllIdle(run)
    ensures var end := run[|run| - 1]; Finished(end) && end.log == [RecordOf(p), RPopLPush(s, d)]
    ensures !Agrees(base, run[|run| - 1].log, run[|run| - 1].db, 0)
  {
    OtherwiseClashes(p, s, d);
    base :| ClashesIn(base, p, s, d);
    run := OvertakingRun(base, s, d, p, 1);
    OvertakingIsRun(shard, base, s, d, p, 1);
    OvertakingIdles(base, s, d, p, 1);
    OvertakingEnds(base, s, d, p, 1);
  }

  // ---- Guards ----

  lemma StepExclusive(shard: Router, s: System, s': System)
    requires Exclusive(shard, s.tasks) && Step(shard, s, s')
    ensures Exclusive(shard, s'.tasks)
  {
    var t, now := WhoSteps(shard, s, s');
    if LockStep(shard, s, s', t) {
      ExclusiveUpdate(shard, s.tasks, t, s'.tasks[t]);
    } else {
      HeldShrinks(shard, s.tasks, t, s'.tasks[t]);
    }
  }

  lemma StartExclusive(shard: Router, base: Store, s: System)
    requires Starts(base, s)
    ensures Exclusive(shard, s.tasks)
  {
  }

  lemma {:induction false} RunExclusive(shard: Router, run: seq<System>, n: nat)
    requires IsRun(shard, run) && Exclusive(shard, run[0].tasks) && n < |run|
    ensures Exclusive(shard, run[n].tasks)
  {
    if n > 0 {
      RunExclusive(shard, run, n - 1);
      StepExclusive(shard, run[n - 1], run[n]);
    }
  }

  /** In every run, two tasks hold guards of one shard only if both are reading a range. */
  lemma GuardsExclude(shard: Router, base: Store, run: seq<System>, n: nat, t: nat, u: nat, i: nat)
    requires IsRun(shard, run) && Starts(base, run[0]) && n < |run|
    requires t < |run[n].tasks| && u < |run[n].tasks| && t != u
    requires i in Held(shard, run[n].tasks[t]) && i in Held(shard, run[n].tasks[u])
    ensures run[n].tasks[t].phase.c.LRange? && run[n].tasks[u].phase.c.LRange?
  {
    StartExclusive(shard, base, run[0]);
    RunExclusive(shard, run, n);
    assert Tolerates(shard, run[n].tasks[t], run[n].tasks[u]);
  }

  /** Two tasks that lock one after the other. */
  function BothLock(db: Store, c: Command, d: Command): seq<System> {
    [ System(db, [], [Task([c], Idle), Task([d], Idle)], []),
      System(db, [], [Task([], Locked(c)), Task([d], Idle)], []),
      System(db, [], [Task([], Locked(c)), Task([], Locked(d))], []) ]
  }

  /** Ranges are read side by side, and so are shards that have nothing to do with each other. */
  lemma GuardsShare(shard: Router, db: Store, c: Command, d: Command)
    requires (c.LRange? && d.LRange?) || ShardsOf(shard, c) !! ShardsOf(shard, d)
    ensures IsRun(shard, BothLock(db, c, d))
    ensures BothLock(db, c, d)[2].tasks == [Task([], Locked(c)), Task([], Locked(d))]
  {
    var run := BothLock(db, c, d);
    assert run[0].tasks[0].todo[1..] == [] && run[1].tasks[1].todo[1..] == [];
    assert LockStep(shard, run[0], run[1], 0);
    assert LockStep(shard, run[1], run[2], 1);
    assert StepBy(shard, run[0], run[1], 0, 0) && StepBy(shard, run[1], run[2], 1, 0);
  }

  // ---- Crashes in a concurrent run ----

  lemma {:induction false} OthersLeaveKey(x: Store, cs: seq<Command>, k: Bytes)
    requires RecordsReplayable(cs, 0) && forall e :: e in cs ==> k !in KeysOf(e)
    ensures ReplayAll(x, cs, 0).Some? && Look(ReplayAll(x, cs, 0).value, k) == Look(x, k)
    decreases |cs|
  {
    if cs != [] {
      assert cs[0] in cs && forall e :: e in cs[1..] ==> e in cs;
      ReplayFrame(x, x, cs[0], 0);
      OthersLeaveKey(Replayed(x, cs[0], 0), cs[1..], k);
    }
  }

  /** Behind a guard: while a task holds the shard of a key, no other task owes a record on it. */
  lemma KeyNotOwed(shard: Router, tasks: seq<Task>, line: seq<nat>, t: nat, k: Bytes)
    requires Exclusive(shard, tasks) && TasksOk(tasks) && InLine(tasks, line) && t < |tasks| && tasks[t].phase.Sent?
    requires SingleKey(tasks[t].phase.c) && k in KeysOf(tasks[t].phase.c)
    requires forall u :: 0 <= u < |tasks| && tasks[u].phase.Owing? ==> SingleKey(tasks[u].phase.c)
    ensures forall c :: c in CommandsOf(tasks, line) ==> k !in KeysOf(c)
  {
    forall c | c in CommandsOf(tasks, line)
      ensures k !in KeysOf(c)
    {
      var i :| 0 <= i < |line| && CommandAt(tasks, line[i]) == c;
      assert line[i] in line;
      DifferentKeys(shard, tasks, t, line[i]);
    }
  }

  lemma {:induction false} ReadyAreReplayable(x: Store, cs: seq<Command>, k: Bytes)
    requires AllReady(x, cs, 0) && forall c :: c in cs ==> k !in KeysOf(c)
    ensures RecordsReplayable(RecordsFor(cs), 0) && forall e :: e in RecordsFor(cs) ==> k !in KeysOf(e)
    decreases |cs|
  {
    if cs != [] {
      var c, rest := cs[0], cs[1..];
      assert cs == [c] + rest && c in cs && forall d :: d in rest ==> d in cs;
      RecordsFirst(c, rest);
      RecordKeys(c);
      ReadyAreReplayable(Replayed(x, RecordOf(c), 0), rest, k);
    }
  }

  /** A key on which no record is owed is in the log what it is live. */
  lemma SettledKey(shard: Router, base: Store, s: System, k: Bytes)
    requires Inv(shard, base, s) && forall c :: c in CommandsOf(s.tasks, s.line) ==> k !in KeysOf(c)
    ensures ReplayAll(base, s.log, 0).Some?
    ensures SimilarCell(Look(s.db, k), Look(ReplayAll(base, s.log, 0).value, k))
  {
    var cs := CommandsOf(s.tasks, s.line);
    var x := ReplayAll(base, s.log, 0).value;
    ReadyAreReplayable(x, cs, k);
    OthersLeaveKey(x, RecordsFor(cs), k);
    assert SimilarCell(Look(s.db, k), Look(ReplayAll(x, RecordsFor(cs), 0).value, k));
  }

  lemma OtherKeySent(base: Store, log: seq<Command>, rec: Command, k: Bytes)
    requires ReplayAll(base, log, 0).Some? && Replayable(rec, 0) && k !in KeysOf(rec)
    ensures ReplayAll(base, log + [rec], 0).Some?
    ensures Look(ReplayAll(base, log + [rec], 0).value, k) == Look(ReplayAll(base, log, 0).value, k)
  {
    var x := ReplayAll(base, log, 0).value;
    ReplayAppend(base, log, [rec], 0);
    ReplayOne(x, rec, 0);
    ReplayFrame(x, x, rec, 0);
  }

  /** A record that is sent brings its key up to date in the log, and leaves the others. */
  lemma SentSettles(shard: Router, base: Store, s: System, s': System, t: nat, k: Bytes)
    requires Inv(shard, base, s) && Inv(shard, base, s') && NoMoveOwed(s) && NoMoveOwed(s') && SendStep(s, s', t)
    ensures ReplayAll(base, s.log, 0).Some? && ReplayAll(base, s'.log, 0).Some?
    ensures var before, after := ReplayAll(base, s.log, 0).value, ReplayAll(base, s'.log, 0).value;
            Look(after, k) == Look(before, k) || SimilarCell(Look(s'.db, k), Look(after, k))
  {
    assert TaskOk(s.tasks[t]);
    RecordKeys(s.tasks[t].phase.c);
    if k in KeysOf(s.tasks[t].phase.rec) {
      KeyNotOwed(shard, s'.tasks, s'.line, t, k);
      SettledKey(shard, base, s', k);
    } else {
      OtherKeySent(base, s.log, s.tasks[t].phase.rec, k);
    }
  }

  /** At every moment the log gives each key a cell the key had at that moment or before. */
  lemma {:induction false} LogLagsPerKey(shard: Router, base: Store, run: seq<System>, n: nat, k: Bytes)
      returns (j: nat)
    requires IsRun(shard, run) && Starts(base, run[0]) && n < |run| && NoMoves(run) && AllIdle(run)
    ensures j <= n && ReplayAll(base, run[n].log, 0).Some?
    ensures SimilarCell(Look(run[j].db, k), Look(ReplayAll(base, run[n].log, 0).value, k))
  {
    j := 0;
    if n == 0 {
      assert SimilarCell(Look(run[0].db, k), Look(base, k));
    } else {
      j := LogLagsPerKey(shard, base, run, n - 1, k);
      var s, s' := run[n - 1], run[n];
      assert Step(shard, s, s');
      if s'.log != s.log {
        RunKeeps(shard, base, run, n - 1, false);
        RunKeeps(shard, base, run, n, false);
        assert NoMoveOwed(s) && NoMoveOwed(s');
        var t, now := WhoSteps(shard, s, s');
        SentSettles(shard, base, s, s', t, k);
        if SimilarCell(Look(s'.db, k), Look(ReplayAll(base, s'.log, 0).value, k)) { j := n; }
      }
    }
  }

  /** Every prefix of the log was the whole log at some moment. */
  lemma {:induction false} LogPrefixWasLog(shard: Router, run: seq<System>, n: nat, m: nat) returns (i: nat)
    requires IsRun(shard, run) && run[0].log == [] && n < |run| && m <= |run[n].log|
    ensures i <= n && run[i].log == run[n].log[..m]
  {
    i := n;
    if m == |run[n].log| {
      assert run[n].log[..m] == run[n].log;
    } else {
      assert Step(shard, run[n - 1], run[n]);
      var t, now := WhoSteps(shard, run[n - 1], run[n]);
      assert run[n].log == run[n - 1].log || run[n].log == run[n - 1].log + [run[n].log[|run[n - 1].log|]];
      i := LogPrefixWasLog(shard, run, n - 1, m);
    }
  }

  /**
    A crash in a concurrent run of single-key tasks, with any prefix of the log in the file: whatever the clock shows
    during replay, each key comes back with a cell it had at some moment of the run, unless replay panics.
   */
  lemma ConcurrentCrashRecovers(shard: Router, base: Store, run: seq<System>, n: nat, m: nat, k: Bytes,
      clock: nat -> nat) returns (j: nat)
    requires IsRun(shard, run) && Starts(base, run[0]) && NoMoves(run) && AllIdle(run)
    requires n < |run| && m <= |run[n].log|
    ensures j <= n
    ensures match ReplayClocked(base, run[n].log[..m], clock, 0)
            case Some(next) => SimilarCell(Look(run[j].db, k), Look(next, k))
            case None => !ClockReplayable(run[n].log[..m], clock, 0)
  {
    var i := LogPrefixWasLog(shard, run, n, m);
    j := LogLagsPerKey(shard, base, run, i, k);
    var log := run[i].log;
    ClockedPanics(base, log, clock, 0);
    if ReplayClocked(base, log, clock, 0).Some? {
      ClockedReplays(base, base, log, clock, 0);
      var next := ReplayClocked(base, log, clock, 0).value;
      assert SimilarCell(Look(next, k), Look(ReplayAll(base, log, 0).value, k));
    }
  }
}
