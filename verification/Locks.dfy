/**
  Shard locks and the bounded log channel as a protocol: which schedules can get stuck.
  Each lock is a fair read-write lock: waiting tasks are served in order of arrival.
 */
module Locks {
  datatype Mode = Read | Write

  /** What a client task does with locks and with the channel; Release drops every guard it holds. */
  datatype Action = Acquire(shard: nat, mode: Mode) | Send | Release

  datatype Task = Task(rest: seq<Action>, held: map<nat, Mode>, queued: bool)

  /** `queue` is the arrival order of the waiting tasks, `channel` the number of records in the channel. */
  datatype State = State(tasks: seq<Task>, queue: seq<nat>, channel: nat)

  const CHANNEL_CAPACITY: nat := 100_000

  // ---- Requests, as engine.rs turns them into lock operations ----

  datatype Request =
    | OneKey(shard: nat, mode: Mode, logs: bool)
    | TwoKeyWrite(a: nat, b: nat, logs: bool)   // RPOPLPUSH
    | TwoKeyRead(a: nat, b: nat)                // MGET, SINTER

  function WriteMultiShards(a: nat, b: nat): seq<Action> {
    if a == b then [Acquire(a, Write)]
    else if a < b then [Acquire(a, Write), Acquire(b, Write)]
    else [Acquire(b, Write), Acquire(a, Write)]
  }

  /** Both branches lock the first key's shard first, the descending one too. */
  function ReadMultiShards(a: nat, b: nat): seq<Action> {
    if a == b then [Acquire(a, Read)]
    else if a < b then [Acquire(a, Read), Acquire(b, Read)]
    else [Acquire(a, Read), Acquire(b, Read)]
  }

  /** A single-key record is sent under the guard, the record of RPOPLPUSH after the guards are dropped. */
  function Program(r: Request): seq<Action> {
    match r
    case OneKey(i, mode, logs) => [Acquire(i, mode)] + (if logs then [Send] else []) + [Release]
    case TwoKeyWrite(a, b, logs) => WriteMultiShards(a, b) + [Release] + (if logs then [Send] else [])
    case TwoKeyRead(a, b) => ReadMultiShards(a, b) + [Release]
  }

  function Programs(rs: seq<Request>): seq<Action> {
    if rs == [] then [] else Program(rs[0]) + Programs(rs[1..])
  }

  /** Any number of clients, each with any list of requests. */
  function Init(clients: seq<seq<Request>>): State {
    State(seq(|clients|, i requires 0 <= i < |clients| => Task(Programs(clients[i]), map[], false)), [], 0)
  }

  // ---- Steps ----

  predicate Wants(s: State, t: nat) {
    t < |s.tasks| && s.tasks[t].rest != [] && s.tasks[t].rest[0].Acquire?
  }

  predicate RequestStep(s: State, s': State, t: nat) {
    && Wants(s, t) && !s.tasks[t].queued
    && s' == s.(tasks := s.tasks[t := s.tasks[t].(queued := true)], queue := s.queue + [t])
  }

  predicate Compatible(held: map<nat, Mode>, shard: nat, mode: Mode) {
    shard !in held || (held[shard].Read? && mode.Read?)
  }

  /** The waiting task at position `q` is first at its lock, and the holders let it in. */
  predicate Grantable(s: State, q: nat) {
    && q < |s.queue| && Wants(s, s.queue[q]) && s.tasks[s.queue[q]].queued
    && var a := s.tasks[s.queue[q]].rest[0];
    && (forall p :: 0 <= p < q && Wants(s, s.queue[p]) ==> s.tasks[s.queue[p]].rest[0].shard != a.shard)
    && (forall u :: 0 <= u < |s.tasks| ==> Compatible(s.tasks[u].held, a.shard, a.mode))
  }

  predicate GrantStep(s: State, s': State, q: nat) {
    && Grantable(s, q)
    && var t := s.queue[q];
    && var a := s.tasks[t].rest[0];
    && s' == s.(tasks := s.tasks[t := Task(s.tasks[t].rest[1..], s.tasks[t].held[a.shard := a.mode], false)],
                queue := s.queue[..q] + s.queue[q + 1..])
  }

  predicate SendStep(s: State, s': State, t: nat) {
    && t < |s.tasks| && s.tasks[t].rest != [] && s.tasks[t].rest[0].Send? && s.channel < CHANNEL_CAPACITY
    && s' == s.(tasks := s.tasks[t := s.tasks[t].(rest := s.tasks[t].rest[1..])], channel := s.channel + 1)
  }

  predicate ReleaseStep(s: State, s': State, t: nat) {
    && t < |s.tasks| && s.tasks[t].rest != [] && s.tasks[t].rest[0].Release?
    && s' == s.(tasks := s.tasks[t := s.tasks[t].(rest := s.tasks[t].rest[1..], held := map[])])
  }

  /** The log writer takes a record out of the channel. */
  predicate ReceiveStep(s: State, s': State) {
    s.channel > 0 && s' == s.(channel := s.channel - 1)
  }

  ghost predicate Step(s: State, s': State) {
    || ReceiveStep(s, s')
    || exists t: nat :: RequestStep(s, s', t) || GrantStep(s, s', t) || SendStep(s, s', t) || ReleaseStep(s, s', t)
  }

  ghost predicate IsRun(run: seq<State>) {
    run != [] && forall i :: 0 < i < |run| ==> Step(run[i - 1], run[i])
  }

  ghost predicate Reaches(s0: State, s: State) {
    exists run :: IsRun(run) && run[0] == s0 && run[|run| - 1] == s
  }

  predicate Finished(s: State) {
    s.channel == 0 && forall t :: 0 <= t < |s.tasks| ==> s.tasks[t].rest == []
  }

  ghost predicate Halted(s: State) { forall s' :: !Step(s, s') }

  ghost predicate Stuck(s: State) { !Finished(s) && Halted(s) }

  // ---- Ascending programs ----

  /** Locks are taken in ascending order, and all are dropped at the end. */
  predicate Ordered(rest: seq<Action>, held: set<nat>) {
    if rest == [] then held == {}
    else
      match rest[0]
      case Acquire(i, _) => (forall h :: h in held ==> h < i) && Ordered(rest[1..], held + {i})
      case Send => Ordered(rest[1..], held)
      case Release => Ordered(rest[1..], {})
  }

  predicate Descending(r: Request) { r.TwoKeyRead? && r.a > r.b }

  lemma OrderedFirst(a: Action, rest: seq<Action>, held: set<nat>)
    ensures Ordered([a] + rest, held) <==>
            if a.Acquire? then (forall h :: h in held ==> h < a.shard) && Ordered(rest, held + {a.shard})
            else Ordered(rest, if a.Send? then held else {})
  {
    assert ([a] + rest)[1..] == rest;
  }

  lemma LogsOrdered(logs: bool, more: seq<Action>, held: set<nat>)
    ensures Ordered((if logs then [Send] else []) + more, held) == Ordered(more, held)
  {
    if logs { OrderedFirst(Send, more, held); } else { assert [] + more == more; }
  }

  lemma OneLockOrdered(a: Action, more: seq<Action>)
    requires a.Acquire? && Ordered(more, {})
    ensures Ordered([a] + ([Release] + more), {})
  {
    OrderedFirst(Release, more, {a.shard});
    OrderedFirst(a, [Release] + more, {});
    assert {} + {a.shard} == {a.shard};
  }

  lemma TwoLocksOrdered(a: Action, b: Action, more: seq<Action>)
    requires a.Acquire? && b.Acquire? && a.shard < b.shard && Ordered(more, {})
    ensures Ordered([a] + ([b] + ([Release] + more)), {})
  {
    OrderedFirst(Release, more, {a.shard} + {b.shard});
    OrderedFirst(b, [Release] + more, {a.shard});
    OrderedFirst(a, [b] + ([Release] + more), {});
    assert {} + {a.shard} == {a.shard};
  }

  lemma TwoThen(locks: seq<Action>, tail: seq<Action>)
    requires |locks| == 2
    ensures locks + tail == [locks[0]] + ([locks[1]] + tail)
  {
  }

  lemma LocksOrdered(locks: seq<Action>, more: seq<Action>)
    requires forall a :: a in locks ==> a.Acquire?
    requires |locks| == 1 || (|locks| == 2 && locks[0].shard < locks[1].shard)
    requires Ordered(more, {})
    ensures Ordered(locks + ([Release] + more), {})
  {
    assert locks[0] in locks;
    if |locks| == 1 {
      OneLockOrdered(locks[0], more);
      assert locks == [locks[0]];
    } else {
      assert locks[1] in locks;
      TwoLocksOrdered(locks[0], locks[1], more);
      TwoThen(locks, [Release] + more);
    }
  }

  lemma OneKeyOrdered(i: nat, mode: Mode, logs: bool, more: seq<Action>)
    requires Ordered(more, {})
    ensures Ordered(Program(OneKey(i, mode, logs)) + more, {})
  {
    var send := if logs then [Send] else [];
    var tail := [Release] + more;
    OrderedFirst(Release, more, {i});
    LogsOrdered(logs, tail, {i});
    OrderedFirst(Acquire(i, mode), send + tail, {});
    assert {} + {i} == {i};
    assert Program(OneKey(i, mode, logs)) + more == [Acquire(i, mode)] + (send + tail);
  }

  lemma TwoKeyWriteOrdered(a: nat, b: nat, logs: bool, more: seq<Action>)
    requires Ordered(more, {})
    ensures Ordered(Program(TwoKeyWrite(a, b, logs)) + more, {})
  {
    var send := if logs then [Send] else [];
    var locks := WriteMultiShards(a, b);
    LogsOrdered(logs, more, {});
    LocksOrdered(locks, send + more);
    assert (locks + [Release] + send) + more == locks + ([Release] + (send + more));
  }

  lemma ProgramOrdered(r: Request, more: seq<Action>)
    requires !Descending(r) && Ordered(more, {})
    ensures Ordered(Program(r) + more, {})
  {
    match r {
      case OneKey(i, mode, logs) => OneKeyOrdered(i, mode, logs, more);
      case TwoKeyWrite(a, b, logs) => TwoKeyWriteOrdered(a, b, logs, more);
      case TwoKeyRead(a, b) =>
        var locks := ReadMultiShards(a, b);
        LocksOrdered(locks, more);
        assert (locks + [Release]) + more == locks + ([Release] + more);
    }
  }

  lemma {:induction false} ProgramsOrdered(rs: seq<Request>)
    requires forall r :: r in rs ==> !Descending(r)
    ensures Ordered(Programs(rs), {})
  {
    if rs != [] {
      ProgramsOrdered(rs[1..]);
      ProgramOrdered(rs[0], Programs(rs[1..]));
    }
  }

  // ---- Invariant ----

  ghost predicate QueueOk(s: State) {
    && (forall q :: 0 <= q < |s.queue| ==> Wants(s, s.queue[q]) && s.tasks[s.queue[q]].queued)
    && (forall t :: 0 <= t < |s.tasks| && s.tasks[t].queued ==> t in s.queue)
    && (forall p, q :: 0 <= p < q < |s.queue| ==> s.queue[p] != s.queue[q])
  }

  ghost predicate AllOrdered(s: State) {
    forall t :: 0 <= t < |s.tasks| ==> Ordered(s.tasks[t].rest, s.tasks[t].held.Keys)
  }

  ghost predicate Inv(s: State) { QueueOk(s) && AllOrdered(s) }

  lemma OrderedUpdate(s: State, t: nat, task: Task)
    requires t < |s.tasks| && AllOrdered(s) && Ordered(task.rest, task.held.Keys)
    ensures AllOrdered(s.(tasks := s.tasks[t := task]))
  {
  }

  lemma QueueWithout(queue: seq<nat>, q: nat)
    requires q < |queue| && forall i, j :: 0 <= i < j < |queue| ==> queue[i] != queue[j]
    ensures var rest := queue[..q] + queue[q + 1..];
            && (forall i, j :: 0 <= i < j < |rest| ==> rest[i] != rest[j])
            && (forall t :: t in rest <==> t in queue && t != queue[q])
  {
    var rest := queue[..q] + queue[q + 1..];
    forall t | t in queue && t != queue[q]
      ensures t in rest
    {
      var p :| 0 <= p < |queue| && queue[p] == t;
      assert rest[if p < q then p else p - 1] == t;
    }
    assert forall p :: 0 <= p < |rest| ==> rest[p] == queue[if p < q then p else p + 1];
  }

  lemma GrantKeeps(s: State, s': State, q: nat)
    requires Inv(s) && GrantStep(s, s', q)
    ensures Inv(s')
  {
    var t := s.queue[q];
    QueueWithout(s.queue, q);
    assert s'.tasks[t].held.Keys == s.tasks[t].held.Keys + {s.tasks[t].rest[0].shard};
    OrderedUpdate(s, t, s'.tasks[t]);
    forall p | 0 <= p < |s'.queue|
      ensures Wants(s', s'.queue[p]) && s'.tasks[s'.queue[p]].queued
    {
      var u := s'.queue[p];
      assert u in s'.queue && u in s.queue && u != t;
      assert s'.tasks[u] == s.tasks[u];
    }
  }

  lemma MoveKeeps(s: State, s': State, t: nat)
    requires Inv(s) && (SendStep(s, s', t) || ReleaseStep(s, s', t))
    ensures Inv(s')
  {
    OrderedUpdate(s, t, s'.tasks[t]);
    assert forall q :: 0 <= q < |s.queue| ==> s.queue[q] != t;
  }

  lemma RequestKeeps(s: State, s': State, t: nat)
    requires Inv(s) && RequestStep(s, s', t)
    ensures Inv(s')
  {
    OrderedUpdate(s, t, s'.tasks[t]);
    assert forall q :: 0 <= q < |s.queue| ==> s.queue[q] != t;
    forall u | 0 <= u < |s'.tasks| && s'.tasks[u].queued
      ensures u in s'.queue
    {
      if u == t { assert s'.queue[|s.queue|] == t; }
    }
  }

  lemma StepKeeps(s: State, s': State)
    requires Inv(s) && Step(s, s')
    ensures Inv(s')
  {
    if !ReceiveStep(s, s') {
      var t: nat :| RequestStep(s, s', t) || GrantStep(s, s', t) || SendStep(s, s', t) || ReleaseStep(s, s', t);
      if GrantStep(s, s', t) {
        GrantKeeps(s, s', t);
      } else if RequestStep(s, s', t) {
        RequestKeeps(s, s', t);
      } else {
        MoveKeeps(s, s', t);
      }
    }
  }

  // ---- Progress ----

  /** Position of a waiting task that wants the highest shard, the first one to want it. */
  lemma {:induction false} HighestWait(s: State, n: nat) returns (q: nat)
    requires QueueOk(s) && 0 < n <= |s.queue|
    ensures q < n
    ensures forall p :: 0 <= p < n ==> s.tasks[s.queue[p]].rest[0].shard <= s.tasks[s.queue[q]].rest[0].shard
    ensures forall p :: 0 <= p < q ==> s.tasks[s.queue[p]].rest[0].shard < s.tasks[s.queue[q]].rest[0].shard
  {
    if n == 1 {
      q := 0;
    } else {
      q := HighestWait(s, n - 1);
      if s.tasks[s.queue[n - 1]].rest[0].shard > s.tasks[s.queue[q]].rest[0].shard {
        q := n - 1;
      }
    }
  }

  lemma TaskMoves(s: State, t: nat) returns (s': State)
    requires Inv(s) && t < |s.tasks| && s.tasks[t].rest != [] && !s.tasks[t].queued
    ensures Step(s, s')
  {
    var task := s.tasks[t];
    match task.rest[0] {
      case Acquire(_, _) =>
        s' := s.(tasks := s.tasks[t := task.(queued := true)], queue := s.queue + [t]);
        assert RequestStep(s, s', t);
      case Release =>
        s' := s.(tasks := s.tasks[t := task.(rest := task.rest[1..], held := map[])]);
        assert ReleaseStep(s, s', t);
      case Send =>
        if s.channel < CHANNEL_CAPACITY {
          s' := s.(tasks := s.tasks[t := task.(rest := task.rest[1..])], channel := s.channel + 1);
          assert SendStep(s, s', t);
        } else {
          s' := s.(channel := s.channel - 1);
          assert ReceiveStep(s, s');
        }
    }
  }

  lemma Progress(s: State)
    requires Inv(s)
    ensures !Stuck(s)
  {
    if s.channel > 0 {
      assert Step(s, s.(channel := s.channel - 1));
    } else if t: nat :| t < |s.tasks| && s.tasks[t].rest != [] && !s.tasks[t].queued {
      var s' := TaskMoves(s, t);
    } else if s.queue != [] {
      var q := HighestWait(s, |s.queue|);
      var t := s.queue[q];
      var a := s.tasks[t].rest[0];
      forall u | 0 <= u < |s.tasks|
        ensures Compatible(s.tasks[u].held, a.shard, a.mode)
      {
        // A holder of that shard would itself wait, for a higher shard.
        assert s.tasks[u].rest != [] ==> s.tasks[u].queued && u in s.queue;
        assert Ordered(s.tasks[u].rest, s.tasks[u].held.Keys);
      }
      assert Grantable(s, q);
      var s' := s.(tasks := s.tasks[t := Task(s.tasks[t].rest[1..], s.tasks[t].held[a.shard := a.mode], false)],
                   queue := s.queue[..q] + s.queue[q + 1..]);
      assert GrantStep(s, s', q);
      assert Step(s, s');
    } else {
      assert forall t :: 0 <= t < |s.tasks| && s.tasks[t].rest != [] ==> s.tasks[t].queued && t in s.queue;
    }
  }

  // ---- Bounded completion ----

  function Weight(a: Action): nat { if a.Release? then 1 else 2 }

  function Work(rest: seq<Action>): nat { if rest == [] then 0 else Weight(rest[0]) + Work(rest[1..]) }

  function TaskWork(t: Task): int { Work(t.rest) - (if t.queued then 1 else 0) }

  function TotalWork(tasks: seq<Task>): int {
    if tasks == [] then 0 else TaskWork(tasks[0]) + TotalWork(tasks[1..])
  }

  function Remaining(s: State): int { TotalWork(s.tasks) + s.channel }

  lemma {:induction false} WorkUpdate(tasks: seq<Task>, t: nat, task: Task)
    requires t < |tasks|
    ensures TotalWork(tasks[t := task]) == TotalWork(tasks) - TaskWork(tasks[t]) + TaskWork(task)
  {
    if t == 0 {
      assert tasks[0 := task][1..] == tasks[1..];
    } else {
      WorkUpdate(tasks[1..], t - 1, task);
      assert tasks[t := task][1..] == tasks[1..][t - 1 := task];
    }
  }

  lemma StepWorks(s: State, s': State)
    requires Inv(s) && Step(s, s')
    ensures Remaining(s') == Remaining(s) - 1
  {
    if !ReceiveStep(s, s') {
      var t: nat :| RequestStep(s, s', t) || GrantStep(s, s', t) || SendStep(s, s', t) || ReleaseStep(s, s', t);
      if GrantStep(s, s', t) {
        WorkUpdate(s.tasks, s.queue[t], s'.tasks[s.queue[t]]);
      } else {
        WorkUpdate(s.tasks, t, s'.tasks[t]);
      }
    }
  }

  lemma {:induction false} WorkIsNat(tasks: seq<Task>)
    requires forall t :: 0 <= t < |tasks| && tasks[t].queued ==> tasks[t].rest != []
    ensures TotalWork(tasks) >= 0
    ensures TotalWork(tasks) == 0 && (forall t :: 0 <= t < |tasks| ==> !tasks[t].queued) ==>
              forall t :: 0 <= t < |tasks| ==> tasks[t].rest == []
    ensures (forall t :: 0 <= t < |tasks| ==> tasks[t].rest == []) ==> TotalWork(tasks) == 0
  {
    if tasks != [] { WorkIsNat(tasks[1..]); }
  }

  ghost predicate NoneDescend(clients: seq<seq<Request>>) {
    forall i, r :: 0 <= i < |clients| && r in clients[i] ==> !Descending(r)
  }

  lemma InitInv(clients: seq<seq<Request>>)
    requires NoneDescend(clients)
    ensures Inv(Init(clients))
  {
    forall i | 0 <= i < |clients|
      ensures Ordered(Programs(clients[i]), {})
    {
      ProgramsOrdered(clients[i]);
    }
    var s := Init(clients);
    forall t | 0 <= t < |s.tasks|
      ensures Ordered(s.tasks[t].rest, s.tasks[t].held.Keys)
    {
      assert s.tasks[t].rest == Programs(clients[t]) && s.tasks[t].held.Keys == {};
    }
  }

  lemma {:induction false} RunInv(run: seq<State>, n: nat)
    requires IsRun(run) && Inv(run[0]) && n < |run|
    ensures Inv(run[n]) && Remaining(run[n]) == Remaining(run[0]) - n
  {
    if n > 0 {
      RunInv(run, n - 1);
      StepKeeps(run[n - 1], run[n]);
      StepWorks(run[n - 1], run[n]);
    }
  }

  /** Clients without a descending read never get stuck. */
  lemma AscendingNeverStuck(clients: seq<seq<Request>>, s: State)
    requires NoneDescend(clients) && Reaches(Init(clients), s)
    ensures !Stuck(s)
  {
    InitInv(clients);
    var run :| IsRun(run) && run[0] == Init(clients) && run[|run| - 1] == s;
    RunInv(run, |run| - 1);
    Progress(s);
  }

  /** Every schedule of such clients ends, finished, after the same number of steps. */
  lemma EveryScheduleFinishes(clients: seq<seq<Request>>, run: seq<State>)
    requires NoneDescend(clients) && IsRun(run) && run[0] == Init(clients)
    ensures |run| <= Remaining(Init(clients)) + 1
    ensures Halted(run[|run| - 1]) <==> Finished(run[|run| - 1])
    ensures Finished(run[|run| - 1]) ==> |run| == Remaining(Init(clients)) + 1
  {
    InitInv(clients);
    var last := run[|run| - 1];
    RunInv(run, |run| - 1);
    WorkIsNat(last.tasks);
    Progress(last);
    if Finished(last) {
      forall s'
        ensures !Step(last, s')
      {
        if Step(last, s') {
          StepKeeps(last, s');
          StepWorks(last, s');
          WorkIsNat(s'.tasks);
        }
      }
    }
  }

  // ---- Exclusion ----

  /** Two holders of one shard only read it. */
  ghost predicate Excluding(s: State) {
    forall t, u, i ::
      0 <= t < |s.tasks| && 0 <= u < |s.tasks| && t != u && i in s.tasks[t].held && i in s.tasks[u].held ==>
        s.tasks[t].held[i].Read? && s.tasks[u].held[i].Read?
  }

  lemma GrantExcludes(s: State, s': State, q: nat)
    requires Excluding(s) && GrantStep(s, s', q)
    ensures Excluding(s')
  {
    var g := s.queue[q];
    var a := s.tasks[g].rest[0];
    forall t, u, i | 0 <= t < |s'.tasks| && 0 <= u < |s'.tasks| && t != u &&
                     i in s'.tasks[t].held && i in s'.tasks[u].held
      ensures s'.tasks[t].held[i].Read? && s'.tasks[u].held[i].Read?
    {
      assert t != g ==> Compatible(s.tasks[t].held, a.shard, a.mode);
      assert u != g ==> Compatible(s.tasks[u].held, a.shard, a.mode);
    }
  }

  lemma StepExcludes(s: State, s': State)
    requires Excluding(s) && Step(s, s') && s.channel <= CHANNEL_CAPACITY
    ensures Excluding(s') && s'.channel <= CHANNEL_CAPACITY
  {
    if !ReceiveStep(s, s') {
      var t: nat :| RequestStep(s, s', t) || GrantStep(s, s', t) || SendStep(s, s', t) || ReleaseStep(s, s', t);
      if GrantStep(s, s', t) { GrantExcludes(s, s', t); }
    }
  }

  lemma {:induction false} RunExcludes(run: seq<State>, n: nat)
    requires IsRun(run) && Excluding(run[0]) && run[0].channel == 0 && n < |run|
    ensures Excluding(run[n]) && run[n].channel <= CHANNEL_CAPACITY
  {
    if n > 0 {
      RunExcludes(run, n - 1);
      StepExcludes(run[n - 1], run[n]);
    }
  }

  /** Whatever the clients ask for, a shard is written by one task alone; the channel never holds more than it can. */
  lemma ShardsExclude(clients: seq<seq<Request>>, s: State, t: nat, u: nat, i: nat)
    requires Reaches(Init(clients), s) && t < |s.tasks| && u < |s.tasks| && t != u
    requires i in s.tasks[t].held && i in s.tasks[u].held
    ensures s.tasks[t].held[i] == Read && s.tasks[u].held[i] == Read
    ensures s.channel <= 100_000
  {
    var run :| IsRun(run) && run[0] == Init(clients) && run[|run| - 1] == s;
    RunExcludes(run, |run| - 1);
  }

  /** A record waits exactly while the channel holds 100000 others. */
  lemma FullChannelWaits(s: State, t: nat)
    requires t < |s.tasks| && s.tasks[t].rest != [] && s.tasks[t].rest[0].Send?
    ensures (exists s' :: SendStep(s, s', t)) <==> s.channel < 100_000
  {
    var s' := s.(tasks := s.tasks[t := s.tasks[t].(rest := s.tasks[t].rest[1..])], channel := s.channel + 1);
    assert s.channel < CHANNEL_CAPACITY ==> SendStep(s, s', t);
  }

  /** Two readers of one shard, each let in. */
  function SharingTrace(i: nat): (run: seq<State>)
    ensures |run| == 5
  {
    var p, p1 := [Acquire(i, Read), Release], [Release];
    [State([Task(p, map[], false), Task(p, map[], false)], [], 0),
     State([Task(p, map[], true), Task(p, map[], false)], [0], 0),
     State([Task(p1, map[i := Read], false), Task(p, map[], false)], [], 0),
     State([Task(p1, map[i := Read], false), Task(p, map[], true)], [1], 0),
     State([Task(p1, map[i := Read], false), Task(p1, map[i := Read], false)], [], 0)]
  }

  lemma SharingTraceIsRun(i: nat)
    ensures IsRun(SharingTrace(i))
  {
    var run := SharingTrace(i);
    assert RequestStep(run[0], run[1], 0) && RequestStep(run[2], run[3], 1);
    assert Grantable(run[1], 0) && Grantable(run[3], 0);
    assert run[1].tasks[0].rest[1..] == [Release] && run[3].tasks[1].rest[1..] == [Release];
    assert run[1].queue[..0] + run[1].queue[1..] == [] && run[3].queue[..0] + run[3].queue[1..] == [];
    assert GrantStep(run[1], run[2], 0) && GrantStep(run[3], run[4], 0);
    assert Step(run[0], run[1]) && Step(run[1], run[2]) && Step(run[2], run[3]) && Step(run[3], run[4]);
  }

  lemma ProgramOfOne(r: Request)
    ensures Programs([r]) == Program(r)
  {
    assert [r][1..] == [];
  }

  /** And readers do share a shard. */
  lemma ReadersShare(i: nat)
    ensures exists s :: Reaches(Init([[OneKey(i, Read, false)], [OneKey(i, Read, false)]]), s) &&
                        |s.tasks| == 2 && s.tasks[0].held == map[i := Read] == s.tasks[1].held
  {
    var run := SharingTrace(i);
    SharingTraceIsRun(i);
    ProgramOfOne(OneKey(i, Read, false));
    assert Program(OneKey(i, Read, false)) == [Acquire(i, Read), Release];
    assert Init([[OneKey(i, Read, false)], [OneKey(i, Read, false)]]) == run[0];
    assert Reaches(run[0], run[|run| - 1]);
  }

  // ---- Order of arrival ----

  /** Wherever both wait, the first one waits in front of the second. */
  predicate InFront(queue: seq<nat>, t: nat, u: nat) {
    forall p, q :: 0 <= p < |queue| && 0 <= q < |queue| && queue[p] == t && queue[q] == u ==> p < q
  }

  lemma InFrontRemoved(queue: seq<nat>, i: nat, t: nat, u: nat)
    requires i < |queue| && InFront(queue, t, u)
    ensures InFront(queue[..i] + queue[i + 1..], t, u)
  {
    var rest := queue[..i] + queue[i + 1..];
    assert forall p :: 0 <= p < |rest| ==> rest[p] == queue[if p < i then p else p + 1];
  }

  lemma StepKeepsFront(s: State, s': State, t: nat, u: nat)
    requires Step(s, s') && t in s.queue && t in s'.queue && InFront(s.queue, t, u)
    requires t < |s.tasks| && s.tasks[t].queued
    ensures InFront(s'.queue, t, u)
  {
    if !ReceiveStep(s, s') {
      var x: nat :| RequestStep(s, s', x) || GrantStep(s, s', x) || SendStep(s, s', x) || ReleaseStep(s, s', x);
      if GrantStep(s, s', x) { InFrontRemoved(s.queue, x, t, u); }
    }
  }

  /** From step `m` to step `n` the task waits for the shard. */
  ghost predicate WaitsFor(run: seq<State>, t: nat, i: nat, m: nat, n: nat)
    requires n < |run|
  {
    forall k :: m <= k <= n ==>
      && Wants(run[k], t) && run[k].tasks[t].queued && t in run[k].queue && run[k].tasks[t].rest[0].shard == i
  }

  lemma {:induction false} StaysInFront(run: seq<State>, t: nat, u: nat, i: nat, m: nat, n: nat)
    requires IsRun(run) && m <= n < |run| && WaitsFor(run, t, i, m, n) && u !in run[m].queue
    ensures InFront(run[n].queue, t, u)
  {
    if m < n {
      StaysInFront(run, t, u, i, m, n - 1);
      assert Step(run[n - 1], run[n]);
      StepKeepsFront(run[n - 1], run[n], t, u);
    }
  }

  /** Nobody who asks for a shard later is let in before a task that has been waiting for it. */
  lemma NobodyJumpsTheQueue(run: seq<State>, t: nat, u: nat, i: nat, m: nat, n: nat, q: nat)
    requires IsRun(run) && m <= n && n + 1 < |run| && WaitsFor(run, t, i, m, n) && u !in run[m].queue
    requires GrantStep(run[n], run[n + 1], q) && run[n].queue[q] == u
    ensures run[n].tasks[u].rest[0].shard != i
  {
    StaysInFront(run, t, u, i, m, n);
    assert Wants(run[n], t) && t in run[n].queue;
    var p :| 0 <= p < |run[n].queue| && run[n].queue[p] == t;
    assert p < q;
  }

  // ---- What a request locks ----

  function Shards(r: Request): set<nat> { if r.OneKey? then {r.shard} else {r.a, r.b} }

  function ModeOf(r: Request): Mode { if r.OneKey? then r.mode else if r.TwoKeyWrite? then Write else Read }

  lemma AppendsThrice(a: seq<Action>, b: seq<Action>, c: seq<Action>)
    ensures a + b + c == a + (b + c)
  {
  }

  /**
    Every request acquires exactly its shards, in its mode, and drops them once. A one-key record is sent before that,
    under the guard, the record of RPOPLPUSH after it.
   */
  lemma ProgramLocks(r: Request) returns (guarded: seq<Action>, free: seq<Action>)
    ensures Program(r) == guarded + ([Release] + free) && Release !in guarded && Release !in free
    ensures forall i, mode :: Acquire(i, mode) in guarded <==> i in Shards(r) && mode == ModeOf(r)
    ensures forall i, mode :: Acquire(i, mode) !in free
    ensures Send in guarded <==> r.OneKey? && r.logs
    ensures Send in free <==> r.TwoKeyWrite? && r.logs
    ensures Send in guarded ==> guarded[0].Acquire? && |guarded| == 2
  {
    match r {
      case OneKey(i, mode, logs) =>
        guarded, free := [Acquire(i, mode)] + (if logs then [Send] else []), [];
        assert [Release] + free == [Release];
      case TwoKeyWrite(a, b, logs) =>
        guarded, free := WriteMultiShards(a, b), if logs then [Send] else [];
        AppendsThrice(guarded, [Release], free);
      case TwoKeyRead(a, b) =>
        guarded, free := ReadMultiShards(a, b), [];
        assert [Release] + free == [Release];
    }
  }

  // ---- A descending read can deadlock ----

  /** However the other, ascending, clients look, the request is never part of a stuck state. */
  ghost predicate Safe(r: Request) {
    forall company, s :: NoneDescend(company) && Reaches(Init([[r]] + company), s) ==> !Stuck(s)
  }

  /** The reader takes `hi`, the writer takes `lo`, and each asks for the other's shard. */
  function DeadlockTrace(hi: nat, lo: nat): (run: seq<State>)
    ensures |run| == 7
  {
    var p := [Acquire(hi, Read), Acquire(lo, Read), Release];
    var w := [Acquire(lo, Write), Acquire(hi, Write), Release, Send];
    var p1, w1 := [Acquire(lo, Read), Release], [Acquire(hi, Write), Release, Send];
    [State([Task(p, map[], false), Task(w, map[], false)], [], 0),
     State([Task(p, map[], true), Task(w, map[], false)], [0], 0),
     State([Task(p1, map[hi := Read], false), Task(w, map[], false)], [], 0),
     State([Task(p1, map[hi := Read], false), Task(w, map[], true)], [1], 0),
     State([Task(p1, map[hi := Read], false), Task(w1, map[lo := Write], false)], [], 0),
     State([Task(p1, map[hi := Read], true), Task(w1, map[lo := Write], false)], [0], 0),
     State([Task(p1, map[hi := Read], true), Task(w1, map[lo := Write], true)], [0, 1], 0)]
  }

  lemma DeadlockTraceLocks(hi: nat, lo: nat)
    requires lo < hi
    ensures var run := DeadlockTrace(hi, lo); GrantStep(run[1], run[2], 0) && GrantStep(run[3], run[4], 0)
  {
    var run := DeadlockTrace(hi, lo);
    assert Grantable(run[1], 0) && Grantable(run[3], 0);
    assert run[1].tasks[0].rest[1..] == run[2].tasks[0].rest;
    assert run[3].tasks[1].rest[1..] == run[4].tasks[1].rest;
    assert run[1].queue[..0] + run[1].queue[1..] == [] && run[3].queue[..0] + run[3].queue[1..] == [];
  }

  lemma DeadlockTraceRequests(hi: nat, lo: nat)
    ensures var run := DeadlockTrace(hi, lo);
            && RequestStep(run[0], run[1], 0) && RequestStep(run[2], run[3], 1)
            && RequestStep(run[4], run[5], 0) && RequestStep(run[5], run[6], 1)
  {
    var run := DeadlockTrace(hi, lo);
    assert [0] + [1] == [0, 1];
  }

  lemma DeadlockTraceEnds(hi: nat, lo: nat)
    requires lo < hi
    ensures Stuck(DeadlockTrace(hi, lo)[6])
  {
    var s := DeadlockTrace(hi, lo)[6];
    assert !Compatible(s.tasks[1].held, lo, Read) && !Compatible(s.tasks[0].held, hi, Write);
    assert !Grantable(s, 0) && !Grantable(s, 1);
    assert s.tasks[0].queued && s.tasks[1].queued;
  }

  lemma DeadlockTraceStarts(hi: nat, lo: nat)
    requires lo < hi
    ensures Init([[TwoKeyRead(hi, lo)]] + [[TwoKeyWrite(lo, hi, true)]]) == DeadlockTrace(hi, lo)[0]
  {
    var r, w := TwoKeyRead(hi, lo), TwoKeyWrite(lo, hi, true);
    ProgramOfOne(r);
    ProgramOfOne(w);
    assert Program(r) == [Acquire(hi, Read), Acquire(lo, Read), Release];
    assert Program(w) == [Acquire(lo, Write), Acquire(hi, Write), Release, Send];
  }

  lemma DeadlockTraceIsRun(hi: nat, lo: nat)
    requires lo < hi
    ensures IsRun(DeadlockTrace(hi, lo))
  {
    var run := DeadlockTrace(hi, lo);
    DeadlockTraceLocks(hi, lo);
    DeadlockTraceRequests(hi, lo);
    assert Step(run[0], run[1]) && Step(run[1], run[2]) && Step(run[2], run[3]);
    assert Step(run[3], run[4]) && Step(run[4], run[5]) && Step(run[5], run[6]);
  }

  lemma DescendingReadDeadlocks(hi: nat, lo: nat)
    requires lo < hi
    ensures exists s :: Reaches(Init([[TwoKeyRead(hi, lo)]] + [[TwoKeyWrite(lo, hi, true)]]), s) && Stuck(s)
  {
    var run := DeadlockTrace(hi, lo);
    DeadlockTraceStarts(hi, lo);
    DeadlockTraceIsRun(hi, lo);
    DeadlockTraceEnds(hi, lo);
    assert Reaches(run[0], run[|run| - 1]);
  }

  /** A request is safe in every ascending company exactly when it is not a two-key read with its shards descending. */
  lemma SafeUnlessDescending(r: Request)
    ensures Safe(r) <==> !Descending(r)
  {
    if Descending(r) {
      DescendingReadDeadlocks(r.a, r.b);
      var company := [[TwoKeyWrite(r.b, r.a, true)]];
      assert NoneDescend(company);
      assert r == TwoKeyRead(r.a, r.b);
    } else {
      forall company, s | NoneDescend(company) && Reaches(Init([[r]] + company), s)
        ensures !Stuck(s)
      {
        var clients := [[r]] + company;
        forall i, x | 0 <= i < |clients| && x in clients[i]
          ensures !Descending(x)
        {
          if i > 0 { assert clients[i] == company[i - 1]; }
        }
        AscendingNeverStuck(clients, s);
      }
    }
  }
}
