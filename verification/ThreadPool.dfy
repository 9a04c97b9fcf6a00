/**
  The thread pool of thread_pool.rs as a protocol: workers share one receiver behind a mutex, and dropping the pool
  closes the channel and joins the workers one after the other.
 */
module ThreadPool {
  /** A job that does not panic and ends after some number of steps. */
  datatype Job = Job(id: nat, steps: nat)

  datatype Worker =
    | Waiting                          // at `receiver.lock()`
    | Receiving                        // holding the mutex, inside `recv()`
    | Running(job: Job, left: nat)     // the guard is gone, the job runs
    | Exited

  datatype Owner =
    | Using(todo: seq<Job>)   // will still call `execute` for these jobs
    | Joining(next: nat)      // inside `drop`, waiting for this worker
    | Returned

  /** `queue` is the channel; the last three fields record what happened so far. */
  datatype State = State(
    owner: Owner, queue: seq<Job>, workers: seq<Worker>,
    submitted: seq<Job>, dequeued: seq<Job>, finished: seq<Job>)

  predicate Open(s: State) { s.owner.Using? }

  predicate Unlocked(s: State) { forall w :: 0 <= w < |s.workers| ==> !s.workers[w].Receiving? }

  function Init(size: nat, jobs: seq<Job>): State {
    State(Using(jobs), [], seq(size, _ => Waiting), [], [], [])
  }

  // ---- Steps ----

  predicate Execute(s: State, s': State) {
    && s.owner.Using? && s.owner.todo != []
    && var job := s.owner.todo[0];
    s' == s.(owner := Using(s.owner.todo[1..]), queue := s.queue + [job], submitted := s.submitted + [job])
  }

  predicate CloseSender(s: State, s': State) { s.owner == Using([]) && s' == s.(owner := Joining(0)) }

  predicate Join(s: State, s': State) {
    && s.owner.Joining? && s.owner.next < |s.workers| && s.workers[s.owner.next].Exited?
    && s' == s.(owner := Joining(s.owner.next + 1))
  }

  predicate Return(s: State, s': State) { s.owner == Joining(|s.workers|) && s' == s.(owner := Returned) }

  predicate Lock(s: State, s': State, w: nat) {
    && w < |s.workers| && s.workers[w].Waiting? && Unlocked(s)
    && s' == s.(workers := s.workers[w := Receiving])
  }

  predicate Dequeue(s: State, s': State, w: nat) {
    && w < |s.workers| && s.workers[w].Receiving? && s.queue != []
    && var job := s.queue[0];
    s' == s.(queue := s.queue[1..], dequeued := s.dequeued + [job], workers := s.workers[w := Running(job, job.steps)])
  }

  /** `recv` fails only when the channel is empty and its sender is gone. */
  predicate Disconnect(s: State, s': State, w: nat) {
    && w < |s.workers| && s.workers[w].Receiving? && s.queue == [] && !Open(s)
    && s' == s.(workers := s.workers[w := Exited])
  }

  predicate RunJob(s: State, s': State, w: nat) {
    && w < |s.workers| && s.workers[w].Running? && s.workers[w].left > 0
    && s' == s.(workers := s.workers[w := Running(s.workers[w].job, s.workers[w].left - 1)])
  }

  predicate Finish(s: State, s': State, w: nat) {
    && w < |s.workers| && s.workers[w].Running? && s.workers[w].left == 0
    && s' == s.(workers := s.workers[w := Waiting], finished := s.finished + [s.workers[w].job])
  }

  predicate OwnerStep(s: State, s': State) { Execute(s, s') || CloseSender(s, s') || Join(s, s') || Return(s, s') }

  predicate WorkerStep(s: State, s': State, w: nat) {
    Lock(s, s', w) || Dequeue(s, s', w) || Disconnect(s, s', w) || RunJob(s, s', w) || Finish(s, s', w)
  }

  ghost predicate Step(s: State, s': State) { OwnerStep(s, s') || exists w: nat :: WorkerStep(s, s', w) }

  ghost predicate IsRun(run: seq<State>) {
    run != [] && forall i :: 0 < i < |run| ==> Step(run[i - 1], run[i])
  }

  ghost predicate Halted(s: State) { forall s' :: !Step(s, s') }

  // ---- Counting over the workers ----

  function Once(b: bool): nat { if b then 1 else 0 }

  /** How many workers are running a job equal to `x`. */
  function RunningCopies(workers: seq<Worker>, x: Job): nat {
    if workers == [] then 0
    else Once(workers[0].Running? && workers[0].job == x) + RunningCopies(workers[1..], x)
  }

  function WorkerWork(w: Worker): nat {
    match w
    case Waiting => 2
    case Receiving => 1
    case Running(_, left) => left + 3
    case Exited => 0
  }

  function WorkersWork(workers: seq<Worker>): nat {
    if workers == [] then 0 else WorkerWork(workers[0]) + WorkersWork(workers[1..])
  }

  lemma {:induction false} CountUpdate(workers: seq<Worker>, w: nat, worker: Worker, x: Job)
    requires w < |workers|
    ensures RunningCopies(workers[w := worker], x) + Once(workers[w].Running? && workers[w].job == x) ==
            RunningCopies(workers, x) + Once(worker.Running? && worker.job == x)
    ensures WorkersWork(workers[w := worker]) + WorkerWork(workers[w]) == WorkersWork(workers) + WorkerWork(worker)
  {
    if w == 0 {
      assert workers[0 := worker][1..] == workers[1..];
    } else {
      CountUpdate(workers[1..], w - 1, worker, x);
      assert workers[w := worker][1..] == workers[1..][w - 1 := worker];
    }
  }

  // ---- The invariant ----

  /** Jobs leave the queue in the order of submission, and every job that left it is running or has run, as often. */
  ghost predicate Accounted(s: State) {
    && s.submitted == s.dequeued + s.queue
    && forall x :: multiset(s.dequeued)[x] == RunningCopies(s.workers, x) + multiset(s.finished)[x]
  }

  ghost predicate Inv(s: State, size: nat, jobs: seq<Job>) {
    && |s.workers| == size && Accounted(s)
    && s.submitted + (if s.owner.Using? then s.owner.todo else []) == jobs
    && (forall v, w :: 0 <= v < w < size && s.workers[v].Receiving? ==> !s.workers[w].Receiving?)
    && (forall w :: 0 <= w < size && s.workers[w].Exited? ==> !Open(s) && s.queue == [])
    && (s.owner.Joining? ==> s.owner.next <= size && forall w :: 0 <= w < s.owner.next ==> s.workers[w].Exited?)
    && (s.owner.Returned? ==> forall w :: 0 <= w < size ==> s.workers[w].Exited?)
  }

  lemma {:induction false} NoneRunning(workers: seq<Worker>, x: Job)
    requires forall w :: 0 <= w < |workers| ==> !workers[w].Running?
    ensures RunningCopies(workers, x) == 0
  {
    if workers != [] { NoneRunning(workers[1..], x); }
  }

  lemma {:induction false} InitInv(size: nat, jobs: seq<Job>)
    ensures Inv(Init(size, jobs), size, jobs)
    ensures WorkersWork(Init(size, jobs).workers) == 2 * size
  {
    var s := Init(size, jobs);
    if size > 0 {
      var t := Init(size - 1, jobs);
      InitInv(size - 1, jobs);
      assert s.workers[1..] == t.workers;
    }
    assert [] + jobs == jobs;
    forall x
      ensures RunningCopies(s.workers, x) == 0
    {
      NoneRunning(s.workers, x);
    }
  }

  lemma OwnerKeeps(s: State, s': State, size: nat, jobs: seq<Job>)
    requires Inv(s, size, jobs) && OwnerStep(s, s')
    ensures Inv(s', size, jobs)
  {
    if Execute(s, s') {
      var todo := s.owner.todo;
      assert todo == [todo[0]] + todo[1..];
      assert s'.submitted + todo[1..] == s.submitted + todo;
      assert s'.submitted == s'.dequeued + s'.queue;
    }
  }

  /** A step of a worker moves jobs between queue, workers and the finished ones, and loses none. */
  lemma WorkerCounts(s: State, s': State, w: nat, x: Job)
    requires WorkerStep(s, s', w) && multiset(s.dequeued)[x] == RunningCopies(s.workers, x) + multiset(s.finished)[x]
    ensures multiset(s'.dequeued)[x] == RunningCopies(s'.workers, x) + multiset(s'.finished)[x]
  {
    CountUpdate(s.workers, w, s'.workers[w], x);
  }

  lemma WorkerAccounts(s: State, s': State, w: nat)
    requires Accounted(s) && WorkerStep(s, s', w)
    ensures Accounted(s')
  {
    if Dequeue(s, s', w) { assert s.queue == [s.queue[0]] + s.queue[1..]; }
    forall x
      ensures multiset(s'.dequeued)[x] == RunningCopies(s'.workers, x) + multiset(s'.finished)[x]
    {
      WorkerCounts(s, s', w, x);
    }
  }

  lemma WorkerKeeps(s: State, s': State, w: nat, size: nat, jobs: seq<Job>)
    requires Inv(s, size, jobs) && WorkerStep(s, s', w)
    ensures Inv(s', size, jobs)
  {
    WorkerAccounts(s, s', w);
    assert forall v :: 0 <= v < size && v != w ==> s'.workers[v] == s.workers[v];
  }

  // ---- Progress ----

  lemma WorkerCanStep(s: State, w: nat, size: nat, jobs: seq<Job>) returns (s': State)
    requires Inv(s, size, jobs) && w < size && !s.workers[w].Exited? && !Open(s)
    ensures Step(s, s')
  {
    var v := w;
    if s.workers[w].Waiting? && !Unlocked(s) { v :| 0 <= v < size && s.workers[v].Receiving?; }
    match s.workers[v] {
      case Waiting => s' := s.(workers := s.workers[v := Receiving]);
      case Receiving =>
        s' := if s.queue == [] then s.(workers := s.workers[v := Exited])
              else s.(queue := s.queue[1..], dequeued := s.dequeued + [s.queue[0]],
                      workers := s.workers[v := Running(s.queue[0], s.queue[0].steps)]);
      case Running(job, left) =>
        s' := if left > 0 then s.(workers := s.workers[v := Running(job, left - 1)])
              else s.(workers := s.workers[v := Waiting], finished := s.finished + [job]);
    }
    assert WorkerStep(s, s', v);
  }

  /** Until `drop` has returned, some thread can take a step. */
  lemma Progress(s: State, size: nat, jobs: seq<Job>)
    requires Inv(s, size, jobs) && !s.owner.Returned?
    ensures !Halted(s)
  {
    match s.owner {
      case Using(todo) =>
        if todo == [] {
          assert Step(s, s.(owner := Joining(0)));
        } else {
          assert Step(s, s.(owner := Using(todo[1..]), queue := s.queue + [todo[0]],
                            submitted := s.submitted + [todo[0]]));
        }
      case Joining(next) =>
        if next == size {
          assert Step(s, s.(owner := Returned));
        } else if s.workers[next].Exited? {
          assert Step(s, s.(owner := Joining(next + 1)));
        } else {
          var s' := WorkerCanStep(s, next, size, jobs);
        }
    }
  }

  // ---- Bounded completion ----

  function QueueWork(jobs: seq<Job>): nat { if jobs == [] then 0 else jobs[0].steps + 3 + QueueWork(jobs[1..]) }

  lemma {:induction false} QueueWorkAppend(jobs: seq<Job>, job: Job)
    ensures QueueWork(jobs + [job]) == QueueWork(jobs) + job.steps + 3
  {
    if jobs == [] {
      assert jobs + [job] == [job] && [job][1..] == [];
    } else {
      QueueWorkAppend(jobs[1..], job);
      assert (jobs + [job])[1..] == jobs[1..] + [job];
    }
  }

  function OwnerWork(s: State): int {
    match s.owner
    case Using(todo) => QueueWork(todo) + |todo| + 2 + |s.workers|
    case Joining(next) => 1 + |s.workers| - next
    case Returned => 0
  }

  /** The exact number of steps that are left. */
  function Remaining(s: State): int { OwnerWork(s) + QueueWork(s.queue) + WorkersWork(s.workers) }

  lemma StepWorks(s: State, s': State)
    requires Step(s, s')
    ensures Remaining(s') == Remaining(s) - 1
  {
    if OwnerStep(s, s') {
      if Execute(s, s') { QueueWorkAppend(s.queue, s.owner.todo[0]); }
    } else {
      var w: nat :| WorkerStep(s, s', w);
      CountUpdate(s.workers, w, s'.workers[w], Job(0, 0));
    }
  }

  lemma {:induction false} RunInv(run: seq<State>, size: nat, jobs: seq<Job>, n: nat)
    requires IsRun(run) && run[0] == Init(size, jobs) && n < |run|
    ensures Inv(run[n], size, jobs) && Remaining(run[n]) == Remaining(run[0]) - n
  {
    if n == 0 {
      InitInv(size, jobs);
    } else {
      var s, s' := run[n - 1], run[n];
      RunInv(run, size, jobs, n - 1);
      assert Step(s, s');
      StepWorks(s, s');
      if OwnerStep(s, s') {
        OwnerKeeps(s, s', size, jobs);
      } else {
        var w: nat :| WorkerStep(s, s', w);
        WorkerKeeps(s, s', w, size, jobs);
      }
    }
  }

  /** The number of steps from the first `execute` to the return of `drop`, the same for every schedule. */
  function Length(size: nat, jobs: seq<Job>): nat { QueueWork(jobs) + |jobs| + 2 + 3 * size }

  // ---- The theorems ----

  /** In every reachable state: submission order, and submitted jobs are queued, running or finished. */
  lemma JobsAreNeverLost(run: seq<State>, size: nat, jobs: seq<Job>, n: nat, x: Job)
    requires IsRun(run) && run[0] == Init(size, jobs) && n < |run|
    ensures run[n].submitted <= jobs && run[n].dequeued <= run[n].submitted
    ensures multiset(run[n].submitted)[x] ==
            multiset(run[n].queue)[x] + RunningCopies(run[n].workers, x) + multiset(run[n].finished)[x]
  {
    RunInv(run, size, jobs, n);
  }

  /** `drop` returns only when every submitted job has run exactly once and every worker is gone. */
  lemma DropReturnsWhenDone(run: seq<State>, size: nat, jobs: seq<Job>, n: nat)
    requires IsRun(run) && run[0] == Init(size, jobs) && n < |run| && size > 0
    requires run[n].owner.Returned?
    ensures var s := run[n];
            && |s.workers| == size && multiset(s.finished) == multiset(jobs) && s.dequeued == jobs && s.queue == []
            && forall w :: 0 <= w < size ==> s.workers[w].Exited?
  {
    var s := run[n];
    RunInv(run, size, jobs, n);
    assert s.workers[0].Exited?;
    assert s.submitted + [] == s.submitted && s.dequeued + [] == s.dequeued;
    forall x
      ensures multiset(s.finished)[x] == multiset(jobs)[x]
    {
      NoneRunning(s.workers, x);
    }
  }

  lemma {:induction false} AllGone(workers: seq<Worker>)
    requires forall w :: 0 <= w < |workers| ==> workers[w].Exited?
    ensures WorkersWork(workers) == 0
  {
    if workers != [] { AllGone(workers[1..]); }
  }

  lemma ReturnedHalts(s: State, size: nat, jobs: seq<Job>)
    requires Inv(s, size, jobs) && s.owner.Returned?
    ensures Halted(s)
  {
    forall s'
      ensures !Step(s, s')
    {
      assert forall w: nat :: !WorkerStep(s, s', w);
    }
  }

  /** Every schedule comes to an end, with `drop` returned, after the same number of steps. */
  lemma EveryScheduleReturns(run: seq<State>, size: nat, jobs: seq<Job>)
    requires IsRun(run) && run[0] == Init(size, jobs)
    ensures |run| <= Length(size, jobs) + 1
    ensures Halted(run[|run| - 1]) <==> run[|run| - 1].owner.Returned?
    ensures size > 0 && Halted(run[|run| - 1]) ==> |run| == Length(size, jobs) + 1
  {
    var last := run[|run| - 1];
    InitInv(size, jobs);
    RunInv(run, size, jobs, |run| - 1);
    if !last.owner.Returned? {
      Progress(last, size, jobs);
    } else {
      AllGone(last.workers);
      ReturnedHalts(last, size, jobs);
    }
  }

  // ---- Jobs run side by side ----

  ghost predicate Reaches(s0: State, s: State) {
    exists run :: IsRun(run) && run[0] == s0 && run[|run| - 1] == s
  }

  lemma ReachesNext(s0: State, s: State, s': State)
    requires Reaches(s0, s) && Step(s, s')
    ensures Reaches(s0, s')
  {
    var run :| IsRun(run) && run[0] == s0 && run[|run| - 1] == s;
    var next := run + [s'];
    assert forall i :: 0 < i < |next| ==> Step(next[i - 1], next[i]);
    assert next[0] == s0 && next[|next| - 1] == s';
  }

  /** The first `n` jobs are submitted, and nobody has moved yet. */
  function Submitted(jobs: seq<Job>, n: nat): State
    requires n <= |jobs|
  {
    State(Using(jobs[n..]), jobs[..n], seq(|jobs|, _ => Waiting), jobs[..n], [], [])
  }

  /** All jobs are submitted, and the first `n` workers run one each. */
  function Busy(jobs: seq<Job>, n: nat): State
    requires n <= |jobs|
  {
    State(Using([]), jobs[n..],
          seq(|jobs|, w requires 0 <= w < |jobs| => if w < n then Running(jobs[w], jobs[w].steps) else Waiting),
          jobs, jobs[..n], [])
  }

  lemma {:induction false} SubmittedReached(jobs: seq<Job>, n: nat)
    requires n <= |jobs|
    ensures Reaches(Init(|jobs|, jobs), Submitted(jobs, n))
  {
    var s0 := Init(|jobs|, jobs);
    if n == 0 {
      assert jobs[0..] == jobs && jobs[..0] == [] && Submitted(jobs, 0) == s0;
      assert IsRun([s0]) && [s0][0] == s0;
    } else {
      SubmittedReached(jobs, n - 1);
      assert jobs[n - 1..][1..] == jobs[n..] && jobs[..n - 1] + [jobs[n - 1]] == jobs[..n];
      assert Execute(Submitted(jobs, n - 1), Submitted(jobs, n));
      ReachesNext(s0, Submitted(jobs, n - 1), Submitted(jobs, n));
    }
  }

  /** The next worker locks the receiver, takes a job and lets go of it. */
  lemma BusyNext(s0: State, jobs: seq<Job>, n: nat)
    requires n < |jobs| && Reaches(s0, Busy(jobs, n))
    ensures Reaches(s0, Busy(jobs, n + 1))
  {
    var s := Busy(jobs, n);
    var locked := s.(workers := s.workers[n := Receiving]);
    var s' := Busy(jobs, n + 1);
    assert Lock(s, locked, n);
    assert WorkerStep(s, locked, n);
    ReachesNext(s0, s, locked);
    assert jobs[n..][1..] == jobs[n + 1..] && jobs[..n] + [jobs[n]] == jobs[..n + 1] && jobs[n..][0] == jobs[n];
    assert s'.workers == locked.workers[n := Running(jobs[n], jobs[n].steps)];
    assert Dequeue(locked, s', n);
    assert WorkerStep(locked, s', n);
    ReachesNext(s0, locked, s');
  }

  lemma {:induction false} BusyReached(jobs: seq<Job>, n: nat)
    requires n <= |jobs|
    ensures Reaches(Init(|jobs|, jobs), Busy(jobs, n))
  {
    if n == 0 {
      SubmittedReached(jobs, |jobs|);
      assert jobs[|jobs|..] == [] && jobs[..|jobs|] == jobs && jobs[0..] == jobs && jobs[..0] == [];
      assert Busy(jobs, 0) == Submitted(jobs, |jobs|);
    } else {
      BusyReached(jobs, n - 1);
      BusyNext(Init(|jobs|, jobs), jobs, n - 1);
    }
  }

  /** A pool of as many workers as jobs can come to run all of them at the same time. */
  lemma JobsRunSideBySide(jobs: seq<Job>)
    ensures exists s :: Reaches(Init(|jobs|, jobs), s) && |s.workers| == |jobs| &&
                        forall w :: 0 <= w < |jobs| ==> s.workers[w] == Running(jobs[w], jobs[w].steps)
  {
    BusyReached(jobs, |jobs|);
    assert Reaches(Init(|jobs|, jobs), Busy(jobs, |jobs|));
  }

  /** But never do two of them hold the receiver. */
  lemma OneReceives(size: nat, jobs: seq<Job>, s: State, v: nat, w: nat)
    requires Reaches(Init(size, jobs), s) && v < |s.workers| && w < |s.workers|
    requires s.workers[v].Receiving? && s.workers[w].Receiving?
    ensures v == w
  {
    var run :| IsRun(run) && run[0] == Init(size, jobs) && run[|run| - 1] == s;
    InitInv(size, jobs);
    RunInv(run, size, jobs, |run| - 1);
  }
}
