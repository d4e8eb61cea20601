/** Safety and progress of the thread pool, over every run. */
module ThreadPoolSafety {
  import opened ThreadPool
  import opened ThreadPoolInvariant
  import opened ThreadPoolSteps

  // ---- the invariant ----

  lemma InitInv(workers: nat, loops: nat)
    ensures Inv(Init(workers, loops))
  {
    var s := Init(workers, loops);
    assert forall i: nat :: i < workers ==> s.workers[i] == Start;
    assert forall l: nat :: l < loops ==> s.loops[l] == LoopState(Free, Nobody, [], []);
  }

  lemma WorkerKeeps(s: State, i: nat, a: WorkerAction)
    requires Inv(s) && WorkerMay(s, i, a)
    ensures Inv(WorkerStep(s, i, a))
  {
    hide WorkerStep, JobsOk, WorkersOk, LoopsOk, TrackedOk, PoolOk, ExitOk, MutexOk, LoopLocksOk, Progress;
    WorkerJobs(s, i, a); WorkerWorkers(s, i, a); WorkerLoops(s, i, a); WorkerTracked(s, i, a); WorkerPool(s, i, a);
    WorkerExit(s, i, a); WorkerMutex(s, i, a); WorkerLoopLocks(s, i, a); WorkerProgress(s, i, a);
  }

  lemma LoopKeeps(s: State, l: nat, a: LoopAction)
    requires Inv(s) && LoopMay(s, l, a)
    ensures Inv(LoopStep(s, l, a))
  {
    hide LoopStep, JobsOk, WorkersOk, LoopsOk, TrackedOk, PoolOk, ExitOk, MutexOk, LoopLocksOk, Progress;
    LoopJobs(s, l, a); LoopWorkers(s, l, a); LoopLoops(s, l, a); LoopTracked(s, l, a); LoopPool(s, l, a);
    LoopExit(s, l, a); LoopMutex(s, l, a); LoopLoopLocks(s, l, a); LoopProgress(s, l, a);
  }

  lemma CleanerKeeps(s: State, a: CleanerAction)
    requires Inv(s) && CleanerMay(s, a)
    ensures Inv(CleanerStep(s, a))
  {
    hide CleanerStep, JobsOk, WorkersOk, LoopsOk, TrackedOk, PoolOk, ExitOk, MutexOk, LoopLocksOk, Progress;
    CleanerJobs(s, a); CleanerWorkers(s, a); CleanerLoops(s, a); CleanerTracked(s, a); CleanerPool(s, a);
    CleanerExit(s, a); CleanerMutex(s, a); CleanerLoopLocks(s, a); CleanerProgress(s, a);
  }

  lemma StepKeeps(s: State, a: Action)
    requires Inv(s) && May(s, a)
    ensures Inv(Step(s, a))
  {
    hide Inv, WorkerStep, LoopStep, CleanerStep;
    match a
    case ByWorker(i, w) => WorkerKeeps(s, i, w);
    case ByLoop(l, b) => LoopKeeps(s, l, b);
    case ByCleaner(c) => CleanerKeeps(s, c);
  }

  /** Every interleaving of any number of workers, loops, submissions and cancels keeps the invariant. */
  lemma {:induction false} RunKeeps(s: State, steps: seq<Action>)
    requires Inv(s)
    ensures Inv(Run(s, steps))
    decreases |steps|
  {
    hide Inv, Step, May;
    if steps != [] {
      if May(s, steps[0]) {
        StepKeeps(s, steps[0]);
        RunKeeps(Step(s, steps[0]), steps[1..]);
      } else {
        RunKeeps(s, steps[1..]);
      }
    }
  }

  // ---- what a request sees ----

  /** Each request's `done` is called at most once, and reports "cancelled" exactly when its
      work function never ran; the work function runs at most once, and never if a cancel
      returned 0. */
  lemma DoneAtMostOnce(workers: nat, loops: nat, steps: seq<Action>, r: Req)
    requires r in Run(Init(workers, loops), steps).jobs
    ensures var j := Run(Init(workers, loops), steps).jobs[r];
      && j.ran <= 1 && |j.dones| <= 1
      && (j.dones != [] ==> (j.dones[0] == ECanceled <==> j.ran == 0))
      && (j.cancelled ==> j.ran == 0)
  {
    InitInv(workers, loops);
    RunKeeps(Init(workers, loops), steps);
    assert JobOk(Run(Init(workers, loops), steps).jobs[r]);
  }

  /** A request that a cancel has taken, or is about to return 0 for. */
  predicate Doomed(s: State, r: Req) {
    r in s.jobs && (s.jobs[r].place.Loose? || s.jobs[r].work.CancelledFn? || s.jobs[r].cancelled)
  }

  lemma WorkerDoomed(s: State, i: nat, a: WorkerAction, r: Req)
    requires Inv(s) && WorkerMay(s, i, a) && Doomed(s, r)
    ensures Doomed(WorkerStep(s, i, a), r) && WorkerStep(s, i, a).jobs[r] == s.jobs[r]
  {
    assert WorkerOk(s, i) && JobOk(s.jobs[r]);
    assert s.pool != [] ==> ItemOk(s, s.pool[0]);
  }

  lemma LoopDoomed(s: State, l: nat, a: LoopAction, r: Req)
    requires Inv(s) && LoopMay(s, l, a) && Doomed(s, r)
    ensures Doomed(LoopStep(s, l, a), r) && LoopStep(s, l, a).jobs[r].ran == s.jobs[r].ran
    ensures s.jobs[r].cancelled ==> LoopStep(s, l, a).jobs[r].cancelled
  {
    assert LoopOk(s, l) && JobOk(s.jobs[r]);
  }

  /** Once a cancel has taken a request, no continuation of the run ever runs its work. */
  lemma {:induction false} CancelledNeverRuns(s: State, r: Req, steps: seq<Action>)
    requires Inv(s) && Doomed(s, r)
    ensures Doomed(Run(s, steps), r) && Run(s, steps).jobs[r].ran == 0
    ensures s.jobs[r].cancelled ==> Run(s, steps).jobs[r].cancelled
    decreases |steps|
  {
    hide LoopStep, WorkerStep, CleanerStep, WorkerMay, LoopMay;
    if steps == [] {
      assert JobOk(s.jobs[r]);
    } else if May(s, steps[0]) {
      StepKeeps(s, steps[0]);
      StepDoomed(s, steps[0], r);
      CancelledNeverRuns(Step(s, steps[0]), r, steps[1..]);
    } else {
      CancelledNeverRuns(s, r, steps[1..]);
    }
  }

  lemma StepDoomed(s: State, a: Action, r: Req)
    requires Inv(s) && May(s, a) && Doomed(s, r)
    ensures Doomed(Step(s, a), r) && (s.jobs[r].cancelled ==> Step(s, a).jobs[r].cancelled)
  {
    hide LoopStep, WorkerStep, Inv, WorkerMay, LoopMay;
    match a
    case ByWorker(i, w) => WorkerDoomed(s, i, w, r);
    case ByLoop(l, b) => LoopDoomed(s, l, b, r);
    case ByCleaner(_) =>
  }

  /** Nobody is in the middle of anything, and all lists are empty. */
  ghost predicate Quiet(s: State) {
    && s.pool == []
    && (forall i: nat :: i < |s.workers| ==> s.workers[i].Start? || s.workers[i].Waiting? || s.workers[i].Woken?)
    && (forall l: nat :: l < |s.loops| ==> s.loops[l].pc.Free? && s.loops[l].queue == [] && s.loops[l].local == [])
  }

  /** No request is lost: when all is quiet, each one's `done` has been called exactly once. */
  lemma NothingLost(s: State, r: Req)
    requires Inv(s) && Quiet(s) && r in s.jobs
    ensures |s.jobs[r].dones| == 1
  {
    assert Tracked(s, r) && JobOk(s.jobs[r]);
  }

  // ---- shutdown ----

  /** A worker leaves only when every request posted before the exit message has left the queue. */
  lemma ExitComesLast(s: State, i: nat, r: Req)
    requires Inv(s) && i < |s.workers| && Quits(s.workers[i]) && Task(r) in s.pool
    ensures r in s.jobs && s.exitStamp < s.jobs[r].stamp
  {
    var k :| 0 <= k < |s.pool| && s.pool[k] == Task(r);
    assert ItemOk(s, s.pool[k]);
    assert Stamp(s, s.pool[0]) < Stamp(s, s.pool[k]);
  }

  // ---- locks ----

  function Waiters(s: State): set<nat> {
    set i: nat | i < |s.workers| && s.workers[i].Waiting?
  }

  lemma WaitersMayWake(s: State)
    ensures MayWake(s.workers, Waiters(s))
  {
    if AnyWaits(s.workers) {
      var i :| 0 <= i < |s.workers| && s.workers[i].Waiting?;
      assert i in Waiters(s);
    }
  }

  /** Not a spurious wakeup and not a new call: a step that work in progress takes. */
  predicate GoesOn(a: Action) {
    match a
    case ByWorker(_, w) => !w.WakeUp?
    case ByLoop(_, b) => !b.Submit? && !b.Cancel? && !b.Drain?
    case ByCleaner(c) => !c.Cleanup?
  }

  /** Whoever holds a loop's mutex can go on: it never waits for a lock. */
  lemma LoopLockMoves(s: State, l: nat) returns (a: Action)
    requires Inv(s) && l < |s.loops| && s.loops[l].lock.By?
    ensures May(s, a) && GoesOn(a) && ThreadOf(a) == s.loops[l].lock.t
  {
    assert LoopLockOk(s, l) && LoopOk(s, l);
    var t := s.loops[l].lock.t;
    if t.Worker? {
      assert WorkerOk(s, t.i);
      a := ByWorker(t.i, if s.workers[t.i].Finishing? then Finish else UnlockLoop);
    } else {
      match s.loops[l].pc
      case CancelBoth(_) => a := ByLoop(l, CancelTest);
      case CancelTested(_, _) => a := ByLoop(l, CancelUnlockLoop);
      case CancelHeld(_) => a := ByLoop(l, CancelInsert);
      case CancelPut(_) => a := ByLoop(l, CancelReturn);
      case DrainHeld => a := ByLoop(l, DrainSplit);
      case _ => a := ByLoop(l, DrainUnlock);
    }
  }

  /** Locks are taken in the order mutex, wq_mutex, so nobody waits in a circle: whoever holds
      the mutex can go on, or waits for its loop's mutex, whose holder can. */
  lemma MutexMoves(s: State) returns (a: Action)
    requires Inv(s) && s.mutex.By?
    ensures May(s, a) && GoesOn(a)
    ensures ThreadOf(a) == s.mutex.t ||
      (s.mutex.t.Loop? && s.loops[s.mutex.t.l].pc.CancelHalf? && s.loops[s.mutex.t.l].lock == By(ThreadOf(a)))
  {
    WaitersMayWake(s);
    var t := s.mutex.t;
    match t
    case Worker(i) =>
      assert s.pool != [] ==> ItemOk(s, s.pool[0]);
      a := ByWorker(i, if s.workers[i].Locked? then Check(Waiters(s)) else Unlock);
    case Loop(l) =>
      assert LoopOk(s, l);
      match s.loops[l].pc {
        case PostHeld(_) => a := ByLoop(l, PostInsert(Waiters(s)));
        case PostDone => a := ByLoop(l, PostUnlock);
        case CancelHalf(_) =>
          if s.loops[l].lock.By? {
            a := LoopLockMoves(s, l);
          } else {
            a := ByLoop(l, CancelLockLoop);
          }
        case CancelBoth(_) => a := ByLoop(l, CancelTest);
        case CancelTested(_, _) => a := ByLoop(l, CancelUnlockLoop);
        case _ => a := ByLoop(l, CancelUnlock);
      }
    case Cleaner =>
      a := ByCleaner(if s.cleaner.ExitHeld? then ExitInsert(Waiters(s)) else ExitUnlock);
  }

  /** A worker that waits for a lock holds none, and neither does a loop thread, except for the
      one lock order that there is: CancelHalf waits for its loop's mutex with the mutex held. */
  lemma WaitsInOrder(s: State, i: nat, l: nat)
    requires Inv(s) && i < |s.workers| && l < |s.loops|
    ensures s.workers[i].Start? || s.workers[i].Woken? ==> s.mutex != By(Worker(i)) && s.loops[l].lock != By(Worker(i))
    ensures s.workers[i].Ran? ==> s.mutex != By(Worker(i)) && s.loops[l].lock != By(Worker(i))
    ensures var pc := s.loops[l].pc;
      pc.PostWant? || pc.CancelWant? || pc.CancelMarked? || pc.DrainWant? ==>
      s.mutex != By(Loop(l)) && s.loops[l].lock != By(Loop(l))
  {
    assert LoopLockOk(s, l);
  }

  // ---- progress ----

  /** Although post signals only on an empty queue: with work queued and a worker asleep, some
      worker is awake. */
  lemma SomebodyAwake(s: State) returns (i: nat)
    requires Inv(s) && s.pool != [] && exists k: nat :: k < |s.workers| && !s.workers[k].Exited?
    ensures i < |s.workers| && Awake(s.workers[i])
  {
    if AnyWaits(s.workers) {
      assert SomeAwake(s, -1);
      i :| i < |s.workers| && i != -1 && Awake(s.workers[i]);
    } else {
      i :| i < |s.workers| && !s.workers[i].Exited?;
    }
  }

  /** ... and the system is not stuck: a step other than a spurious wakeup or a new call is
      possible. */
  lemma NeverStuck(s: State) returns (a: Action)
    requires Inv(s) && s.pool != [] && exists k: nat :: k < |s.workers| && !s.workers[k].Exited?
    ensures May(s, a) && GoesOn(a)
  {
    var i := SomebodyAwake(s);
    assert WorkerOk(s, i);
    if s.mutex.By? {
      a := MutexMoves(s);
    } else {
      match s.workers[i]
      case Ran(r) =>
        var l := s.jobs[r].loop;
        assert JobOk(s.jobs[r]) && l < |s.loops|;
        if s.loops[l].lock.By? {
          a := LoopLockMoves(s, l);
        } else {
          a := ByWorker(i, LockLoop);
        }
      case Running(_) => a := ByWorker(i, Work);
      case Finishing(_, _) => a := ByWorker(i, Finish);
      case Finished(_) => a := ByWorker(i, UnlockLoop);
      case _ => a := ByWorker(i, Lock);
    }
  }
}
