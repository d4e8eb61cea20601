/** Each step keeps each part of the invariant. */
module ThreadPoolSteps {
  import opened Lists
  import opened ThreadPool
  import opened ThreadPoolInvariant

  // ---- requests, workers, locks ----

  lemma WorkerJobs(s: State, i: nat, a: WorkerAction)
    requires Inv(s) && WorkerMay(s, i, a)
    ensures JobsOk(WorkerStep(s, i, a))
  {
    var t := WorkerStep(s, i, a);
    assert WorkerOk(s, i);
    forall r | r in t.jobs ensures JobOk(t.jobs[r]) && t.jobs[r].loop < |t.loops| {
      assert r in s.jobs ==> JobOk(s.jobs[r]) && s.jobs[r].loop < |s.loops|;
    }
  }

  lemma WorkerOwn(s: State, i: nat, a: WorkerAction)
    requires Inv(s) && WorkerMay(s, i, a)
    ensures i < |WorkerStep(s, i, a).workers| && WorkerOk(WorkerStep(s, i, a), i)
  {
    hide LoopsOk, TrackedOk, ExitOk, MutexOk, LoopLocksOk, Progress;
    assert WorkerOk(s, i);
  }

  lemma WorkerLeavesWorker(s: State, i: nat, a: WorkerAction, k: nat)
    requires Inv(s) && WorkerMay(s, i, a) && k < |s.workers| && k != i
    ensures k < |WorkerStep(s, i, a).workers| && WorkerOk(WorkerStep(s, i, a), k)
  {
    hide LoopsOk, TrackedOk, ExitOk, MutexOk, LoopLocksOk, Progress;
    assert WorkerOk(s, i) && WorkerOk(s, k);
  }

  lemma WorkerWorkers(s: State, i: nat, a: WorkerAction)
    requires Inv(s) && WorkerMay(s, i, a)
    ensures WorkersOk(WorkerStep(s, i, a))
  {
    hide Inv, WorkerOk;
    var t := WorkerStep(s, i, a);
    forall k: nat | k < |t.workers| ensures WorkerOk(t, k) {
      if k == i {
        WorkerOwn(s, i, a);
      } else {
        WorkerLeavesWorker(s, i, a, k);
      }
    }
  }

  lemma WorkerExit(s: State, i: nat, a: WorkerAction)
    requires Inv(s) && WorkerMay(s, i, a)
    ensures ExitOk(WorkerStep(s, i, a))
  {
    assert WorkerOk(s, i);
  }

  lemma WorkerMutex(s: State, i: nat, a: WorkerAction)
    requires Inv(s) && WorkerMay(s, i, a)
    ensures MutexOk(WorkerStep(s, i, a))
  {
    assert WorkerOk(s, i);
  }

  lemma WorkerLoopLocks(s: State, i: nat, a: WorkerAction)
    requires Inv(s) && WorkerMay(s, i, a)
    ensures LoopLocksOk(WorkerStep(s, i, a))
  {
    var t := WorkerStep(s, i, a);
    assert WorkerOk(s, i);
    forall k: nat | k < |t.loops| ensures LoopLockOk(t, k) {
      assert LoopLockOk(s, k);
    }
  }

  lemma TestJobs(s: State, l: nat, a: LoopAction)
    requires Inv(s) && LoopMay(s, l, a)
    requires a.CancelTest?
    ensures JobsOk(LoopStep(s, l, a))
  {
    var t := LoopStep(s, l, a);
    assert LoopOk(s, l);
    forall r | r in t.jobs ensures JobOk(t.jobs[r]) && t.jobs[r].loop < |t.loops| {
      assert r in s.jobs ==> JobOk(s.jobs[r]) && s.jobs[r].loop < |s.loops|;
    }
  }

  lemma SplitJobs(s: State, l: nat, a: LoopAction)
    requires Inv(s) && LoopMay(s, l, a)
    requires a.DrainSplit?
    ensures JobsOk(LoopStep(s, l, a))
  {
    var t := LoopStep(s, l, a);
    assert LoopOk(s, l);
    forall r | r in t.jobs ensures JobOk(t.jobs[r]) && t.jobs[r].loop < |t.loops| {
      assert r in s.jobs ==> JobOk(s.jobs[r]) && s.jobs[r].loop < |s.loops|;
    }
  }

  lemma CancelJobs(s: State, l: nat, a: LoopAction)
    requires Inv(s) && LoopMay(s, l, a)
    requires a.CancelSet? || a.CancelInsert? || a.CancelReturn? || a.RunDone?
    ensures JobsOk(LoopStep(s, l, a))
  {
    var t := LoopStep(s, l, a);
    assert LoopOk(s, l);
    forall r | r in t.jobs ensures JobOk(t.jobs[r]) && t.jobs[r].loop < |t.loops| {
      assert r in s.jobs ==> JobOk(s.jobs[r]) && s.jobs[r].loop < |s.loops|;
    }
  }

  lemma OtherJobs(s: State, l: nat, a: LoopAction)
    requires Inv(s) && LoopMay(s, l, a)
    requires !(a.CancelTest? || a.DrainSplit? || a.CancelSet? || a.CancelInsert? || a.CancelReturn? || a.RunDone?)
    ensures JobsOk(LoopStep(s, l, a))
  {
    var t := LoopStep(s, l, a);
    assert LoopOk(s, l);
    forall r | r in t.jobs ensures JobOk(t.jobs[r]) && t.jobs[r].loop < |t.loops| {
      assert r in s.jobs ==> JobOk(s.jobs[r]) && s.jobs[r].loop < |s.loops|;
    }
  }

  lemma LoopJobs(s: State, l: nat, a: LoopAction)
    requires Inv(s) && LoopMay(s, l, a)
    ensures JobsOk(LoopStep(s, l, a))
  {
    hide Inv, LoopStep, LoopMay, JobsOk;
    if a.CancelTest? {
      TestJobs(s, l, a);
    } else if a.DrainSplit? {
      SplitJobs(s, l, a);
    } else if a.CancelSet? || a.CancelInsert? || a.CancelReturn? || a.RunDone? {
      CancelJobs(s, l, a);
    } else {
      OtherJobs(s, l, a);
    }
  }

  /** A loop's step wakes workers at most, and does not touch a request that a worker has. */
  lemma LoopWakes(s: State, l: nat, a: LoopAction)
    requires LoopMay(s, l, a)
    ensures var t := LoopStep(s, l, a);
      && |t.workers| == |s.workers| && |t.loops| == |s.loops|
      && forall k :: 0 <= k < |s.workers| ==>
           t.workers[k] == s.workers[k] || (s.workers[k].Waiting? && t.workers[k].Woken?)
  {
  }

  lemma LoopLeavesRunning(s: State, l: nat, a: LoopAction, r: Req)
    requires Inv(s) && LoopMay(s, l, a) && r in s.jobs && s.jobs[r].place.With?
    ensures r in LoopStep(s, l, a).jobs && LoopStep(s, l, a).jobs[r] == s.jobs[r]
  {
    assert LoopOk(s, l) && JobOk(s.jobs[r]);
    hide JobsOk, TrackedOk, PoolOk, ExitOk, MutexOk, LoopLocksOk, Progress, WorkersOk, LoopsOk;
  }

  lemma LoopLeavesWorker(s: State, l: nat, a: LoopAction, k: nat)
    requires Inv(s) && LoopMay(s, l, a) && k < |s.workers|
    ensures |LoopStep(s, l, a).workers| == |s.workers| && WorkerOk(LoopStep(s, l, a), k)
  {
    assert WorkerOk(s, k);
    LoopWakes(s, l, a);
    hide Inv, LoopStep, LoopMay;
    match s.workers[k]
    case Took(r) => LoopLeavesRunning(s, l, a, r);
    case Running(r) => LoopLeavesRunning(s, l, a, r);
    case Ran(r) => LoopLeavesRunning(s, l, a, r);
    case Finishing(r, _) => LoopLeavesRunning(s, l, a, r);
    case _ =>
  }

  lemma LoopWorkers(s: State, l: nat, a: LoopAction)
    requires Inv(s) && LoopMay(s, l, a)
    ensures WorkersOk(LoopStep(s, l, a))
  {
    hide Inv, LoopStep, WorkerOk;
    forall k: nat | k < |LoopStep(s, l, a).workers| ensures WorkerOk(LoopStep(s, l, a), k) {
      LoopWakes(s, l, a);
      LoopLeavesWorker(s, l, a, k);
    }
  }

  lemma LoopExit(s: State, l: nat, a: LoopAction)
    requires Inv(s) && LoopMay(s, l, a)
    ensures ExitOk(LoopStep(s, l, a))
  {
    assert LoopOk(s, l);
  }

  lemma LoopMutexWorkers(s: State, l: nat, a: LoopAction)
    requires MutexOk(s) && LoopMay(s, l, a)
    ensures var t := LoopStep(s, l, a);
      && (forall i: nat :: i < |t.workers| ==> (HoldsMutex(t.workers[i]) <==> t.mutex == By(Worker(i))))
      && (t.cleaner.ExitHeld? || t.cleaner.ExitPosted? <==> t.mutex == By(Cleaner))
      && (t.mutex.By? && t.mutex.t.Worker? ==> t.mutex.t.i < |t.workers|)
  {
  }

  lemma LoopMutexLoops(s: State, l: nat, a: LoopAction)
    requires MutexOk(s) && LoopMay(s, l, a)
    ensures var t := LoopStep(s, l, a);
      && (forall k: nat :: k < |t.loops| ==> (LoopHoldsMutex(t.loops[k].pc) <==> t.mutex == By(Loop(k))))
      && (t.mutex.By? && t.mutex.t.Loop? ==> t.mutex.t.l < |t.loops|)
  {
    hide MoveAll, Without, Signal, MayWake, StatusOf;
  }

  lemma LoopMutex(s: State, l: nat, a: LoopAction)
    requires Inv(s) && LoopMay(s, l, a)
    ensures MutexOk(LoopStep(s, l, a))
  {
    hide JobsOk, WorkersOk, LoopsOk, TrackedOk, PoolOk, ExitOk, LoopLocksOk, Progress, LoopStep, LoopMay;
    LoopMutexWorkers(s, l, a);
    LoopMutexLoops(s, l, a);
  }

  /** A loop thread locks and unlocks the mutex of its own loop only. */
  lemma OwnLock(s: State, l: nat, a: LoopAction)
    requires LoopMay(s, l, a) && (LoopHoldsOwn(s.loops[l].pc) <==> s.loops[l].lock == By(Loop(l)))
    ensures var t := LoopStep(s, l, a);
      && t.loops == s.loops[l := t.loops[l]] && (LoopHoldsOwn(t.loops[l].pc) <==> t.loops[l].lock == By(Loop(l)))
      && (t.loops[l].lock == s.loops[l].lock
          || ((s.loops[l].lock.Nobody? || s.loops[l].lock == By(Loop(l)))
              && (t.loops[l].lock.Nobody? || t.loops[l].lock == By(Loop(l)))))
  {
    hide MoveAll, Without, Signal, MayWake, StatusOf;
  }

  lemma LoopLoopLock(s: State, l: nat, a: LoopAction, k: nat)
    requires LoopMay(s, l, a) && l < |s.loops| && k < |s.loops| && LoopLockOk(s, k) && LoopLockOk(s, l)
    ensures k < |LoopStep(s, l, a).loops| && LoopLockOk(LoopStep(s, l, a), k)
  {
    hide LoopStep, LoopMay;
    LoopWakes(s, l, a);
    OwnLock(s, l, a);
  }

  lemma LoopLoopLocks(s: State, l: nat, a: LoopAction)
    requires Inv(s) && LoopMay(s, l, a)
    ensures LoopLocksOk(LoopStep(s, l, a))
  {
    hide JobsOk, WorkersOk, LoopsOk, TrackedOk, PoolOk, ExitOk, MutexOk, Progress, LoopStep;
    LoopWakes(s, l, a);
    var t := LoopStep(s, l, a);
    forall k: nat | k < |t.loops| ensures LoopLockOk(t, k) {
      assert LoopLockOk(s, k) && LoopLockOk(s, l);
      LoopLoopLock(s, l, a, k);
    }
  }

  lemma CleanerJobs(s: State, a: CleanerAction)
    requires Inv(s) && CleanerMay(s, a)
    ensures JobsOk(CleanerStep(s, a))
  {
    var t := CleanerStep(s, a);
    forall r | r in t.jobs ensures JobOk(t.jobs[r]) && t.jobs[r].loop < |t.loops| {
      assert r in s.jobs ==> JobOk(s.jobs[r]) && s.jobs[r].loop < |s.loops|;
    }
  }

  lemma CleanerWorkers(s: State, a: CleanerAction)
    requires Inv(s) && CleanerMay(s, a)
    ensures WorkersOk(CleanerStep(s, a))
  {
    var t := CleanerStep(s, a);
    forall k: nat | k < |t.workers| ensures WorkerOk(t, k) {
      assert WorkerOk(s, k);
    }
  }

  lemma CleanerExit(s: State, a: CleanerAction)
    requires Inv(s) && CleanerMay(s, a)
    ensures ExitOk(CleanerStep(s, a))
  {
  }

  lemma CleanerMutex(s: State, a: CleanerAction)
    requires Inv(s) && CleanerMay(s, a)
    ensures MutexOk(CleanerStep(s, a))
  {
  }

  lemma CleanerLoopLocks(s: State, a: CleanerAction)
    requires Inv(s) && CleanerMay(s, a)
    ensures LoopLocksOk(CleanerStep(s, a))
  {
    var t := CleanerStep(s, a);
    forall k: nat | k < |t.loops| ensures LoopLockOk(t, k) {
      assert LoopLockOk(s, k);
    }
  }

  /** A loop's lists and calls do not see a request go from the pool to a worker, or its run. */
  ghost predicate Unseen(s: State, t: State, r: Req)
    requires r in s.jobs
  {
    && r in t.jobs && t.jobs[r].loop == s.jobs[r].loop && t.jobs[r].work == s.jobs[r].work
    && (t.jobs[r].place == s.jobs[r].place || (s.jobs[r].place.Pool? && t.jobs[r].place.With?))
  }

  lemma LoopUnseen(s: State, t: State, k: nat)
    requires k < |s.loops| == |t.loops| && LoopOk(s, k) && t.loops[k] == s.loops[k].(lock := t.loops[k].lock)
    requires forall r :: r in s.jobs ==> Unseen(s, t, r)
    ensures LoopOk(t, k)
  {
    forall r | r in s.jobs ensures Unseen(s, t, r) {
    }
  }

  lemma WorkerUnseen(s: State, i: nat, a: WorkerAction, k: nat)
    requires Inv(s) && WorkerMay(s, i, a) && !a.Finish? && k < |s.loops|
    ensures var t := WorkerStep(s, i, a);
      && |t.loops| == |s.loops| && t.loops[k] == s.loops[k].(lock := t.loops[k].lock)
      && forall r :: r in s.jobs ==> Unseen(s, t, r)
  {
    assert s.pool != [] ==> ItemOk(s, s.pool[0]);
    hide Inv, Signal, MayWake;
  }

  lemma WorkerLeavesLoops(s: State, i: nat, a: WorkerAction, k: nat)
    requires Inv(s) && WorkerMay(s, i, a) && !a.Finish? && k < |s.loops|
    ensures LoopOk(WorkerStep(s, i, a), k)
  {
    WorkerUnseen(s, i, a, k);
    hide JobsOk, WorkersOk, TrackedOk, PoolOk, ExitOk, MutexOk, LoopLocksOk, Progress, WorkerStep, WorkerMay;
    assert LoopOk(s, k);
    LoopUnseen(s, WorkerStep(s, i, a), k);
  }

  lemma FinishLoops(s: State, i: nat, k: nat)
    requires Inv(s) && WorkerMay(s, i, Finish) && k < |s.loops|
    ensures LoopOk(WorkerStep(s, i, Finish), k)
  {
    hide JobsOk, TrackedOk, PoolOk, ExitOk, MutexOk, Progress;
    assert LoopOk(s, k) && WorkerOk(s, i);
    assert LoopLockOk(s, k);  // the loop is not in the middle of a drain
  }

  lemma WorkerLoops(s: State, i: nat, a: WorkerAction)
    requires Inv(s) && WorkerMay(s, i, a)
    ensures LoopsOk(WorkerStep(s, i, a))
  {
    forall k: nat | k < |s.loops| ensures LoopOk(WorkerStep(s, i, a), k) {
      if a.Finish? {
        FinishLoops(s, i, k);
      } else {
        WorkerLeavesLoops(s, i, a, k);
      }
    }
  }

  lemma CleanerLoops(s: State, a: CleanerAction)
    requires Inv(s) && CleanerMay(s, a)
    ensures LoopsOk(CleanerStep(s, a))
  {
    forall k: nat | k < |s.loops| ensures LoopOk(CleanerStep(s, a), k) {
      assert LoopOk(s, k);
    }
  }

  // ---- other loops ----

  lemma OtherLoop(s: State, t: State, k: nat)
    requires k < |s.loops| == |t.loops| && LoopOk(s, k) && t.loops[k] == s.loops[k]
    requires forall r :: r in s.jobs && s.jobs[r].loop == k ==> r in t.jobs && t.jobs[r] == s.jobs[r]
    ensures LoopOk(t, k)
  {
  }

  lemma LoopLeavesOthers(s: State, l: nat, a: LoopAction, k: nat)
    requires Inv(s) && LoopMay(s, l, a) && k < |s.loops| && k != l
    ensures LoopOk(LoopStep(s, l, a), k)
  {
    var t := LoopStep(s, l, a);
    assert LoopOk(s, l) && LoopOk(s, k);
    assert t.loops[k] == s.loops[k];
    forall r | r in s.jobs && s.jobs[r].loop == k ensures r in t.jobs && t.jobs[r] == s.jobs[r] {
    }
    OtherLoop(s, t, k);
  }

  lemma PostOwn(s: State, l: nat, a: LoopAction)
    requires Inv(s) && LoopMay(s, l, a) && (a.Submit? || a.PostLock? || a.PostInsert? || a.PostUnlock?)
    ensures LoopOk(LoopStep(s, l, a), l)
  {
    assert LoopOk(s, l);
  }

  lemma CancelOwn(s: State, l: nat, a: LoopAction)
    requires Inv(s) && LoopMay(s, l, a)
    requires a.Cancel? || a.CancelLock? || a.CancelLockLoop? || a.CancelUnlockLoop? || a.CancelUnlock?
    ensures LoopOk(LoopStep(s, l, a), l)
  {
    assert LoopOk(s, l);
    if a.Cancel? {
      assert Tracked(s, a.r);
    }
  }

  lemma TestOwn(s: State, l: nat, a: LoopAction)
    requires Inv(s) && LoopMay(s, l, a) && a.CancelTest?
    ensures LoopOk(LoopStep(s, l, a), l)
  {
    assert LoopOk(s, l);
    var r := s.loops[l].pc.r;
    assert Tracked(s, r) && JobOk(s.jobs[r]);
    if r in s.loops[l].queue {
      WithoutIs(s.loops[l].queue, r);
    }
    if r in s.loops[l].local {
      WithoutIs(s.loops[l].local, r);
    }
  }

  lemma ReturnOwn(s: State, l: nat, a: LoopAction)
    requires Inv(s) && LoopMay(s, l, a) && (a.CancelSet? || a.CancelRelock? || a.CancelInsert? || a.CancelReturn?)
    ensures LoopOk(LoopStep(s, l, a), l)
  {
    hide JobsOk, WorkersOk, PoolOk, ExitOk, MutexOk, LoopLocksOk, Progress, MoveAll, Without, Signal, MayWake, StatusOf;
    assert LoopOk(s, l);
  }

  lemma DrainOwn(s: State, l: nat, a: LoopAction)
    requires Inv(s) && LoopMay(s, l, a) && (a.Drain? || a.DrainLock? || a.DrainSplit? || a.DrainUnlock? || a.RunDone?)
    ensures LoopOk(LoopStep(s, l, a), l)
  {
    assert LoopOk(s, l);
  }

  lemma LoopLoops(s: State, l: nat, a: LoopAction)
    requires Inv(s) && LoopMay(s, l, a)
    ensures LoopsOk(LoopStep(s, l, a))
  {
    if a.Submit? || a.PostLock? || a.PostInsert? || a.PostUnlock? {
      PostOwn(s, l, a);
    } else if a.CancelTest? {
      TestOwn(s, l, a);
    } else if a.CancelSet? || a.CancelRelock? || a.CancelInsert? || a.CancelReturn? {
      ReturnOwn(s, l, a);
    } else if a.Drain? || a.DrainLock? || a.DrainSplit? || a.DrainUnlock? || a.RunDone? {
      DrainOwn(s, l, a);
    } else {
      CancelOwn(s, l, a);
    }
    forall k: nat | k < |s.loops| && k != l ensures LoopOk(LoopStep(s, l, a), k) {
      LoopLeavesOthers(s, l, a, k);
    }
  }

  // ---- every request is somewhere ----

  lemma WorkerTracked(s: State, i: nat, a: WorkerAction)
    requires Inv(s) && WorkerMay(s, i, a)
    ensures TrackedOk(WorkerStep(s, i, a))
  {
    var t := WorkerStep(s, i, a);
    assert WorkerOk(s, i);
    forall r | r in t.jobs ensures Tracked(t, r) {
      assert Tracked(s, r);
    }
  }

  lemma PostTracked(s: State, l: nat, a: LoopAction, r: Req)
    requires Inv(s) && LoopMay(s, l, a) && (a.Submit? || a.PostLock? || a.PostInsert? || a.PostUnlock?)
    requires r in LoopStep(s, l, a).jobs
    ensures Tracked(LoopStep(s, l, a), r)
  {
    assert LoopOk(s, l);
    assert r in s.jobs ==> Tracked(s, r);
    if a.PostInsert? {
      assert (s.pool + [Task(s.loops[l].pc.r)])[|s.pool|] == Task(s.loops[l].pc.r);
    }
  }

  lemma Holds(s: State, l: nat, r: Req)
    requires Inv(s) && l < |s.loops| && r in s.jobs
    ensures LoopOk(s, l) && Tracked(s, r)
  {
  }

  /** Taking x out leaves the others where they are. */
  lemma TestLeaves(s: State, l: nat, r: Req)
    requires LoopMay(s, l, CancelTest) && r != s.loops[l].pc.r
    ensures var t := LoopStep(s, l, CancelTest);
      && t.workers == s.workers && t.loops == s.loops[l := t.loops[l]]
      && (r in s.jobs ==> r in t.jobs && t.jobs[r] == s.jobs[r])
      && (Task(r) in s.pool ==> Task(r) in t.pool)
      && (r in s.loops[l].queue ==> r in t.loops[l].queue)
      && (r in s.loops[l].local ==> r in t.loops[l].local)
      && (forall p :: !Posts(t.loops[l].pc, p) && !Posts(s.loops[l].pc, p))
      && !Moves(s.loops[l].pc, r)
  {
    hide Without;
    var x := s.loops[l].pc.r;
    WithoutKeeps(s.pool, Task(x), Task(r));
    WithoutKeeps(s.loops[l].queue, x, r);
    WithoutKeeps(s.loops[l].local, x, r);
  }

  lemma TestTaken(s: State, l: nat)
    requires Inv(s) && LoopMay(s, l, CancelTest) && s.loops[l].pc.r in s.jobs
    ensures Tracked(LoopStep(s, l, CancelTest), s.loops[l].pc.r)
  {
    hide WorkersOk, PoolOk, ExitOk, MutexOk, LoopLocksOk, Progress, Without;
    assert LoopOk(s, l) && Tracked(s, s.loops[l].pc.r);
  }

  lemma TestTracked(s: State, l: nat, a: LoopAction, r: Req)
    requires Inv(s) && LoopMay(s, l, a) && a.CancelTest? && r in s.jobs
    ensures Tracked(LoopStep(s, l, a), r)
  {
    Holds(s, l, r);
    hide Inv, LoopStep, Without;
    if r != s.loops[l].pc.r {
      TestLeaves(s, l, r);
    } else {
      TestTaken(s, l);
    }
  }

  lemma CancelTracked(s: State, l: nat, a: LoopAction, r: Req)
    requires Inv(s) && LoopMay(s, l, a) && r in s.jobs
    requires a.Cancel? || a.CancelLock? || a.CancelLockLoop? || a.CancelUnlockLoop? || a.CancelUnlock?
    ensures Tracked(LoopStep(s, l, a), r)
  {
    assert LoopOk(s, l);
    assert Tracked(s, r);
  }

  lemma ReturnTracked(s: State, l: nat, a: LoopAction, r: Req)
    requires Inv(s) && LoopMay(s, l, a) && r in s.jobs
    requires a.CancelSet? || a.CancelRelock? || a.CancelInsert? || a.CancelReturn?
    ensures Tracked(LoopStep(s, l, a), r)
  {
    assert LoopOk(s, l);
    assert Tracked(s, r);
    if a.CancelInsert? {
      var me := s.loops[l];
      assert (me.queue + [me.pc.r])[|me.queue|] == me.pc.r;
    }
  }

  lemma DrainTracked(s: State, l: nat, a: LoopAction, r: Req)
    requires Inv(s) && LoopMay(s, l, a) && r in s.jobs
    requires a.Drain? || a.DrainLock? || a.DrainSplit? || a.DrainUnlock? || a.RunDone?
    ensures Tracked(LoopStep(s, l, a), r)
  {
    hide JobsOk, WorkersOk, PoolOk, ExitOk, MutexOk, LoopLocksOk, Progress;
    assert LoopOk(s, l);
    assert Tracked(s, r);
    if a.RunDone? && r in s.loops[l].local && r != s.loops[l].local[0] {
      assert s.loops[l].local == [s.loops[l].local[0]] + s.loops[l].local[1..];
    }
  }

  lemma LoopTracked(s: State, l: nat, a: LoopAction)
    requires Inv(s) && LoopMay(s, l, a)
    ensures TrackedOk(LoopStep(s, l, a))
  {
    forall r | r in LoopStep(s, l, a).jobs ensures Tracked(LoopStep(s, l, a), r) {
      if a.Submit? || a.PostLock? || a.PostInsert? || a.PostUnlock? {
        PostTracked(s, l, a, r);
      } else if a.CancelTest? {
        TestTracked(s, l, a, r);
      } else if a.CancelSet? || a.CancelRelock? || a.CancelInsert? || a.CancelReturn? {
        ReturnTracked(s, l, a, r);
      } else if a.Drain? || a.DrainLock? || a.DrainSplit? || a.DrainUnlock? || a.RunDone? {
        DrainTracked(s, l, a, r);
      } else {
        CancelTracked(s, l, a, r);
      }
    }
  }

  lemma CleanerTracked(s: State, a: CleanerAction)
    requires Inv(s) && CleanerMay(s, a)
    ensures TrackedOk(CleanerStep(s, a))
  {
    var t := CleanerStep(s, a);
    forall r | r in t.jobs ensures Tracked(t, r) {
      assert Tracked(s, r);
    }
  }

  // ---- the pool's queue ----

  lemma PoolFrame(s: State, t: State)
    requires PoolOk(s) && t.pool == s.pool && t.clock >= s.clock && t.exitStamp == s.exitStamp
    requires (t.cleaner.ExitPosted? || t.cleaner.Joining?) <==> (s.cleaner.ExitPosted? || s.cleaner.Joining?)
    requires forall r :: Task(r) in s.pool && Has(s, r, Pool) ==> Has(t, r, Pool) && t.jobs[r].stamp == s.jobs[r].stamp
    ensures PoolOk(t)
  {
    forall k | 0 <= k < |t.pool| ensures ItemOk(t, t.pool[k]) && Stamp(t, t.pool[k]) == Stamp(s, s.pool[k]) {
      assert ItemOk(s, s.pool[k]);
    }
  }

  lemma PoolSame(s: State, t: State, k: nat)
    requires PoolOk(s) && t.clock >= s.clock && t.exitStamp == s.exitStamp
    requires k < |s.pool| && (s.pool[k].Task? ==> Has(t, s.pool[k].r, Pool) && t.jobs[s.pool[k].r].stamp == s.jobs[s.pool[k].r].stamp)
    ensures ItemOk(t, s.pool[k]) && Stamp(t, s.pool[k]) == Stamp(s, s.pool[k])
  {
    assert ItemOk(s, s.pool[k]);
  }

  lemma PoolDistinct(s: State)
    requires PoolOk(s)
    ensures Distinct(s.pool)
  {
    forall i, j | 0 <= i < j < |s.pool| ensures s.pool[i] != s.pool[j] {
      assert Stamp(s, s.pool[i]) < Stamp(s, s.pool[j]);
    }
  }

  lemma PoolKept(s: State, t: State, k: nat, j: nat)
    requires PoolOk(s) && k < |s.pool| && s.pool[k].Task? && j < |s.pool| && j != k
    requires t.clock == s.clock && t.exitStamp == s.exitStamp
    requires forall r :: r in s.jobs && r != s.pool[k].r ==> r in t.jobs && t.jobs[r] == s.jobs[r]
    ensures ItemOk(t, s.pool[j]) && Stamp(t, s.pool[j]) == Stamp(s, s.pool[j])
  {
    PoolDistinct(s);
    assert ItemOk(s, s.pool[j]) && s.pool[j] != s.pool[k];
    PoolSame(s, t, j);
  }

  /** A node is taken out: the head by a worker, any request by a cancel. */
  lemma PoolLess(s: State, t: State, k: nat)
    requires PoolOk(s) && k < |s.pool| && s.pool[k].Task? && t.pool == s.pool[..k] + s.pool[k + 1..]
    requires t.clock == s.clock && t.exitStamp == s.exitStamp && t.cleaner == s.cleaner
    requires forall r :: r in s.jobs && r != s.pool[k].r ==> r in t.jobs && t.jobs[r] == s.jobs[r]
    ensures PoolOk(t)
  {
    hide Stamp, ItemOk, Distinct;
    forall j | 0 <= j < |s.pool| && j != k ensures ItemOk(t, s.pool[j]) && Stamp(t, s.pool[j]) == Stamp(s, s.pool[j]) {
      PoolKept(s, t, k, j);
    }
    forall j | 0 <= j < |t.pool| ensures t.pool[j] == s.pool[if j < k then j else j + 1] {
    }
    ExitStays(s.pool, t.pool, k);
    forall i, j | 0 <= i < j < |t.pool| ensures Stamp(t, t.pool[i]) < Stamp(t, t.pool[j]) {
      var i', j' := if i < k then i else i + 1, if j < k then j else j + 1;
      assert Stamp(s, s.pool[i']) < Stamp(s, s.pool[j']);
    }
  }

  lemma ExitStays(p: seq<Item>, q: seq<Item>, k: nat)
    requires k < |p| && p[k].Task? && q == p[..k] + p[k + 1..]
    ensures Exit in q <==> Exit in p
  {
    assert p == p[..k] + [p[k]] + p[k + 1..];
  }

  /** A node is put at the tail. */
  lemma PoolMore(s: State, t: State, x: Item)
    requires PoolOk(s) && t.pool == s.pool + [x] && t.clock == s.clock + 1 && ItemOk(t, x) && Stamp(t, x) == s.clock
    requires x.Exit? ==> Exit !in s.pool && (t.cleaner.ExitPosted? || t.cleaner.Joining?)
    requires x.Task? ==> t.cleaner == s.cleaner && t.exitStamp == s.exitStamp
    requires forall r :: r in s.jobs && x != Task(r) ==> r in t.jobs && t.jobs[r] == s.jobs[r]
    requires x !in s.pool
    ensures PoolOk(t)
  {
    forall j | 0 <= j < |s.pool| ensures ItemOk(t, s.pool[j]) && Stamp(t, s.pool[j]) == Stamp(s, s.pool[j]) < s.clock {
      assert ItemOk(s, s.pool[j]);
      assert s.pool[j] != x;
    }
    forall j | 0 <= j < |t.pool| ensures ItemOk(t, t.pool[j]) {
    }
    assert t.pool[|s.pool|] == x;
    forall i, j | 0 <= i < j < |t.pool| ensures Stamp(t, t.pool[i]) < Stamp(t, t.pool[j]) {
      assert t.pool[i] == s.pool[i];
      if j < |s.pool| {
        assert Stamp(s, s.pool[i]) < Stamp(s, s.pool[j]);
      }
    }
  }

  lemma TakePool(s: State, i: nat, a: WorkerAction)
    requires Inv(s) && WorkerMay(s, i, a) && a.Check? && s.pool != [] && s.pool[0].Task?
    ensures PoolOk(WorkerStep(s, i, a))
  {
    hide JobsOk, WorkersOk, LoopsOk, TrackedOk, ExitOk, MutexOk, LoopLocksOk, Progress, PoolOk, Signal, MayWake;
    assert s.pool[..0] + s.pool[1..] == s.pool[1..];
    PoolLess(s, WorkerStep(s, i, a), 0);
  }

  lemma WorkerPoolFrame(s: State, i: nat, a: WorkerAction)
    requires Inv(s) && WorkerMay(s, i, a) && (a.Check? ==> s.pool == [] || s.pool[0].Exit?)
    ensures PoolOk(WorkerStep(s, i, a))
  {
    assert WorkerOk(s, i);
    hide JobsOk, WorkersOk, LoopsOk, TrackedOk, ExitOk, MutexOk, LoopLocksOk, Progress, PoolOk, Signal, MayWake;
    PoolFrame(s, WorkerStep(s, i, a));
  }

  lemma WorkerPool(s: State, i: nat, a: WorkerAction)
    requires Inv(s) && WorkerMay(s, i, a)
    ensures PoolOk(WorkerStep(s, i, a))
  {
    hide Inv, WorkerStep, PoolOk;
    if a.Check? && s.pool != [] && s.pool[0].Task? {
      TakePool(s, i, a);
    } else {
      WorkerPoolFrame(s, i, a);
    }
  }

  lemma LoopPool(s: State, l: nat, a: LoopAction)
    requires Inv(s) && LoopMay(s, l, a)
    ensures PoolOk(LoopStep(s, l, a))
  {
    var t := LoopStep(s, l, a);
    assert LoopOk(s, l);
    if a.PostInsert? {
      var r := s.loops[l].pc.r;
      forall k | 0 <= k < |s.pool| ensures s.pool[k] != Task(r) {
        assert ItemOk(s, s.pool[k]);
      }
      PoolMore(s, t, Task(r));
    } else if a.CancelTest? {
      var r := s.loops[l].pc.r;
      assert Tracked(s, r);
      if s.jobs[r].place.Pool? {
        var k := WithoutAt(s.pool, Task(r));
        PoolLess(s, t, k);
      } else {
        PoolFrame(s, t);
      }
    } else {
      LoopPoolFrame(s, l, a);
    }
  }

  lemma LoopPoolFrame(s: State, l: nat, a: LoopAction)
    requires Inv(s) && LoopMay(s, l, a) && !a.PostInsert? && !a.CancelTest?
    ensures PoolOk(LoopStep(s, l, a))
  {
    var t := LoopStep(s, l, a);
    assert LoopOk(s, l);
    forall r | Task(r) in s.pool && Has(s, r, Pool) ensures Has(t, r, Pool) && t.jobs[r].stamp == s.jobs[r].stamp {
    }
    PoolFrame(s, t);
  }

  lemma CleanerPool(s: State, a: CleanerAction)
    requires Inv(s) && CleanerMay(s, a)
    ensures PoolOk(CleanerStep(s, a))
  {
    var t := CleanerStep(s, a);
    if a.ExitInsert? {
      PoolMore(s, t, Exit);
    } else {
      PoolFrame(s, t);
    }
  }

  // ---- progress ----

  lemma AwakeStays(s: State, t: State, but: int)
    requires SomeAwake(s, but) && |t.workers| == |s.workers|
    requires forall k: nat :: k < |s.workers| && k != but && Awake(s.workers[k]) ==> Awake(t.workers[k])
    ensures SomeAwake(t, but)
  {
    var k: nat :| k < |s.workers| && k != but && Awake(s.workers[k]);
    assert Awake(t.workers[k]);
  }

  lemma WaitsBefore(s: State, t: State)
    requires AnyWaits(t.workers) && |t.workers| == |s.workers|
    requires forall k: nat :: k < |s.workers| && t.workers[k].Waiting? ==> s.workers[k].Waiting?
    ensures AnyWaits(s.workers)
  {
    var k :| 0 <= k < |t.workers| && t.workers[k].Waiting?;
    assert s.workers[k].Waiting?;
  }

  /** Steps that put nobody to sleep and leave no worker newly leaving. */
  lemma ProgressFrame(s: State, t: State)
    requires Progress(s) && |t.workers| == |s.workers| && (t.pool != [] ==> s.pool != [])
    requires forall k: nat :: k < |s.workers| && t.workers[k].Waiting? ==> s.workers[k].Waiting?
    requires forall k: nat :: k < |s.workers| && t.workers[k].Leaving? ==> s.workers[k].Leaving?
    requires forall k: nat :: k < |s.workers| && Awake(s.workers[k]) ==> Awake(t.workers[k])
    ensures Progress(t)
  {
    if t.pool != [] && AnyWaits(t.workers) {
      WaitsBefore(s, t);
      AwakeStays(s, t, -1);
      forall i: nat | i < |t.workers| && t.workers[i].Leaving? ensures SomeAwake(t, i) {
        AwakeStays(s, t, i);
      }
    }
  }

  lemma SignalWakes(ws: seq<WorkerPc>, wake: set<nat>) returns (k: nat)
    requires AnyWaits(ws) && MayWake(ws, wake)
    ensures k < |ws| && ws[k].Waiting? && Signal(ws, wake)[k].Woken?
  {
    k :| k in wake && k < |ws| && ws[k].Waiting?;
  }

  lemma LeaveProgress(s: State, i: nat, wake: set<nat>)
    requires Inv(s) && WorkerMay(s, i, Check(wake)) && s.pool != [] && s.pool[0].Exit?
    ensures Progress(WorkerStep(s, i, Check(wake)))
  {
    var t := WorkerStep(s, i, Check(wake));
    if AnyWaits(t.workers) {
      WaitsBefore(s, t);
      var k := SignalWakes(s.workers, wake);
      assert k != i && Awake(t.workers[k]);
      forall j: nat | j < |t.workers| && t.workers[j].Leaving? ensures SomeAwake(t, j) {
        assert j != i ==> HoldsMutex(s.workers[j]);
        assert j == i;
      }
    }
  }

  lemma ExitProgress(s: State, i: nat)
    requires Inv(s) && WorkerMay(s, i, Unlock)
    ensures Progress(WorkerStep(s, i, Unlock))
  {
    var t := WorkerStep(s, i, Unlock);
    if s.workers[i].Took? {
      ProgressFrame(s, t);
    } else if t.pool != [] && AnyWaits(t.workers) {
      WaitsBefore(s, t);
      AwakeStays(s, t, i);
      var k: nat :| k < |t.workers| && k != i && Awake(t.workers[k]);
      assert SomeAwake(t, -1);
      forall j: nat | j < |t.workers| ensures !t.workers[j].Leaving? {
        assert HoldsMutex(s.workers[j]) <==> s.mutex == By(Worker(j));
      }
    }
  }

  lemma WorkerProgress(s: State, i: nat, a: WorkerAction)
    requires Inv(s) && WorkerMay(s, i, a)
    ensures Progress(WorkerStep(s, i, a))
  {
    if a.Check? && s.pool != [] && s.pool[0].Exit? {
      LeaveProgress(s, i, a.wake);
    } else if a.Unlock? {
      ExitProgress(s, i);
    } else if !a.Check? || s.pool != [] {
      ProgressFrame(s, WorkerStep(s, i, a));
    }
  }

  /** post: on an empty queue it wakes somebody, otherwise somebody is awake already. */
  lemma InsertProgress(s: State, t: State, x: Item, wake: set<nat>)
    requires Progress(s) && InsertMay(s, wake) && t.pool == s.pool + [x]
    requires t.workers == if s.pool == [] then Signal(s.workers, wake) else s.workers
    requires forall i: nat :: i < |s.workers| ==> !s.workers[i].Leaving?
    ensures Progress(t)
  {
    if s.pool != [] {
      ProgressFrame(s, t);
    } else if AnyWaits(t.workers) {
      WaitsBefore(s, t);
      var k := SignalWakes(s.workers, wake);
      assert Awake(t.workers[k]);
    }
  }

  lemma LoopProgress(s: State, l: nat, a: LoopAction)
    requires Inv(s) && LoopMay(s, l, a)
    ensures Progress(LoopStep(s, l, a))
  {
    var t := LoopStep(s, l, a);
    if a.PostInsert? {
      assert s.mutex == By(Loop(l));
      InsertProgress(s, t, Task(s.loops[l].pc.r), a.wake);
    } else {
      assert s.pool == [] ==> t.pool == [];
      ProgressFrame(s, t);
    }
  }

  lemma CleanerProgress(s: State, a: CleanerAction)
    requires Inv(s) && CleanerMay(s, a)
    ensures Progress(CleanerStep(s, a))
  {
    if a.ExitInsert? {
      InsertProgress(s, CleanerStep(s, a), Exit, a.wake);
    } else {
      ProgressFrame(s, CleanerStep(s, a));
    }
  }
}
