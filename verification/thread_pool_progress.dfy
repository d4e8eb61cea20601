/** Every request that has been submitted gets its `done`, as long as the pool is not shut down:
    the calls under way and the loops' drains lead there, and nothing else has to happen. */
module ThreadPoolProgress {
  import opened Lists
  import opened ThreadPool
  import opened ThreadPoolInvariant
  import opened ThreadPoolSafety

  // ---- how far there is still to go ----

  /** A waiting worker is as far as it can get; one at the mutex will look at the queue once more. */
  function WorkerLeft(pc: WorkerPc): nat {
    match pc
    case Took(_) => 60
    case Running(_) => 59
    case Ran(_) => 58
    case Finishing(_, _) => 57
    case Finished(_) => 3
    case Start => 2
    case Woken => 2
    case Locked => 1
    case _ => 0
  }

  function CallLeft(pc: LoopPc): nat {
    match pc
    case Free => 0
    case PostWant(_) => 13
    case PostHeld(_) => 12
    case PostDone => 11
    case CancelWant(_) => 70
    case CancelHalf(_) => 69
    case CancelBoth(_) => 68
    case CancelTested(_, _) => 67
    case CancelOut(_, _) => 66
    case CancelMark(_) => 65
    case CancelMarked(_) => 64
    case CancelHeld(_) => 63
    case CancelPut(_) => 11
    case DrainWant => 3
    case DrainHeld => 2
    case DrainDone => 1
  }

  /** A loop thread that is free has a drain to come if there is something in its queue. */
  function LoopLeft(me: LoopState): nat {
    CallLeft(me.pc) + (if me.pc.Free? && me.queue != [] then 10 else 0) + 20 * |me.queue| + |me.local|
  }

  function ToPost(me: LoopState): nat {
    if me.pc.PostWant? || me.pc.PostHeld? then 1 else 0
  }

  function Posts(s: State): nat {
    Sum(s.loops, ToPost)
  }

  function Left(s: State): nat {
    Sum(s.workers, WorkerLeft) + Sum(s.loops, LoopLeft)
  }

  ghost predicate Nearer(s: State, t: State) {
    || Posts(t) < Posts(s)
    || (Posts(t) == Posts(s) && |t.pool| < |s.pool|)
    || (Posts(t) == Posts(s) && |t.pool| == |s.pool| && Left(t) < Left(s))
  }

  /** A step that is not a new call and not a spurious wakeup; the drain of a loop whose queue is
      not empty is no new call, since its wakeup has been sent. */
  predicate DueStep(s: State, a: Action) {
    GoesOn(a) || (a.ByLoop? && a.a.Drain? && a.l < |s.loops| && s.loops[a.l].queue != [])
  }

  // ---- every step brings the end nearer ----

  lemma WorkerNearer(s: State, i: nat, a: WorkerAction)
    requires WorkerMay(s, i, a) && !a.WakeUp? && Exit !in s.pool && !s.workers[i].Leaving?
    ensures Nearer(s, WorkerStep(s, i, a)) && WorkerStep(s, i, a).cleaner == s.cleaner
  {
    hide Sum;
    assert s.pool != [] ==> s.pool[0] in s.pool;
    var t, pc := WorkerStep(s, i, a), s.workers[i];
    SumSet(s.workers, i, t.workers[i], WorkerLeft);
    if a.LockLoop? {
      var l := s.jobs[pc.r].loop;
      SumSet(s.loops, l, t.loops[l], LoopLeft);
      SumSet(s.loops, l, t.loops[l], ToPost);
    } else if a.Finish? || a.UnlockLoop? {
      SumSet(s.loops, pc.l, t.loops[pc.l], LoopLeft);
      SumSet(s.loops, pc.l, t.loops[pc.l], ToPost);
    }
  }

  /** A call goes on: its loop gets lighter, or its request gets into the pool, which may wake workers. */
  lemma CallNearer(s: State, l: nat, a: LoopAction)
    requires LoopMay(s, l, a) && DueStep(s, ByLoop(l, a)) && !a.CancelTest? && !a.PostInsert?
    requires s.loops[l].pc.DrainDone? ==> s.loops[l].queue == []
    ensures var t := LoopStep(s, l, a);
      && t.loops == s.loops[l := t.loops[l]] && LoopLeft(t.loops[l]) < LoopLeft(s.loops[l])
      && ToPost(t.loops[l]) == ToPost(s.loops[l])
      && t.workers == s.workers && t.pool == s.pool && t.cleaner == s.cleaner && t.jobs.Keys == s.jobs.Keys
  {
    hide Without, Signal, MayWake;
  }

  lemma PostNearer(s: State, l: nat, a: LoopAction)
    requires LoopMay(s, l, a) && a.PostInsert?
    ensures var t := LoopStep(s, l, a);
      && t.loops == s.loops[l := t.loops[l]] && ToPost(t.loops[l]) < ToPost(s.loops[l])
      && t.cleaner == s.cleaner && t.jobs.Keys == s.jobs.Keys && |t.workers| == |s.workers|
  {
    hide Without, Signal, MayWake, MoveAll;
  }

  lemma TestNearer(s: State, l: nat, a: LoopAction)
    requires LoopMay(s, l, a) && a.CancelTest?
    ensures var t := LoopStep(s, l, a);
      && t.loops == s.loops[l := t.loops[l]] && LoopLeft(t.loops[l]) < LoopLeft(s.loops[l])
      && ToPost(t.loops[l]) == ToPost(s.loops[l])
      && t.workers == s.workers && |t.pool| <= |s.pool| && t.cleaner == s.cleaner && t.jobs.Keys == s.jobs.Keys
  {
    hide Without, Signal, MayWake, MoveAll;
    var me, r := s.loops[l], s.loops[l].pc.r;
    WithoutShorter(me.queue, r);
    WithoutShorter(me.local, r);
    WithoutShorter(s.pool, Task(r));
  }

  lemma LoopNearer(s: State, l: nat, a: LoopAction)
    requires Inv(s) && LoopMay(s, l, a) && DueStep(s, ByLoop(l, a))
    ensures var t := LoopStep(s, l, a);
      Nearer(s, t) && t.cleaner == s.cleaner && t.jobs.Keys == s.jobs.Keys && |t.workers| == |s.workers|
  {
    assert l < |s.loops| && LoopOk(s, l);
    hide Inv, LoopStep, LoopMay, LoopLeft, Sum, DueStep, ToPost;
    var t := LoopStep(s, l, a);
    if a.CancelTest? {
      TestNearer(s, l, a);
    } else if a.PostInsert? {
      PostNearer(s, l, a);
    } else {
      CallNearer(s, l, a);
    }
    SumSet(s.loops, l, t.loops[l], LoopLeft);
    SumSet(s.loops, l, t.loops[l], ToPost);
  }

  lemma WorkerKept(s: State, i: nat, a: WorkerAction)
    requires WorkerMay(s, i, a)
    ensures WorkerStep(s, i, a).jobs.Keys == s.jobs.Keys && |WorkerStep(s, i, a).workers| == |s.workers|
  {
    hide MayWake;
  }

  /** There is no shutdown, and somebody to do the work. */
  ghost predicate Serving(s: State) {
    Inv(s) && s.cleaner.Idle? && s.workers != []
  }

  lemma NobodyLeaves(s: State)
    requires Serving(s)
    ensures Exit !in s.pool && forall i: nat :: i < |s.workers| ==> !Quits(s.workers[i])
  {
    assert PoolOk(s) && ExitOk(s);
    assert s.pool != [] ==> s.pool[0] in s.pool;
  }

  lemma StepNearer(s: State, a: Action)
    requires Serving(s) && May(s, a) && DueStep(s, a)
    ensures var t := Step(s, a); Nearer(s, t) && Serving(t) && t.jobs.Keys == s.jobs.Keys
  {
    StepKeeps(s, a);
    NobodyLeaves(s);
    hide Inv, WorkerStep, LoopStep, Nearer;
    match a
    case ByWorker(i, w) => WorkerNearer(s, i, w); WorkerKept(s, i, w);
    case ByLoop(l, b) => LoopNearer(s, l, b);
    case ByCleaner(_) =>
  }

  // ---- some step is due ----

  /** A loop thread in the middle of a call can go on, or waits for a lock whose holder can. */
  lemma CallMoves(s: State, l: nat) returns (a: Action)
    requires Inv(s) && l < |s.loops| && !s.loops[l].pc.Free?
    ensures May(s, a) && GoesOn(a)
  {
    assert LoopOk(s, l);
    var me := s.loops[l];
    if me.lock.By? {
      a := LoopLockMoves(s, l);
    } else if s.mutex.By? {
      a := MutexMoves(s);
    } else {
      Unlocked(s, l);
      hide Inv;
      match me.pc {
        case PostWant(_) => a := ByLoop(l, PostLock);
        case CancelWant(_) => a := ByLoop(l, CancelLock);
        case CancelMark(_) => a := ByLoop(l, CancelSet);
        case CancelMarked(_) => a := ByLoop(l, CancelRelock);
        case _ => a := ByLoop(l, DrainLock);
      }
    }
  }

  /** A loop thread that holds no lock is at one of these points. */
  lemma Unlocked(s: State, l: nat)
    requires Inv(s) && l < |s.loops| && s.loops[l].lock.Nobody? && s.mutex.Nobody?
    ensures var pc := s.loops[l].pc;
      && (pc.Free? || pc.PostWant? || pc.CancelWant? || pc.CancelMark? || pc.CancelMarked? || pc.DrainWant?)
      && CallOk(s, l, pc)
  {
    assert LoopOk(s, l) && LoopLockOk(s, l) && MutexOk(s);
  }

  /** A worker with a request can go on, or waits for its loop's lock, whose holder can. */
  lemma CarrierMoves(s: State, i: nat) returns (a: Action)
    requires Inv(s) && i < |s.workers|
    requires var pc := s.workers[i]; pc.Took? || pc.Running? || pc.Ran? || pc.Finishing?
    ensures May(s, a) && GoesOn(a)
  {
    assert WorkerOk(s, i);
    match s.workers[i]
    case Took(_) => a := ByWorker(i, Unlock);
    case Running(_) => a := ByWorker(i, Work);
    case Finishing(_, _) => a := ByWorker(i, Finish);
    case Ran(r) =>
      var l := s.jobs[r].loop;
      assert JobOk(s.jobs[r]) && l < |s.loops|;
      if s.loops[l].lock.By? {
        a := LoopLockMoves(s, l);
      } else {
        a := ByWorker(i, LockLoop);
      }
  }

  /** As long as a request is not done, some step is due. */
  lemma SomethingDue(s: State, r: Req) returns (a: Action)
    requires Serving(s) && r in s.jobs && !s.jobs[r].place.Gone?
    ensures May(s, a) && DueStep(s, a)
  {
    assert Tracked(s, r);
    var l := s.jobs[r].loop;
    var me := s.loops[l];
    if s.jobs[r].place.With? {
      a := CarrierMoves(s, s.jobs[r].place.i);
    } else if s.jobs[r].place.Pool? {
      NobodyLeaves(s);
      assert !Quits(s.workers[0]);
      a := NeverStuck(s);
    } else if !me.pc.Free? {
      a := CallMoves(s, l);
    } else if me.local != [] {
      assert LoopOk(s, l) && me.local[0] in me.local;
      a := ByLoop(l, RunDone);
    } else {
      a := ByLoop(l, Drain);
    }
  }

  // ---- all are done ----

  /** Steps that are all possible and due. */
  ghost predicate Due(s: State, steps: seq<Action>)
    decreases |steps|
  {
    steps == [] || (May(s, steps[0]) && DueStep(s, steps[0]) && Due(Step(s, steps[0]), steps[1..]))
  }

  /** From any state without a shutdown the steps that are due lead to one in which every request
      has had its `done`, once. Each of them brings that nearer (StepNearer), and as long as one
      request is not done there is another (SomethingDue): so any run of them gets there. */
  lemma {:induction false} AllGetDone(s: State) returns (steps: seq<Action>)
    requires Serving(s)
    ensures Due(s, steps)
    ensures var t := Run(s, steps); t.jobs.Keys == s.jobs.Keys && forall r :: r in t.jobs ==> |t.jobs[r].dones| == 1
    decreases Posts(s), |s.pool|, Left(s)
  {
    hide Step, May, DueStep, Sum, Posts, Left;
    if r :| r in s.jobs && !s.jobs[r].place.Gone? {
      var a := SomethingDue(s, r);
      StepNearer(s, a);
      hide Serving;
      var rest := AllGetDone(Step(s, a));
      steps := [a] + rest;
      assert steps[1..] == rest;
    } else {
      steps := [];
      forall r | r in s.jobs ensures |s.jobs[r].dones| == 1 {
        assert JobOk(s.jobs[r]);
      }
    }
  }
}
