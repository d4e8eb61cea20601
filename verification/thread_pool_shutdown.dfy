/** The exit message gets to every worker: uv_thread_join in the exit handler comes back. */
module ThreadPoolShutdown {
  import opened Lists
  import opened ThreadPool
  import opened ThreadPoolInvariant
  import opened ThreadPoolSafety

  // ---- how far there is still to go ----

  function WorkerWeight(pc: WorkerPc): nat {
    match pc
    case Took(_) => 30
    case Running(_) => 29
    case Ran(_) => 28
    case Finishing(_, _) => 27
    case Finished(_) => 20
    case Waiting => 15
    case Woken => 14
    case Start => 14
    case Locked => 13
    case Leaving => 12
    case Exited => 0
  }

  function CallWeight(pc: LoopPc): nat {
    match pc
    case Free => 0
    case PostWant(_) => 3
    case PostHeld(_) => 2
    case PostDone => 1
    case CancelWant(_) => 20
    case CancelHalf(_) => 19
    case CancelBoth(_) => 18
    case CancelTested(_, _) => 17
    case CancelOut(_, _) => 16
    case CancelMark(_) => 15
    case CancelMarked(_) => 14
    case CancelHeld(_) => 13
    case CancelPut(_) => 1
    case DrainWant => 3
    case DrainHeld => 2
    case DrainDone => 1
  }

  /** A request that is done with moves through a loop's queue and then the list being drained. */
  function LoopWeight(me: LoopState): nat {
    CallWeight(me.pc) + 2 * |me.queue| + |me.local|
  }

  function Weight(s: State): nat {
    Sum(s.workers, WorkerWeight) + Sum(s.loops, LoopWeight)
  }

  /** The workers still there. */
  function Here(pc: WorkerPc): nat {
    if pc.Exited? then 0 else 1
  }

  function Present(ws: seq<WorkerPc>): nat {
    Sum(ws, Here)
  }

  /** How many requests are in front of the exit message. */
  function Ahead(pool: seq<Item>): nat {
    if pool == [] || pool[0].Exit? then 0 else 1 + Ahead(pool[1..])
  }

  ghost predicate Lower(s: State, t: State) {
    || Present(t.workers) < Present(s.workers)
    || (Present(t.workers) == Present(s.workers) && Ahead(t.pool) < Ahead(s.pool))
    || (Present(t.workers) == Present(s.workers) && Ahead(t.pool) == Ahead(s.pool) && Weight(t) < Weight(s))
  }

  lemma WorkerSet(ws: seq<WorkerPc>, i: nat, pc: WorkerPc)
    requires i < |ws|
    ensures Sum(ws[i := pc], WorkerWeight) == Sum(ws, WorkerWeight) - WorkerWeight(ws[i]) + WorkerWeight(pc)
    ensures Present(ws[i := pc]) == Present(ws) - Here(ws[i]) + Here(pc)
  {
    SumSet(ws, i, pc, WorkerWeight);
    SumSet(ws, i, pc, Here);
  }

  /** A signal makes nobody heavier. */
  lemma WokenLighter(ws: seq<WorkerPc>, us: seq<WorkerPc>)
    requires |us| == |ws|
    requires forall k :: 0 <= k < |ws| ==> us[k] == ws[k] || (ws[k].Waiting? && us[k].Woken?)
    ensures Sum(us, WorkerWeight) <= Sum(ws, WorkerWeight) && Present(us) == Present(ws)
  {
    SumBelow(ws, us, WorkerWeight);
    SumBelow(ws, us, Here);
    SumBelow(us, ws, Here);
  }

  lemma {:induction false} AheadMore(pool: seq<Item>, x: Item)
    requires Exit in pool
    ensures Ahead(pool + [x]) == Ahead(pool)
  {
    if !pool[0].Exit? {
      assert (pool + [x])[1..] == pool[1..] + [x];
      AheadMore(pool[1..], x);
    }
  }

  lemma {:induction false} AheadLess(pool: seq<Item>, r: Req)
    ensures Ahead(Without(pool, Task(r))) <= Ahead(pool)
  {
    if pool != [] && pool[0] != Task(r) {
      AheadLess(pool[1..], r);
      var rest := Without(pool[1..], Task(r));
      assert ([pool[0]] + rest)[1..] == rest;
    } else if pool != [] {
      assert Ahead(pool) == 1 + Ahead(pool[1..]);
    }
  }

  // ---- every step goes down ----

  /** Not a new call; a spurious wakeup is all right. */
  predicate NoNewCall(a: Action) {
    GoesOn(a) || (a.ByWorker? && a.w.WakeUp?)
  }

  lemma CheckLower(s: State, i: nat, wake: set<nat>)
    requires Inv(s) && Exit in s.pool && WorkerMay(s, i, Check(wake))
    ensures Lower(s, WorkerStep(s, i, Check(wake)))
  {
    hide Inv;
    if s.pool[0].Exit? {
      WokenLighter(s.workers, Signal(s.workers, wake));
      WorkerSet(Signal(s.workers, wake), i, Leaving);
    } else {
      WorkerSet(s.workers, i, Took(s.pool[0].r));
    }
  }

  /** Any other step makes a worker lighter by more than its loop gets heavier. */
  lemma MoveLower(s: State, i: nat, a: WorkerAction)
    requires WorkerMay(s, i, a) && !a.Check?
    ensures var t := WorkerStep(s, i, a);
      && t.workers == s.workers[i := t.workers[i]] && t.pool == s.pool && t.cleaner == s.cleaner
      && !s.workers[i].Exited?
      && (t.workers[i].Exited? || WorkerWeight(t.workers[i]) + (if a.Finish? then 2 else 0) < WorkerWeight(s.workers[i]))
  {
  }

  lemma LockedLoops(s: State, i: nat, a: WorkerAction)
    requires WorkerMay(s, i, a) && !a.Check?
    ensures Sum(WorkerStep(s, i, a).loops, LoopWeight) == Sum(s.loops, LoopWeight) + if a.Finish? then 2 else 0
  {
    hide Sum, WorkerWeight, CallWeight;
    var t, pc := WorkerStep(s, i, a), s.workers[i];
    if a.LockLoop? {
      SumSet(s.loops, s.jobs[pc.r].loop, t.loops[s.jobs[pc.r].loop], LoopWeight);
    } else if a.Finish? || a.UnlockLoop? {
      SumSet(s.loops, pc.l, t.loops[pc.l], LoopWeight);
    }
  }

  lemma WorkerLower(s: State, i: nat, a: WorkerAction)
    requires Inv(s) && Exit in s.pool && WorkerMay(s, i, a)
    ensures Lower(s, WorkerStep(s, i, a)) && WorkerStep(s, i, a).cleaner == s.cleaner
  {
    hide Inv, Sum, Present, Ahead, WorkerWeight;
    if a.Check? {
      CheckLower(s, i, a.wake);
    } else {
      var t := WorkerStep(s, i, a);
      MoveLower(s, i, a);
      LockedLoops(s, i, a);
      WorkerSet(s.workers, i, t.workers[i]);
    }
  }

  lemma TestLower(s: State, l: nat)
    requires Exit in s.pool && LoopMay(s, l, CancelTest)
    ensures var t := LoopStep(s, l, CancelTest);
      && t.loops == s.loops[l := t.loops[l]] && LoopWeight(t.loops[l]) < LoopWeight(s.loops[l])
      && t.workers == s.workers && Ahead(t.pool) <= Ahead(s.pool) && t.cleaner == s.cleaner
  {
    var me, r := s.loops[l], s.loops[l].pc.r;
    WithoutShorter(me.queue, r);
    WithoutShorter(me.local, r);
    AheadLess(s.pool, r);
  }

  lemma CallLower(s: State, l: nat, a: LoopAction)
    requires Exit in s.pool && LoopMay(s, l, a) && GoesOn(ByLoop(l, a)) && !a.CancelTest?
    ensures var t := LoopStep(s, l, a);
      && t.loops == s.loops[l := t.loops[l]] && LoopWeight(t.loops[l]) < LoopWeight(s.loops[l])
      && t.workers == s.workers && (t.pool == s.pool || exists x :: t.pool == s.pool + [x]) && t.cleaner == s.cleaner
  {
  }

  lemma LoopLower(s: State, l: nat, a: LoopAction)
    requires Exit in s.pool && LoopMay(s, l, a) && GoesOn(ByLoop(l, a))
    ensures Lower(s, LoopStep(s, l, a)) && LoopStep(s, l, a).cleaner == s.cleaner
  {
    hide LoopStep, LoopMay, LoopWeight, Sum, Present, Ahead;
    var t := LoopStep(s, l, a);
    if a.CancelTest? {
      TestLower(s, l);
    } else {
      CallLower(s, l, a);
      if t.pool != s.pool {
        var x :| t.pool == s.pool + [x];
        AheadMore(s.pool, x);
      }
    }
    assert l < |s.loops| by { CallOfLoop(s, l, a); }
    SumSet(s.loops, l, t.loops[l], LoopWeight);
  }

  lemma CallOfLoop(s: State, l: nat, a: LoopAction)
    requires LoopMay(s, l, a)
    ensures l < |s.loops|
  {
  }

  lemma StepLower(s: State, a: Action)
    requires Inv(s) && s.cleaner.Joining? && May(s, a) && NoNewCall(a)
    ensures Lower(s, Step(s, a)) && Step(s, a).cleaner.Joining?
  {
    hide WorkerStep, LoopStep, Lower;
    assert Exit in s.pool by { assert PoolOk(s); }
    hide Inv;
    match a
    case ByWorker(i, w) => WorkerLower(s, i, w);
    case ByLoop(l, b) => LoopLower(s, l, b);
    case ByCleaner(_) =>
  }

  // ---- the exit handler comes back ----

  ghost predicate AllExited(s: State) {
    forall k: nat :: k < |s.workers| ==> s.workers[k].Exited?
  }

  /** Steps that are all possible and start nothing new. */
  ghost predicate Goes(s: State, steps: seq<Action>)
    decreases |steps|
  {
    steps == [] || (May(s, steps[0]) && GoesOn(steps[0]) && Goes(Step(s, steps[0]), steps[1..]))
  }

  /** From any state in which the exit handler waits for the workers, the calls that are under way
      going on, every worker leaves. Each such step and each spurious wakeup brings that nearer
      (StepLower), so no run without new calls goes on for ever; NeverStuck says that it ends only there. */
  lemma {:induction false} ExitReachesAll(s: State) returns (steps: seq<Action>)
    requires Inv(s) && s.cleaner.Joining?
    ensures Goes(s, steps) && AllExited(Run(s, steps))
    decreases Present(s.workers), Ahead(s.pool), Weight(s)
  {
    hide Inv, Step, May, Present, Ahead, Weight;
    if AllExited(s) {
      steps := [];
    } else {
      assert s.pool != [] by { JoiningQueue(s); }
      var a := NeverStuck(s);
      StepKeeps(s, a);
      StepLower(s, a);
      var rest := ExitReachesAll(Step(s, a));
      steps := [a] + rest;
      assert steps[1..] == rest;
    }
  }

  lemma JoiningQueue(s: State)
    requires Inv(s) && s.cleaner.Joining?
    ensures Exit in s.pool
  {
  }
}
