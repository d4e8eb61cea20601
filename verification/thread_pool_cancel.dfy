/** What comes of a cancel: it takes every request that no worker has had yet, and that one is reported
    cancelled; and why a request that has been reported cancelled must not be cancelled again, as its
    own `done` could do: uv__work_done leaves the node in no list but not empty, and the work function
    set. */
module ThreadPoolCancel {
  import opened Lists
  import opened ThreadPool
  import opened ThreadPoolInvariant
  import opened ThreadPoolSafety
  import opened ThreadPoolProgress

  // ---- when a cancel succeeds ----

  /** A worker has taken the request out of the queue, and is not through with it. */
  ghost predicate InWork(s: State, r: Req) {
    exists i: nat :: i < |s.workers| && Carries(s.workers[i], r)
  }

  /** It is in no list. */
  predicate Unlisted(s: State, r: Req) {
    Task(r) !in s.pool && forall l :: 0 <= l < |s.loops| ==> r !in s.loops[l].queue && r !in s.loops[l].local
  }

  /** With a worker is where a request in work is. */
  lemma WorkIs(s: State, r: Req)
    requires Inv(s) && r in s.jobs
    ensures InWork(s, r) <==> s.jobs[r].place.With?
  {
    assert Tracked(s, r);
    if i: nat :| i < |s.workers| && Carries(s.workers[i], r) {
      assert WorkerOk(s, i);
    }
  }

  lemma QueuedIs(s: State, r: Req)
    requires Inv(s) && r in s.jobs
    ensures Task(r) in s.pool <==> s.jobs[r].place.Pool?
  {
    assert Tracked(s, r);
    if k :| 0 <= k < |s.pool| && s.pool[k] == Task(r) {
      assert ItemOk(s, s.pool[k]);
    }
  }

  lemma LooseUnlisted(s: State, r: Req)
    requires Inv(s) && r in s.jobs && s.jobs[r].place.Loose?
    ensures Unlisted(s, r)
  {
    QueuedIs(s, r);
    forall l | 0 <= l < |s.loops| ensures r !in s.loops[l].queue && r !in s.loops[l].local {
      assert LoopOk(s, l);
    }
  }

  lemma JobIs(s: State, l: nat)
    requires Inv(s) && LoopMay(s, l, CancelTest)
    ensures JobOk(s.jobs[s.loops[l].pc.r]) && Cancellable(s, l, s.loops[l].pc.r)
  {
    assert LoopOk(s, l);
  }

  /** A request that is not done yet is taken exactly if no worker has it or has run it, so in particular
      as long as it is queued. Then it is in no list any more, and the other requests in the pool stay
      there in their order; else nothing is changed. */
  lemma CancelExactly(s: State, l: nat)
    requires Inv(s) && LoopMay(s, l, CancelTest) && !s.jobs[s.loops[l].pc.r].place.Gone?
    ensures var r, t := s.loops[l].pc.r, LoopStep(s, l, CancelTest);
      var ok := !InWork(s, r) && s.jobs[r].ran == 0;
      && t.loops[l].pc == CancelTested(r, ok) && (Task(r) in s.pool ==> ok)
      && (ok ==> Unlisted(t, r) && t.pool == Without(s.pool, Task(r)))
      && (!ok ==> t == SetLoop(s, l, s.loops[l].(pc := CancelTested(r, false))))
  {
    var r, t := s.loops[l].pc.r, LoopStep(s, l, CancelTest);
    JobIs(s, l);
    WorkIs(s, r);
    QueuedIs(s, r);
    StepKeeps(s, ByLoop(l, CancelTest));
    hide Inv, InWork, Unlisted, Without;
    if !s.jobs[r].place.Pool? {
      WithoutNone(s.pool, Task(r));
    }
    if t.jobs[r].place.Loose? {
      LooseUnlisted(t, r);
    }
  }

  // ---- what it leads to ----

  /** A cancel of the request has returned 0, or will. */
  ghost predicate Cancelling(s: State, r: Req) {
    && Doomed(s, r)
    && (s.jobs[r].cancelled
        || (s.jobs[r].loop < |s.loops| && (Moves(s.loops[s.jobs[r].loop].pc, r) || s.loops[s.jobs[r].loop].pc == CancelPut(r))))
  }

  lemma TakenCancels(s: State, l: nat, r: Req)
    requires Inv(s) && l < |s.loops| && s.loops[l].pc == CancelTested(r, true)
    ensures Cancelling(s, r)
  {
    assert LoopOk(s, l);
  }

  lemma DoomedIs(s: State, r: Req)
    requires Doomed(s, r)
    ensures r in s.jobs
  {
  }

  lemma LoopCancels(s: State, l: nat, a: LoopAction, r: Req)
    requires Inv(s) && LoopMay(s, l, a) && Cancelling(s, r)
    ensures Cancelling(LoopStep(s, l, a), r)
  {
    hide Inv, Without, Signal, MayWake, Doomed;
    LoopDoomed(s, l, a, r);
    assert r in s.jobs && r in LoopStep(s, l, a).jobs by { DoomedIs(s, r); DoomedIs(LoopStep(s, l, a), r); }
  }

  lemma StepCancels(s: State, a: Action, r: Req)
    requires Inv(s) && May(s, a) && Cancelling(s, r)
    ensures Cancelling(Step(s, a), r)
  {
    StepDoomed(s, a, r);
    match a
    case ByWorker(i, w) => WorkerDoomed(s, i, w, r);
    case ByLoop(l, b) => LoopCancels(s, l, b, r);
    case ByCleaner(_) =>
  }

  /** Whoever has been reported is not being cancelled any more. */
  lemma ReportedCancelled(s: State, r: Req)
    requires Inv(s) && Cancelling(s, r)
    ensures s.jobs[r].ran == 0 && (s.jobs[r].dones == [] || (s.jobs[r].dones == [ECanceled] && s.jobs[r].cancelled))
  {
    var j := s.jobs[r];
    assert JobOk(j) && Tracked(s, r) && LoopOk(s, j.loop);
  }

  /** Once the test of a cancel has taken a request, whatever else happens: its work is never run, and
      its `done` is not called before the cancel has returned 0, and then with ECANCELED. */
  lemma {:induction false} CancelHolds(s: State, r: Req, steps: seq<Action>)
    requires Inv(s) && Cancelling(s, r)
    ensures var t := Run(s, steps);
      && Inv(t) && Cancelling(t, r) && t.jobs[r].ran == 0
      && (t.jobs[r].dones == [] || (t.jobs[r].dones == [ECanceled] && t.jobs[r].cancelled))
    decreases |steps|
  {
    hide Inv, Step, May, Cancelling;
    if steps == [] {
      ReportedCancelled(s, r);
    } else if May(s, steps[0]) {
      StepKeeps(s, steps[0]);
      StepCancels(s, steps[0], r);
      CancelHolds(Step(s, steps[0]), r, steps[1..]);
    } else {
      CancelHolds(s, r, steps[1..]);
    }
  }

  /** A cancel that finds the request queued, or otherwise not with a worker and not run, succeeds: the
      steps that are due lead to its `done`, called once with ECANCELED, its work never run, and no
      others can prevent that. */
  lemma CancelSucceeds(s: State, l: nat) returns (steps: seq<Action>)
    requires Serving(s) && LoopMay(s, l, CancelTest) && !s.jobs[s.loops[l].pc.r].place.Gone?
    requires !InWork(s, s.loops[l].pc.r) && s.jobs[s.loops[l].pc.r].ran == 0
    ensures var r, t := s.loops[l].pc.r, LoopStep(s, l, CancelTest);
      && Due(t, steps) && r in Run(t, steps).jobs
      && (var j := Run(t, steps).jobs[r]; j.dones == [ECanceled] && j.cancelled && j.ran == 0)
  {
    var r, t := s.loops[l].pc.r, LoopStep(s, l, CancelTest);
    CancelExactly(s, l);
    StepNearer(s, ByLoop(l, CancelTest));
    TakenCancels(t, l, r);
    hide LoopStep, LoopMay, Due, Run, Cancelling, InWork, Inv;
    steps := AllGetDone(t);
    CancelHolds(t, r, steps);
  }

  // ---- why not twice ----

  lemma {:induction false} ChainRuns(states: seq<State>, steps: seq<Action>)
    requires |states| == |steps| + 1
    requires forall k :: 0 <= k < |steps| ==> May(states[k], steps[k]) && Step(states[k], steps[k]) == states[k + 1]
    ensures Run(states[0], steps) == states[|steps|]
    decreases |steps|
  {
    hide May, Step;
    if steps != [] {
      ChainRuns(states[1..], steps[1..]);
    }
  }

  lemma {:induction false} RunBoth(s: State, a: seq<Action>, b: seq<Action>)
    ensures Run(s, a + b) == Run(Run(s, a), b)
    decreases |a|
  {
    hide May, Step;
    if a == [] {
      assert a + b == b;
    } else {
      assert (a + b)[1..] == a[1..] + b;
      RunBoth(if May(s, a[0]) then Step(s, a[0]) else s, a[1..], b);
    }
  }

  /** A loop on its own, with the one request 0. */
  function Alone(mutex: Owner, pool: seq<Item>, loop: LoopState, job: Job): State {
    State(mutex, pool, [], [loop], Idle, map[0 := job], 1, 0)
  }

  /** The request after its first `done` calls. */
  function Reported(dones: seq<Status>): Job {
    Job(0, CancelledFn, false, Gone, 0, 0, dones, true)
  }

  const POST := [ByLoop(0, Submit(0)), ByLoop(0, PostLock), ByLoop(0, PostInsert({})), ByLoop(0, PostUnlock), ByLoop(0, Cancel(0))]
  const TAKE := [ByLoop(0, CancelLock), ByLoop(0, CancelLockLoop), ByLoop(0, CancelTest), ByLoop(0, CancelUnlockLoop), ByLoop(0, CancelUnlock)]
  const PUT := [ByLoop(0, CancelSet), ByLoop(0, CancelRelock), ByLoop(0, CancelInsert), ByLoop(0, CancelReturn)]
  const DRAIN := [ByLoop(0, Drain), ByLoop(0, DrainLock), ByLoop(0, DrainSplit), ByLoop(0, DrainUnlock), ByLoop(0, RunDone)]

  const MINE := By(Loop(0))

  lemma PostRun()
    ensures Run(Init(0, 1), POST) ==
      Alone(Nobody, [Task(0)], LoopState(CancelWant(0), Nobody, [], []), Job(0, Fn, false, Pool, 0, 0, [], false))
  {
    var j := Job(0, Fn, true, New, 0, 0, [], false);
    var k := Job(0, Fn, false, Pool, 0, 0, [], false);
    var states := [
      State(Nobody, [], [], [LoopState(Free, Nobody, [], [])], Idle, map[], 0, 0),
      State(Nobody, [], [], [LoopState(PostWant(0), Nobody, [], [])], Idle, map[0 := j], 0, 0),
      State(MINE, [], [], [LoopState(PostHeld(0), Nobody, [], [])], Idle, map[0 := j], 0, 0),
      Alone(MINE, [Task(0)], LoopState(PostDone, Nobody, [], []), k),
      Alone(Nobody, [Task(0)], LoopState(Free, Nobody, [], []), k),
      Alone(Nobody, [Task(0)], LoopState(CancelWant(0), Nobody, [], []), k)];
    assert Init(0, 1) == states[0];
    assert [] + [Task(0)] == [Task(0)];
    assert Signal([], {}) == [];
    ChainRuns(states, POST);
  }

  /** The test takes the request, out of the pool or out of nowhere. */
  lemma TakeRun(pool: seq<Item>, job: Job)
    requires job.loop == 0 && !job.inited && !job.work.Null?
    requires (job.place.Pool? && pool == [Task(0)]) || (job.place.Gone? && pool == [])
    ensures Run(Alone(Nobody, pool, LoopState(CancelWant(0), Nobody, [], []), job), TAKE) ==
      Alone(Nobody, [], LoopState(CancelMark(0), Nobody, [], []), job.(place := Loose))
  {
    var k := job.(place := Loose);
    var states := [
      Alone(Nobody, pool, LoopState(CancelWant(0), Nobody, [], []), job),
      Alone(MINE, pool, LoopState(CancelHalf(0), Nobody, [], []), job),
      Alone(MINE, pool, LoopState(CancelBoth(0), MINE, [], []), job),
      Alone(MINE, [], LoopState(CancelTested(0, true), MINE, [], []), k),
      Alone(MINE, [], LoopState(CancelOut(0, true), Nobody, [], []), k),
      Alone(Nobody, [], LoopState(CancelMark(0), Nobody, [], []), k)];
    ChainRuns(states, TAKE);
  }

  lemma PutFirst(job: Job)
    requires job.loop == 0 && job.place.Loose?
    ensures Run(Alone(Nobody, [], LoopState(CancelMark(0), Nobody, [], []), job), PUT[..2]) ==
      Alone(Nobody, [], LoopState(CancelHeld(0), MINE, [], []), job.(work := CancelledFn))
  {
    hide WorkerStep, WorkerMay, CleanerStep, CleanerMay, Test, Insert, MoveAll, Signal, MayWake, MayCancel;
    var k := job.(work := CancelledFn);
    var states := [
      Alone(Nobody, [], LoopState(CancelMark(0), Nobody, [], []), job),
      Alone(Nobody, [], LoopState(CancelMarked(0), Nobody, [], []), k),
      Alone(Nobody, [], LoopState(CancelHeld(0), MINE, [], []), k)];
    ChainRuns(states, PUT[..2]);
  }

  lemma PutRest(k: Job)
    requires k.loop == 0 && k.place.Loose? && k.work.CancelledFn?
    ensures Run(Alone(Nobody, [], LoopState(CancelHeld(0), MINE, [], []), k), PUT[2..]) ==
      Alone(Nobody, [], LoopState(Free, Nobody, [0], []), k.(place := Ready, cancelled := true))
  {
    hide WorkerStep, WorkerMay, CleanerStep, CleanerMay, Test, Insert, MoveAll, Signal, MayWake, MayCancel;
    var states := [
      Alone(Nobody, [], LoopState(CancelHeld(0), MINE, [], []), k),
      Alone(Nobody, [], LoopState(CancelPut(0), MINE, [0], []), k.(place := Ready)),
      Alone(Nobody, [], LoopState(Free, Nobody, [0], []), k.(place := Ready, cancelled := true))];
    assert [] + [0] == [0];
    ChainRuns(states, PUT[2..]);
  }

  lemma PutRun(job: Job)
    requires job.loop == 0 && job.place.Loose?
    ensures Run(Alone(Nobody, [], LoopState(CancelMark(0), Nobody, [], []), job), PUT) ==
      Alone(Nobody, [], LoopState(Free, Nobody, [0], []), job.(work := CancelledFn, place := Ready, cancelled := true))
  {
    hide Run;
    PutFirst(job);
    PutRest(job.(work := CancelledFn));
    RunBoth(Alone(Nobody, [], LoopState(CancelMark(0), Nobody, [], []), job), PUT[..2], PUT[2..]);
    assert PUT[..2] + PUT[2..] == PUT;
  }

  lemma DrainFirst(job: Job)
    requires job.loop == 0 && job.place.Ready?
    ensures Run(Alone(Nobody, [], LoopState(Free, Nobody, [0], []), job), DRAIN[..3]) ==
      Alone(Nobody, [], LoopState(DrainDone, MINE, [], [0]), job.(place := Local))
  {
    hide WorkerStep, WorkerMay, CleanerStep, CleanerMay, Test, Insert, Signal, MayWake, MayCancel;
    var states := [
      Alone(Nobody, [], LoopState(Free, Nobody, [0], []), job),
      Alone(Nobody, [], LoopState(DrainWant, Nobody, [0], []), job),
      Alone(Nobody, [], LoopState(DrainHeld, MINE, [0], []), job),
      Alone(Nobody, [], LoopState(DrainDone, MINE, [], [0]), job.(place := Local))];
    assert MoveAll(map[0 := job], [0]) == map[0 := job.(place := Local)];
    ChainRuns(states, DRAIN[..3]);
  }

  lemma DrainRest(job: Job)
    requires job.loop == 0 && job.place.Local? && job.work.CancelledFn?
    ensures Run(Alone(Nobody, [], LoopState(DrainDone, MINE, [], [0]), job), DRAIN[3..]) ==
      Alone(Nobody, [], LoopState(Free, Nobody, [], []), job.(place := Gone, dones := job.dones + [ECanceled]))
  {
    hide WorkerStep, WorkerMay, CleanerStep, CleanerMay, Test, Insert, Signal, MayWake, MayCancel, MoveAll;
    var states := [
      Alone(Nobody, [], LoopState(DrainDone, MINE, [], [0]), job),
      Alone(Nobody, [], LoopState(Free, Nobody, [], [0]), job),
      Alone(Nobody, [], LoopState(Free, Nobody, [], []), job.(place := Gone, dones := job.dones + [ECanceled]))];
    assert [0][1..] == [];
    ChainRuns(states, DRAIN[3..]);
  }

  lemma DrainRun(job: Job)
    requires job.loop == 0 && job.place.Ready? && job.work.CancelledFn?
    ensures Run(Alone(Nobody, [], LoopState(Free, Nobody, [0], []), job), DRAIN) ==
      Alone(Nobody, [], LoopState(Free, Nobody, [], []), job.(place := Gone, dones := job.dones + [ECanceled]))
  {
    hide Run;
    DrainFirst(job);
    DrainRest(job.(place := Local));
    RunBoth(Alone(Nobody, [], LoopState(Free, Nobody, [0], []), job), DRAIN[..3], DRAIN[3..]);
    assert DRAIN[..3] + DRAIN[3..] == DRAIN;
  }

  lemma CancelRun(pool: seq<Item>, job: Job)
    requires job.loop == 0 && !job.inited && !job.work.Null?
    requires (job.place.Pool? && pool == [Task(0)]) || (job.place.Gone? && pool == [])
    ensures Run(Alone(Nobody, pool, LoopState(CancelWant(0), Nobody, [], []), job), TAKE + PUT + DRAIN) ==
      Alone(Nobody, [], LoopState(Free, Nobody, [], []),
            job.(work := CancelledFn, place := Gone, cancelled := true, dones := job.dones + [ECanceled]))
  {
    var s := Alone(Nobody, pool, LoopState(CancelWant(0), Nobody, [], []), job);
    TakeRun(pool, job);
    PutRun(job.(place := Loose));
    DrainRun(job.(work := CancelledFn, place := Ready, cancelled := true));
    hide Run;
    RunBoth(s, TAKE, PUT);
    RunBoth(s, TAKE + PUT, DRAIN);
  }

  /** An input: a request is posted, cancelled and reported; then the call that MayCancel excludes is
      made all the same. It takes the request once more, and `done` is called a second time. */
  lemma CancelledTwice()
    ensures var s := Run(Init(0, 1), POST + (TAKE + PUT + DRAIN));
      && s == Alone(Nobody, [], LoopState(Free, Nobody, [], []), Reported([ECanceled])) && !MayCancel(Reported([ECanceled]))
      && Run(SetLoop(s, 0, LoopState(CancelWant(0), Nobody, [], [])), TAKE + PUT + DRAIN) ==
           Alone(Nobody, [], LoopState(Free, Nobody, [], []), Reported([ECanceled, ECanceled]))
  {
    hide Run, May, Step;
    PostRun();
    CancelRun([Task(0)], Job(0, Fn, false, Pool, 0, 0, [], false));
    CancelRun([], Reported([ECanceled]));
    RunBoth(Init(0, 1), POST, TAKE + PUT + DRAIN);
    assert [] + [ECanceled] == [ECanceled] && [ECanceled] + [ECanceled] == [ECanceled, ECanceled];
    assert [LoopState(Free, Nobody, [], [])][0 := LoopState(CancelWant(0), Nobody, [], [])] == [LoopState(CancelWant(0), Nobody, [], [])];
  }

  /** A request that has been reported done, and not cancelled, may be cancelled again: the test turns
      it down and nothing changes. So MayCancel is the exact condition for requests that are done. */
  lemma TurnedDown(s: State, l: nat)
    requires LoopMay(s, l, CancelTest) && s.jobs[s.loops[l].pc.r].place.Gone?
    ensures var j, t := s.jobs[s.loops[l].pc.r], LoopStep(s, l, CancelTest);
      (t == SetLoop(s, l, s.loops[l].(pc := CancelTested(s.loops[l].pc.r, false)))) <==> (j.inited || j.work.Null?)
  {
  }
}
