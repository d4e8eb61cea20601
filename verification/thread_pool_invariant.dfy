/** What every interleaving of the thread pool keeps true, part by part. */
module ThreadPoolInvariant {
  import opened Lists
  import opened ThreadPool

  // ---- one request ----

  ghost predicate JobOk(j: Job) {
    match j.place
    case New => j.work.Fn? && j.ran == 0 && j.dones == [] && !j.cancelled
    case Pool => j.work.Fn? && !j.inited && j.ran == 0 && j.dones == [] && !j.cancelled
    case With(_) => j.work.Fn? && j.inited && j.ran <= 1 && j.dones == [] && !j.cancelled
    case Loose => !j.work.Null? && !j.inited && j.ran == 0 && j.dones == []
    case Gone =>
      && j.ran <= 1 && |j.dones| == 1 && (j.dones[0].ECanceled? <==> j.ran == 0) && (j.cancelled || j.work.CancelledFn? ==> j.ran == 0)
    case _ =>
      && !j.inited && j.dones == []
      && (if j.work.Null? then j.ran == 1 && !j.cancelled else j.work.CancelledFn? && j.ran == 0)
  }

  ghost predicate JobsOk(s: State) {
    forall r :: r in s.jobs ==> JobOk(s.jobs[r]) && s.jobs[r].loop < |s.loops|
  }

  // ---- who has what ----

  ghost predicate Has(s: State, r: Req, place: Place) {
    r in s.jobs && s.jobs[r].place == place
  }

  ghost predicate Mine(s: State, l: nat, r: Req) {
    r in s.jobs && s.jobs[r].loop == l
  }

  ghost predicate WorkerOk(s: State, i: nat)
    requires i < |s.workers|
  {
    match s.workers[i]
    case Took(r) => Has(s, r, With(i)) && s.jobs[r].ran == 0
    case Running(r) => Has(s, r, With(i)) && s.jobs[r].ran == 0
    case Ran(r) => Has(s, r, With(i)) && s.jobs[r].ran == 1
    case Finishing(r, l) => Has(s, r, With(i)) && s.jobs[r].ran == 1 && s.jobs[r].loop == l && l < |s.loops|
    case Finished(l) => l < |s.loops|
    case _ => true
  }

  ghost predicate WorkersOk(s: State) {
    forall i: nat :: i < |s.workers| ==> WorkerOk(s, i)
  }

  /** What a loop thread in the middle of a call relies on. */
  ghost predicate CallOk(s: State, l: nat, pc: LoopPc) {
    match pc
    case PostWant(r) => Mine(s, l, r) && s.jobs[r].place.New?
    case PostHeld(r) => Mine(s, l, r) && s.jobs[r].place.New?
    case CancelWant(r) => Cancellable(s, l, r)
    case CancelHalf(r) => Cancellable(s, l, r)
    case CancelBoth(r) => Cancellable(s, l, r)
    case CancelTested(r, ok) => Mine(s, l, r) && (ok ==> s.jobs[r].place.Loose?)
    case CancelOut(r, ok) => Mine(s, l, r) && (ok ==> s.jobs[r].place.Loose?)
    case CancelMark(r) => Mine(s, l, r) && s.jobs[r].place.Loose?
    case CancelMarked(r) => Mine(s, l, r) && s.jobs[r].place.Loose? && s.jobs[r].work.CancelledFn?
    case CancelHeld(r) => Mine(s, l, r) && s.jobs[r].place.Loose? && s.jobs[r].work.CancelledFn?
    case CancelPut(r) => Mine(s, l, r) && s.jobs[r].place.Ready? && s.jobs[r].work.CancelledFn?
    case DrainDone => l < |s.loops| && s.loops[l].queue == []
    case _ => true
  }

  ghost predicate Cancellable(s: State, l: nat, r: Req) {
    Mine(s, l, r) && var p := s.jobs[r].place; p.Pool? || p.With? || p.Ready? || p.Local? || (p.Gone? && s.jobs[r].work.Null?)
  }

  ghost predicate ListOk(s: State, l: nat, q: seq<Req>, place: Place) {
    Distinct(q) && forall r :: r in q ==> Mine(s, l, r) && s.jobs[r].place == place
  }

  ghost predicate LoopOk(s: State, l: nat)
    requires l < |s.loops|
  {
    var me := s.loops[l];
    && CallOk(s, l, me.pc) && ListOk(s, l, me.queue, Ready) && ListOk(s, l, me.local, Local)
    && (me.pc.DrainWant? || me.pc.DrainHeld? ==> me.local == [])
  }

  ghost predicate LoopsOk(s: State) {
    forall l: nat :: l < |s.loops| ==> LoopOk(s, l)
  }

  predicate Carries(pc: WorkerPc, r: Req) {
    (pc.Took? || pc.Running? || pc.Ran? || pc.Finishing?) && pc.r == r
  }

  predicate Posts(pc: LoopPc, r: Req) {
    (pc.PostWant? || pc.PostHeld?) && pc.r == r
  }

  predicate Moves(pc: LoopPc, r: Req) {
    || ((pc.CancelTested? || pc.CancelOut?) && pc.r == r && pc.ok)
    || ((pc.CancelMark? || pc.CancelMarked? || pc.CancelHeld?) && pc.r == r)
  }

  /** A request that is not done is somewhere, and somebody will see to it. */
  ghost predicate Tracked(s: State, r: Req)
    requires r in s.jobs
  {
    var j := s.jobs[r];
    j.loop < |s.loops| &&
    var home := s.loops[j.loop];
    match j.place
    case New => Posts(home.pc, r)
    case Pool => Task(r) in s.pool
    case With(i) => i < |s.workers| && Carries(s.workers[i], r)
    case Loose => Moves(home.pc, r)
    case Ready => r in home.queue
    case Local => r in home.local
    case Gone => true
  }

  ghost predicate TrackedOk(s: State) {
    forall r :: r in s.jobs ==> Tracked(s, r)
  }

  // ---- the pool's queue ----

  function Stamp(s: State, x: Item): nat {
    if x.Exit? then s.exitStamp else if x.r in s.jobs then s.jobs[x.r].stamp else 0
  }

  ghost predicate ItemOk(s: State, x: Item) {
    Stamp(s, x) < s.clock && (x.Task? ==> Has(s, x.r, Pool))
  }

  /** The queue is in posting order; the exit message is in it once it has been posted. */
  ghost predicate PoolOk(s: State) {
    && (forall k :: 0 <= k < |s.pool| ==> ItemOk(s, s.pool[k]))
    && (forall i, j :: 0 <= i < j < |s.pool| ==> Stamp(s, s.pool[i]) < Stamp(s, s.pool[j]))
    && (Exit in s.pool <==> s.cleaner.ExitPosted? || s.cleaner.Joining?)
  }

  predicate Quits(pc: WorkerPc) {
    pc.Leaving? || pc.Exited?
  }

  /** A worker leaves only when the exit message is at the head, and there it stays. */
  ghost predicate ExitOk(s: State) {
    forall i: nat :: i < |s.workers| && Quits(s.workers[i]) ==> s.pool != [] && s.pool[0].Exit?
  }

  // ---- locks ----

  predicate HoldsMutex(pc: WorkerPc) {
    pc.Locked? || pc.Took? || pc.Leaving?
  }

  predicate HoldsLoop(pc: WorkerPc, l: nat) {
    (pc.Finishing? || pc.Finished?) && pc.l == l
  }

  predicate LoopHoldsMutex(pc: LoopPc) {
    pc.PostHeld? || pc.PostDone? || pc.CancelHalf? || pc.CancelBoth? || pc.CancelTested? || pc.CancelOut?
  }

  predicate LoopHoldsOwn(pc: LoopPc) {
    pc.CancelBoth? || pc.CancelTested? || pc.CancelHeld? || pc.CancelPut? || pc.DrainHeld? || pc.DrainDone?
  }

  ghost predicate MutexOk(s: State) {
    && (forall i: nat :: i < |s.workers| ==> (HoldsMutex(s.workers[i]) <==> s.mutex == By(Worker(i))))
    && (forall l: nat :: l < |s.loops| ==> (LoopHoldsMutex(s.loops[l].pc) <==> s.mutex == By(Loop(l))))
    && (s.cleaner.ExitHeld? || s.cleaner.ExitPosted? <==> s.mutex == By(Cleaner))
    && (s.mutex.By? && s.mutex.t.Worker? ==> s.mutex.t.i < |s.workers|)
    && (s.mutex.By? && s.mutex.t.Loop? ==> s.mutex.t.l < |s.loops|)
  }

  ghost predicate LoopLockOk(s: State, l: nat)
    requires l < |s.loops|
  {
    var o := s.loops[l].lock;
    && (forall i: nat :: i < |s.workers| ==> (HoldsLoop(s.workers[i], l) <==> o == By(Worker(i))))
    && (LoopHoldsOwn(s.loops[l].pc) <==> o == By(Loop(l)))
    && (o.By? ==> (o.t.Worker? && o.t.i < |s.workers|) || o.t == Loop(l))
  }

  ghost predicate LoopLocksOk(s: State) {
    forall l: nat :: l < |s.loops| ==> LoopLockOk(s, l)
  }

  // ---- nobody sleeps on work ----

  predicate Awake(pc: WorkerPc) {
    !pc.Waiting? && !pc.Exited?
  }

  ghost predicate SomeAwake(s: State, but: int) {
    exists i: nat :: i < |s.workers| && i != but && Awake(s.workers[i])
  }

  /** Work in the queue and a worker asleep: then a worker is awake, one that is about to leave
      not counted. */
  ghost predicate Progress(s: State) {
    s.pool != [] && AnyWaits(s.workers) ==>
      SomeAwake(s, -1) && forall i: nat :: i < |s.workers| && s.workers[i].Leaving? ==> SomeAwake(s, i)
  }

  ghost predicate Inv(s: State) {
    JobsOk(s) && WorkersOk(s) && LoopsOk(s) && TrackedOk(s) && PoolOk(s) && ExitOk(s) && MutexOk(s) && LoopLocksOk(s) && Progress(s)
  }
}
