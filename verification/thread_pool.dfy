/** libuv/src/threadpool.c as an interleaving of atomic steps: workers, loop threads that
    submit, cancel and drain, and the exit handler; two kinds of mutex, a condition variable
    with spurious wakeups, any number of requests. */
module ThreadPool {
  import opened Lists

  type Req = nat

  datatype Thread = Worker(i: nat) | Loop(l: nat) | Cleaner
  datatype Owner = Nobody | By(t: Thread)

  datatype Work = Fn | Null | CancelledFn
  datatype Status = Success | ECanceled

  /** Where a request is: not posted yet, in the pool's queue, with a worker, taken out by a
      cancel, in its loop's queue, in the list being drained, or done. */
  datatype Place = New | Pool | With(i: nat) | Loose | Ready | Local | Gone

  /** struct uv__work, with its history. `inited` is QUEUE_EMPTY of its node; `ran` counts
      calls of the work function, `dones` are the statuses given to `done`, `cancelled` is
      whether a cancel has returned 0. */
  datatype Job = Job(loop: nat, work: Work, inited: bool, place: Place, stamp: nat,
                     ran: nat, dones: seq<Status>, cancelled: bool)

  datatype Item = Exit | Task(r: Req)

  datatype WorkerPc =
    | Start | Locked | Waiting | Woken | Took(r: Req) | Running(r: Req) | Ran(r: Req)
    | Finishing(r: Req, l: nat) | Finished(l: nat) | Leaving | Exited

  datatype LoopPc =
    | Free
    | PostWant(r: Req) | PostHeld(r: Req) | PostDone
    | CancelWant(r: Req) | CancelHalf(r: Req) | CancelBoth(r: Req) | CancelTested(r: Req, ok: bool)
    | CancelOut(r: Req, ok: bool) | CancelMark(r: Req) | CancelMarked(r: Req) | CancelHeld(r: Req) | CancelPut(r: Req)
    | DrainWant | DrainHeld | DrainDone

  datatype CleanerPc = Idle | ExitWant | ExitHeld | ExitPosted | Joining

  /** A loop: its thread, wq_mutex, wq, and the list that uv__work_done splits off. */
  datatype LoopState = LoopState(pc: LoopPc, lock: Owner, queue: seq<Req>, local: seq<Req>)

  datatype State = State(
    mutex: Owner, pool: seq<Item>, workers: seq<WorkerPc>, loops: seq<LoopState>, cleaner: CleanerPc,
    jobs: map<Req, Job>, clock: nat, exitStamp: nat)

  function Init(workers: nat, loops: nat): State {
    State(Nobody, [], seq(workers, _ => Start), seq(loops, _ => LoopState(Free, Nobody, [], [])), Idle, map[], 0, 0)
  }

  /** The atomic steps of a worker, a loop thread and the exit handler; `wake` is whom a
      signal wakes. */
  datatype WorkerAction = Lock | Check(wake: set<nat>) | Unlock | Work | LockLoop | Finish | UnlockLoop | WakeUp

  datatype LoopAction =
    | Submit(r: Req) | PostLock | PostInsert(wake: set<nat>) | PostUnlock
    | Cancel(r: Req) | CancelLock | CancelLockLoop | CancelTest | CancelUnlockLoop | CancelUnlock
    | CancelSet | CancelRelock | CancelInsert | CancelReturn
    | Drain | DrainLock | DrainSplit | DrainUnlock | RunDone

  datatype CleanerAction = Cleanup | ExitLock | ExitInsert(wake: set<nat>) | ExitUnlock

  datatype Action = ByWorker(i: nat, w: WorkerAction) | ByLoop(l: nat, a: LoopAction) | ByCleaner(c: CleanerAction)

  function ThreadOf(a: Action): Thread {
    match a
    case ByWorker(i, _) => Worker(i)
    case ByLoop(l, _) => Loop(l)
    case ByCleaner(_) => Cleaner
  }

  // ---- the condition variable ----

  predicate AnyWaits(ws: seq<WorkerPc>) {
    exists i :: 0 <= i < |ws| && ws[i].Waiting?
  }

  /** uv_cond_signal wakes at least one waiter, if there is one. */
  predicate MayWake(ws: seq<WorkerPc>, wake: set<nat>) {
    AnyWaits(ws) ==> exists i: nat :: i in wake && i < |ws| && ws[i].Waiting?
  }

  /** The worker i after a signal. */
  function Wakened(ws: seq<WorkerPc>, wake: set<nat>, i: int): WorkerPc {
    if !(0 <= i < |ws|) then Exited else if i in wake && ws[i].Waiting? then Woken else ws[i]
  }

  function Signal(ws: seq<WorkerPc>, wake: set<nat>): (r: seq<WorkerPc>)
    ensures |r| == |ws|
  {
    seq(|ws|, i => Wakened(ws, wake, i))
  }

  // ---- workers ----

  predicate WorkerMay(s: State, i: nat, a: WorkerAction) {
    i < |s.workers| &&
    var pc := s.workers[i];
    match a
    case Lock => (pc.Start? || pc.Woken?) && s.mutex.Nobody?
    case Check(wake) =>
      pc.Locked? && (s.pool != [] ==> if s.pool[0].Exit? then MayWake(s.workers, wake) else s.pool[0].r in s.jobs)
    case Unlock => pc.Took? || pc.Leaving?
    case Work => pc.Running? && pc.r in s.jobs
    case LockLoop =>
      pc.Ran? && pc.r in s.jobs && s.jobs[pc.r].loop < |s.loops| && s.loops[s.jobs[pc.r].loop].lock.Nobody?
    case Finish => pc.Finishing? && pc.r in s.jobs && pc.l < |s.loops|
    case UnlockLoop => pc.Finished? && pc.l < |s.loops|
    case WakeUp => pc.Waiting?
  }

  function SetWorker(s: State, i: nat, pc: WorkerPc): State
    requires i < |s.workers|
  {
    s.(workers := s.workers[i := pc])
  }

  function SetLoop(s: State, l: nat, loop: LoopState): State
    requires l < |s.loops|
  {
    s.(loops := s.loops[l := loop])
  }

  /** What a worker does with the mutex held: wait, leave, or take the head of the queue. */
  function CheckQueue(s: State, i: nat, wake: set<nat>): State
    requires WorkerMay(s, i, Check(wake))
  {
    if s.pool == [] then SetWorker(s, i, Waiting).(mutex := Nobody)
    else if s.pool[0].Exit? then s.(workers := Signal(s.workers, wake)[i := Leaving])
    else
      var r := s.pool[0].r;
      SetWorker(s, i, Took(r)).(pool := s.pool[1..], jobs := s.jobs[r := s.jobs[r].(inited := true, place := With(i))])
  }

  function WorkerStep(s: State, i: nat, a: WorkerAction): State
    requires WorkerMay(s, i, a)
  {
    var pc := s.workers[i];
    match a
    case Lock => SetWorker(s, i, Locked).(mutex := By(Worker(i)))
    case Check(wake) => CheckQueue(s, i, wake)
    case Unlock => SetWorker(s, i, if pc.Took? then Running(pc.r) else Exited).(mutex := Nobody)
    case Work =>
      SetWorker(s, i, Ran(pc.r)).(jobs := s.jobs[pc.r := s.jobs[pc.r].(ran := s.jobs[pc.r].ran + 1)])
    case LockLoop =>
      var l := s.jobs[pc.r].loop;
      SetLoop(SetWorker(s, i, Finishing(pc.r, l)), l, s.loops[l].(lock := By(Worker(i))))
    case Finish =>
      SetLoop(SetWorker(s, i, Finished(pc.l)), pc.l, s.loops[pc.l].(queue := s.loops[pc.l].queue + [pc.r]))
      .(jobs := s.jobs[pc.r := s.jobs[pc.r].(work := Null, inited := false, place := Ready)])
    case UnlockLoop => SetLoop(SetWorker(s, i, Start), pc.l, s.loops[pc.l].(lock := Nobody))
    case WakeUp => SetWorker(s, i, Woken)
  }

  // ---- post ----

  /** post, between lock and unlock. */
  function Insert(s: State, x: Item, wake: set<nat>): State {
    var ws := if s.pool == [] then Signal(s.workers, wake) else s.workers;
    s.(workers := ws, pool := s.pool + [x], clock := s.clock + 1)
  }

  predicate InsertMay(s: State, wake: set<nat>) {
    s.pool == [] ==> MayWake(s.workers, wake)
  }

  // ---- loop threads ----

  /** A request that may be given to uv_cancel: not one whose `done` has reported it cancelled, since
      uv__work_done leaves the node and the work as they were. */
  predicate MayCancel(j: Job) {
    !j.place.New? && (j.place.Gone? ==> j.work.Null?)
  }

  predicate LoopMay(s: State, l: nat, a: LoopAction) {
    l < |s.loops| &&
    var me, pc := s.loops[l], s.loops[l].pc;
    match a
    case Submit(r) => pc.Free? && r !in s.jobs
    case PostLock => pc.PostWant? && s.mutex.Nobody?
    case PostInsert(wake) => pc.PostHeld? && pc.r in s.jobs && InsertMay(s, wake)
    case PostUnlock => pc.PostDone?
    case Cancel(r) => pc.Free? && r in s.jobs && s.jobs[r].loop == l && MayCancel(s.jobs[r])
    case CancelLock => pc.CancelWant? && s.mutex.Nobody?
    case CancelLockLoop => pc.CancelHalf? && me.lock.Nobody?
    case CancelTest => pc.CancelBoth? && pc.r in s.jobs
    case CancelUnlockLoop => pc.CancelTested?
    case CancelUnlock => pc.CancelOut?
    case CancelSet => pc.CancelMark? && pc.r in s.jobs
    case CancelRelock => pc.CancelMarked? && me.lock.Nobody?
    case CancelInsert => pc.CancelHeld? && pc.r in s.jobs
    case CancelReturn => pc.CancelPut? && pc.r in s.jobs
    case Drain => pc.Free? && me.local == []
    case DrainLock => pc.DrainWant? && me.lock.Nobody?
    case DrainSplit => pc.DrainHeld?
    case DrainUnlock => pc.DrainDone?
    case RunDone => pc.Free? && me.local != [] && me.local[0] in s.jobs
  }

  /** uv__work_cancel with both locks held: the node is taken out of the list it is in. */
  function Test(s: State, l: nat, r: Req): State
    requires l < |s.loops| && r in s.jobs
  {
    var j, me := s.jobs[r], s.loops[l];
    var ok := !j.inited && !j.work.Null?;
    var at := me.(pc := CancelTested(r, ok));
    if !ok then SetLoop(s, l, at)
    else
      var t := s.(jobs := s.jobs[r := j.(place := Loose)]);
      match j.place
      case Pool => SetLoop(t, l, at).(pool := Without(s.pool, Task(r)))
      case Ready => SetLoop(t, l, at.(queue := Without(me.queue, r)))
      case Local => SetLoop(t, l, at.(local := Without(me.local, r)))
      case _ => SetLoop(t, l, at)
  }

  /** The status uv__work_done reports. */
  function StatusOf(j: Job): Status {
    if j.work.CancelledFn? then ECanceled else Success
  }

  function LoopStep(s: State, l: nat, a: LoopAction): State
    requires LoopMay(s, l, a)
  {
    var me, pc := s.loops[l], s.loops[l].pc;
    match a
    case Submit(r) =>
      SetLoop(s, l, me.(pc := PostWant(r))).(jobs := s.jobs[r := Job(l, Fn, true, New, 0, 0, [], false)])
    case PostLock => SetLoop(s, l, me.(pc := PostHeld(pc.r))).(mutex := By(Loop(l)))
    case PostInsert(wake) =>
      Insert(SetLoop(s, l, me.(pc := PostDone)), Task(pc.r), wake)
      .(jobs := s.jobs[pc.r := s.jobs[pc.r].(inited := false, place := Pool, stamp := s.clock)])
    case PostUnlock => SetLoop(s, l, me.(pc := Free)).(mutex := Nobody)
    case Cancel(r) => SetLoop(s, l, me.(pc := CancelWant(r)))
    case CancelLock => SetLoop(s, l, me.(pc := CancelHalf(pc.r))).(mutex := By(Loop(l)))
    case CancelLockLoop => SetLoop(s, l, me.(pc := CancelBoth(pc.r), lock := By(Loop(l))))
    case CancelTest => Test(s, l, pc.r)
    case CancelUnlockLoop => SetLoop(s, l, me.(pc := CancelOut(pc.r, pc.ok), lock := Nobody))
    case CancelUnlock => SetLoop(s, l, me.(pc := if pc.ok then CancelMark(pc.r) else Free)).(mutex := Nobody)
    case CancelSet =>
      SetLoop(s, l, me.(pc := CancelMarked(pc.r))).(jobs := s.jobs[pc.r := s.jobs[pc.r].(work := CancelledFn)])
    case CancelRelock => SetLoop(s, l, me.(pc := CancelHeld(pc.r), lock := By(Loop(l))))
    case CancelInsert =>
      SetLoop(s, l, me.(pc := CancelPut(pc.r), queue := me.queue + [pc.r]))
      .(jobs := s.jobs[pc.r := s.jobs[pc.r].(place := Ready)])
    case CancelReturn =>
      SetLoop(s, l, me.(pc := Free, lock := Nobody)).(jobs := s.jobs[pc.r := s.jobs[pc.r].(cancelled := true)])
    case Drain => SetLoop(s, l, me.(pc := DrainWant))
    case DrainLock => SetLoop(s, l, me.(pc := DrainHeld, lock := By(Loop(l))))
    case DrainSplit =>
      SetLoop(s, l, me.(pc := DrainDone, queue := [], local := me.queue)).(jobs := MoveAll(s.jobs, me.queue))
    case DrainUnlock => SetLoop(s, l, me.(pc := Free, lock := Nobody))
    case RunDone =>
      var r := me.local[0];
      var j := s.jobs[r];
      SetLoop(s, l, me.(local := me.local[1..]))
      .(jobs := s.jobs[r := j.(place := Gone, dones := j.dones + [StatusOf(j)])])
  }

  /** The requests of a loop's queue are now in the list being drained. */
  function MoveAll(jobs: map<Req, Job>, queue: seq<Req>): map<Req, Job> {
    map r | r in jobs :: if r in queue then jobs[r].(place := Local) else jobs[r]
  }

  // ---- the exit handler ----

  predicate CleanerMay(s: State, a: CleanerAction) {
    match a
    case Cleanup => s.cleaner.Idle?
    case ExitLock => s.cleaner.ExitWant? && s.mutex.Nobody?
    case ExitInsert(wake) => s.cleaner.ExitHeld? && InsertMay(s, wake)
    case ExitUnlock => s.cleaner.ExitPosted?
  }

  function CleanerStep(s: State, a: CleanerAction): State
    requires CleanerMay(s, a)
  {
    match a
    case Cleanup => s.(cleaner := ExitWant)
    case ExitLock => s.(cleaner := ExitHeld, mutex := By(Cleaner))
    case ExitInsert(wake) => Insert(s, Exit, wake).(cleaner := ExitPosted, exitStamp := s.clock)
    case ExitUnlock => s.(cleaner := Joining, mutex := Nobody)
  }

  predicate May(s: State, a: Action) {
    match a
    case ByWorker(i, w) => WorkerMay(s, i, w)
    case ByLoop(l, b) => LoopMay(s, l, b)
    case ByCleaner(c) => CleanerMay(s, c)
  }

  function Step(s: State, a: Action): State
    requires May(s, a)
  {
    match a
    case ByWorker(i, w) => WorkerStep(s, i, w)
    case ByLoop(l, b) => LoopStep(s, l, b)
    case ByCleaner(c) => CleanerStep(s, c)
  }

  /** Any interleaving: a step that is not possible is skipped. */
  function Run(s: State, steps: seq<Action>): State
    decreases |steps|
  {
    if steps == [] then s
    else Run(if May(s, steps[0]) then Step(s, steps[0]) else s, steps[1..])
  }
}
