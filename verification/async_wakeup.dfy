/** Coalesced wakeups (libuv/src/unix/async.c) under the functor queues of
    uvpp/uvpp_asyncfunctor.h, as an interleaving of atomic steps: any number of producer
    threads, one loop, any number of handles that share its eventfd. */
module AsyncWakeup {

  type Functor = nat

  /** A std::function; it may be empty. */
  datatype Callback = Null | Fun(f: Functor)

  datatype Owner = Nobody | Producer(i: nat) | LoopThread

  /** An AsyncFunctor with its async handle: the pending flag, the mutex and the deque, and what
      has been pushed and run so far. */
  datatype Handle = Handle(pending: bool, mutex: Owner, functors: seq<Callback>, pushed: seq<Callback>, ran: seq<Callback>)

  /** A producer in AsyncFunctor::queue: the lock, push_back, the cheap read, the compare and
      swap, the write to the eventfd, the unlock. */
  datatype ProducerPc = Idle | Locking(h: nat, x: Callback) | Pushing(h: nat, x: Callback)
                      | Reading(h: nat) | Swapping(h: nat) | Writing(h: nat) | Unlocking(h: nat)

  /** The loop: in the poll, about to read the eventfd, at a handle of the list, or in onFunctor
      of one: the lock, the pop, the unlock, the call. */
  datatype LoopPc = Polling | Waking | Visiting(h: nat)
                  | Taking(h: nat) | Popping(h: nat) | Releasing(h: nat, x: Callback) | Calling(h: nat, x: Callback)

  datatype State = State(handles: seq<Handle>, counter: nat, producers: seq<ProducerPc>, loop: LoopPc)

  /** The largest value an eventfd holds; a write beyond it fails with EAGAIN and is ignored. */
  const EVENTFD_MAX: nat := 0xFFFF_FFFF_FFFF_FFFE

  function Init(handles: nat, producers: nat): State {
    State(seq(handles, _ => Handle(false, Nobody, [], [], [])), 0, seq(producers, _ => Idle), Polling)
  }

  datatype Action = Queue(i: nat, h: nat, x: Callback) | Produce(i: nat) | Loop

  predicate May(s: State, a: Action) {
    match a
    case Queue(i, h, x) => i < |s.producers| && s.producers[i].Idle? && h < |s.handles|
    case Produce(i) =>
      i < |s.producers| &&
      (match s.producers[i]
       case Idle => false
       case Locking(h, _) => h < |s.handles| && s.handles[h].mutex.Nobody?
       case pc => pc.h < |s.handles|)
    case Loop =>
      match s.loop
      case Polling => s.counter > 0
      case Waking => true
      case Visiting(_) => true
      case Taking(h) => h < |s.handles| && s.handles[h].mutex.Nobody?
      case pc => pc.h < |s.handles|
  }

  function Set(s: State, h: nat, x: Handle): State
    requires h < |s.handles|
  {
    s.(handles := s.handles[h := x])
  }

  function ProducerStep(s: State, i: nat): State
    requires May(s, Produce(i))
  {
    var pc := s.producers[i];
    var h := pc.h;
    var me := s.handles[h];
    var Next := (q: ProducerPc) => s.producers[i := q];
    match pc
    case Locking(_, x) => Set(s, h, me.(mutex := Producer(i))).(producers := Next(Pushing(h, x)))
    case Pushing(_, x) =>
      Set(s, h, me.(functors := me.functors + [x], pushed := me.pushed + [x])).(producers := Next(Reading(h)))
    case Reading(_) => s.(producers := Next(if me.pending then Unlocking(h) else Swapping(h)))
    case Swapping(_) =>
      Set(s, h, me.(pending := true)).(producers := Next(if me.pending then Unlocking(h) else Writing(h)))
    case Writing(_) =>
      s.(counter := if s.counter < EVENTFD_MAX then s.counter + 1 else s.counter, producers := Next(Unlocking(h)))
    case Unlocking(_) => Set(s, h, me.(mutex := Nobody)).(producers := Next(Idle))
  }

  function LoopStep(s: State): State
    requires May(s, Loop)
  {
    match s.loop
    case Polling => s.(loop := Waking)
    case Waking => s.(counter := 0, loop := Visiting(0))
    case Visiting(h) =>
      if h >= |s.handles| then s.(loop := Polling)
      else if s.handles[h].pending then Set(s, h, s.handles[h].(pending := false)).(loop := Taking(h))
      else s.(loop := Visiting(h + 1))
    case Taking(h) => Set(s, h, s.handles[h].(mutex := LoopThread)).(loop := Popping(h))
    case Popping(h) =>
      var me := s.handles[h];
      if me.functors == [] then s.(loop := Releasing(h, Null))
      else Set(s, h, me.(functors := me.functors[1..])).(loop := Releasing(h, me.functors[0]))
    case Releasing(h, x) =>
      Set(s, h, s.handles[h].(mutex := Nobody)).(loop := if x.Fun? then Calling(h, x) else Visiting(h + 1))
    case Calling(h, x) =>
      Set(s, h, s.handles[h].(ran := s.handles[h].ran + [x])).(loop := Taking(h))
  }

  function Step(s: State, a: Action): State
    requires May(s, a)
  {
    match a
    case Queue(i, h, x) => s.(producers := s.producers[i := Locking(h, x)])
    case Produce(i) => ProducerStep(s, i)
    case Loop => LoopStep(s)
  }

  function Run(s: State, steps: seq<Action>): State
    decreases |steps|
  {
    if steps == [] then s
    else Run(if May(s, steps[0]) then Step(s, steps[0]) else s, steps[1..])
  }

  // ---- the invariant ----

  /** The functor the loop has taken out and not run yet. */
  function InHand(s: State, h: nat): seq<Callback> {
    if (s.loop.Releasing? || s.loop.Calling?) && s.loop.h == h && s.loop.x.Fun? then [s.loop.x] else []
  }

  predicate HoldsMutex(pc: ProducerPc, h: nat) {
    !pc.Idle? && !pc.Locking? && pc.h == h
  }

  ghost predicate LocksOk(s: State, h: nat)
    requires h < |s.handles|
  {
    && (forall i: nat :: i < |s.producers| ==> (HoldsMutex(s.producers[i], h) <==> s.handles[h].mutex == Producer(i)))
    && ((s.loop.Popping? || s.loop.Releasing?) && s.loop.h == h <==> s.handles[h].mutex == LoopThread)
    && (s.handles[h].mutex.Producer? ==> s.handles[h].mutex.i < |s.producers|)
  }

  /** The functors that can be called. */
  function Callables(q: seq<Callback>): seq<Callback> {
    if q == [] then [] else (if q[0].Fun? then [q[0]] else []) + Callables(q[1..])
  }

  /** Everything pushed that can be called has been run, is in the loop's hand, or is still queued,
      in this order. */
  ghost predicate Fifo(s: State, h: nat)
    requires h < |s.handles|
  {
    Callables(s.handles[h].pushed) == s.handles[h].ran + InHand(s, h) + Callables(s.handles[h].functors)
  }

  /** The loop has read the eventfd and will come by handle h, or is yet to read it. */
  predicate WillVisit(s: State, h: nat) {
    match s.loop
    case Polling => s.counter > 0
    case Waking => true
    case Visiting(k) => k <= h || s.counter > 0
    case pc => pc.h < h || s.counter > 0
  }

  ghost predicate SomeWrites(s: State, h: nat) {
    exists i: nat :: i < |s.producers| && s.producers[i] == Writing(h)
  }

  ghost predicate SomeSends(s: State, h: nat) {
    exists i: nat :: i < |s.producers| && (s.producers[i] == Reading(h) || s.producers[i] == Swapping(h))
  }

  /** The loop is in onFunctor of h and will look at the queue again. */
  predicate Drains(s: State, h: nat) {
    match s.loop
    case Taking(k) => k == h
    case Popping(k) => k == h
    case Releasing(k, x) => k == h && x.Fun?
    case Calling(k, x) => k == h
    case _ => false
  }

  /** A set flag has a wakeup written or about to be. */
  ghost predicate FlagOk(s: State, h: nat)
    requires h < |s.handles|
  {
    s.handles[h].pending ==> WillVisit(s, h) || SomeWrites(s, h)
  }

  /** No lost wakeup: where functors are queued, the flag is set, or the loop will look again, or
      a producer has yet to send. */
  ghost predicate QueueOk(s: State, h: nat)
    requires h < |s.handles|
  {
    s.handles[h].functors != [] ==> s.handles[h].pending || Drains(s, h) || SomeSends(s, h)
  }

  /** What holds in every run. */
  ghost predicate HandleOk(s: State, h: nat)
    requires h < |s.handles|
  {
    LocksOk(s, h) && Fifo(s, h) && FlagOk(s, h)
  }

  ghost predicate PcsOk(s: State) {
    && (forall i: nat :: i < |s.producers| && !s.producers[i].Idle? ==> s.producers[i].h < |s.handles|)
    && (!s.loop.Polling? && !s.loop.Waking? && !s.loop.Visiting? ==> s.loop.h < |s.handles|)
    && (s.loop.Visiting? ==> s.loop.h <= |s.handles|)
    && (s.loop.Calling? ==> s.loop.x.Fun?)
    // the read of the eventfd never comes up empty, as uv__async_io asserts
    && (s.loop.Waking? ==> s.counter > 0)
  }

  ghost predicate Inv(s: State) {
    PcsOk(s) && forall h: nat :: h < |s.handles| ==> HandleOk(s, h)
  }

  predicate AllFun(q: seq<Callback>) {
    forall x :: x in q ==> x.Fun?
  }

  /** What holds besides as long as only functors that can be called are queued. */
  ghost predicate Callable(s: State) {
    && (forall i: nat :: i < |s.producers| && (s.producers[i].Locking? || s.producers[i].Pushing?) ==> s.producers[i].x.Fun?)
    && (forall h: nat :: h < |s.handles| ==> AllFun(s.handles[h].functors) && QueueOk(s, h))
    && (s.loop.Releasing? && s.loop.x.Null? && s.loop.h < |s.handles| ==> s.handles[s.loop.h].functors == [])
  }

  /** Only functors that can be called are queued. */
  predicate NoNull(steps: seq<Action>) {
    forall k :: 0 <= k < |steps| && steps[k].Queue? ==> steps[k].x.Fun?
  }

  lemma InitInv(handles: nat, producers: nat)
    ensures Inv(Init(handles, producers)) && Callable(Init(handles, producers))
  {
    var s := Init(handles, producers);
    assert forall h: nat :: h < handles ==> s.handles[h] == Handle(false, Nobody, [], [], []);
    assert forall i: nat :: i < producers ==> s.producers[i] == Idle;
    forall h: nat | h < handles ensures HandleOk(s, h) {
    }
  }

  // ---- steps of a producer ----

  lemma OtherSends(s: State, t: State, i: nat, k: nat)
    requires i < |s.producers| == |t.producers| && t.producers == s.producers[i := t.producers[i]]
    requires s.producers[i] != Reading(k) && s.producers[i] != Swapping(k)
    ensures SomeSends(s, k) ==> SomeSends(t, k)
  {
    if SomeSends(s, k) {
      var j: nat :| j < |s.producers| && (s.producers[j] == Reading(k) || s.producers[j] == Swapping(k));
      assert t.producers[j] == s.producers[j];
    }
  }

  lemma OtherWrites(s: State, t: State, i: nat, k: nat)
    requires i < |s.producers| == |t.producers| && t.producers == s.producers[i := t.producers[i]]
    requires s.producers[i] != Writing(k)
    ensures SomeWrites(s, k) ==> SomeWrites(t, k)
  {
    if SomeWrites(s, k) {
      var j: nat :| j < |s.producers| && s.producers[j] == Writing(k);
      assert t.producers[j] == s.producers[j];
    }
  }

  lemma Sends(s: State, i: nat, k: nat)
    requires i < |s.producers| && (s.producers[i] == Reading(k) || s.producers[i] == Swapping(k))
    ensures SomeSends(s, k)
  {
  }

  lemma Writes(s: State, i: nat, k: nat)
    requires i < |s.producers| && s.producers[i] == Writing(k)
    ensures SomeWrites(s, k)
  {
  }

  lemma {:induction false} CallablesMore(q: seq<Callback>, x: Callback)
    ensures Callables(q + [x]) == Callables(q) + (if x.Fun? then [x] else [])
  {
    var one := if x.Fun? then [x] else [];
    if q == [] {
      assert q + [x] == [x] && [x][1..] == [];
    } else {
      var first := if q[0].Fun? then [q[0]] else [];
      assert (q + [x])[1..] == q[1..] + [x];
      CallablesMore(q[1..], x);
      assert Callables(q + [x]) == first + Callables(q[1..] + [x]);
      assert Callables(q) == first + Callables(q[1..]);
      assert first + (Callables(q[1..]) + one) == (first + Callables(q[1..])) + one;
    }
  }

  lemma QueueKeeps(s: State, i: nat, h: nat, x: Callback)
    requires Inv(s) && May(s, Queue(i, h, x))
    ensures Inv(Step(s, Queue(i, h, x))) && (Callable(s) && x.Fun? ==> Callable(Step(s, Queue(i, h, x))))
  {
    var t := Step(s, Queue(i, h, x));
    forall k: nat | k < |t.handles| ensures HandleOk(t, k) && (QueueOk(s, k) ==> QueueOk(t, k)) {
      assert HandleOk(s, k);
      OtherSends(s, t, i, k);
      OtherWrites(s, t, i, k);
    }
  }

  lemma ProducerPcs(s: State, i: nat)
    requires Inv(s) && May(s, Produce(i))
    ensures PcsOk(ProducerStep(s, i))
  {
    assert HandleOk(s, s.producers[i].h);
  }

  lemma ProducerLocks(s: State, i: nat, k: nat)
    requires Inv(s) && May(s, Produce(i)) && k < |s.handles|
    ensures LocksOk(ProducerStep(s, i), k)
  {
    assert HandleOk(s, k);
  }

  lemma ProducerFifo(s: State, i: nat, k: nat)
    requires Inv(s) && May(s, Produce(i)) && k < |s.handles|
    ensures Fifo(ProducerStep(s, i), k)
  {
    hide Callables;
    assert HandleOk(s, k);
    var pc := s.producers[i];
    if pc.Pushing? && pc.h == k {
      CallablesMore(s.handles[k].pushed, pc.x);
      CallablesMore(s.handles[k].functors, pc.x);
    }
  }

  lemma ProducerFlag(s: State, i: nat, k: nat)
    requires Inv(s) && May(s, Produce(i)) && k < |s.handles|
    ensures FlagOk(ProducerStep(s, i), k)
  {
    var t, pc := ProducerStep(s, i), s.producers[i];
    assert HandleOk(s, k);
    if pc == Writing(k) {
      assert t.counter > 0;
    } else {
      OtherWrites(s, t, i, k);
      if pc == Swapping(k) && !s.handles[k].pending {
        Writes(t, i, k);
      }
    }
  }

  lemma ProducerQueue(s: State, i: nat, k: nat)
    requires Inv(s) && Callable(s) && May(s, Produce(i)) && k < |s.handles|
    ensures QueueOk(ProducerStep(s, i), k) && AllFun(ProducerStep(s, i).handles[k].functors)
  {
    var t, pc := ProducerStep(s, i), s.producers[i];
    assert AllFun(s.handles[k].functors) && QueueOk(s, k);
    if pc == Reading(k) {
      if !s.handles[k].pending {
        Sends(t, i, k);
      }
    } else if pc != Swapping(k) {
      OtherSends(s, t, i, k);
      if pc.Pushing? && pc.h == k {
        Sends(t, i, k);
      }
    }
  }

  lemma ProducerKeeps(s: State, i: nat)
    requires Inv(s) && May(s, Produce(i))
    ensures Inv(ProducerStep(s, i))
  {
    var t := ProducerStep(s, i);
    ProducerPcs(s, i);
    forall k: nat | k < |t.handles| ensures HandleOk(t, k) {
      ProducerLocks(s, i, k);
      ProducerFifo(s, i, k);
      ProducerFlag(s, i, k);
    }
  }

  lemma ProducerCallable(s: State, i: nat)
    requires Inv(s) && Callable(s) && May(s, Produce(i))
    ensures Callable(ProducerStep(s, i))
  {
    var t := ProducerStep(s, i);
    assert HandleOk(s, s.producers[i].h);
    forall k: nat | k < |t.handles| ensures AllFun(t.handles[k].functors) && QueueOk(t, k) {
      ProducerQueue(s, i, k);
    }
  }

  // ---- steps of the loop ----

  lemma SameProducers(s: State, t: State, k: nat)
    requires t.producers == s.producers
    ensures SomeSends(t, k) <==> SomeSends(s, k)
    ensures SomeWrites(t, k) <==> SomeWrites(s, k)
  {
  }

  lemma LoopPcs(s: State)
    requires Inv(s) && May(s, Loop)
    ensures PcsOk(LoopStep(s))
  {
  }

  lemma LoopLocks(s: State, k: nat)
    requires Inv(s) && May(s, Loop) && k < |s.handles|
    ensures LocksOk(LoopStep(s), k)
  {
    assert HandleOk(s, k);
  }

  lemma CallablesTake(q: seq<Callback>, ran: seq<Callback>)
    requires q != []
    ensures ran + [] + Callables(q) == ran + (if q[0].Fun? then [q[0]] else []) + Callables(q[1..])
  {
  }

  lemma LoopFifo(s: State, k: nat)
    requires Inv(s) && May(s, Loop) && k < |s.handles|
    ensures Fifo(LoopStep(s), k)
  {
    hide Callables;
    assert HandleOk(s, k);
    var me := s.handles[k];
    if s.loop == Popping(k) && me.functors != [] {
      CallablesTake(me.functors, me.ran);
    }
  }

  lemma LoopFlag(s: State, k: nat)
    requires Inv(s) && May(s, Loop) && k < |s.handles|
    ensures FlagOk(LoopStep(s), k)
  {
    assert HandleOk(s, k);
    SameProducers(s, LoopStep(s), k);
  }

  lemma LoopKeeps(s: State)
    requires Inv(s) && May(s, Loop)
    ensures Inv(LoopStep(s))
  {
    var t := LoopStep(s);
    LoopPcs(s);
    forall k: nat | k < |t.handles| ensures HandleOk(t, k) {
      LoopLocks(s, k);
      LoopFifo(s, k);
      LoopFlag(s, k);
    }
  }

  lemma LoopQueue(s: State, k: nat)
    requires Inv(s) && Callable(s) && May(s, Loop) && k < |s.handles|
    ensures QueueOk(LoopStep(s), k) && AllFun(LoopStep(s).handles[k].functors)
  {
    assert AllFun(s.handles[k].functors) && QueueOk(s, k);
    SameProducers(s, LoopStep(s), k);
  }

  lemma LoopCallable(s: State)
    requires Inv(s) && Callable(s) && May(s, Loop)
    ensures Callable(LoopStep(s))
  {
    var t := LoopStep(s);
    forall k: nat | k < |t.handles| ensures AllFun(t.handles[k].functors) && QueueOk(t, k) {
      LoopQueue(s, k);
    }
    if s.loop.Popping? {
      assert AllFun(s.handles[s.loop.h].functors);
      assert s.handles[s.loop.h].functors != [] ==> s.handles[s.loop.h].functors[0] in s.handles[s.loop.h].functors;
    }
  }

  lemma StepKeeps(s: State, a: Action)
    requires Inv(s) && May(s, a)
    ensures Inv(Step(s, a)) && (Callable(s) && (a.Queue? ==> a.x.Fun?) ==> Callable(Step(s, a)))
  {
    hide Inv, Callable, ProducerStep, LoopStep;
    match a {
      case Queue(i, h, x) => QueueKeeps(s, i, h, x);
      case Produce(i) =>
        ProducerKeeps(s, i);
        if Callable(s) {
          ProducerCallable(s, i);
        }
      case Loop =>
        LoopKeeps(s);
        if Callable(s) {
          LoopCallable(s);
        }
    }
  }

  /** Every interleaving keeps it. */
  lemma {:induction false} RunKeeps(s: State, steps: seq<Action>)
    requires Inv(s)
    ensures Inv(Run(s, steps)) && (Callable(s) && NoNull(steps) ==> Callable(Run(s, steps)))
    decreases |steps|
  {
    hide Inv, Callable, Step, May;
    if steps != [] {
      var a, rest := steps[0], steps[1..];
      assert NoNull(steps) ==> NoNull(rest) by {
        assert forall k :: 0 <= k < |rest| ==> rest[k] == steps[k + 1];
      }
      if May(s, a) {
        StepKeeps(s, a);
        RunKeeps(Step(s, a), rest);
      } else {
        RunKeeps(s, rest);
      }
    }
  }

  // ---- what follows ----

  /** In every run, each functor is run at most once and in the order of queueing: what has been
      run is what was pushed and can be called, less the one in the loop's hand and those still
      queued. */
  lemma FifoOnce(handles: nat, producers: nat, steps: seq<Action>, h: nat)
    requires h < |Run(Init(handles, producers), steps).handles|
    ensures var s := Run(Init(handles, producers), steps);
      Callables(s.handles[h].pushed) == s.handles[h].ran + InHand(s, h) + Callables(s.handles[h].functors)
  {
    InitInv(handles, producers);
    RunKeeps(Init(handles, producers), steps);
    assert HandleOk(Run(Init(handles, producers), steps), h);
  }

  ghost predicate AllIdle(s: State) {
    forall i: nat :: i < |s.producers| ==> s.producers[i].Idle?
  }

  /** No wakeup is lost although sends are coalesced: with functors queued, all of which can be
      called, and no producer in the middle of a call, a waiting loop has its eventfd readable. */
  lemma PollReturns(s: State, h: nat)
    requires Inv(s) && Callable(s) && AllIdle(s) && s.loop.Polling? && h < |s.handles| && s.handles[h].functors != []
    ensures s.counter > 0
  {
    assert HandleOk(s, h) && QueueOk(s, h);
  }

  // ---- the loop left to itself ----

  /** What a drain leaves: what stands behind the first empty functor. */
  function Behind(q: seq<Callback>): seq<Callback> {
    if q == [] then [] else if q[0].Null? then q[1..] else Behind(q[1..])
  }

  /** What a drain runs: what stands before it. */
  function Before(q: seq<Callback>): seq<Callback> {
    if q == [] || q[0].Null? then [] else [q[0]] + Before(q[1..])
  }

  /** The queue after a drain that is under way, if one is. */
  function Rest(s: State, h: nat): seq<Callback>
    requires h < |s.handles|
  {
    if Drains(s, h) then Behind(s.handles[h].functors) else s.handles[h].functors
  }

  /** The queue in the end: a set flag brings one more drain. */
  function Final(s: State, h: nat): seq<Callback>
    requires h < |s.handles|
  {
    if s.handles[h].pending then Behind(Rest(s, h)) else Rest(s, h)
  }

  /** What has been run in the end. */
  function FinalRan(s: State, h: nat): seq<Callback>
    requires h < |s.handles|
  {
    s.handles[h].ran + InHand(s, h)
    + (if Drains(s, h) then Before(s.handles[h].functors) else [])
    + (if s.handles[h].pending then Before(Rest(s, h)) else [])
  }

  function Laps(s: State): nat {
    if s.loop.Polling? || s.loop.Waking? then if s.counter > 0 then 1 else 0
    else if s.counter > 0 then 2 else 0
  }

  function Stretch(s: State): nat {
    match s.loop
    case Polling => if s.counter > 0 then 1 else 0
    case Waking => 0
    case Visiting(h) => if h <= |s.handles| then 2 * (|s.handles| - h) + 1 else 0
    case pc => if pc.h <= |s.handles| then 2 * (|s.handles| - pc.h) else 0
  }

  function Left(s: State): nat {
    if s.loop.Polling? || s.loop.Waking? || s.loop.Visiting? || s.loop.h >= |s.handles| then 0
    else |s.handles[s.loop.h].functors|
  }

  function Phase(s: State): nat {
    match s.loop
    case Releasing(_, x) => if x.Fun? then 5 else 1
    case Calling(_, _) => 4
    case Taking(_) => 3
    case Popping(_) => 2
    case _ => 0
  }

  lemma LoopGoesOn(s: State)
    requires Inv(s) && AllIdle(s) && !(s.loop.Polling? && s.counter == 0)
    ensures May(s, Loop) && AllIdle(LoopStep(s)) && |LoopStep(s).handles| == |s.handles|
    ensures var t := LoopStep(s);
      || Laps(t) < Laps(s)
      || (Laps(t) == Laps(s) && Stretch(t) < Stretch(s))
      || (Laps(t) == Laps(s) && Stretch(t) == Stretch(s) && Left(t) < Left(s))
      || (Laps(t) == Laps(s) && Stretch(t) == Stretch(s) && Left(t) == Left(s) && Phase(t) < Phase(s))
  {
    if s.loop.Taking? {
      assert HandleOk(s, s.loop.h);
      assert s.handles[s.loop.h].mutex.Nobody?;
    }
  }

  lemma FinalPop(s: State)
    requires s.loop.Popping? && s.loop.h < |s.handles|
    ensures var t, h := LoopStep(s), s.loop.h; Final(t, h) == Final(s, h) && FinalRan(t, h) == FinalRan(s, h)
  {
    var me := s.handles[s.loop.h];
    if me.functors != [] && me.functors[0].Fun? {
      var r, x, rest := me.ran, me.functors[0], Before(me.functors[1..]);
      assert r + [] + ([x] + rest) == r + [x] + rest;
    }
  }

  lemma FinalElse(s: State, h: nat)
    requires May(s, Loop) && h < |s.handles| && (s.loop.Calling? ==> s.loop.x.Fun?) && s.loop != Popping(h)
    ensures Final(LoopStep(s), h) == Final(s, h) && FinalRan(LoopStep(s), h) == FinalRan(s, h)
  {
    hide Behind, Before;
  }

  /** No step of the loop changes what will be left in the end, or what will have been run. */
  lemma FinalStays(s: State, h: nat)
    requires Inv(s) && May(s, Loop) && h < |s.handles|
    ensures Final(LoopStep(s), h) == Final(s, h) && FinalRan(LoopStep(s), h) == FinalRan(s, h)
  {
    hide LoopStep, Final, FinalRan, HandleOk;
    if s.loop == Popping(h) {
      FinalPop(s);
    } else {
      FinalElse(s, h);
    }
  }

  /** From any state in which no producer is in the middle of a call, the loop, left to itself,
      comes to sleep, and what is then left in a queue, and has been run, is as foretold. */
  lemma {:induction false} LeftToItself(s: State) returns (steps: seq<Action>)
    requires Inv(s) && AllIdle(s)
    ensures forall k :: 0 <= k < |steps| ==> steps[k] == Loop
    ensures var t := Run(s, steps);
      && t.loop.Polling? && t.counter == 0 && |t.handles| == |s.handles| && AllIdle(t)
      && forall h: nat :: h < |s.handles| ==>
           !t.handles[h].pending && t.handles[h].functors == Final(s, h) && t.handles[h].ran == FinalRan(s, h)
    decreases Laps(s), Stretch(s), Left(s), Phase(s)
  {
    hide Inv, LoopStep, Laps, Stretch, Left, Phase, Final, FinalRan;
    if s.loop.Polling? && s.counter == 0 {
      steps := [];
      AtRest(s);
    } else {
      LoopGoesOn(s);
      LoopKeeps(s);
      forall h: nat | h < |s.handles| ensures Final(LoopStep(s), h) == Final(s, h) && FinalRan(LoopStep(s), h) == FinalRan(s, h) {
        FinalStays(s, h);
      }
      var rest := LeftToItself(LoopStep(s));
      steps := [Loop] + rest;
      assert steps[1..] == rest;
    }
  }

  lemma AtRest(s: State)
    requires Inv(s) && AllIdle(s) && s.loop.Polling? && s.counter == 0
    ensures forall h: nat :: h < |s.handles| ==>
      !s.handles[h].pending && s.handles[h].functors == Final(s, h) && s.handles[h].ran == FinalRan(s, h)
  {
    forall h: nat | h < |s.handles|
      ensures !s.handles[h].pending && s.handles[h].functors == Final(s, h) && s.handles[h].ran == FinalRan(s, h)
    {
      assert HandleOk(s, h);
    }
  }

  /** With the loop in the poll: each handle that is marked keeps exactly what stands behind the
      first empty functor of its queue, and the others all they have. */
  lemma DrainsToNull(s: State) returns (steps: seq<Action>)
    requires Inv(s) && AllIdle(s) && s.loop.Polling?
    ensures forall k :: 0 <= k < |steps| ==> steps[k] == Loop
    ensures var t := Run(s, steps);
      && t.loop.Polling? && t.counter == 0 && |t.handles| == |s.handles|
      && forall h: nat :: h < |s.handles| ==>
           t.handles[h].functors == (if s.handles[h].pending then Behind(s.handles[h].functors) else s.handles[h].functors)
  {
    steps := LeftToItself(s);
  }

  lemma {:induction false} BehindNothing(q: seq<Callback>)
    ensures Behind(q) == [] <==> forall k :: 0 <= k < |q| - 1 ==> q[k].Fun?
  {
    if q != [] {
      BehindNothing(q[1..]);
      assert forall k :: 0 <= k < |q| - 1 ==> q[k] == if k == 0 then q[0] else q[1..][k - 1];
      assert forall k :: 0 <= k < |q[1..]| - 1 ==> q[1..][k] == q[k + 1];
    }
  }

  /** So the queue of a marked handle is emptied exactly when nothing stands behind an empty
      functor. */
  lemma EmptiedExactly(s: State, h: nat) returns (steps: seq<Action>)
    requires Inv(s) && AllIdle(s) && s.loop.Polling? && h < |s.handles| && s.handles[h].pending
    ensures forall k :: 0 <= k < |steps| ==> steps[k] == Loop
    ensures var t, q := Run(s, steps), s.handles[h].functors;
      && t.loop.Polling? && t.counter == 0 && h < |t.handles|
      && (t.handles[h].functors == [] <==> forall k :: 0 <= k < |q| - 1 ==> q[k].Fun?)
  {
    steps := DrainsToNull(s);
    BehindNothing(s.handles[h].functors);
  }

  lemma {:induction false} AllBefore(q: seq<Callback>)
    requires AllFun(q)
    ensures Behind(q) == [] && Before(q) == q
  {
    if q != [] {
      assert q[0] in q;
      assert q == [q[0]] + q[1..];
      AllBefore(q[1..]);
    }
  }

  /** Where only functors that can be called are queued, the loop runs everything in order. */
  lemma DrainsAll(s: State) returns (steps: seq<Action>)
    requires Inv(s) && Callable(s) && AllIdle(s)
    ensures forall k :: 0 <= k < |steps| ==> steps[k] == Loop
    ensures var t := Run(s, steps);
      && t.loop.Polling? && t.counter == 0 && |t.handles| == |s.handles|
      && forall h: nat :: h < |s.handles| ==>
           t.handles[h].functors == [] && t.handles[h].ran == s.handles[h].ran + InHand(s, h) + s.handles[h].functors
  {
    steps := LeftToItself(s);
    forall h: nat | h < |s.handles|
      ensures Final(s, h) == [] && FinalRan(s, h) == s.handles[h].ran + InHand(s, h) + s.handles[h].functors
    {
      assert AllFun(s.handles[h].functors) && QueueOk(s, h);
      AllBefore(s.handles[h].functors);
      AllBefore([]);
    }
  }

  // ---- an empty std::function ----

  lemma {:induction false} ChainRuns(states: seq<State>, steps: seq<Action>)
    requires |states| == |steps| + 1
    requires forall k :: 0 <= k < |steps| ==> May(states[k], steps[k]) && Step(states[k], steps[k]) == states[k + 1]
    ensures Run(states[0], steps) == states[|steps|]
    decreases |steps|
  {
    hide May, Step;
    if steps != [] {
      ChainRuns(states[1..], steps[1..]);
    }
  }

  lemma RunBoth(s: State, a: seq<Action>, b: seq<Action>)
    ensures Run(s, a + b) == Run(Run(s, a), b)
    decreases |a|
  {
    hide May, Step;
    if a == [] {
      assert a + b == b;
    } else {
      assert (a + b)[1..] == a[1..] + b;
      RunBoth(if May(s, a[0]) then Step(s, a[0]) else s, a[1..], b);
    }
  }

  const FIRST := State([Handle(true, Nobody, [Null], [Null], [])], 1, [Idle], Polling)
  const BOTH := State([Handle(true, Nobody, [Null, Fun(7)], [Null, Fun(7)], [])], 1, [Idle], Polling)

  /** An empty std::function is queued ... */
  lemma NullQueued() returns (steps: seq<Action>)
    ensures Run(Init(1, 1), steps) == FIRST
  {
    var h := Handle(false, Nobody, [], [], []);
    var g := Handle(false, Producer(0), [Null], [Null], []);
    assert [] + [Null] == [Null];
    var states := [
      State([h], 0, [Idle], Polling),
      State([h], 0, [Locking(0, Null)], Polling),
      State([h.(mutex := Producer(0))], 0, [Pushing(0, Null)], Polling),
      State([g], 0, [Reading(0)], Polling),
      State([g], 0, [Swapping(0)], Polling),
      State([g.(pending := true)], 0, [Writing(0)], Polling),
      State([g.(pending := true)], 1, [Unlocking(0)], Polling),
      FIRST];
    steps := [Queue(0, 0, Null), Produce(0), Produce(0), Produce(0), Produce(0), Produce(0), Produce(0)];
    assert Init(1, 1) == states[0];
    ChainRuns(states, steps);
  }

  /** ... and one that can be called behind it ... */
  lemma BothQueued() returns (steps: seq<Action>)
    ensures Run(FIRST, steps) == BOTH
  {
    var x := Fun(7);
    var h := Handle(true, Producer(0), [Null], [Null], []);
    assert [Null] + [x] == [Null, x];
    var states := [
      FIRST,
      State([Handle(true, Nobody, [Null], [Null], [])], 1, [Locking(0, x)], Polling),
      State([h], 1, [Pushing(0, x)], Polling),
      State([h.(functors := [Null, x], pushed := [Null, x])], 1, [Reading(0)], Polling),
      State([h.(functors := [Null, x], pushed := [Null, x])], 1, [Unlocking(0)], Polling),
      BOTH];
    steps := [Queue(0, 0, x), Produce(0), Produce(0), Produce(0), Produce(0)];
    ChainRuns(states, steps);
  }

  /** ... and the loop stops at the empty one. */
  lemma LoopStalls() returns (steps: seq<Action>)
    ensures forall k :: 0 <= k < |steps| ==> steps[k] == Loop
    ensures var t := Run(BOTH, steps);
      t.loop.Polling? && t.counter == 0 && |t.handles| == 1 && !t.handles[0].pending && t.handles[0].functors == [Fun(7)] && AllIdle(t)
  {
    BothOk();
    steps := LeftToItself(BOTH);
    assert [Null, Fun(7)][1..] == [Fun(7)];
  }

  lemma BothOk()
    ensures Inv(BOTH) && AllIdle(BOTH)
  {
    assert Callables([Fun(7)][1..]) == [];
    assert [Null, Fun(7)][1..] == [Fun(7)];
    assert HandleOk(BOTH, 0);
  }

  /** An empty std::function ends the drain: there is a run after which a functor is queued, no
      flag is set, nothing is written and nobody is doing anything. */
  lemma NullStalls() returns (steps: seq<Action>)
    ensures var s := Run(Init(1, 1), steps);
      && |s.handles| == 1 && s.handles[0].functors == [Fun(7)] && !s.handles[0].pending && s.counter == 0
      && s.loop.Polling? && AllIdle(s) && !May(s, Loop)
  {
    var a := NullQueued();
    var b := BothQueued();
    var c := LoopStalls();
    RunBoth(Init(1, 1), a, b);
    RunBoth(Init(1, 1), a + b, c);
    hide Run;
    steps := a + b + c;
  }
}
