/** How far the wakeups of libuv/src/unix/async.c are coalesced: however many functors are queued, by
    however many producers, the eventfd never holds more than three for each handle. */
module AsyncCoalescing {
  import opened AsyncWakeup

  /** The loop has been at handle h since it read the eventfd. */
  predicate Visited(s: State, h: nat) {
    match s.loop
    case Polling => true
    case Waking => true
    case Visiting(k) => h < k
    case pc => h <= pc.h
  }

  /** What handle h may have written: what was under way when the eventfd was read, the flag that is set and
      the one that the loop has cleared since. */
  ghost function Slack(s: State, h: nat): nat
    requires h < |s.handles|
  {
    (if SomeWrites(s, h) then 0 else 1) + (if Visited(s, h) then 1 else 0) + if s.handles[h].pending then 1 else 0
  }

  ghost function Total(s: State, n: nat): nat
    requires n <= |s.handles|
  {
    if n == 0 then 0 else Total(s, n - 1) + Slack(s, n - 1)
  }

  ghost predicate Coalesced(s: State) {
    s.counter <= Total(s, |s.handles|)
  }

  lemma {:induction false} TotalSmall(s: State, n: nat)
    requires n <= |s.handles|
    ensures Total(s, n) <= 3 * n
  {
    if n > 0 {
      TotalSmall(s, n - 1);
    }
  }

  lemma {:induction false} TotalKeeps(s: State, t: State, n: nat)
    requires n <= |s.handles| == |t.handles| && forall h: nat :: h < n ==> Slack(s, h) <= Slack(t, h)
    ensures Total(s, n) <= Total(t, n)
  {
    hide Slack;
    if n > 0 {
      TotalKeeps(s, t, n - 1);
    }
  }

  lemma {:induction false} TotalRises(s: State, t: State, n: nat, k: nat)
    requires k < n <= |s.handles| == |t.handles| && Slack(s, k) < Slack(t, k)
    requires forall h: nat :: h < n ==> Slack(s, h) <= Slack(t, h)
    ensures Total(s, n) < Total(t, n)
  {
    hide Slack;
    if k < n - 1 {
      TotalRises(s, t, n - 1, k);
    } else {
      TotalKeeps(s, t, n - 1);
    }
  }

  /** A producer's step does not write for another handle than its own. */
  lemma OtherWriters(s: State, t: State, i: nat, k: nat)
    requires i < |s.producers| == |t.producers| && t.producers == s.producers[i := t.producers[i]]
    requires t.producers[i] != Writing(k)
    ensures SomeWrites(t, k) ==> SomeWrites(s, k)
  {
    if SomeWrites(t, k) {
      var j: nat :| j < |t.producers| && t.producers[j] == Writing(k);
      assert s.producers[j] == t.producers[j];
    }
  }

  /** The one with the mutex is the only one who can be writing. */
  lemma OneWriter(s: State, i: nat, h: nat)
    requires Inv(s) && i < |s.producers| && h < |s.handles| && HoldsMutex(s.producers[i], h)
    ensures SomeWrites(s, h) ==> s.producers[i] == Writing(h)
  {
    assert HandleOk(s, h);
    if SomeWrites(s, h) {
      var j: nat :| j < |s.producers| && s.producers[j] == Writing(h);
      assert HoldsMutex(s.producers[j], h);
    }
  }

  lemma QueueCoalesces(s: State, i: nat, h: nat, x: Callback)
    requires Inv(s) && Coalesced(s) && May(s, Queue(i, h, x))
    ensures Coalesced(Step(s, Queue(i, h, x)))
  {
    var t := Step(s, Queue(i, h, x));
    forall k: nat | k < |s.handles| ensures Slack(s, k) <= Slack(t, k) {
      OtherWriters(s, t, i, k);
    }
    TotalKeeps(s, t, |s.handles|);
  }

  lemma ProduceSlack(s: State, i: nat, k: nat)
    requires Inv(s) && May(s, Produce(i)) && k < |s.handles|
    ensures Slack(s, k) <= Slack(ProducerStep(s, i), k)
    ensures s.producers[i] == Writing(k) ==> Slack(s, k) < Slack(ProducerStep(s, i), k)
  {
    var t := ProducerStep(s, i);
    var h := s.producers[i].h;
    if k != h || !t.producers[i].Writing? {
      OtherWriters(s, t, i, k);
    }
    if HoldsMutex(s.producers[i], h) {
      OneWriter(s, i, h);
      if s.producers[i].Writing? {
        Writes(s, i, h);
        NoWriter(s, t, i, h);
      }
    }
  }

  lemma NoWriter(s: State, t: State, i: nat, h: nat)
    requires Inv(s) && i < |s.producers| && h < |s.handles| && s.producers[i] == Writing(h)
    requires t.producers == s.producers[i := Unlocking(h)]
    ensures !SomeWrites(t, h)
  {
    assert HandleOk(s, h) && HoldsMutex(s.producers[i], h);
    forall j: nat | j < |t.producers| ensures t.producers[j] != Writing(h) {
      assert s.producers[j] == Writing(h) ==> HoldsMutex(s.producers[j], h);
    }
  }

  lemma ProduceCoalesces(s: State, i: nat)
    requires Inv(s) && Coalesced(s) && May(s, Produce(i))
    ensures Coalesced(ProducerStep(s, i))
  {
    var t := ProducerStep(s, i);
    var n := |s.handles|;
    hide Slack;
    forall k: nat | k < n ensures Slack(s, k) <= Slack(t, k) {
      ProduceSlack(s, i, k);
    }
    if s.producers[i].Writing? {
      ProduceSlack(s, i, s.producers[i].h);
      TotalRises(s, t, n, s.producers[i].h);
    } else {
      TotalKeeps(s, t, n);
    }
  }

  lemma LoopCoalesces(s: State)
    requires Inv(s) && Coalesced(s) && May(s, Loop)
    ensures Coalesced(LoopStep(s))
  {
    var t := LoopStep(s);
    if !s.loop.Waking? {
      forall k: nat | k < |s.handles| ensures Slack(s, k) <= Slack(t, k) {
        assert SomeWrites(t, k) ==> SomeWrites(s, k);
      }
      TotalKeeps(s, t, |s.handles|);
    }
  }

  lemma {:induction false} RunCoalesces(s: State, steps: seq<Action>)
    requires Inv(s) && Coalesced(s)
    ensures Coalesced(Run(s, steps))
    decreases |steps|
  {
    hide Inv, Coalesced, Step, May;
    if steps != [] {
      var t := if May(s, steps[0]) then Step(s, steps[0]) else s;
      if May(s, steps[0]) {
        StepKeeps(s, steps[0]);
        StepCoalesces(s, steps[0]);
      }
      RunCoalesces(t, steps[1..]);
    }
  }

  lemma StepCoalesces(s: State, a: Action)
    requires Inv(s) && Coalesced(s) && May(s, a)
    ensures Coalesced(Step(s, a))
  {
    hide Inv, Coalesced;
    match a
    case Queue(i, h, x) => QueueCoalesces(s, i, h, x);
    case Produce(i) => ProduceCoalesces(s, i);
    case Loop => LoopCoalesces(s);
  }

  /** In every run from the start: no more than three wakeups for a handle are in the eventfd, so with fewer
      than 2^62 handles no write to it fails. */
  lemma CounterBounded(handles: nat, producers: nat, steps: seq<Action>)
    ensures var s := Run(Init(handles, producers), steps); s.counter <= 3 * |s.handles|
  {
    var s := Init(handles, producers);
    InitInv(handles, producers);
    assert Coalesced(s);
    RunCoalesces(s, steps);
    TotalSmall(Run(s, steps), |Run(s, steps).handles|);
  }
}
