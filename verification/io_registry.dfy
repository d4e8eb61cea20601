/** The cache of kernel interest of libuv/src/unix/core.c, its drain into epoll, and the
    dispatch of a batch of events by libuv/src/unix/linux-core.c. */
module IoRegistry {
  import opened Lists
  import opened Options
  import opened PowerOfTwo

  datatype Flag = In | Out | Err | Hup

  type Mask = set<Flag>

  const INTEREST: Mask := {In, Out}

  /** The address of a struct uv__io_s. */
  type Watcher = nat

  /** Its descriptor, the flags last told to the kernel and the flags wanted. */
  datatype Io = Io(fd: int, events: Mask, pevents: Mask)

  /** An event of the batch; fd is -1 once it has been invalidated. */
  datatype Event = Event(mask: Mask, fd: int)

  /** An entry of loop->watchers; the last two hold the batch and its size while it is
      dispatched. */
  datatype Slot = Empty | Of(w: Watcher) | Batch(events: array<Event>) | Count(n: nat)

  /** How many of the first n entries hold a watcher. */
  function Occupied(slots: seq<Slot>, n: nat): nat
    requires n <= |slots|
  {
    if n == 0 then 0 else Occupied(slots, n - 1) + if slots[n - 1].Of? then 1 else 0
  }

  lemma {:induction false} OccupiedSame(a: seq<Slot>, b: seq<Slot>, n: nat)
    requires n <= |a| && n <= |b| && forall i :: 0 <= i < n ==> a[i] == b[i]
    ensures Occupied(a, n) == Occupied(b, n)
  {
    if n > 0 {
      OccupiedSame(a, b, n - 1);
    }
  }

  lemma {:induction false} OccupiedSet(a: seq<Slot>, k: nat, x: Slot, n: nat)
    requires k < n <= |a|
    ensures Occupied(a[k := x], n) == Occupied(a, n) - (if a[k].Of? then 1 else 0) + (if x.Of? then 1 else 0)
  {
    if k == n - 1 {
      OccupiedSame(a, a[k := x], n - 1);
    } else {
      OccupiedSet(a, k, x, n - 1);
    }
  }

  lemma {:induction false} OccupiedMore(a: seq<Slot>, m: nat, n: nat)
    requires m <= n <= |a| && forall i :: m <= i < n ==> !a[i].Of?
    ensures Occupied(a, n) == Occupied(a, m)
    decreases n
  {
    if m < n {
      OccupiedMore(a, m, n - 1);
    }
  }

  lemma {:induction false} OccupiedZero(a: seq<Slot>, n: nat)
    requires n <= |a|
    ensures Occupied(a, n) == 0 <==> forall i :: 0 <= i < n ==> !a[i].Of?
  {
    if n > 0 {
      OccupiedZero(a, n - 1);
    }
  }

  // ---- the invariant ----

  /** The fields of the loop: watchers (empty for NULL) with two entries more than nwatchers,
      nfds, watcher_queue, the watchers themselves, and what epoll has been told by descriptor. */
  datatype Registry = Registry(
    watchers: seq<Slot>, nwatchers: nat, nfds: nat, queue: seq<Watcher>, io: map<Watcher, Io>, kernel: map<int, Mask>)

  predicate Registered(s: Registry, w: Watcher) {
    w in s.io && 0 <= s.io[w].fd < s.nwatchers <= |s.watchers| && s.watchers[s.io[w].fd] == Of(w)
  }

  /** pevents is non-empty exactly for the watcher in its slot; what differs from the kernel is
      queued; non-empty events are what the kernel has. */
  ghost predicate IoOk(s: Registry, w: Watcher)
    requires w in s.io
  {
    var x := s.io[w];
    && -1 <= x.fd && x.pevents <= INTEREST
    && (x.pevents != {} <==> Registered(s, w))
    && (x.pevents != x.events ==> w in s.queue)
    && (x.events != {} ==> x.pevents != {} && x.fd in s.kernel && s.kernel[x.fd] == x.events)
  }

  ghost predicate SlotOk(s: Registry, i: int)
    requires 0 <= i < |s.watchers|
  {
    s.watchers[i].Empty? || (s.watchers[i].Of? && s.watchers[i].w in s.io && s.io[s.watchers[i].w].fd == i)
  }

  ghost predicate ArrayOk(s: Registry) {
    && (if s.watchers == [] then s.nwatchers == 0 else |s.watchers| == s.nwatchers + 2)
    && s.nfds == Occupied(s.watchers, s.nwatchers)
    && (forall i :: s.nwatchers <= i < |s.watchers| ==> !s.watchers[i].Of?)
    && (forall i :: 0 <= i < s.nwatchers ==> SlotOk(s, i))
    && forall fd :: fd in s.kernel ==> 0 <= fd < s.nwatchers
  }

  ghost predicate QueueOk(s: Registry) {
    Distinct(s.queue) && forall w :: w in s.queue ==> w in s.io && s.io[w].pevents != {}
  }

  ghost predicate FdsOk(s: Registry) {
    forall v, w :: v in s.io && w in s.io && s.io[v].fd == s.io[w].fd && 0 <= s.io[v].fd ==> v == w
  }

  ghost predicate Inv(s: Registry) {
    ArrayOk(s) && QueueOk(s) && FdsOk(s) && forall w :: w in s.io ==> IoOk(s, w)
  }

  /** The entries past the watchers: the batch and its size. */
  function Hidden(s: Registry): (Slot, Slot) {
    if |s.watchers| >= s.nwatchers + 2 then (s.watchers[s.nwatchers], s.watchers[s.nwatchers + 1]) else (Empty, Empty)
  }

  // ---- what the operations make of it ----

  function Grown(s: Registry, n: nat): Registry
    requires s.nwatchers <= n && s.nwatchers <= |s.watchers|
  {
    s.(watchers := s.watchers[..s.nwatchers] + seq(n - s.nwatchers, _ => Empty) + [Hidden(s).0, Hidden(s).1], nwatchers := n)
  }

  lemma GrownKeeps(s: Registry, n: nat)
    requires Inv(s) && s.nwatchers <= n
    ensures Inv(Grown(s, n)) && Hidden(Grown(s, n)) == Hidden(s)
    ensures forall i :: 0 <= i < s.nwatchers ==> Grown(s, n).watchers[i] == s.watchers[i]
  {
    var t := Grown(s, n);
    OccupiedSame(s.watchers, t.watchers, s.nwatchers);
    OccupiedMore(t.watchers, s.nwatchers, n);
    forall i | 0 <= i < n ensures SlotOk(t, i) {
      assert i < s.nwatchers ==> SlotOk(s, i);
    }
    forall w | w in t.io ensures IoOk(t, w) {
      assert IoOk(s, w);
    }
  }

  /** Interest is added, and the watcher queued and put in its slot if it was not. */
  function Started(s: Registry, w: Watcher, ev: Mask): Registry
    requires w in s.io && 0 <= s.io[w].fd < s.nwatchers <= |s.watchers|
  {
    var x := s.io[w].(pevents := s.io[w].pevents + ev);
    var t := s.(io := s.io[w := x]);
    if x.events == x.pevents then t
    else
      var u := if w in s.queue then t else t.(queue := s.queue + [w]);
      if s.watchers[x.fd].Empty? then u.(watchers := s.watchers[x.fd := Of(w)], nfds := s.nfds + 1) else u
  }

  lemma StartedArray(s: Registry, w: Watcher, ev: Mask)
    requires ArrayOk(s) && w in s.io && 0 <= s.io[w].fd < s.nwatchers
    ensures ArrayOk(Started(s, w, ev))
  {
    var t, fd := Started(s, w, ev), s.io[w].fd;
    assert SlotOk(s, fd);
    if s.watchers[fd].Empty? {
      OccupiedSet(s.watchers, fd, Of(w), s.nwatchers);
    }
    forall i | 0 <= i < t.nwatchers ensures SlotOk(t, i) {
      assert SlotOk(s, i);
    }
  }

  lemma StartedIo(s: Registry, w: Watcher, ev: Mask, v: Watcher)
    requires w in s.io && v in s.io && IoOk(s, v) && FdsOk(s) && |s.watchers| == s.nwatchers + 2
    requires 0 <= s.io[w].fd < s.nwatchers && IoOk(s, w) && SlotOk(s, s.io[w].fd) && ev <= INTEREST && ev != {}
    ensures v in Started(s, w, ev).io && IoOk(Started(s, w, ev), v) && (v == w ==> Registered(Started(s, w, ev), w))
  {
  }

  lemma StartedQueue(s: Registry, w: Watcher, ev: Mask)
    requires QueueOk(s) && FdsOk(s) && |s.watchers| == s.nwatchers + 2
    requires w in s.io && 0 <= s.io[w].fd < s.nwatchers && ev != {}
    ensures QueueOk(Started(s, w, ev)) && FdsOk(Started(s, w, ev)) && Hidden(Started(s, w, ev)) == Hidden(s)
  {
  }

  lemma StartedKeeps(s: Registry, w: Watcher, ev: Mask)
    requires Inv(s) && w in s.io && 0 <= s.io[w].fd < s.nwatchers && ev <= INTEREST && ev != {}
    ensures Inv(Started(s, w, ev)) && Registered(Started(s, w, ev), w) && Hidden(Started(s, w, ev)) == Hidden(s)
  {
    assert SlotOk(s, s.io[w].fd) && |s.watchers| == s.nwatchers + 2;
    StartedArray(s, w, ev);
    StartedQueue(s, w, ev);
    hide ArrayOk, QueueOk, FdsOk, IoOk, SlotOk, Hidden, Registered;
    var t := Started(s, w, ev);
    assert w in t.io by { StartedIo(s, w, ev, w); }
    assert Registered(t, w) by { StartedIo(s, w, ev, w); }
    forall v | v in t.io ensures IoOk(t, v) {
      StartedIo(s, w, ev, v);
    }
  }

  function Stopped(s: Registry, w: Watcher, ev: Mask): Registry
    requires w in s.io && s.nwatchers <= |s.watchers|
  {
    var x := s.io[w].(pevents := s.io[w].pevents - ev);
    if !(0 <= x.fd < s.nwatchers) then s
    else if x.pevents != {} then s.(io := s.io[w := x], queue := if w in s.queue then s.queue else s.queue + [w])
    else
      var t := s.(io := s.io[w := x], queue := Without(s.queue, w));
      if s.watchers[x.fd].Empty? then t
      else t.(watchers := s.watchers[x.fd := Empty], nfds := if s.nfds > 0 then s.nfds - 1 else 0,
              io := s.io[w := x.(events := {})])
  }

  lemma StoppedArray(s: Registry, w: Watcher, ev: Mask)
    requires Inv(s) && w in s.io
    ensures ArrayOk(Stopped(s, w, ev))
    ensures var x := s.io[w]; 0 <= x.fd < s.nwatchers && !s.watchers[x.fd].Empty? ==>
      s.watchers[x.fd] == Of(w) && s.nfds > 0
  {
    var t, fd := Stopped(s, w, ev), s.io[w].fd;
    if 0 <= fd < s.nwatchers {
      assert SlotOk(s, fd);
      OccupiedZero(s.watchers, s.nwatchers);
      OccupiedSet(s.watchers, fd, Empty, s.nwatchers);
    }
    hide Occupied, IoOk, QueueOk;
    forall i | 0 <= i < t.nwatchers ensures SlotOk(t, i) {
      assert SlotOk(s, i);
    }
  }

  lemma StoppedIo(s: Registry, w: Watcher, ev: Mask, v: Watcher)
    requires Inv(s) && w in s.io && v in s.io && ev <= INTEREST
    ensures v in Stopped(s, w, ev).io && IoOk(Stopped(s, w, ev), v)
  {
    WithoutIs(s.queue, w);
    assert IoOk(s, w) && IoOk(s, v);
    hide ArrayOk, QueueOk, Without;
  }

  lemma StoppedQueue(s: Registry, w: Watcher, ev: Mask)
    requires Inv(s) && w in s.io
    ensures QueueOk(Stopped(s, w, ev)) && FdsOk(Stopped(s, w, ev))
  {
    WithoutIs(s.queue, w);
    assert IoOk(s, w);
    hide ArrayOk, Without;
  }

  lemma StoppedKernel(s: Registry, w: Watcher, ev: Mask)
    requires Inv(s) && w in s.io
    ensures Stopped(s, w, ev).kernel == s.kernel
  {
  }

  lemma StoppedKeeps(s: Registry, w: Watcher, ev: Mask)
    requires Inv(s) && w in s.io && ev <= INTEREST
    ensures Inv(Stopped(s, w, ev)) && Hidden(Stopped(s, w, ev)) == Hidden(s)
    ensures var x := s.io[w]; 0 <= x.fd < s.nwatchers && !s.watchers[x.fd].Empty? ==>
      s.watchers[x.fd] == Of(w) && s.nfds > 0
  {
    StoppedArray(s, w, ev);
    StoppedQueue(s, w, ev);
    StoppedFrame(s, w, ev);
    hide Stopped, IoOk, QueueOk, FdsOk;
    forall v | v in Stopped(s, w, ev).io ensures IoOk(Stopped(s, w, ev), v) {
      StoppedIo(s, w, ev, v);
    }
  }

  lemma StoppedFrame(s: Registry, w: Watcher, ev: Mask)
    requires w in s.io && s.nwatchers <= |s.watchers|
    ensures Stopped(s, w, ev).io.Keys == s.io.Keys && Hidden(Stopped(s, w, ev)) == Hidden(s)
  {
  }

  /** The flags are no longer wanted, and nobody else's are changed. */
  lemma StoppedLeaves(s: Registry, w: Watcher, ev: Mask)
    requires Inv(s) && w in s.io
    ensures -1 <= s.io[w].fd && s.nwatchers <= |s.watchers|
    ensures var t := Stopped(s, w, ev);
      && t.io.Keys == s.io.Keys && (forall v :: v in s.io && v != w ==> t.io[v] == s.io[v])
      && t.io[w].fd == s.io[w].fd && t.io[w].pevents == s.io[w].pevents - ev
  {
    assert IoOk(s, w);
    hide QueueOk, FdsOk, Without;
  }

  /** The kernel is told to forget a descriptor whose watcher has been stopped. */
  function Forgotten(s: Registry, fd: int): Registry {
    s.(kernel := s.kernel - {fd})
  }

  lemma ForgottenKeeps(s: Registry, fd: int)
    requires Inv(s) && forall w :: w in s.io && s.io[w].fd == fd && 0 <= fd ==> s.io[w].pevents == {}
    ensures Inv(Forgotten(s, fd))
  {
    var t := Forgotten(s, fd);
    forall i | 0 <= i < t.nwatchers ensures SlotOk(t, i) {
      assert SlotOk(s, i);
    }
    forall w | w in t.io ensures IoOk(t, w) {
      assert IoOk(s, w);
    }
  }

  /** The head of the queue is told to the kernel. */
  function Told(s: Registry): Registry
    requires s.queue != [] && s.queue[0] in s.io
  {
    var w := s.queue[0];
    var x := s.io[w];
    s.(queue := s.queue[1..], io := s.io[w := x.(events := x.pevents)], kernel := s.kernel[x.fd := x.pevents])
  }

  lemma ToldKeeps(s: Registry)
    requires Inv(s) && s.queue != []
    ensures var w := s.queue[0]; w in s.io && s.io[w].pevents != {} && 0 <= s.io[w].fd < s.nwatchers
    ensures s.io[s.queue[0]].events != {} ==> s.io[s.queue[0]].fd in s.kernel
    ensures Inv(Told(s))
  {
    var w := s.queue[0];
    assert w in s.queue && IoOk(s, w);
    var t := Told(s);
    assert s.queue == [w] + t.queue;
    forall i | 0 <= i < t.nwatchers ensures SlotOk(t, i) {
      assert SlotOk(s, i);
    }
    forall v | v in t.io ensures IoOk(t, v) {
      assert IoOk(s, v);
    }
  }

  /** A watcher is set up for a descriptor that no other watcher has. */
  function Added(s: Registry, w: Watcher, fd: int): Registry {
    s.(io := s.io[w := Io(fd, {}, {})])
  }

  lemma AddedKeeps(s: Registry, w: Watcher, fd: int)
    requires Inv(s) && w !in s.io && -1 <= fd && forall v :: v in s.io ==> fd == -1 || s.io[v].fd != fd
    ensures Inv(Added(s, w, fd))
  {
    var t := Added(s, w, fd);
    forall i | 0 <= i < t.nwatchers ensures SlotOk(t, i) {
      assert SlotOk(s, i);
    }
    if 0 <= fd < s.nwatchers {
      assert SlotOk(s, fd);
    }
    forall v | v in t.io ensures IoOk(t, v) {
      assert v != w ==> IoOk(s, v);
    }
  }

  // ---- the loop ----

  function Resized(s: Registry, len: nat): Registry
    requires s.nwatchers <= |s.watchers|
  {
    if len <= s.nwatchers || len + 2 > 0x8000_0000 then s
    else
      var n := NextPowerOfTwo(len + 2) - 2;
      if n < s.nwatchers then s else Grown(s, n)
  }

  lemma ResizedKeeps(s: Registry, len: nat)
    requires Inv(s) && (len <= s.nwatchers || len + 2 <= 0x8000_0000)
    ensures var t := Resized(s, len);
      && Inv(t) && Hidden(t) == Hidden(s) && len <= t.nwatchers && s.nwatchers <= t.nwatchers && (0 < len ==> t.watchers != [])
      && (forall i :: 0 <= i < s.nwatchers ==> t.watchers[i] == s.watchers[i])
      && t == s.(watchers := t.watchers, nwatchers := t.nwatchers)
    ensures len > s.nwatchers ==> len <= NextPowerOfTwo(len + 2) - 2
  {
    if len > s.nwatchers {
      var k := NextIsLeast(len + 2);
      GrownKeeps(s, NextPowerOfTwo(len + 2) - 2);
    }
  }

  /** uv__io_start as a whole. */
  function StartResult(s: Registry, w: Watcher, ev: Mask): Registry {
    if w in s.io && 0 <= s.io[w].fd && s.nwatchers <= |s.watchers| then
      var t := Resized(s, s.io[w].fd + 1);
      if s.io[w].fd < t.nwatchers <= |t.watchers| && w in t.io && t.io[w].fd == s.io[w].fd then Started(t, w, ev) else s
    else s
  }

  /** The array is large enough for the descriptor, or can be made so. */
  predicate Grows(s: Registry, fd: nat) {
    fd < s.nwatchers || fd + 3 <= 0x8000_0000
  }

  lemma StartKeeps(s: Registry, w: Watcher, ev: Mask)
    requires Inv(s) && w in s.io && ev <= INTEREST && ev != {} && 0 <= s.io[w].fd && Grows(s, s.io[w].fd)
    ensures var fd := s.io[w].fd;
      var t := Resized(s, fd + 1);
      && Inv(t) && fd < t.nwatchers && t.watchers != [] && t.io == s.io && StartResult(s, w, ev) == Started(t, w, ev)
    ensures var u := StartResult(s, w, ev);
      && Inv(u) && Registered(u, w) && Hidden(u) == Hidden(s) && s.nwatchers <= u.nwatchers && u.kernel == s.kernel
      && u.io == s.io[w := s.io[w].(pevents := s.io[w].pevents + ev)]
  {
    var t := Resized(s, s.io[w].fd + 1);
    ResizedKeeps(s, s.io[w].fd + 1);
    StartedKeeps(t, w, ev);
    InvArray(s);
    InvArray(t);
    hide Inv, Resized, Registered, Hidden, Started;
    StartedFrame(t, w, ev);
  }

  lemma InvArray(s: Registry)
    requires Inv(s)
    ensures s.nwatchers <= |s.watchers|
  {
  }

  lemma StartedFrame(s: Registry, w: Watcher, ev: Mask)
    requires w in s.io && 0 <= s.io[w].fd < s.nwatchers <= |s.watchers|
    ensures var u := Started(s, w, ev);
      && u.nwatchers == s.nwatchers && u.kernel == s.kernel
      && u.io == s.io[w := s.io[w].(pevents := s.io[w].pevents + ev)]
  {
  }

  /** With no slot occupied nothing is queued, as uv__io_poll asserts before it returns early. */
  lemma IdleQueue(s: Registry)
    requires Inv(s) && s.nfds == 0
    ensures s.queue == []
  {
    OccupiedZero(s.watchers, s.nwatchers);
    if s.queue != [] {
      QueuedRegistered(s);
    }
  }

  lemma QueuedRegistered(s: Registry)
    requires Inv(s) && s.queue != []
    ensures var w := s.queue[0]; w in s.io && 0 <= s.io[w].fd < s.nwatchers && s.watchers[s.io[w].fd].Of?
  {
    assert s.queue[0] in s.queue && IoOk(s, s.queue[0]);
  }

  /** A callback made: for which watcher and descriptor, with what, and what was the case then. */
  datatype Call = Call(w: Watcher, fd: int, mask: Mask, at: Registry, closed: set<int>)

  /** The watcher is the one now in the slot of the descriptor, gets only what it asked for or an
      error, and the descriptor has not been closed since the batch was fetched. */
  ghost predicate Rightful(c: Call) {
    && Registered(c.at, c.w) && c.at.io[c.w].fd == c.fd && c.fd !in c.closed
    && c.mask != {} && c.mask <= c.at.io[c.w].pevents + {Err, Hup}
  }

  /** The turn of one event of the batch: its descriptor and what epoll has reported for it, what is the
      case then, and the callback made, if one is. */
  datatype Turn = Turn(fd: int, mask: Mask, at: Registry, closed: set<int>, call: Option<Call>)

  /** What of the reported flags a watcher may be told. */
  function Tellable(reported: Mask, wanted: Mask): Mask {
    set f | f in reported && (f in wanted || f == Err || f == Hup)
  }

  lemma MaskTellable(reported: Mask, wanted: Mask)
    ensures reported * (wanted + {Err, Hup}) == Tellable(reported, wanted)
  {
  }

  /** What it is told: an error or a hangup on its own comes with all that the watcher wants. */
  predicate ToldMask(reported: Mask, wanted: Mask, told: Mask) {
    var t := Tellable(reported, wanted);
    forall f: Flag :: f in told <==> f in t || ((t == {Err} || t == {Hup}) && f in wanted && (f == In || f == Out))
  }

  /** The watcher has to be called back: its descriptor has not been closed since the batch was fetched,
      it is registered for it now, and there is something to tell. */
  ghost predicate Due(t: Turn, w: Watcher) {
    && t.fd !in t.closed && Registered(t.at, w) && t.at.io[w].fd == t.fd
    && Tellable(t.mask, t.at.io[w].pevents) != {}
  }

  /** A callback is made exactly when one is due, for the watcher that it is due to. */
  ghost predicate TurnOk(t: Turn) {
    && (t.call.Some? <==> exists w :: Due(t, w))
    && (t.call.Some? ==>
          var k := t.call.value;
          && Due(t, k.w) && k.fd == t.fd && k.at == t.at && k.closed == t.closed
          && ToldMask(t.mask, t.at.io[k.w].pevents, k.mask))
  }

  /** The descriptor is open and nobody watches it any more. */
  ghost predicate Orphan(t: Turn) {
    t.fd !in t.closed && forall w :: w in t.at.io && t.at.io[w].fd == t.fd ==> !Registered(t.at, w)
  }

  /** The descriptors whose event finds nobody. */
  ghost function Orphans(turns: seq<Turn>): set<int> {
    if turns == [] then {}
    else
      var t := turns[|turns| - 1];
      Orphans(turns[..|turns| - 1]) + if Orphan(t) then {t.fd} else {}
  }

  lemma OrphansMore(turns: seq<Turn>, t: Turn)
    ensures Orphans(turns + [t]) == Orphans(turns) + if Orphan(t) then {t.fd} else {}
  {
    assert (turns + [t])[..|turns|] == turns;
  }

  lemma OrphansNone()
    ensures Orphans([]) == {}
  {
  }

  lemma OrphanIs(t: Turn)
    requires t.fd !in t.closed && 0 <= t.fd < |t.at.watchers| && t.at.watchers[t.fd].Empty?
    ensures Orphan(t)
  {
  }

  lemma NoOrphan(t: Turn, w: Watcher)
    requires w in t.at.io && t.at.io[w].fd == t.fd && Registered(t.at, w)
    ensures !Orphan(t)
  {
  }

  /** The callbacks made, in order. */
  function CallsOf(turns: seq<Turn>): seq<Call> {
    if turns == [] then []
    else
      var t := turns[|turns| - 1];
      CallsOf(turns[..|turns| - 1]) + if t.call.Some? then [t.call.value] else []
  }

  lemma CallsOfNone()
    ensures CallsOf([]) == []
  {
  }

  lemma CallsMore(turns: seq<Turn>, t: Turn)
    ensures CallsOf(turns + [t]) == CallsOf(turns) + if t.call.Some? then [t.call.value] else []
  {
    assert (turns + [t])[..|turns|] == turns;
  }

  /** An event once the descriptors `closed` are closed. */
  function Left(e: Event, closed: set<int>): Event {
    if e.fd in closed then e.(fd := -1) else e
  }

  /** The events of a batch whose first `turned` have had their turn: none of a closed descriptor is left,
      and the others are as they were fetched. */
  ghost predicate EventsOk(events: seq<Event>, fetched: seq<Event>, turned: nat, closed: set<int>, nwatchers: nat) {
    && |fetched| == |events|
    && (forall k :: 0 <= k < |events| ==> events[k].fd == -1 || (0 <= events[k].fd < nwatchers && events[k].fd !in closed))
    && forall k :: turned <= k < |events| ==> events[k] == Left(fetched[k], closed)
  }

  lemma EventsMore(events: seq<Event>, fetched: seq<Event>, turned: nat, closed: set<int>, m: nat, n: nat)
    requires EventsOk(events, fetched, turned, closed, m) && m <= n
    ensures EventsOk(events, fetched, turned, closed, n)
  {
  }

  /** A slot is empty or has the watcher that is registered for the descriptor. */
  lemma SlotIs(s: Registry, fd: int)
    requires Inv(s) && 0 <= fd < s.nwatchers
    ensures s.nwatchers <= |s.watchers|
    ensures s.watchers[fd].Empty? || (s.watchers[fd].Of? && Registered(s, s.watchers[fd].w) && s.io[s.watchers[fd].w].fd == fd)
  {
    assert SlotOk(s, fd);
  }

  lemma NothingDue(t: Turn)
    requires t.call.None? && (t.fd in t.closed || !(0 <= t.fd < t.at.nwatchers <= |t.at.watchers|) || t.at.watchers[t.fd].Empty?)
    ensures TurnOk(t)
  {
  }

  lemma RegisteredIs(s: Registry, w: Watcher)
    requires Registered(s, w)
    ensures w in s.io
  {
  }

  /** The masking of uv__io_poll. */
  lemma MaskTold(reported: Mask, wanted: Mask, t: Mask, told: Mask)
    requires t == Tellable(reported, wanted)
    requires told == if t == {Err} || t == {Hup} then t + wanted * {In, Out} else t
    ensures ToldMask(reported, wanted, told) && (told == {} <==> t == {})
  {
  }

  lemma CallRightful(t: Turn)
    requires TurnOk(t) && t.call.Some?
    ensures Rightful(t.call.value)
  {
  }

  /** The turn of a descriptor with a watcher in its slot. */
  lemma SlotTurn(t: Turn, w: Watcher)
    requires t.fd !in t.closed && Registered(t.at, w) && t.at.io[w].fd == t.fd
    requires var m := Tellable(t.mask, t.at.io[w].pevents);
      if m == {} then t.call.None?
      else t.call.Some? && ToldMask(t.mask, t.at.io[w].pevents, t.call.value.mask)
           && t.call.value == Call(w, t.fd, t.call.value.mask, t.at, t.closed)
    ensures TurnOk(t)
  {
    hide ToldMask, Tellable;
    assert forall v :: Due(t, v) ==> v == w;
    if Tellable(t.mask, t.at.io[w].pevents) != {} {
      assert Due(t, w);
    }
  }

  // ---- the one descriptor too many ----

  /** nwatchers after maybe_resize, in unsigned int. */
  function NewCount(len: nat): nat
    requires len + 2 < TWO_32
  {
    (NextPowerOfTwo(len + 2) + TWO_32 - 2) % TWO_32
  }

  /** How many entries maybe_resize then asks for, in unsigned int. */
  function Asked(len: nat): nat
    requires len + 2 < TWO_32
  {
    (NewCount(len) + 2) % TWO_32
  }

  /** uv__io_start accepts descriptors below INT_MAX. For the last of them alone, 2^31-2, the power
      of two wraps: nwatchers covers it, and no entry is asked for. */
  lemma LastDescriptorWraps(fd: int)
    requires 0 <= fd < 0x7FFF_FFFF
    ensures Asked(fd + 1) == 0 <==> fd == 0x7FFF_FFFE
    ensures fd == 0x7FFF_FFFE ==> NewCount(fd + 1) > fd
    ensures fd != 0x7FFF_FFFE ==> Asked(fd + 1) == NewCount(fd + 1) + 2 && NewCount(fd + 1) > fd
    ensures fd != 0x7FFF_FFFE ==> NewCount(fd + 1) == NextPowerOfTwo(fd + 3) - 2
  {
    hide NextPowerOfTwo, Pow2;
    NextWraps(fd + 3);
    if fd != 0x7FFF_FFFE {
      var k := NextIsLeast(fd + 3);
      NextBelow(fd + 3);
    }
  }

  class Loop {
    var watchers: seq<Slot>
    var nwatchers: nat
    var nfds: nat
    var queue: seq<Watcher>
    var io: map<Watcher, Io>
    var kernel: map<int, Mask>
    /** The descriptors closed since the batch was fetched, and the callbacks made for it. */
    ghost var closed: set<int>
    ghost var log: seq<Call>
    /** The batch as it was fetched, and the turns of its events so far. */
    ghost var fetched: seq<Event>
    ghost var turns: seq<Turn>

    ghost function Now(): Registry
      reads this
    {
      Registry(watchers, nwatchers, nfds, queue, io, kernel)
    }

    ghost predicate Valid()
      reads this
    {
      Inv(Now())
    }

    constructor ()
      ensures Valid() && io == map[] && kernel == map[] && watchers == []
    {
      watchers, nwatchers, nfds, queue, io, kernel := [], 0, 0, [], map[], map[];
      closed, log := {}, [];
      fetched, turns := [], [];
    }

    /** maybe_resize; there is no new array when uv__realloc is asked for no memory. */
    method MaybeResize(len: nat) returns (memory: bool)
      requires Valid() && 0 < len <= 0x7FFF_FFFF
      modifies this`watchers, this`nwatchers
      ensures memory <==> len <= old(nwatchers) || Asked(len) > 0
      ensures memory ==> Valid() && Now() == Resized(old(Now()), len)
      ensures !memory ==> Now() == old(Now())
    {
      hide NextPowerOfTwo;
      if len <= nwatchers {
        ResizedKeeps(Now(), len);
        return true;
      }
      var list, count := Empty, Empty;
      if watchers != [] {
        list, count := watchers[nwatchers], watchers[nwatchers + 1];
      }
      var n := NewCount(len);
      LastDescriptorWraps(len - 1);
      if (n + 2) % TWO_32 == 0 {
        return false;
      }
      ResizedKeeps(Now(), len);
      assert n == NextPowerOfTwo(len + 2) - 2;
      watchers := watchers[..nwatchers] + seq(n - nwatchers, _ => Empty) + [list, count];
      nwatchers := n;
      return true;
    }

    /** uv__io_init */
    method Init(w: Watcher, fd: int)
      requires Valid() && w !in io && -1 <= fd && forall v :: v in io ==> fd == -1 || io[v].fd != fd
      modifies this`io
      ensures Valid() && Now() == Added(old(Now()), w, fd)
    {
      AddedKeeps(Now(), w, fd);
      io := io[w := Io(fd, {}, {})];
    }

    /** uv__io_start, for every descriptor that its asserts let through. If it asks for no memory, which
        LastDescriptorWraps says when, then it aborts or goes on without an array, having noted the
        interest and nothing else. */
    method Start(w: Watcher, ev: Mask) returns (memory: bool)
      requires Valid() && w in io && ev <= INTEREST && ev != {} && 0 <= io[w].fd < 0x7FFF_FFFF
      modifies this`watchers, this`nwatchers, this`nfds, this`queue, this`io
      ensures memory <==> old(io[w].fd) < old(nwatchers) || Asked(old(io[w].fd) + 1) > 0
      ensures memory ==> Valid() && Now() == StartResult(old(Now()), w, ev)
      ensures memory ==> io == old(io)[w := old(io[w]).(pevents := old(io[w]).pevents + ev)] && Registered(Now(), w)
      ensures !memory ==> Now() == old(Now()).(io := old(io)[w := old(io[w]).(pevents := old(io[w]).pevents + ev)])
    {
      ghost var s := Now();
      LastDescriptorWraps(io[w].fd);
      if Grows(s, io[w].fd) {
        StartKeeps(s, w, ev);
      }
      hide Inv, Resized, Started, Asked, StartResult;
      memory := MaybeResize(io[w].fd + 1);
      if !memory {
        io := io[w := io[w].(pevents := io[w].pevents + ev)];
        return;
      }
      Enlist(w, ev);
    }

    /** The part of uv__io_start after maybe_resize. */
    method Enlist(w: Watcher, ev: Mask)
      requires w in io && 0 <= io[w].fd < nwatchers <= |watchers|
      modifies this`watchers, this`nfds, this`queue, this`io
      ensures Now() == Started(old(Now()), w, ev)
    {
      var fd := io[w].fd;
      io := io[w := io[w].(pevents := io[w].pevents + ev)];
      if io[w].events == io[w].pevents {
        return;
      }
      if w !in queue {
        queue := queue + [w];
      }
      if watchers[fd].Empty? {
        watchers := watchers[fd := Of(w)];
        nfds := nfds + 1;
      }
    }

    /** uv__io_stop; its asserts hold. */
    method Stop(w: Watcher, ev: Mask)
      requires Valid() && w in io && ev <= INTEREST && ev != {}
      modifies this`watchers, this`nfds, this`queue, this`io
      ensures Valid() && Now() == Stopped(old(Now()), w, ev)
      ensures io.Keys == old(io.Keys) && forall v :: v in io && v != w ==> io[v] == old(io[v])
      ensures io[w].fd == old(io[w]).fd && forall f :: f in io[w].pevents <==> f in old(io[w]).pevents && f !in ev
    {
      hide Inv;
      StoppedKeeps(Now(), w, ev);
      StoppedLeaves(Now(), w, ev);
      var fd := io[w].fd;
      if fd == -1 {
        return;
      }
      if fd >= nwatchers {
        return;
      }
      io := io[w := io[w].(pevents := io[w].pevents - ev)];
      if io[w].pevents == {} {
        queue := Without(queue, w);
        if watchers[fd] != Empty {
          assert watchers[fd] == Of(w);
          assert nfds > 0;
          watchers := watchers[fd := Empty];
          nfds := nfds - 1;
          io := io[w := io[w].(events := {})];
          assert io == old(io)[w := io[w]];
        }
      } else if w !in queue {
        queue := queue + [w];
      }
    }

    /** One watcher of the queue; the asserts hold, and epoll_ctl does not fail in a way that
        makes the loop abort. */
    method Register()
      requires Valid() && queue != []
      modifies this`queue, this`io, this`kernel
      ensures Valid() && Now() == Told(old(Now())) && io.Keys == old(io.Keys)
    {
      ToldKeeps(Now());
      hide Inv;
      var w := queue[0];
      queue := queue[1..];
      assert io[w].pevents != {} && 0 <= io[w].fd < nwatchers;
      if io[w].events == {} {
        // EPOLL_CTL_ADD, or EPOLL_CTL_MOD after EEXIST
        kernel := kernel[io[w].fd := io[w].pevents];
      } else {
        // EPOLL_CTL_MOD fails, and the loop aborts, when the descriptor is unknown
        assert io[w].fd in kernel;
        kernel := kernel[io[w].fd := io[w].pevents];
      }
      io := io[w := io[w].(events := io[w].pevents)];
    }

    /** The registration part of uv__io_poll: none of its asserts fails and it never aborts;
        afterwards the kernel has what every watcher wants. */
    method Drain()
      requires Valid()
      modifies this`queue, this`io, this`kernel
      ensures Valid() && queue == [] && io.Keys == old(io.Keys)
      ensures forall w :: w in io ==> io[w] == old(io[w]).(events := old(io[w]).pevents)
      ensures forall w :: w in io && io[w].pevents != {} ==> io[w].fd in kernel && kernel[io[w].fd] == io[w].pevents
    {
      while queue != []
        invariant Valid() && io.Keys == old(io.Keys)
        invariant forall w :: w in io ==> io[w] == old(io[w]) || io[w] == old(io[w]).(events := old(io[w]).pevents)
        decreases |queue|
      {
        hide Inv;
        ghost var q := queue;
        ToldKeeps(Now());
        Register();
        assert queue == q[1..];
      }
      forall w | w in io
        ensures io[w].events == io[w].pevents
        ensures io[w].pevents != {} ==> io[w].fd in kernel && kernel[io[w].fd] == io[w].pevents
      {
        assert IoOk(Now(), w);
      }
    }

    // ---- dispatch ----

    ghost function Batches(): set<array<Event>>
      reads this
    {
      if Hidden(Now()).0.Batch? then {Hidden(Now()).0.events} else {}
    }

    /** A batch of n events is being dispatched; no event of a closed descriptor is left in it. */
    ghost predicate Dispatching(batch: array<Event>, n: nat)
      reads this, batch
    {
      && Hidden(Now()) == (Batch(batch), Count(n)) && n <= batch.Length
      && EventsOk(batch[..n], fetched, |turns|, closed, nwatchers)
    }

    /** uv__platform_invalidate_fd */
    method Invalidate(fd: int, ghost batch: array<Event>, ghost n: nat)
      requires watchers != [] && Valid()
      requires Dispatching(batch, n) || Hidden(Now()) == (Empty, Empty)
      requires forall w :: w in io && io[w].fd == fd && 0 <= fd ==> io[w].pevents == {}
      modifies this`kernel, this`closed, Batches()
      ensures Valid() && Now() == Forgotten(old(Now()), fd) && closed == old(closed) + {fd}
      ensures old(Dispatching(batch, n)) ==> Dispatching(batch, n)
    {
      ForgottenKeeps(Now(), fd);
      var events := watchers[nwatchers];
      if events.Batch? {
        var count := watchers[nwatchers + 1].n;
        var i := 0;
        while i < count
          invariant 0 <= i <= count
          invariant forall k :: 0 <= k < count ==> batch[k].fd == -1 || batch[k].fd == old(batch[k].fd)
          invariant forall k :: 0 <= k < i ==> batch[k].fd == -1 || batch[k].fd != fd
          invariant forall k :: 0 <= k < count ==> batch[k] == old(batch[k]) || (k < i && old(batch[k].fd) == fd && batch[k] == old(batch[k]).(fd := -1))
          modifies batch
        {
          if events.events[i].fd == fd {
            events.events[i] := events.events[i].(fd := -1);
          }
          i := i + 1;
        }
      }
      kernel := kernel - {fd};
      closed := closed + {fd};
    }

    /** uv__io_close */
    method Close(w: Watcher, ghost batch: array<Event>, ghost n: nat)
      requires watchers != [] && Valid() && w in io
      requires Dispatching(batch, n) || Hidden(Now()) == (Empty, Empty)
      modifies this, Batches()
      ensures Valid() && Now() == Forgotten(Stopped(old(Now()), w, INTEREST), old(io[w].fd))
      ensures closed == old(closed) + {old(io[w].fd)} && log == old(log) && turns == old(turns) && fetched == old(fetched)
      ensures io.Keys == old(io.Keys) && io[w] == Io(old(io[w].fd), {}, {})
      ensures old(Dispatching(batch, n)) ==> Dispatching(batch, n)
    {
      var fd := io[w].fd;
      CloseStops(Now(), w);
      StoppedKeeps(Now(), w, INTEREST);
      hide Inv, Stopped;
      Stop(w, INTEREST);
      Invalidate(fd, batch, n);
    }

    /** What a callback may do: set up, start, stop and close watchers, in any number and order;
        starting one may grow the array, and a closed descriptor's number may be used again. */
    method Callback(ghost batch: array<Event>, ghost n: nat)
      requires Valid() && Dispatching(batch, n) && kernel.Keys !! closed
      modifies this, batch
      ensures Valid() && Dispatching(batch, n) && closed >= old(closed) && log == old(log) && turns == old(turns) && fetched == old(fetched)
      ensures kernel == old(kernel) - closed
    {
      var steps: nat := *;
      NotThere(kernel, closed);
      while steps > 0
        invariant Valid() && Dispatching(batch, n) && closed >= old(closed) && log == old(log) && turns == old(turns) && fetched == old(fetched)
        invariant kernel == old(kernel) - closed
      {
        var w: Watcher, fd: int, ev: Mask := *, *, *;
        CallbackStep(w, fd, ev, batch, n);
        steps := steps - 1;
      }
    }

    method CallbackStep(w: Watcher, fd: int, ev: Mask, ghost batch: array<Event>, ghost n: nat)
      requires Valid() && Dispatching(batch, n) && kernel.Keys !! closed
      modifies this, batch
      ensures Valid() && Dispatching(batch, n) && closed >= old(closed) && log == old(log) && turns == old(turns) && fetched == old(fetched)
      ensures kernel == old(kernel) - closed
    {
      hide Inv, Asked, NewCount, NextPowerOfTwo, EventsOk, Registered, Stopped, StartResult;
      NotThere(kernel, closed);
      if w !in io {
        if -1 <= fd && (fd == -1 || forall v :: v in io ==> io[v].fd != fd) {
          Init(w, fd);
        }
      } else if * {
        if ev <= INTEREST && ev != {} && 0 <= io[w].fd < 0x7FFF_FFFE {  // with the last descriptor Start does not come back
          StartKeeps(Now(), w, ev);
          LastDescriptorWraps(io[w].fd);
          ghost var count := nwatchers;
          var memory := Start(w, ev);
          assert memory;
          EventsMore(batch[..n], fetched, |turns|, closed, count, nwatchers);
        }
      } else if * {
        if ev <= INTEREST && ev != {} {
          StoppedKeeps(Now(), w, ev);
          StoppedKernel(Now(), w, ev);
          Stop(w, ev);
        }
      } else {
        StoppedKernel(Now(), w, INTEREST);
        Close(w, batch, n);
        DropKeeps(Now(), w);
        // the caller closes the descriptor
        io := io[w := io[w].(fd := -1)];
      }
    }

    /** One event of the batch. */
    method DispatchOne(batch: array<Event>, ghost n: nat, i: nat) returns (called: bool)
      requires Valid() && Dispatching(batch, n) && i < n && |turns| == i && 0 <= fetched[i].fd && kernel.Keys !! closed
      modifies this, batch
      ensures Valid() && Dispatching(batch, n) && closed >= old(closed) && fetched == old(fetched)
      ensures |turns| == i + 1 && turns[..i] == old(turns) && TurnOk(turns[i])
      ensures kernel == old(kernel) - (if Orphan(turns[i]) then {turns[i].fd} else {}) - closed
      ensures turns[i].fd == fetched[i].fd && turns[i].mask == fetched[i].mask && turns[i].closed == old(closed)
      ensures called <==> turns[i].call.Some?
      ensures log == old(log) + if called then [turns[i].call.value] else []
      ensures called ==> Rightful(turns[i].call.value)
    {
      hide Inv, TurnOk, Registered, ToldMask, Rightful;
      called := false;
      var fd := batch[i].fd;
      ghost var t := Turn(fetched[i].fd, fetched[i].mask, Now(), closed, None);
      assert batch[..n][i] == batch[i];
      turns := turns + [t];
      NotThere(kernel, closed);
      NotThere(kernel, {});
      if fd == -1 {
        NothingDue(t);
        return;
      }
      assert 0 <= fd < nwatchers;
      SlotIs(Now(), fd);
      if watchers[fd].Empty? {
        SlotFree(Now(), fd);
        NothingDue(t);
        OrphanIs(t);
        ForgottenKeeps(Now(), fd);
        kernel := kernel - {fd};
        NotThere(kernel, closed);
        return;
      }
      RegisteredIs(Now(), watchers[fd].w);
      NoOrphan(t, watchers[fd].w);
      called := DispatchTo(watchers[fd].w, batch, n, i);
      assert Orphan(turns[i]) == Orphan(t);
    }

    /** The event of a descriptor with the watcher w in its slot. */
    method DispatchTo(w: Watcher, batch: array<Event>, ghost n: nat, i: nat) returns (called: bool)
      requires Valid() && Dispatching(batch, n) && i < n && |turns| == i + 1 && Registered(Now(), w)
      requires turns[i] == Turn(io[w].fd, batch[i].mask, Now(), closed, None) && batch[i].fd == io[w].fd && io[w].fd !in closed
      requires kernel.Keys !! closed
      modifies this, batch
      ensures Valid() && Dispatching(batch, n) && closed >= old(closed) && fetched == old(fetched)
      ensures |turns| == i + 1 && turns[..i] == old(turns[..i]) && TurnOk(turns[i])
      ensures kernel == old(kernel) - closed
      ensures turns[i] == old(turns[i]).(call := turns[i].call)
      ensures called <==> turns[i].call.Some?
      ensures log == old(log) + if called then [turns[i].call.value] else []
      ensures called ==> Rightful(turns[i].call.value)
    {
      hide Inv, TurnOk, Registered, ToldMask, Rightful, Orphan, Orphans, CallsOf, Tellable;
      RegisteredIs(Now(), w);
      called := false;
      NotThere(kernel, closed);
      ghost var t := turns[i];
      var mask := batch[i].mask * (io[w].pevents + {Err, Hup});
      ghost var tellable := mask;
      MaskTellable(t.mask, io[w].pevents);
      if mask == {Err} || mask == {Hup} {
        mask := mask + io[w].pevents * {In, Out};
      }
      MaskTold(t.mask, io[w].pevents, tellable, mask);
      batch[i] := batch[i].(mask := mask);
      if mask != {} {
        turns := turns[i := t.(call := Some(Call(w, t.fd, mask, Now(), closed)))];
        SlotTurn(turns[i], w);
        CallRightful(turns[i]);
        log := log + [turns[i].call.value];
        called := true;
        Callback(batch, n);
      } else {
        SlotTurn(t, w);
      }
    }

    /** The entries past the watchers get the batch and its size. */
    method Fetch(batch: array<Event>, n: nat)
      requires Valid() && watchers != [] && Hidden(Now()) == (Empty, Empty) && n <= batch.Length
      requires forall k :: 0 <= k < n ==> batch[k].fd in kernel
      modifies this
      ensures Valid() && Dispatching(batch, n) && turns == [] && closed == {} && fetched == batch[..n] && log == old(log) && kernel == old(kernel)
      ensures forall k :: 0 <= k < n ==> 0 <= fetched[k].fd
    {
      HiddenKeeps(Now(), Batch(batch), Count(n));
      watchers := watchers[nwatchers := Batch(batch)][nwatchers + 1 := Count(n)];
      closed := {};
      fetched, turns := batch[..n], [];
    }

    /** The dispatch loop of uv__io_poll, with callbacks that may do anything. Every event of the batch has
        its turn, in order; then a callback is made exactly if one is due: to the watcher registered at
        that moment, with the flags it is to be told, and never for a descriptor closed earlier in the
        batch. The callbacks made are those of the turns, and no others. The kernel forgets the
        descriptors that are closed and those whose event finds nobody, and no others. */
    method Dispatch(batch: array<Event>, n: nat) returns (nevents: nat)
      requires Valid() && watchers != [] && Hidden(Now()) == (Empty, Empty) && n <= batch.Length
      requires forall k :: 0 <= k < n ==> batch[k].fd in kernel
      modifies this, batch
      ensures Valid() && Hidden(Now()) == (Empty, Empty)
      ensures |turns| == n && log == old(log) + CallsOf(turns) && nevents == |CallsOf(turns)|
      ensures kernel == old(kernel) - (Orphans(turns) + closed)
      ensures forall k :: 0 <= k < n ==> turns[k].fd == old(batch[k].fd) && turns[k].mask == old(batch[k].mask)
      ensures forall k :: 0 <= k < n ==> TurnOk(turns[k]) && (turns[k].call.Some? ==> Rightful(turns[k].call.value))
      ensures forall j, k :: 0 <= j < k < n ==> turns[j].closed <= turns[k].closed
    {
      hide Inv, Rightful, TurnOk, CallsOf, EventsOk, Orphans, Orphan;
      Fetch(batch, n);
      CallsOfNone();
      OrphansNone();
      NotThere(kernel, {});
      assert Orphans(turns) + closed == {};
      nevents := 0;
      var i := 0;
      while i < n
        invariant 0 <= i <= n && Valid() && Dispatching(batch, n)
        invariant |turns| == i && fetched == old(batch[..n]) && log == old(log) + CallsOf(turns) && forall k :: 0 <= k < n ==> 0 <= fetched[k].fd
        invariant nevents == |CallsOf(turns)| && kernel == old(kernel) - (Orphans(turns) + closed)
        invariant forall k :: 0 <= k < i ==> turns[k].fd == fetched[k].fd && turns[k].mask == fetched[k].mask
        invariant forall k :: 0 <= k < i ==> TurnOk(turns[k]) && (turns[k].call.Some? ==> Rightful(turns[k].call.value))
        invariant forall k :: 0 <= k < i ==> turns[k].closed <= closed
        invariant forall j, k :: 0 <= j < k < i ==> turns[j].closed <= turns[k].closed
      {
        ghost var before, shut := turns, closed;
        ForgotNone(old(kernel), Orphans(turns), closed);
        var called := DispatchOne(batch, n, i);
        CallsMore(before, turns[i]);
        OrphansMore(before, turns[i]);
        ForgotMore(old(kernel), Orphans(before), shut, if Orphan(turns[i]) then {turns[i].fd} else {}, closed);
        assert turns == before + [turns[i]];
        if called {
          nevents := nevents + 1;
        }
        i := i + 1;
      }
      HiddenKeeps(Now(), Empty, Empty);
      watchers := watchers[nwatchers := Empty][nwatchers + 1 := Empty];
    }
  }

  /** Taking away what is not there. */
  lemma NotThere<T>(m: map<int, T>, c: set<int>)
    requires m.Keys !! c
    ensures m - c == m
  {
  }

  lemma ForgotNone<T>(m: map<int, T>, o: set<int>, c: set<int>)
    ensures (m - (o + c)).Keys !! c
  {
  }

  lemma ForgotMore<T>(m: map<int, T>, o: set<int>, c: set<int>, one: set<int>, d: set<int>)
    requires c <= d
    ensures m - (o + c) - one - d == m - (o + one + d)
  {
  }

  lemma SlotFree(s: Registry, fd: int)
    requires Inv(s) && 0 <= fd < s.nwatchers && s.watchers[fd].Empty?
    ensures forall w :: w in s.io && s.io[w].fd == fd ==> s.io[w].pevents == {}
  {
    forall w | w in s.io && s.io[w].fd == fd ensures s.io[w].pevents == {} {
      assert IoOk(s, w);
    }
  }

  lemma HiddenKeeps(s: Registry, a: Slot, b: Slot)
    requires Inv(s) && s.watchers != [] && !a.Of? && !b.Of?
    ensures var t := s.(watchers := s.watchers[s.nwatchers := a][s.nwatchers + 1 := b]); Inv(t) && Hidden(t) == (a, b)
  {
    var t := s.(watchers := s.watchers[s.nwatchers := a][s.nwatchers + 1 := b]);
    OccupiedSame(s.watchers, t.watchers, s.nwatchers);
    forall i | 0 <= i < t.nwatchers ensures SlotOk(t, i) {
      assert SlotOk(s, i);
    }
    forall v | v in t.io ensures IoOk(t, v) {
      assert IoOk(s, v);
    }
  }

  /** A watcher stopped for everything wants nothing. */
  lemma CloseStops(s: Registry, w: Watcher)
    requires Inv(s) && w in s.io
    ensures var t := Stopped(s, w, INTEREST);
      (forall v :: v in t.io && t.io[v].fd == s.io[w].fd && 0 <= s.io[w].fd ==> t.io[v].pevents == {})
      && t.io.Keys == s.io.Keys && t.io[w] == Io(s.io[w].fd, {}, {})
    ensures Stopped(s, w, INTEREST).watchers == [] <==> s.watchers == []
    ensures Hidden(Stopped(s, w, INTEREST)) == Hidden(s) && Stopped(s, w, INTEREST).nwatchers == s.nwatchers
  {
    StoppedKeeps(s, w, INTEREST);
    assert IoOk(s, w);
  }

  lemma DropKeeps(s: Registry, w: Watcher)
    requires Inv(s) && w in s.io && s.io[w].pevents == {}
    ensures Inv(s.(io := s.io[w := s.io[w].(fd := -1)]))
  {
    var t := s.(io := s.io[w := s.io[w].(fd := -1)]);
    assert IoOk(s, w);
    forall i | 0 <= i < t.nwatchers ensures SlotOk(t, i) {
      assert SlotOk(s, i);
      assert IoOk(s, w);
    }
    forall v | v in t.io ensures IoOk(t, v) {
      assert IoOk(s, v);
    }
  }
}
