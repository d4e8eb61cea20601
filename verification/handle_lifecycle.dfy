/** Who owns a raw handle: the wrapper of uvpp/uvpp_handle.h, the closing list of
    libuv/src/unix/core.c, the lists that active handles are linked into, and the counter of active
    handles of libuv/src/uv-common.h. */
module HandleLifecycle {
  import opened Lists
  import opened Options

  type Raw = nat
  type Wrapper = nat

  /** A timer is in the loop's timer heap while it is active, an idle, prepare or check handle in the
      loop's list of those; the other types are not linked by start and stop. */
  datatype Kind = Timer | Watcher | Other

  /** A uv_handle_t: `data` points back to the wrapper; the flags. `owner` is the living wrapper
      that points to it. */
  datatype Handle = Handle(kind: Kind, data: Option<Wrapper>, closing: bool, closed: bool, active: bool,
                           referenced: bool, owner: Option<Wrapper>)

  /** A living Handle<T>: its raw handle, and whether it has a close callback. */
  datatype Wrap = Wrap(raw: Raw, onClose: bool)

  /** The raw handles allocated, the wrappers alive, the closing list, the part of it that a pass
      still has to close, the handle that uv__finish_close is busy with, the loop's handle_queue,
      active_handles, the handles that its timer heap and watcher lists point to, and the wrappers
      whose close callback has been run; then the closed handles not freed yet, how many were freed
      while active and referenced, and those that were freed while a list pointed to them. */
  datatype World = World(
    raws: map<Raw, Handle>, wrappers: map<Wrapper, Wrap>, closing: seq<Raw>, pass: seq<Raw>,
    midway: Option<Raw>, queue: seq<Raw>, activeHandles: nat, linked: set<Raw>, used: set<Wrapper>,
    taken: set<Raw>, notified: seq<Wrapper>, shut: seq<Raw>, lost: nat, left: set<Raw>)

  // ---- counting ----

  predicate Counts(m: map<Raw, Handle>, r: Raw) {
    r in m && m[r].active && m[r].referenced
  }

  /** How many handles of the queue are both active and referenced. */
  function Live(q: seq<Raw>, m: map<Raw, Handle>): nat {
    if q == [] then 0 else (if Counts(m, q[0]) then 1 else 0) + Live(q[1..], m)
  }

  lemma {:induction false} LiveSame(q: seq<Raw>, m: map<Raw, Handle>, m': map<Raw, Handle>)
    requires forall r :: r in q ==> (Counts(m', r) <==> Counts(m, r))
    ensures Live(q, m') == Live(q, m)
  {
    if q != [] {
      LiveSame(q[1..], m, m');
    }
  }

  lemma {:induction false} LiveOne(q: seq<Raw>, m: map<Raw, Handle>, m': map<Raw, Handle>, r: Raw)
    requires Distinct(q) && r in q && forall x :: x in q && x != r ==> (Counts(m', x) <==> Counts(m, x))
    ensures Live(q, m') == Live(q, m) - (if Counts(m, r) then 1 else 0) + (if Counts(m', r) then 1 else 0)
    ensures Counts(m, r) ==> Live(q, m) > 0
  {
    if q[0] == r {
      LiveSame(q[1..], m, m');
    } else {
      LiveOne(q[1..], m, m', r);
    }
  }

  lemma {:induction false} LiveWithout(q: seq<Raw>, m: map<Raw, Handle>, r: Raw)
    requires r in q
    ensures Live(Without(q, r), m) == Live(q, m) - (if Counts(m, r) then 1 else 0)
  {
    if q[0] != r {
      LiveWithout(q[1..], m, r);
    }
  }

  lemma {:induction false} LiveAppend(q: seq<Raw>, m: map<Raw, Handle>, r: Raw)
    ensures Live(q + [r], m) == Live(q, m) + if Counts(m, r) then 1 else 0
  {
    if q == [] {
      assert q + [r] == [r];
    } else {
      assert (q + [r])[1..] == q[1..] + [r];
      LiveAppend(q[1..], m, r);
    }
  }

  // ---- the invariant ----

  /** The close of a handle is complete: its wrapper, if it lives, knows. */
  predicate Done(s: World, r: Raw) {
    r in s.raws && s.raws[r].closed && s.midway != Some(r)
  }

  /** A list of the loop points to it. */
  predicate Links(h: Handle) {
    h.active && !h.kind.Other?
  }

  /** Either a living wrapper owns the handle, which points back until it is closed; or the wrapper
      is gone, and the handle waits in a closing list to be freed. */
  ghost predicate RawOk(s: World, r: Raw)
    requires r in s.raws
  {
    var h := s.raws[r];
    && h.data == (if Done(s, r) then None else h.owner)
    && (h.closed ==> h.closing) && (s.midway == Some(r) ==> h.closed)
    && (if h.owner.Some? then h.owner.value in s.wrappers && s.wrappers[h.owner.value].raw == r
        else h.closing && !Done(s, r))
    && (h.closing && !h.closed <==> r in s.closing + s.pass)
    && (!Done(s, r) <==> r in s.queue) && (Done(s, r) <==> r in s.shut)
    && (Links(h) <==> r in s.linked)
  }

  ghost predicate WrapperOk(s: World, w: Wrapper)
    requires w in s.wrappers
  {
    var r := s.wrappers[w].raw;
    w in s.used && r in s.raws && s.raws[r].owner == Some(w) && (w in s.notified ==> Done(s, r))
  }

  ghost predicate ListsOk(s: World) {
    && Distinct(s.closing + s.pass) && (forall r :: r in s.closing + s.pass ==> r in s.raws)
    && (s.midway.Some? ==> s.midway.value in s.raws)
    && Distinct(s.queue) && (forall r :: r in s.queue ==> r in s.raws)
    && Distinct(s.notified) && (forall w :: w in s.notified ==> w in s.used)
    && Distinct(s.shut) && (forall r :: r in s.shut ==> r in s.raws)
    && s.activeHandles == Live(s.queue, s.raws) + Live(s.shut, s.raws) + s.lost && s.raws.Keys <= s.taken
  }

  /** What the loop's lists point to: handles that are there, and handles that are not. */
  ghost predicate LinksOk(s: World) {
    s.linked <= s.raws.Keys + s.left && s.left <= s.linked && s.left <= s.taken && s.left !! s.raws.Keys
  }

  ghost predicate Inv(s: World) {
    && ListsOk(s) && LinksOk(s)
    && (forall r :: r in s.raws ==> RawOk(s, r))
    && (forall w :: w in s.wrappers ==> WrapperOk(s, w))
  }

  const EMPTY := World(map[], map[], [], [], None, [], 0, {}, {}, {}, [], [], 0, {})

  lemma EmptyInv()
    ensures Inv(EMPTY)
  {
  }

  /** The parts of the invariant that look at one handle or wrapper at a time. */
  lemma Owned(s: World, w: Wrapper)
    requires Inv(s) && w in s.wrappers
    ensures WrapperOk(s, w) && s.wrappers[w].raw in s.raws && RawOk(s, s.wrappers[w].raw)
  {
    assert WrapperOk(s, w);
  }

  lemma OwnedBy(s: World, w: Wrapper)
    requires w in s.wrappers && WrapperOk(s, w)
    ensures s.wrappers[w].raw in s.raws && s.raws[s.wrappers[w].raw].owner == Some(w)
  {
  }

  lemma RawIs(s: World, r: Raw)
    requires Inv(s) && r in s.raws
    ensures RawOk(s, r)
  {
  }

  // ---- the operations as functions ----

  /** Handle's constructor with uv__handle_init. */
  function Created(s: World, w: Wrapper, r: Raw, kind: Kind): World {
    s.(raws := s.raws[r := Handle(kind, Some(w), false, false, false, true, Some(w))],
       wrappers := s.wrappers[w := Wrap(r, false)], used := s.used + {w}, taken := s.taken + {r}, queue := s.queue + [r])
  }

  lemma CreatedRaw(s: World, w: Wrapper, r: Raw, kind: Kind, x: Raw)
    requires Inv(s) && w !in s.used && r !in s.taken && x in Created(s, w, r, kind).raws
    ensures RawOk(Created(s, w, r, kind), x)
  {
    hide Inv, Without, Live, Distinct, WrapperOk;
    TakenAre(s);
    if x != r {
      RawIs(s, x);
    }
  }

  lemma CreatedWrapper(s: World, w: Wrapper, r: Raw, kind: Kind, x: Wrapper)
    requires Inv(s) && w !in s.used && r !in s.taken && x in Created(s, w, r, kind).wrappers
    ensures WrapperOk(Created(s, w, r, kind), x)
  {
    hide Inv, Without, Live, Distinct;
    TakenAre(s);
    if x != w {
      Owned(s, x);
    }
  }

  lemma CreatedKeeps(s: World, w: Wrapper, r: Raw, kind: Kind)
    requires Inv(s) && w !in s.used && r !in s.taken
    ensures Inv(Created(s, w, r, kind))
  {
    hide RawOk, WrapperOk, ListsOk, LinksOk, Created;
    CreatedLists(s, w, r, kind);
    forall x | x in Created(s, w, r, kind).raws ensures RawOk(Created(s, w, r, kind), x) {
      CreatedRaw(s, w, r, kind, x);
    }
    forall x | x in Created(s, w, r, kind).wrappers ensures WrapperOk(Created(s, w, r, kind), x) {
      CreatedWrapper(s, w, r, kind, x);
    }
  }

  lemma TakenAre(s: World)
    requires Inv(s)
    ensures s.raws.Keys <= s.taken && s.linked <= s.taken && (forall w :: w in s.wrappers || w in s.notified ==> w in s.used)
    ensures forall r :: r in s.queue || r in s.shut || r in s.closing + s.pass || s.midway == Some(r) ==> r in s.taken
  {
  }

  lemma CreatedLists(s: World, w: Wrapper, r: Raw, kind: Kind)
    requires Inv(s) && w !in s.used && r !in s.taken
    ensures ListsOk(Created(s, w, r, kind)) && LinksOk(Created(s, w, r, kind))
  {
    hide Live, RawOk, WrapperOk;
    var t := Created(s, w, r, kind);
    LiveAppend(s.queue, t.raws, r);
    LiveSame(s.queue, s.raws, t.raws);
    LiveSame(s.shut, s.raws, t.raws);
  }

  /** The counter after the flags of a handle have changed. */
  function Recount(s: World, r: Raw, active: bool, referenced: bool): nat
    requires r in s.raws
  {
    var before, after := Counts(s.raws, r), active && referenced;
    if before && !after && s.activeHandles > 0 then s.activeHandles - 1
    else if !before && after then s.activeHandles + 1
    else s.activeHandles
  }

  /** The lists after a handle has been started or stopped. */
  function Relinked(s: World, r: Raw, active: bool): set<Raw>
    requires r in s.raws
  {
    var h := s.raws[r];
    if h.kind.Other? || active == h.active then s.linked
    else if active then s.linked + {r} else s.linked - {r}
  }

  function Changed(s: World, r: Raw, active: bool, referenced: bool): World
    requires r in s.raws
  {
    s.(raws := s.raws[r := s.raws[r].(active := active, referenced := referenced)],
       activeHandles := Recount(s, r, active, referenced), linked := Relinked(s, r, active))
  }

  lemma FlagsLinks(s: World, r: Raw, active: bool, referenced: bool)
    requires Inv(s) && r in s.raws
    ensures LinksOk(Changed(s, r, active, referenced))
  {
    hide Live, Distinct, WrapperOk, ListsOk;
    RawIs(s, r);
  }

  lemma FlagsRaw(s: World, r: Raw, active: bool, referenced: bool, x: Raw)
    requires Inv(s) && r in s.raws && x in Changed(s, r, active, referenced).raws
    ensures RawOk(Changed(s, r, active, referenced), x)
  {
    hide Inv, Without, Live, Distinct, WrapperOk;
    RawIs(s, x);
  }

  lemma FlagsWrapper(s: World, r: Raw, active: bool, referenced: bool, x: Wrapper)
    requires Inv(s) && r in s.raws && x in Changed(s, r, active, referenced).wrappers
    ensures WrapperOk(Changed(s, r, active, referenced), x)
  {
    hide Inv, Without, Live, Distinct;
    Owned(s, x);
  }

  /** start, stop, ref and unref change one flag, and the counter when the other one is set; start
      and stop the list of the type too. */
  lemma FlagsKeep(s: World, r: Raw, active: bool, referenced: bool)
    requires Inv(s) && r in s.raws
    ensures s.raws[r].active && s.raws[r].referenced ==> s.activeHandles > 0
    ensures Inv(Changed(s, r, active, referenced))
  {
    hide RawOk, WrapperOk, ListsOk, LinksOk, Changed;
    FlagsCount(s, r, active, referenced);
    FlagsLinks(s, r, active, referenced);
    forall x | x in Changed(s, r, active, referenced).raws ensures RawOk(Changed(s, r, active, referenced), x) {
      FlagsRaw(s, r, active, referenced, x);
    }
    forall x | x in Changed(s, r, active, referenced).wrappers ensures WrapperOk(Changed(s, r, active, referenced), x) {
      FlagsWrapper(s, r, active, referenced, x);
    }
  }

  lemma FlagsCount(s: World, r: Raw, active: bool, referenced: bool)
    requires Inv(s) && r in s.raws
    ensures Counts(s.raws, r) ==> s.activeHandles > 0
    ensures ListsOk(Changed(s, r, active, referenced))
  {
    hide Live, WrapperOk, Distinct;
    assert RawOk(s, r);
    var u := Changed(s, r, active, referenced);
    if Done(s, r) {
      LiveOne(s.shut, s.raws, u.raws, r);
      LiveSame(s.queue, s.raws, u.raws);
    } else {
      LiveOne(s.queue, s.raws, u.raws, r);
      LiveSame(s.shut, s.raws, u.raws);
    }
  }

  /** uv_close after the type's own close: on the closing list. */
  function Pending(s: World, r: Raw): World
    requires r in s.raws
  {
    s.(raws := s.raws[r := s.raws[r].(closing := true)], closing := [r] + s.closing)
  }

  /** The type's own close stops timers and watchers, and others if `stops`. */
  predicate Stops(h: Handle, stops: bool) {
    stops || !h.kind.Other?
  }

  /** uv_close: the handle is stopped, unless its type leaves it active, and on the closing list. */
  function CloseBegun(s: World, r: Raw, stops: bool): World
    requires r in s.raws
  {
    Pending(if Stops(s.raws[r], stops) then Changed(s, r, false, s.raws[r].referenced) else s, r)
  }

  lemma CloseBegunKeeps(s: World, r: Raw, stops: bool)
    requires Inv(s) && r in s.raws && !s.raws[r].closing
    ensures var t := CloseBegun(s, r, stops);
      && Inv(t) && t.raws == s.raws[r := s.raws[r].(closing := true, active := s.raws[r].active && !Stops(s.raws[r], stops))]
      && t.pass == s.pass && t.midway == s.midway && t.wrappers == s.wrappers && t.notified == s.notified
      && t.taken == s.taken && t.left == s.left
  {
    CloseBegunIs(s, r, stops);
    hide Inv, RawOk, Recount;
    var h := s.raws[r];
    FlagsKeep(s, r, false, h.referenced);
    PendingKeeps(if Stops(h, stops) then Changed(s, r, false, h.referenced) else s, r);
  }

  lemma CloseBegunIs(s: World, r: Raw, stops: bool)
    requires r in s.raws
    ensures var t := CloseBegun(s, r, stops);
      && t.raws == s.raws[r := s.raws[r].(closing := true, active := s.raws[r].active && !Stops(s.raws[r], stops))]
      && t.pass == s.pass && t.midway == s.midway && t.wrappers == s.wrappers && t.notified == s.notified
      && t.taken == s.taken && t.left == s.left
  {
    hide Recount;
    assert s.raws[r].(active := s.raws[r].active) == s.raws[r];
  }

  lemma PendingRaw(s: World, r: Raw, x: Raw)
    requires Inv(s) && r in s.raws && !s.raws[r].closing && x in Pending(s, r).raws
    ensures RawOk(Pending(s, r), x)
  {
    hide Inv, Without, Live, Distinct, WrapperOk;
    RawIs(s, r);
    RawIs(s, x);
    assert Pending(s, r).closing + Pending(s, r).pass == [r] + (s.closing + s.pass);
  }

  lemma PendingWrapper(s: World, r: Raw, x: Wrapper)
    requires Inv(s) && r in s.raws && !s.raws[r].closing && x in Pending(s, r).wrappers
    ensures WrapperOk(Pending(s, r), x)
  {
    hide Inv, Without, Live, Distinct;
    Owned(s, x);
  }

  lemma PendingKeeps(s: World, r: Raw)
    requires Inv(s) && r in s.raws && !s.raws[r].closing
    ensures Inv(Pending(s, r))
  {
    hide RawOk, WrapperOk, ListsOk, LinksOk, Pending;
    PendingLists(s, r);
    forall x | x in Pending(s, r).raws ensures RawOk(Pending(s, r), x) {
      PendingRaw(s, r, x);
    }
    forall x | x in Pending(s, r).wrappers ensures WrapperOk(Pending(s, r), x) {
      PendingWrapper(s, r, x);
    }
  }

  lemma PendingLists(s: World, r: Raw)
    requires Inv(s) && r in s.raws && !s.raws[r].closing
    ensures ListsOk(Pending(s, r)) && LinksOk(Pending(s, r))
  {
    hide Live, WrapperOk;
    var t := Pending(s, r);
    assert RawOk(s, r);
    LiveSame(s.queue, s.raws, t.raws);
    LiveSame(s.shut, s.raws, t.raws);
    assert t.closing + t.pass == [r] + (s.closing + s.pass);
  }

  /** The wrapper is gone and its handle, which is closing, no longer points to it. */
  function Orphaned(s: World, w: Wrapper): World
    requires w in s.wrappers && s.wrappers[w].raw in s.raws
  {
    var r := s.wrappers[w].raw;
    s.(raws := s.raws[r := s.raws[r].(data := None, owner := None)], wrappers := s.wrappers - {w})
  }

  lemma OrphanedLists(s: World, w: Wrapper)
    requires Inv(s) && w in s.wrappers && s.wrappers[w].raw in s.raws
    ensures ListsOk(Orphaned(s, w)) && LinksOk(Orphaned(s, w))
  {
    hide Live, RawOk, WrapperOk;
    var t := Orphaned(s, w);
    LiveSame(s.queue, s.raws, t.raws);
    LiveSame(s.shut, s.raws, t.raws);
  }

  lemma OrphanedRaw(s: World, w: Wrapper, x: Raw)
    requires Inv(s) && w in s.wrappers && s.wrappers[w].raw in s.raws && x in Orphaned(s, w).raws
    requires s.raws[s.wrappers[w].raw].closing && !Done(s, s.wrappers[w].raw)
    ensures RawOk(Orphaned(s, w), x)
  {
    hide Inv, Without, Live, Distinct;
    Owned(s, w);
    OwnedBy(s, w);
    RawIs(s, x);
  }

  lemma OrphanedWrapper(s: World, w: Wrapper, x: Wrapper)
    requires Inv(s) && w in s.wrappers && s.wrappers[w].raw in s.raws && x in Orphaned(s, w).wrappers
    ensures WrapperOk(Orphaned(s, w), x)
  {
    hide Inv, Without, Live, Distinct;
    Owned(s, w);
    Owned(s, x);
  }

  lemma OrphanedKeeps(s: World, w: Wrapper)
    requires Inv(s) && w in s.wrappers && s.wrappers[w].raw in s.raws
    requires s.raws[s.wrappers[w].raw].closing && !Done(s, s.wrappers[w].raw)
    ensures Inv(Orphaned(s, w))
  {
    hide RawOk, WrapperOk, ListsOk, LinksOk, Orphaned;
    OrphanedLists(s, w);
    forall x | x in Orphaned(s, w).raws ensures RawOk(Orphaned(s, w), x) {
      OrphanedRaw(s, w, x);
    }
    forall x | x in Orphaned(s, w).wrappers ensures WrapperOk(Orphaned(s, w), x) {
      OrphanedWrapper(s, w, x);
    }
  }

  /** What is freed while a list points to it. */
  function Dangling(s: World, r: Raw): set<Raw> {
    if r in s.raws && Links(s.raws[r]) then {r} else {}
  }

  /** The wrapper is gone, and with it its handle, which has been closed. */
  function Deleted(s: World, w: Wrapper): World
    requires w in s.wrappers
  {
    var r := s.wrappers[w].raw;
    s.(raws := s.raws - {r}, wrappers := s.wrappers - {w}, shut := Without(s.shut, r),
       lost := s.lost + (if Counts(s.raws, r) then 1 else 0), left := s.left + Dangling(s, r))
  }

  lemma DeletedLinks(s: World, w: Wrapper)
    requires Inv(s) && w in s.wrappers && Done(s, s.wrappers[w].raw)
    ensures LinksOk(Deleted(s, w))
  {
    hide Live, Distinct, WrapperOk, ListsOk;
    TakenAre(s);
    RawIs(s, s.wrappers[w].raw);
  }

  lemma DeletedRaw(s: World, w: Wrapper, x: Raw)
    requires Inv(s) && w in s.wrappers && Done(s, s.wrappers[w].raw) && x in Deleted(s, w).raws
    ensures RawOk(Deleted(s, w), x)
  {
    hide Inv, Without, Live;
    ListsAre(s);
    Owned(s, w);
    OwnedBy(s, w);
    WithoutIs(s.shut, s.wrappers[w].raw);
    RawIs(s, x);
  }

  lemma DeletedWrapper(s: World, w: Wrapper, x: Wrapper)
    requires Inv(s) && w in s.wrappers && Done(s, s.wrappers[w].raw) && x in Deleted(s, w).wrappers
    ensures WrapperOk(Deleted(s, w), x)
  {
    hide Inv, Without, Live, Distinct;
    Owned(s, w);
    Owned(s, x);
  }

  lemma DeletedKeeps(s: World, w: Wrapper)
    requires Inv(s) && w in s.wrappers && Done(s, s.wrappers[w].raw)
    ensures Inv(Deleted(s, w))
  {
    hide RawOk, WrapperOk, ListsOk, LinksOk, Deleted;
    DeletedLists(s, w);
    DeletedLinks(s, w);
    forall x | x in Deleted(s, w).raws ensures RawOk(Deleted(s, w), x) {
      DeletedRaw(s, w, x);
    }
    forall x | x in Deleted(s, w).wrappers ensures WrapperOk(Deleted(s, w), x) {
      DeletedWrapper(s, w, x);
    }
  }

  lemma ListsAre(s: World)
    requires Inv(s)
    ensures Distinct(s.queue) && Distinct(s.shut) && s.raws.Keys <= s.taken
  {
  }

  lemma DeletedLists(s: World, w: Wrapper)
    requires Inv(s) && w in s.wrappers && Done(s, s.wrappers[w].raw)
    ensures ListsOk(Deleted(s, w))
  {
    hide Live, Without;
    var t, r := Deleted(s, w), s.wrappers[w].raw;
    assert RawOk(s, r);
    LiveSame(s.queue, s.raws, t.raws);
    WithoutIs(s.shut, r);
    LiveWithout(s.shut, s.raws, r);
    LiveSame(t.shut, s.raws, t.raws);
  }

  /** Handle's destructor. */
  function Destroyed(s: World, w: Wrapper, stops: bool): World
    requires w in s.wrappers && s.wrappers[w].raw in s.raws
  {
    var r := s.wrappers[w].raw;
    if Done(s, r) then Deleted(s, w)
    else if s.raws[r].closing then Orphaned(s, w)
    else Orphaned(CloseBegun(s, r, stops), w)
  }

  lemma DestroyedKeeps(s: World, w: Wrapper, stops: bool)
    requires Inv(s) && w in s.wrappers
    ensures s.wrappers[w].raw in s.raws && Inv(Destroyed(s, w, stops))
    ensures s.raws[s.wrappers[w].raw].data == None <==> Done(s, s.wrappers[w].raw)
    ensures var t := Destroyed(s, w, stops);
      && t.pass == s.pass && t.midway == s.midway && t.notified == s.notified && t.taken == s.taken && t.raws.Keys <= s.raws.Keys
      && forall r :: r in t.raws && s.raws[r].closed ==> t.raws[r].closed
  {
    hide Inv, WrapperOk, CloseBegun;
    Owned(s, w);
    var r := s.wrappers[w].raw;
    assert s.raws[r].owner == Some(w) by { OwnedBy(s, w); }
    if Done(s, r) {
      DeletedKeeps(s, w);
    } else if s.raws[r].closing {
      OrphanedKeeps(s, w);
    } else {
      CloseBegunKeeps(s, r, stops);
      OrphanedKeeps(CloseBegun(s, r, stops), w);
    }
  }

  /** A pass takes the closing list over. */
  function Detached(s: World): World {
    s.(pass := s.closing, closing := [])
  }

  lemma DetachedKeeps(s: World)
    requires Inv(s) && s.pass == []
    ensures Inv(Detached(s))
  {
    var t := Detached(s);
    assert t.closing + t.pass == s.closing + s.pass;
    hide Live;
    forall x | x in t.raws ensures RawOk(t, x) {
      assert RawOk(s, x);
    }
    forall x | x in t.wrappers ensures WrapperOk(t, x) {
      assert WrapperOk(s, x);
    }
  }

  /** uv__finish_close up to the switch: the next handle of the pass gets UV_CLOSED. */
  function Begun(s: World): World
    requires s.pass != [] && s.pass[0] in s.raws
  {
    var r := s.pass[0];
    s.(pass := s.pass[1..], midway := Some(r), raws := s.raws[r := s.raws[r].(closed := true)])
  }

  lemma PassHead(s: World)
    requires Inv(s) && s.pass != []
    ensures s.pass[0] in s.raws && s.raws[s.pass[0]].closing && !s.raws[s.pass[0]].closed
    ensures s.pass[0] in s.closing + s.pass && Distinct(s.closing + s.pass)
  {
    var r := s.pass[0];
    assert (s.closing + s.pass)[|s.closing|] == r;
    assert RawOk(s, r);
    hide Live, WrapperOk;
  }

  lemma BegunLists(s: World)
    requires Inv(s) && s.pass != [] && s.midway.None?
    ensures s.pass[0] in s.raws && ListsOk(Begun(s)) && LinksOk(Begun(s))
  {
    PassHead(s);
    hide Live, RawOk, WrapperOk;
    var t := Begun(s);
    LiveSame(s.queue, s.raws, t.raws);
    LiveSame(s.shut, s.raws, t.raws);
    assert forall i :: 0 <= i < |t.closing + t.pass| ==>
      (t.closing + t.pass)[i] == (s.closing + s.pass)[if i < |s.closing| then i else i + 1];
  }

  lemma BegunRaw(s: World, x: Raw)
    requires Inv(s) && s.pass != [] && s.midway.None? && s.pass[0] in s.raws && x in Begun(s).raws
    ensures RawOk(Begun(s), x)
  {
    hide Inv, Without, Live, Distinct, WrapperOk;
    PassHead(s);
    PassRest(s.closing, s.pass);
    RawIs(s, s.pass[0]);
    RawIs(s, x);
  }

  lemma BegunWrapper(s: World, x: Wrapper)
    requires Inv(s) && s.pass != [] && s.midway.None? && s.pass[0] in s.raws && x in Begun(s).wrappers
    ensures WrapperOk(Begun(s), x)
  {
    hide Inv, Without, Live, Distinct;
    Owned(s, x);
  }

  lemma BegunKeeps(s: World)
    requires Inv(s) && s.pass != [] && s.midway.None?
    ensures s.pass[0] in s.raws && Inv(Begun(s))
  {
    PassHead(s);
    hide RawOk, WrapperOk, ListsOk, LinksOk, Begun;
    BegunLists(s);
    forall x | x in Begun(s).raws ensures RawOk(Begun(s), x) {
      BegunRaw(s, x);
    }
    forall x | x in Begun(s).wrappers ensures WrapperOk(Begun(s), x) {
      BegunWrapper(s, x);
    }
  }

  lemma PassRest(closing: seq<Raw>, pass: seq<Raw>)
    requires Distinct(closing + pass) && pass != []
    ensures forall x :: x in closing + pass[1..] <==> x in closing + pass && x != pass[0]
  {
    var p, r := closing + pass, pass[0];
    assert pass == [r] + pass[1..];
    assert p[|closing|] == r;
    forall i | 0 <= i < |closing| ensures closing[i] != r {
      assert p[i] == closing[i];
    }
    forall i | 1 <= i < |pass| ensures pass[i] != r {
      assert p[|closing| + i] == pass[i];
    }
  }

  /** uv__finish_close from the switch to the close callback: out of the queue, and not referenced. */
  function Unlinked(s: World, r: Raw): World
    requires r in s.raws
  {
    var h := s.raws[r];
    s.(queue := Without(s.queue, r), midway := None, raws := s.raws[r := h.(referenced := false)],
       activeHandles := if h.active && h.referenced && s.activeHandles > 0 then s.activeHandles - 1 else s.activeHandles)
  }

  /** handle_close_cb up to the user's callback: a living wrapper learns that its handle is closed;
      the handle of a dead one is freed. */
  function CalledBack(s: World, r: Raw): World
    requires r in s.raws
  {
    match s.raws[r].data
    case Some(w) =>
      if w in s.wrappers then
        s.(raws := s.raws[r := s.raws[r].(data := None)],
           wrappers := s.wrappers[w := s.wrappers[w].(onClose := false)], shut := s.shut + [r],
           notified := if s.wrappers[w].onClose then s.notified + [w] else s.notified)
      else s
    case None => s.(raws := s.raws - {r}, left := s.left + Dangling(s, r))
  }

  /** The wrapper of the handle lives, and has a close callback. */
  predicate Awaited(s: World, r: Raw) {
    r in s.raws && s.raws[r].data.Some? && s.raws[r].data.value in s.wrappers && s.wrappers[s.raws[r].data.value].onClose
  }

  lemma BegunAwaits(s: World)
    requires s.pass != [] && s.pass[0] in s.raws
    ensures Awaited(Begun(s), s.pass[0]) <==> Awaited(s, s.pass[0])
    ensures s.pass[0] in Begun(s).raws && Begun(s).raws[s.pass[0]].kind == s.raws[s.pass[0]].kind
    ensures Begun(s).midway == Some(s.pass[0])
  {
  }

  lemma AwaitedStays(s: World, r: Raw)
    requires r in s.raws
    ensures Awaited(Unlinked(s, r), r) <==> Awaited(s, r)
  {
    hide Without;
  }

  function Finished(s: World): World
    requires s.midway.Some? && s.midway.value in s.raws
  {
    CalledBack(Unlinked(s, s.midway.value), s.midway.value)
  }

  lemma MidwayIs(s: World)
    requires Inv(s) && s.midway.Some?
    ensures s.midway.value in s.raws
    ensures var r := s.midway.value;
      var h := s.raws[r];
      && h.closing && h.closed && r in s.queue && r !in s.shut && r !in s.closing + s.pass && RawOk(s, r) && r in s.taken
      && (h.data.Some? ==> h.data.value in s.wrappers && h.data.value !in s.notified && s.wrappers[h.data.value].raw == r)
      && (Counts(s.raws, r) ==> s.activeHandles > 0)
  {
    var r := s.midway.value;
    assert RawOk(s, r);
    LiveOne(s.queue, s.raws, s.raws, r);
    hide Live;
    if s.raws[r].data.Some? {
      assert WrapperOk(s, s.raws[r].data.value);
    }
  }

  lemma FinishedShape(s: World)
    requires Inv(s) && s.midway.Some? && s.midway.value in s.raws
    ensures var t, r := Finished(s), s.midway.value;
      && t.queue == Without(s.queue, r) && t.lost == s.lost && !Counts(t.raws, r) && t.midway == None
      && t.closing == s.closing && t.pass == s.pass && t.taken == s.taken && t.linked == s.linked
      && t.activeHandles == s.activeHandles - (if Counts(s.raws, r) then 1 else 0)
      && (if s.raws[r].data.Some? then t.shut == s.shut + [r] && t.raws.Keys == s.raws.Keys && t.left == s.left
          else t.shut == s.shut && t.raws.Keys == s.raws.Keys - {r} && t.left == s.left + Dangling(s, r))
      && forall x :: x != r ==> (Counts(t.raws, x) <==> Counts(s.raws, x))
  {
    MidwayIs(s);
    hide Inv, Without, RawOk;
  }

  lemma FinishedCount(s: World)
    requires Inv(s) && s.midway.Some? && s.midway.value in s.raws
    ensures var t := Finished(s);
      && Distinct(t.queue) && (forall r :: r in t.queue ==> r in t.raws)
      && t.activeHandles == Live(t.queue, t.raws) + Live(t.shut, t.raws) + t.lost
  {
    hide Live, Without, WrapperOk, RawOk, Finished;
    MidwayIs(s);
    FinishedShape(s);
    var r, t := s.midway.value, Finished(s);
    WithoutIs(s.queue, r);
    LiveWithout(s.queue, s.raws, r);
    LiveSame(Without(s.queue, r), s.raws, t.raws);
    LiveSame(s.shut, s.raws, t.raws);
    LiveAppend(s.shut, t.raws, r);
  }

  lemma FinishedRest(s: World)
    requires Inv(s) && s.midway.Some? && s.midway.value in s.raws
    ensures var t := Finished(s);
      && Distinct(t.closing + t.pass) && (forall r :: r in t.closing + t.pass ==> r in t.raws)
      && Distinct(t.shut) && (forall r :: r in t.shut ==> r in t.raws) && t.raws.Keys <= t.taken
  {
    hide Live, Without, WrapperOk, RawOk, Finished;
    MidwayIs(s);
    FinishedShape(s);
  }

  lemma FinishedLists(s: World)
    requires Inv(s) && s.midway.Some?
    ensures s.midway.value in s.raws && ListsOk(Finished(s))
  {
    MidwayIs(s);
    hide Inv, Live, Distinct, Finished;
    assert Finished(s).midway == None by { FinishedShape(s); }
    FinishedCount(s);
    FinishedRest(s);
    FinishedNotified(s);
  }

  lemma FinishedNotified(s: World)
    requires Inv(s) && s.midway.Some? && s.midway.value in s.raws
    ensures Distinct(Finished(s).notified) && forall w :: w in Finished(s).notified ==> w in Finished(s).used
  {
    MidwayIs(s);
    hide Live, Without;
    var h := s.raws[s.midway.value];
    if h.data.Some? {
      assert WrapperOk(s, h.data.value);
    }
  }

  lemma FinishedRaw(s: World, x: Raw)
    requires Inv(s) && s.midway.Some? && s.midway.value in s.raws && x in Finished(s).raws
    ensures RawOk(Finished(s), x)
  {
    hide Inv, Without;
    ListsAre(s);
    WithoutIs(s.queue, s.midway.value);
    MidwayIs(s);
    RawIs(s, x);
  }

  lemma FinishedWrapper(s: World, x: Wrapper)
    requires Inv(s) && s.midway.Some? && s.midway.value in s.raws && x in Finished(s).wrappers
    ensures WrapperOk(Finished(s), x)
  {
    hide Inv, Without;
    MidwayIs(s);
    FinishedOwner(s, x);
  }

  lemma FinishedOwner(s: World, x: Wrapper)
    requires Inv(s) && s.midway.Some? && s.midway.value in s.raws && x in Finished(s).wrappers
    ensures x in s.wrappers && WrapperOk(s, x) && s.wrappers[x].raw in s.raws && RawOk(s, s.wrappers[x].raw)
  {
    hide Without;
    assert x in s.wrappers;
    Owned(s, x);
  }

  lemma FinishedLinks(s: World)
    requires Inv(s) && s.midway.Some? && s.midway.value in s.raws
    ensures LinksOk(Finished(s))
  {
    MidwayIs(s);
    FinishedShape(s);
    hide ListsOk, WrapperOk, Finished;
  }

  lemma FinishedKeeps(s: World)
    requires Inv(s) && s.midway.Some?
    ensures s.midway.value in s.raws && Inv(Finished(s))
  {
    hide ListsOk, LinksOk, RawOk, WrapperOk, Finished;
    FinishedLists(s);
    FinishedLinks(s);
    forall x | x in Finished(s).raws ensures RawOk(Finished(s), x) {
      FinishedRaw(s, x);
    }
    forall x | x in Finished(s).wrappers ensures WrapperOk(Finished(s), x) {
      FinishedWrapper(s, x);
    }
  }

  lemma OnCloseKeeps(s: World, w: Wrapper)
    requires Inv(s) && w in s.wrappers
    ensures Inv(s.(wrappers := s.wrappers[w := s.wrappers[w].(onClose := true)]))
  {
    hide Live, Distinct;
    var t := s.(wrappers := s.wrappers[w := s.wrappers[w].(onClose := true)]);
    forall x | x in t.raws ensures RawOk(t, x) {
      assert RawOk(s, x);
    }
    forall x | x in t.wrappers ensures WrapperOk(t, x) {
      assert WrapperOk(s, x);
    }
  }

  // ---- the code ----

  class Loop {
    var raws: map<Raw, Handle>
    var wrappers: map<Wrapper, Wrap>
    var closing: seq<Raw>
    var queue: seq<Raw>
    var activeHandles: nat
    /** What the timer heap and the lists of idle, prepare and check handles point to. */
    var linked: set<Raw>
    /** The rest of the list that a pass walks through, and the handle it is busy with. */
    var pass: seq<Raw>
    var midway: Option<Raw>
    /** The wrappers and raw handles there have been; a raw handle stands for one allocation. */
    var used: set<Wrapper>
    var taken: set<Raw>
    ghost var notified: seq<Wrapper>
    /** The closed handles that have not been freed, the number that were freed counted, and those
        that were freed while a list pointed to them. */
    ghost var shut: seq<Raw>
    ghost var lost: nat
    ghost var left: set<Raw>

    ghost function Now(): World
      reads this
    {
      World(raws, wrappers, closing, pass, midway, queue, activeHandles, linked, used, taken, notified, shut, lost, left)
    }

    ghost predicate Valid()
      reads this
    {
      Inv(Now())
    }

    constructor ()
      ensures Valid() && Now() == EMPTY
    {
      hide Inv;
      EmptyInv();
      raws, wrappers, closing, queue, activeHandles, linked := map[], map[], [], [], 0, {};
      pass, midway, used, taken, notified, shut, lost, left := [], None, {}, {}, [], [], 0, {};
    }

    /** Handle's constructor, and uv__handle_init. */
    method Create(w: Wrapper, r: Raw, kind: Kind)
      requires Valid() && w !in used && r !in taken
      modifies this`raws, this`wrappers, this`queue, this`used, this`taken
      ensures Valid() && Now() == Created(old(Now()), w, r, kind)
    {
      hide Inv;
      CreatedKeeps(Now(), w, r, kind);
      raws := raws[r := Handle(kind, Some(w), false, false, false, true, Some(w))];
      wrappers := wrappers[w := Wrap(r, false)];
      queue := queue + [r];
      used := used + {w};
      taken := taken + {r};
    }

    /** The macro uv__handle_start. */
    method HandleStart(r: Raw)
      requires r in raws
      modifies this`raws, this`activeHandles
      ensures raws == old(raws)[r := old(raws[r]).(active := true)]
      ensures activeHandles == Recount(old(Now()), r, true, old(raws[r].referenced))
    {
      assert raws[r].active ==> raws == raws[r := raws[r].(active := true)];
      if raws[r].active {
        return;
      }
      raws := raws[r := raws[r].(active := true)];
      if raws[r].referenced {
        activeHandles := activeHandles + 1;
      }
    }

    /** The macro uv__handle_stop. */
    method HandleStop(r: Raw)
      requires r in raws && (raws[r].active && raws[r].referenced ==> activeHandles > 0)
      modifies this`raws, this`activeHandles
      ensures raws == old(raws)[r := old(raws[r]).(active := false)]
      ensures activeHandles == Recount(old(Now()), r, false, old(raws[r].referenced))
    {
      assert !raws[r].active ==> raws == raws[r := raws[r].(active := false)];
      if !raws[r].active {
        return;
      }
      raws := raws[r := raws[r].(active := false)];
      if raws[r].referenced {
        activeHandles := activeHandles - 1;
      }
    }

    /** The start function of the type: uv_timer_start, which stops an active timer first; that of the
        idle, prepare and check handles, which leaves an active one alone; or just the macro. Nothing
        asks whether the handle is closing. */
    method Start(r: Raw)
      requires Valid() && r in raws
      modifies this`raws, this`activeHandles, this`linked
      ensures Valid() && Now() == Changed(old(Now()), r, true, old(raws[r].referenced))
    {
      hide Inv, Live;
      ghost var s := Now();
      FlagsKeep(s, r, true, raws[r].referenced);
      StopStart(s, r);
      match raws[r].kind
      case Timer =>
        if raws[r].active {
          Stop(r);
        }
        linked := linked + {r};
        HandleStart(r);
      case Watcher =>
        if raws[r].active {
          return;
        }
        linked := linked + {r};
        HandleStart(r);
      case Other =>
        HandleStart(r);
    }

    /** The stop function of the type: uv_timer_stop, or that of the others. */
    method Stop(r: Raw)
      requires Valid() && r in raws
      modifies this`raws, this`activeHandles, this`linked
      ensures Valid() && Now() == Changed(old(Now()), r, false, old(raws[r].referenced))
    {
      hide Inv, Live;
      FlagsKeep(Now(), r, false, raws[r].referenced);
      assert !raws[r].active ==> raws == raws[r := raws[r].(active := false)];
      if !raws[r].active {
        return;
      }
      if !raws[r].kind.Other? {
        linked := linked - {r};
      }
      HandleStop(r);
    }

    /** uv__handle_ref */
    method HandleRef(r: Raw)
      requires Valid() && r in raws
      modifies this`raws, this`activeHandles
      ensures Valid() && Now() == Changed(old(Now()), r, old(raws[r].active), true)
    {
      hide Inv, Live;
      FlagsKeep(Now(), r, raws[r].active, true);
      assert raws[r].referenced ==> raws == raws[r := raws[r].(referenced := true)];
      if raws[r].referenced {
        return;
      }
      raws := raws[r := raws[r].(referenced := true)];
      if raws[r].active {
        activeHandles := activeHandles + 1;
      }
    }

    /** uv__handle_unref */
    method HandleUnref(r: Raw)
      requires Valid() && r in raws
      modifies this`raws, this`activeHandles
      ensures Valid() && Now() == Changed(old(Now()), r, old(raws[r].active), false)
    {
      hide Inv, Live;
      FlagsKeep(Now(), r, raws[r].active, false);
      assert !raws[r].referenced ==> raws == raws[r := raws[r].(referenced := false)];
      if !raws[r].referenced {
        return;
      }
      raws := raws[r := raws[r].(referenced := false)];
      if raws[r].active {
        activeHandles := activeHandles - 1;
      }
    }

    /** uv_close, of a handle whose type stops it or leaves it active for a while, as a stream that is
        shutting down; it must not be closing already. */
    method UvClose(r: Raw, stops: bool)
      requires Valid() && r in raws && !raws[r].closing
      modifies this`raws, this`activeHandles, this`linked, this`closing
      ensures Valid() && Now() == CloseBegun(old(Now()), r, stops)
    {
      hide Inv;
      CloseBegunKeeps(Now(), r, stops);
      if stops || !raws[r].kind.Other? {
        Stop(r);
      }
      raws := raws[r := raws[r].(closing := true)];
      closing := [r] + closing;
    }

    /** Handle::close */
    method Close(w: Wrapper, stops: bool)
      requires Valid() && w in wrappers && wrappers[w].raw in raws && !raws[wrappers[w].raw].closing
      modifies this`raws, this`activeHandles, this`linked, this`closing
      ensures Valid() && Now() == CloseBegun(old(Now()), wrappers[w].raw, stops)
    {
      UvClose(wrappers[w].raw, stops);
    }

    /** Handle::onClose */
    method OnClose(w: Wrapper)
      requires Valid() && w in wrappers
      modifies this`wrappers
      ensures Valid() && Now() == old(Now()).(wrappers := old(wrappers)[w := old(wrappers[w]).(onClose := true)])
    {
      hide Inv;
      OnCloseKeeps(Now(), w);
      wrappers := wrappers[w := wrappers[w].(onClose := true)];
    }

    /** Handle's destructor: a closed handle is deleted; another one is left to the close callback,
        and closed now if it is not closing yet. */
    method Destroy(w: Wrapper, stops: bool)
      requires Valid() && w in wrappers
      modifies this
      ensures Valid() && Now() == Destroyed(old(Now()), w, stops)
    {
      hide Inv, RawOk, WrapperOk, Live, Without, Recount;
      DestroyedKeeps(Now(), w, stops);
      var r := wrappers[w].raw;
      if raws[r].data == None {  // is_closed
        lost := lost + if Counts(raws, r) then 1 else 0;
        left := left + Dangling(Now(), r);
        shut := Without(shut, r);
        raws := raws - {r};
        wrappers := wrappers - {w};
        return;
      }
      if !raws[r].closing {
        UvClose(r, stops);
      }
      raws := raws[r := raws[r].(data := None, owner := None)];
      wrappers := wrappers - {w};
    }

    /** uv__finish_close up to the switch; its asserts hold. */
    method BeginClose()
      requires Valid() && pass != [] && midway.None?
      modifies this`raws, this`pass, this`midway
      ensures old(pass)[0] in old(raws) && Valid() && Now() == Begun(old(Now()))
    {
      hide Inv;
      BegunKeeps(Now());
      PassHead(Now());
      var r := pass[0];
      assert raws[r].closing && !raws[r].closed;
      raws := raws[r := raws[r].(closed := true)];
      pass := pass[1..];
      midway := Some(r);
    }

    /** uv__finish_close from the switch to the close callback. */
    method Unlink(r: Raw)
      requires midway == Some(r) && r in raws
      requires raws[r].active && raws[r].referenced ==> activeHandles > 0
      modifies this`raws, this`activeHandles, this`queue, this`midway
      ensures Now() == Unlinked(old(Now()), r)
    {
      var h := raws[r];
      // uv__handle_unref
      if h.referenced {
        h := h.(referenced := false);
        if h.active {
          activeHandles := activeHandles - 1;
        }
      }
      raws := raws[r := h];
      queue := Without(queue, r);
      midway := None;
    }

    /** handle_close_cb up to the user's callback. */
    method CloseCallback(r: Raw) returns (callback: bool, w: Wrapper)
      requires r in raws && (raws[r].data.Some? ==> raws[r].data.value in wrappers)
      modifies this`raws, this`wrappers, this`notified, this`shut, this`left
      ensures Now() == CalledBack(old(Now()), r)
      ensures callback ==> old(raws[r].data) == Some(w) && w in wrappers && notified == old(notified) + [w]
      ensures !callback ==> notified == old(notified)
      ensures callback <==> Awaited(old(Now()), r)
    {
      callback, w := false, 0;
      if raws[r].data.Some? {
        w := raws[r].data.value;
        raws := raws[r := raws[r].(data := None)];
        callback := wrappers[w].onClose;
        wrappers := wrappers[w := wrappers[w].(onClose := false)];
        shut := shut + [r];
        notified := if callback then notified + [w] else notified;
      } else {
        left := left + Dangling(Now(), r);
        raws := raws - {r};
      }
    }

    /** The end of uv__finish_close. */
    method EndClose() returns (callback: bool, w: Wrapper)
      requires Valid() && midway.Some?
      modifies this
      ensures old(midway).value in old(raws) && Valid() && Now() == Finished(old(Now()))
      ensures callback ==> w in wrappers && w !in old(notified) && notified == old(notified) + [w]
      ensures !callback ==> notified == old(notified)
      ensures callback <==> Awaited(old(Now()), old(midway).value)
    {
      hide Inv, CalledBack, Without;
      var r := midway.value;
      FinishedKeeps(Now());
      MidwayIs(Now());
      AwaitedStays(Now(), r);
      Unlink(r);
      callback, w := CloseCallback(r);
    }

    /** A handle whose close is complete: it is closed, or freed. */
    ghost predicate Settled(r: Raw)
      reads this
    {
      SettledIn(Now(), r)
    }

    /** What user code leaves alone while a pass is under way. */
    twostate predicate PassKept()
      reads this
    {
      && pass == old(pass) && midway == old(midway) && notified == old(notified) && old(taken) <= taken
      && forall x :: old(Settled(x)) ==> Settled(x)
    }

    /** One thing a user may do, also from inside a callback: create or destroy a wrapper, close one
        that is not closing yet, set its callback, or start, stop, ref or unref its handle. A careful
        user does not start a timer or watcher that is closing or closed. */
    method UserStep(careful: bool, w: Wrapper, r: Raw, kind: Kind, stops: bool)
      requires Valid() && (careful ==> Tidy(Now()))
      modifies this
      ensures Valid() && (careful ==> Tidy(Now())) && PassKept()
    {
      hide Inv, Tidy, SettledIn;
      ghost var s := Now();
      if w !in wrappers {
        if w !in used && r !in taken {
          CreatedSettles(s, w, r, kind);
          Create(w, r, kind);
        }
        return;
      }
      Owned(s, w);
      var mine := wrappers[w].raw;
      var choice: nat := *;
      if choice == 0 {
        DestroyedSettles(s, w, stops);
        Destroy(w, stops);
      } else if choice == 1 {
        OnCloseSettles(s, w);
        OnClose(w);
      } else if choice == 2 && !raws[mine].closing {
        ClosedSettles(s, mine, stops);
        Close(w, stops);
      } else if choice == 3 && !(careful && raws[mine].closing && !raws[mine].kind.Other?) {
        ChangedSettles(s, mine, true, raws[mine].referenced);
        Start(mine);
      } else if choice == 4 {
        ChangedSettles(s, mine, false, raws[mine].referenced);
        Stop(mine);
      } else if choice == 5 {
        ChangedSettles(s, mine, raws[mine].active, true);
        HandleRef(mine);
      } else if choice == 6 {
        ChangedSettles(s, mine, raws[mine].active, false);
        HandleUnref(mine);
      }
    }

    method UserCode(careful: bool)
      requires Valid() && (careful ==> Tidy(Now()))
      modifies this
      ensures Valid() && (careful ==> Tidy(Now())) && PassKept()
    {
      hide Inv, Tidy, SettledIn;
      var steps: nat := *;
      while steps > 0
        invariant Valid() && (careful ==> Tidy(Now())) && PassKept()
      {
        var w: Wrapper, r: Raw, kind: Kind, stops: bool := *, *, *, *;
        UserStep(careful, w, r, kind, stops);
        steps := steps - 1;
      }
    }

    /** uv__finish_close: the asserts hold; a stream's pending requests are called back in the middle
        (uv__stream_destroy), and the user's close callback is still to be made, exactly if the wrapper
        lives and has one by then. */
    method FinishClose(careful: bool) returns (callback: bool, w: Wrapper, ghost at: World)
      requires Valid() && pass != [] && midway.None? && (careful ==> Tidy(Now()))
      modifies this
      ensures Valid() && (careful ==> Tidy(Now())) && pass == old(pass)[1..] && midway.None? && old(taken) <= taken
      ensures Settled(old(pass)[0]) && old(pass)[0] in old(raws)
      ensures forall x :: old(Settled(x)) ==> Settled(x)
      ensures callback ==> w in wrappers && w !in old(notified) && notified == old(notified) + [w]
      ensures !callback ==> notified == old(notified)
      ensures callback <==> Awaited(at, old(pass)[0])
      ensures !old(raws[pass[0]]).kind.Other? ==> (Awaited(at, old(pass)[0]) <==> Awaited(old(Now()), old(pass)[0]))
    {
      hide Inv, Tidy, SettledIn, Begun, Finished;
      PassHead(Now());
      BegunAwaits(Now());
      BegunSettles(Now());
      BeginClose();
      assert forall x :: old(Settled(x)) ==> Settled(x);
      if raws[midway.value].kind.Other? {
        UserCode(careful);
      }
      assert forall x :: old(Settled(x)) ==> Settled(x);
      FinishedSettles(Now());
      at := Now();
      callback, w := EndClose();
    }

    /** The next handle of the pass, with its close callback. */
    method CloseNext(careful: bool)
      requires Valid() && pass != [] && midway.None? && (careful ==> Tidy(Now()))
      modifies this
      ensures Valid() && pass == old(pass)[1..] && midway.None? && (careful ==> Tidy(Now()))
      ensures old(taken) <= taken && Settled(old(pass)[0])
      ensures forall x :: old(Settled(x)) ==> Settled(x)
      ensures |notified| >= |old(notified)| && notified[..|old(notified)|] == old(notified)
    {
      hide Inv, Tidy, SettledIn;
      var callback, w;
      ghost var at;
      callback, w, at := FinishClose(careful);
      if callback {
        assert w in wrappers;
        UserCode(careful);
      }
    }

    /** uv__run_closing_handles, with callbacks that may do anything. No handle is freed twice; every
        handle that was closing is closed afterwards, and freed if its wrapper has been destroyed;
        each close callback runs at most once, and while its wrapper lives. The only pointers to
        freed handles are those that `left` accounts for, and with careful users there are none. */
    method RunClosing(careful: bool)
      requires Valid() && pass == [] && midway.None? && (careful ==> Tidy(Now()))
      modifies this
      ensures Valid() && pass == [] && midway.None?
      ensures careful ==> Tidy(Now()) && linked <= raws.Keys
      ensures forall r :: r in old(closing) ==> Settled(r)
      ensures |notified| >= |old(notified)| && notified[..|old(notified)|] == old(notified)
    {
      hide Inv, Tidy, SettledIn;
      DetachedKeeps(Now());
      DetachedTidy(Now());
      pass := closing;
      closing := [];
      ghost var all := pass;
      while pass != []
        invariant Valid() && midway.None? && (careful ==> Tidy(Now()))
        invariant |pass| <= |all| && pass == all[|all| - |pass|..]
        invariant forall k :: 0 <= k < |all| - |pass| ==> Settled(all[k])
        invariant |notified| >= |old(notified)| && notified[..|old(notified)|] == old(notified)
        decreases |pass|
      {
        ghost var k := |all| - |pass|;
        CloseNext(careful);
        assert pass == all[k + 1..];
      }
      LinkedExactly(Now());
      if careful {
        TidyLeaves(Now());
      }
    }
  }

  // ---- what a pass brings about ----

  ghost predicate SettledIn(s: World, r: Raw) {
    r in s.taken && (r in s.raws ==> Done(s, r))
  }

  /** No freed handle is in a list, and no timer or watcher that is closing or closed is in one. */
  predicate Tidy(s: World) {
    s.left == {} && forall r :: r in s.raws && s.raws[r].closing ==> !Links(s.raws[r])
  }

  /** What is settled stays settled, and tidy stays tidy. */
  ghost predicate Onward(s: World, t: World) {
    && s.taken <= t.taken && (forall r :: SettledIn(s, r) ==> SettledIn(t, r)) && (Tidy(s) ==> Tidy(t))
  }

  lemma CreatedSettles(s: World, w: Wrapper, r: Raw, kind: Kind)
    requires r !in s.taken
    ensures Onward(s, Created(s, w, r, kind))
  {
  }

  lemma ChangedSettles(s: World, r: Raw, active: bool, referenced: bool)
    requires r in s.raws
    ensures var t := Changed(s, r, active, referenced);
      && s.taken <= t.taken && (forall x :: SettledIn(s, x) ==> SettledIn(t, x))
      && (Tidy(s) && !(active && !s.raws[r].active && s.raws[r].closing && !s.raws[r].kind.Other?) ==> Tidy(t))
  {
    hide Recount;
  }

  lemma OnCloseSettles(s: World, w: Wrapper)
    requires w in s.wrappers
    ensures Onward(s, s.(wrappers := s.wrappers[w := s.wrappers[w].(onClose := true)]))
  {
  }

  lemma StopStart(s: World, r: Raw)
    requires Inv(s) && r in s.raws
    ensures var ref := s.raws[r].referenced;
      s.raws[r].active ==> Changed(s, r, true, ref) == s && Changed(Changed(s, r, false, ref), r, true, ref) == s
  {
    hide Inv, ListsOk, Done;
    RawIs(s, r);
    FlagsCount(s, r, false, s.raws[r].referenced);
    if s.raws[r].active {
      var u := Changed(s, r, false, s.raws[r].referenced);
      assert s.raws[r := s.raws[r].(active := true)] == s.raws;
      assert u.raws[r := u.raws[r].(active := true)] == s.raws;
    }
  }

  lemma ClosedSettles(s: World, r: Raw, stops: bool)
    requires Inv(s) && r in s.raws && !s.raws[r].closing
    ensures var t := CloseBegun(s, r, stops);
      Onward(s, t) && t.pass == s.pass && t.midway == s.midway && t.notified == s.notified
  {
    CloseBegunIs(s, r, stops);
    hide Inv, CloseBegun;
    assert !s.raws[r].closed by { RawIs(s, r); }
  }

  lemma DestroyedSettles(s: World, w: Wrapper, stops: bool)
    requires Inv(s) && w in s.wrappers
    ensures s.wrappers[w].raw in s.raws
    ensures var t := Destroyed(s, w, stops);
      Onward(s, t) && t.pass == s.pass && t.midway == s.midway && t.notified == s.notified
  {
    Owned(s, w);
    var r := s.wrappers[w].raw;
    assert !s.raws[r].closed ==> !Done(s, r);
    hide Inv, CloseBegun, Without, WrapperOk;
    if !s.raws[r].closing {
      ClosedSettles(s, r, stops);
      CloseBegunIs(s, r, stops);
    }
  }

  lemma BegunSettles(s: World)
    requires Inv(s) && s.pass != [] && s.midway.None?
    ensures s.pass[0] in s.raws
    ensures var t := Begun(s);
      && Onward(s, t) && t.pass == s.pass[1..] && t.midway == Some(s.pass[0]) && t.notified == s.notified && t.taken == s.taken
      && t.raws.Keys == s.raws.Keys
  {
    PassHead(s);
    hide Inv;
  }

  lemma FinishedSettles(s: World)
    requires Inv(s) && s.midway.Some?
    ensures s.midway.value in s.raws
    ensures var t := Finished(s);
      && Onward(s, t) && SettledIn(t, s.midway.value) && t.pass == s.pass && t.midway == None && t.taken == s.taken
  {
    MidwayIs(s);
    hide Inv, Without, RawOk;
  }

  lemma DetachedTidy(s: World)
    ensures (Tidy(s) ==> Tidy(Detached(s))) && Detached(s).midway == s.midway
  {
  }

  lemma TidyLeaves(s: World)
    requires Tidy(s)
    ensures s.left == {}
  {
  }

  /** A handle whose close is complete and that has not been freed still has its wrapper. */
  lemma SettledOwned(s: World, r: Raw)
    requires Inv(s) && SettledIn(s, r) && r in s.raws
    ensures s.raws[r].owner.Some? && s.raws[r].owner.value in s.wrappers && s.wrappers[s.raws[r].owner.value].raw == r
  {
    assert RawOk(s, r);
  }

  /** Nothing is leaked: when the closing list is empty, which is when the loop may end, every
      handle still allocated has a living wrapper. */
  lemma NoLeak(s: World, r: Raw)
    requires Inv(s) && s.closing == [] && s.pass == [] && s.midway.None? && r in s.raws
    ensures s.raws[r].owner.Some? && s.raws[r].owner.value in s.wrappers && s.wrappers[s.raws[r].owner.value].raw == r
  {
    assert RawOk(s, r);
    assert r !in s.closing + s.pass;
  }

  // ---- when the lists are right ----

  /** The loop's lists point to no freed handle exactly when none was in a list when it was freed. */
  lemma LinkedExactly(s: World)
    requires Inv(s)
    ensures s.linked <= s.raws.Keys <==> s.left == {}
  {
    hide ListsOk, RawOk, WrapperOk;
    if s.left != {} {
      var r :| r in s.left;
      assert r in s.linked && r !in s.raws;
    }
  }

  /** Freeing a closed handle leaves a pointer to it exactly when it is an active timer or watcher. */
  lemma FreedExactly(s: World, w: Wrapper)
    requires Inv(s) && w in s.wrappers && Done(s, s.wrappers[w].raw)
    ensures var r, t := s.wrappers[w].raw, Deleted(s, w); r !in t.raws && (r in t.linked <==> Links(s.raws[r]))
  {
    RawIs(s, s.wrappers[w].raw);
  }

  /** uv_close takes a timer or watcher out of its list, so only a start after that puts it back: of
      all that a user can do with a handle, starting one that is closing or closed is the only thing
      that is not tidy. */
  lemma StartTidy(s: World, r: Raw)
    requires Inv(s) && Tidy(s) && r in s.raws
    ensures Tidy(Changed(s, r, true, s.raws[r].referenced)) <==> !(s.raws[r].closing && !s.raws[r].kind.Other?)
  {
    hide Inv, Recount;
    var t := Changed(s, r, true, s.raws[r].referenced);
    if s.raws[r].closing && !s.raws[r].kind.Other? {
      assert Links(t.raws[r]);
    }
  }

  // ---- when the counter is right ----

  /** active_handles is the number of handles of the queue that are active and referenced. */
  predicate CountRight(s: World) {
    s.activeHandles == Live(s.queue, s.raws)
  }

  lemma {:induction false} NoneLive(q: seq<Raw>, m: map<Raw, Handle>)
    ensures Live(q, m) == 0 <==> forall r :: r in q ==> !Counts(m, r)
  {
    if q != [] {
      NoneLive(q[1..], m);
      assert q == [q[0]] + q[1..];
    }
  }

  /** The counter is right exactly when no closed handle is active and referenced, and none was when
      it was freed. */
  lemma CountRightExactly(s: World)
    requires Inv(s)
    ensures CountRight(s) <==> s.lost == 0 && forall r :: Done(s, r) ==> !Counts(s.raws, r)
  {
    NoneLive(s.shut, s.raws);
    forall r | r in s.raws ensures Done(s, r) <==> r in s.shut {
      assert RawOk(s, r);
    }
  }

  /** So the flag macros keep it right, except on a closed handle that has both flags afterwards. */
  lemma ChangeRight(s: World, r: Raw, active: bool, referenced: bool)
    requires Inv(s) && CountRight(s) && r in s.raws
    ensures CountRight(Changed(s, r, active, referenced)) <==> !(Done(s, r) && active && referenced)
  {
    FlagsKeep(s, r, active, referenced);
    var t := Changed(s, r, active, referenced);
    hide Inv, CountRight, Recount;
    CountRightExactly(s);
    CountRightExactly(t);
    assert forall x :: Done(t, x) <==> Done(s, x);
    assert Done(t, r) ==> (Counts(t.raws, r) <==> active && referenced);
    assert forall x :: x in s.raws && x != r ==> (Counts(t.raws, x) <==> Counts(s.raws, x));
  }

  /** The timer 0 of the wrapper 0, on its own, and what is done to it. */
  function Alone(h: Handle, closing: seq<Raw>, pass: seq<Raw>, queue: seq<Raw>, count: nat, linked: set<Raw>, shut: seq<Raw>): World {
    World(map[0 := h], map[0 := Wrap(0, false)], closing, pass, None, queue, count, linked, {0}, {0}, [], shut, 0, {})
  }

  /** A timer that is referenced and points to its wrapper; its other flags. */
  function Fresh(closing: bool, active: bool): Handle {
    Handle(Timer, Some(0), closing, false, active, true, Some(0))
  }

  function Shut(referenced: bool): Handle {
    Handle(Timer, None, true, true, true, referenced, Some(0))
  }

  lemma CloseStart()
    ensures Created(EMPTY, 0, 0, Timer) == Alone(Fresh(false, false), [], [], [0], 0, {}, [])
    ensures CloseBegun(Alone(Fresh(false, false), [], [], [0], 0, {}, []), 0, true) ==
      Alone(Fresh(true, false), [0], [], [0], 0, {}, [])
    ensures Changed(Alone(Fresh(true, false), [0], [], [0], 0, {}, []), 0, true, true) ==
      Alone(Fresh(true, true), [0], [], [0], 1, {0}, [])
  {
    hide Live, Without;
    assert map[0 := Wrap(0, false)] == map[][0 := Wrap(0, false)];
  }

  lemma OnePass()
    ensures Detached(Alone(Fresh(true, true), [0], [], [0], 1, {0}, [])) == Alone(Fresh(true, true), [], [0], [0], 1, {0}, [])
    ensures var s := Begun(Alone(Fresh(true, true), [], [0], [0], 1, {0}, []));
      s.midway == Some(0) && 0 in s.raws && Finished(s) == Alone(Shut(false), [], [], [], 0, {0}, [0])
  {
    hide Live;
    assert Without([0], 0) == [];
  }

  /** The timer after close(), start() and a pass of the loop, its wrapper being alive. */
  function Restarted(): World
    ensures var a := CloseBegun(Created(EMPTY, 0, 0, Timer), 0, true);
      && 0 in a.raws
      && var b := Detached(Changed(a, 0, true, true));
      && b.pass == [0] && 0 in b.raws
      && var c := Begun(b);
      c.midway == Some(0) && 0 in c.raws && Restarted() == Finished(c)
  {
    CloseStart();
    OnePass();
    Alone(Shut(false), [], [], [], 0, {0}, [0])
  }

  /** An input: ref() then makes it count, out of the queue. */
  lemma CountGoesWrong()
    ensures var c := Restarted();
      && 0 in c.raws && c.raws[0].closed && !c.raws[0].referenced && c.raws[0].active && CountRight(c)
      && var d := Changed(c, 0, true, true); d.queue == [] && d.activeHandles == 1 && !CountRight(d)
  {
  }

  /** An input: the destructor of its wrapper then frees it, and it is still in the timer heap. */
  lemma FreedInHeap()
    ensures var c := Restarted();
      && 0 in c.wrappers && c.wrappers[0].raw == 0 && 0 in c.raws
      && var d := Destroyed(c, 0, true); d.raws == map[] && d.linked == {0}
  {
  }

  /** What was freed while it counted counts for ever: the loop stays alive (uv__loop_alive). */
  lemma LostStaysAlive(s: World)
    requires Inv(s) && s.lost > 0
    ensures s.activeHandles > 0
  {
  }
}
