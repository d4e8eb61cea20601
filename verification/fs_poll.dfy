/** The stat-polling contexts of libuv/src/fs-poll.c: a timer and a stat request in turn, for a
    handle that may be stopped and started at any moment. */
module FsPoll {
  import opened Options

  type Handle = nat
  type Context = nat

  /** uv_fs_poll_t: whether it is active, and poll_ctx. */
  datatype Poll = Poll(active: bool, ctx: Option<Context>)

  /** struct poll_ctx: parent_handle, timer_handle (whether it is active, when it goes off, whether
      it is closing), fs_req (whether it is with the thread pool), start_time, interval,
      busy_polling and statbuf. */
  datatype Ctx = Ctx(
    parent: Option<Handle>, timerActive: bool, due: nat, timerClosing: bool, statPending: bool,
    start: nat, interval: nat, busy: int, stat: int)

  function NewCtx(h: Handle, now: nat, interval: nat): Ctx {
    Ctx(Some(h), false, 0, false, false, now, interval, 0, ZERO_STAT)
  }

  /** uv_close of the timer, which stops it. */
  function Closing(x: Ctx): Ctx {
    x.(timerActive := false, timerClosing := true)
  }

  /** A call of the user's callback with its arguments, and the handle as it was then. */
  datatype Call = Call(ctx: Context, handle: Handle, status: int, prev: int, curr: int, was: Poll)

  /** What a stat request comes back with: 0, or the error as a negative number, and the statbuf. */
  datatype Outcome = Outcome(status: int, stat: int)

  /** zero_statbuf, as which a context's own starts too. */
  const ZERO_STAT := 0

  datatype World = World(polls: map<Handle, Poll>, ctxs: map<Context, Ctx>, taken: set<Context>, now: nat, calling: Option<Context>)

  // ---- the delay ----

  /** The time to the next stat. */
  function Delay(interval: nat, elapsed: nat): nat
    requires interval > 0
  {
    interval - elapsed % interval
  }

  function Times(k: nat, interval: nat): nat {
    k * interval
  }

  /** A whole number of intervals, and at least one, after the start. */
  ghost predicate OnGrid(start: nat, interval: nat, due: nat) {
    exists k: nat :: k > 0 && due == start + Times(k, interval)
  }

  /** The timer is armed for 1 to `interval` ahead, and goes off a whole number of intervals after
      the last start. */
  lemma DelayLands(interval: nat, start: nat, now: nat)
    requires interval > 0 && start <= now
    ensures 1 <= Delay(interval, now - start) <= interval
    ensures OnGrid(start, interval, now + Delay(interval, now - start))
  {
    var k := (now - start) / interval;
    assert now - start == k * interval + (now - start) % interval;
    assert now + Delay(interval, now - start) == start + Times(k + 1, interval);
  }

  // ---- the invariant ----

  /** An active handle has one context, which points back to it. */
  ghost predicate PollOk(s: World, h: Handle)
    requires h in s.polls
  {
    var p := s.polls[h];
    if p.active then p.ctx.Some? && p.ctx.value in s.ctxs && s.ctxs[p.ctx.value].parent == Some(h) else p.ctx.None?
  }

  /** A context waits for one thing: its timer, its stat request, or the close of its timer; for
      none of them exactly while its result is being dealt with. */
  ghost predicate OneThing(x: Ctx, called: bool) {
    && !(x.timerActive && x.statPending) && !(x.timerActive && x.timerClosing) && !(x.statPending && x.timerClosing)
    && (x.timerActive || x.statPending || x.timerClosing <==> !called)
  }

  /** Only the timer of a stopped context is closed, and then it has none running. A running one
      goes off on the grid of the intervals. */
  ghost predicate CtxOk(s: World, c: Context)
    requires c in s.ctxs
  {
    var x := s.ctxs[c];
    && c in s.taken && x.interval > 0 && x.start <= s.now
    && (x.parent.Some? ==> x.parent.value in s.polls && s.polls[x.parent.value] == Poll(true, Some(c)))
    && (x.timerClosing ==> x.parent.None?)
    && (x.timerActive ==> x.parent.Some? && OnGrid(x.start, x.interval, x.due))
    && OneThing(x, s.calling == Some(c))
  }

  ghost predicate Inv(s: World) {
    && (forall h :: h in s.polls ==> PollOk(s, h))
    && (forall c :: c in s.ctxs ==> CtxOk(s, c))
    && (s.calling.Some? ==> s.calling.value in s.ctxs)
  }

  /** A call is made for an active handle only, by the context it has at the moment. */
  predicate Rightful(k: Call) {
    k.was == Poll(true, Some(k.ctx))
  }

  // ---- what is to be reported ----

  /** A result that the user is told of: an error that the one before was not, or a success after an
      error or with another stat; not a success that comes first. */
  predicate News(rs: seq<Outcome>, i: nat)
    requires i < |rs|
  {
    if rs[i].status != 0 then i == 0 || rs[i - 1].status != rs[i].status
    else i > 0 && (rs[i - 1].status != 0 || rs[i - 1].stat != rs[i].stat)
  }

  /** The stat of the last success among the first n results. */
  function LastStat(rs: seq<Outcome>, n: nat): int
    requires n <= |rs|
  {
    if n == 0 then ZERO_STAT else if rs[n - 1].status == 0 then rs[n - 1].stat else LastStat(rs, n - 1)
  }

  /** The callback for result i: its status, the stat before and the one now. */
  predicate Tells(k: Call, rs: seq<Outcome>, i: nat)
    requires i < |rs|
  {
    k.status == rs[i].status && k.prev == LastStat(rs, i) && k.curr == if rs[i].status == 0 then rs[i].stat else ZERO_STAT
  }

  /** The positions of the news among the first n results, in order. */
  function NewsUpTo(rs: seq<Outcome>, n: nat): seq<nat>
    requires n <= |rs|
  {
    if n == 0 then [] else NewsUpTo(rs, n - 1) + if News(rs, n - 1) then [n - 1] else []
  }

  /** There they are, all of them and no others, each once. */
  lemma {:induction false} NewsAre(rs: seq<Outcome>, n: nat)
    requires n <= |rs|
    ensures var ps := NewsUpTo(rs, n);
      && (forall i: nat :: i in ps <==> i < n && News(rs, i))
      && (forall j, k :: 0 <= j < k < |ps| ==> ps[j] < ps[k])
    decreases n
  {
    if n > 0 {
      NewsAre(rs, n - 1);
      var ps := NewsUpTo(rs, n - 1);
      assert forall j :: 0 <= j < |ps| ==> ps[j] in ps;
    }
  }

  lemma {:induction false} NewsSame(rs: seq<Outcome>, r: Outcome, n: nat)
    requires n <= |rs|
    ensures NewsUpTo(rs + [r], n) == NewsUpTo(rs, n) && LastStat(rs + [r], n) == LastStat(rs, n)
    decreases n
  {
    if n > 0 {
      NewsSame(rs, r, n - 1);
      assert (rs + [r])[n - 1] == rs[n - 1];
    }
  }

  /** The calls for one context. */
  function Made(log: seq<Call>, c: Context): seq<Call> {
    if log == [] then []
    else
      var k := log[|log| - 1];
      Made(log[..|log| - 1], c) + if k.ctx == c then [k] else []
  }

  lemma MadeMore(log: seq<Call>, k: Call, c: Context)
    ensures Made(log + [k], c) == Made(log, c) + if k.ctx == c then [k] else []
  {
    assert (log + [k])[..|log|] == log;
  }

  lemma {:induction false} MadeNone(log: seq<Call>, c: Context)
    requires forall k :: k in log ==> k.ctx != c
    ensures Made(log, c) == []
    decreases log
  {
    if log != [] {
      MadeNone(log[..|log| - 1], c);
    }
  }

  /** The call is the one for the result at position p. */
  predicate IsFor(k: Call, rs: seq<Outcome>, p: nat, h: Handle) {
    p < |rs| && k.handle == h && Tells(k, rs, p)
  }

  /** The calls made are those for the news, in order, and go to the handle. */
  ghost predicate ToldOf(made: seq<Call>, rs: seq<Outcome>, h: Handle) {
    |made| == |NewsUpTo(rs, |rs|)| && forall j :: 0 <= j < |made| ==> IsFor(made[j], rs, NewsUpTo(rs, |rs|)[j], h)
  }

  ghost predicate Results(rs: seq<Outcome>) {
    forall i :: 0 <= i < |rs| ==> rs[i].status <= 0
  }

  /** busy_polling and statbuf say what the last result was, and the last stat. */
  predicate Remembers(x: Ctx, rs: seq<Outcome>) {
    && x.stat == LastStat(rs, |rs|)
    && x.busy == if rs == [] then 0 else if rs[|rs| - 1].status == 0 then 1 else rs[|rs| - 1].status
  }

  /** For each context the handle that it is for, the results that it has had for it, and that the user
      has been told exactly the news of them. */
  ghost predicate History(s: World, whose: map<Context, Handle>, had: map<Context, seq<Outcome>>, log: seq<Call>) {
    && s.taken <= whose.Keys && s.taken <= had.Keys
    && (forall k :: k in log ==> k.ctx in s.taken)
    && (forall c :: c in s.ctxs ==> c in s.taken && (s.ctxs[c].parent.Some? ==> s.ctxs[c].parent.value == whose[c]))
    && (forall c :: c in s.ctxs && s.calling != Some(c) ==> Remembers(s.ctxs[c], had[c]))
    && (forall c :: c in s.taken && s.calling != Some(c) && Results(had[c]) ==> ToldOf(Made(log, c), had[c], whose[c]))
  }

  /** What is known of the contexts there were stays known. */
  ghost predicate Kept(taken: set<Context>, whose: map<Context, Handle>, had: map<Context, seq<Outcome>>,
                       whose': map<Context, Handle>, had': map<Context, seq<Outcome>>) {
    forall c :: c in taken ==>
      c in whose && c in whose' && whose'[c] == whose[c] && c in had && c in had' && had'[c] == had[c]
  }

  lemma ForLonger(k: Call, rs: seq<Outcome>, p: nat, h: Handle, r: Outcome)
    requires IsFor(k, rs, p, h)
    ensures IsFor(k, rs + [r], p, h)
  {
    NewsSame(rs, r, p);
    assert (rs + [r])[p] == rs[p];
  }

  lemma NewsNext(rs: seq<Outcome>, r: Outcome)
    ensures NewsUpTo(rs + [r], |rs| + 1) == NewsUpTo(rs, |rs|) + if News(rs + [r], |rs|) then [|rs|] else []
  {
    NewsSame(rs, r, |rs|);
  }

  /** A result that is no news changes nothing. */
  lemma OldNews(made: seq<Call>, rs: seq<Outcome>, h: Handle, r: Outcome)
    requires ToldOf(made, rs, h) && !News(rs + [r], |rs|)
    ensures ToldOf(made, rs + [r], h)
  {
    hide IsFor, NewsUpTo, News;
    NewsNext(rs, r);
    forall j | 0 <= j < |made| ensures IsFor(made[j], rs + [r], NewsUpTo(rs, |rs|)[j], h) {
      ForLonger(made[j], rs, NewsUpTo(rs, |rs|)[j], h, r);
    }
  }

  lemma NewNews(made: seq<Call>, rs: seq<Outcome>, h: Handle, r: Outcome, k: Call)
    requires ToldOf(made, rs, h) && News(rs + [r], |rs|) && IsFor(k, rs + [r], |rs|, h)
    ensures ToldOf(made + [k], rs + [r], h)
  {
    hide IsFor, NewsUpTo, News;
    NewsNext(rs, r);
    forall j | 0 <= j < |made| ensures IsFor(made[j], rs + [r], NewsUpTo(rs, |rs|)[j], h) {
      ForLonger(made[j], rs, NewsUpTo(rs, |rs|)[j], h, r);
    }
  }

  /** The test of poll_cb finds the news. */
  lemma ReportsNews(x: Ctx, rs: seq<Outcome>, result: int, stat: int)
    requires Remembers(x, rs) && Results(rs) && result <= 0
    ensures Reports(x, result, stat) <==> News(rs + [Outcome(result, stat)], |rs|)
  {
    var rs' := rs + [Outcome(result, stat)];
    assert rs != [] ==> rs'[|rs| - 1] == rs[|rs| - 1];
  }

  /** What happens to a context between its results: its handle may be stopped. */
  predicate Follows(x: Ctx, y: Ctx) {
    (y.parent.Some? ==> y.parent == x.parent) && y.busy == x.busy && y.stat == x.stat
  }

  lemma HistorySame(s: World, t: World, whose: map<Context, Handle>, had: map<Context, seq<Outcome>>, log: seq<Call>)
    requires History(s, whose, had, log) && t.taken == s.taken && t.calling == s.calling
    requires forall c :: c in t.ctxs ==> c in s.ctxs && Follows(s.ctxs[c], t.ctxs[c])
    ensures History(t, whose, had, log)
  {
    hide ToldOf, Made, Results, LastStat;
  }

  /** A context deals with a result. */
  lemma HistoryCalls(s: World, c: Context, y: Ctx, whose: map<Context, Handle>, had: map<Context, seq<Outcome>>, log: seq<Call>)
    requires History(s, whose, had, log) && c in s.ctxs && (s.calling.None? || s.calling == Some(c))
    requires y.parent.Some? ==> y.parent == s.ctxs[c].parent
    ensures History(s.(ctxs := s.ctxs[c := y], calling := Some(c)), whose, had, log)
    ensures c in had && c in whose && c in s.taken && (s.ctxs[c].parent.Some? ==> s.ctxs[c].parent == Some(whose[c]))
    ensures s.calling.None? ==>
      Remembers(s.ctxs[c], had[c]) && (Results(had[c]) ==> ToldOf(Made(log, c), had[c], whose[c]))
  {
    hide ToldOf, Made, Results, LastStat;
  }

  lemma HistoryHas(s: World, c: Context, rs: seq<Outcome>, whose: map<Context, Handle>, had: map<Context, seq<Outcome>>, log: seq<Call>)
    requires History(s, whose, had, log) && s.calling == Some(c)
    ensures History(s, whose, had[c := rs], log)
  {
    hide ToldOf, Made, Results, Remembers;
  }

  lemma HistoryReturns(s: World, c: Context, y: Ctx, whose: map<Context, Handle>, had: map<Context, seq<Outcome>>, log: seq<Call>)
    requires History(s, whose, had, log) && s.calling == Some(c) && c in s.ctxs && c in had && c in whose
    requires Follows(s.ctxs[c], y) && Remembers(s.ctxs[c], had[c])
    requires Results(had[c]) ==> ToldOf(Made(log, c), had[c], whose[c])
    ensures History(s.(ctxs := s.ctxs[c := y], calling := None), whose, had, log)
  {
    hide ToldOf, Made, Results, LastStat;
  }

  lemma HistoryStarts(s: World, t: World, h: Handle, c: Context, y: Ctx, whose: map<Context, Handle>, had: map<Context, seq<Outcome>>, log: seq<Call>)
    requires History(s, whose, had, log) && c !in s.taken && y.parent == Some(h) && y.busy == 0 && y.stat == ZERO_STAT
    requires t.ctxs == s.ctxs[c := y] && t.taken == s.taken + {c} && t.calling == s.calling
    ensures History(t, whose[c := h], had[c := []], log)
  {
    MadeNone(log, c);
    hide Made, Results;
  }

  lemma HistoryTells(s: World, k: Call, whose: map<Context, Handle>, had: map<Context, seq<Outcome>>, log: seq<Call>)
    requires History(s, whose, had, log) && s.calling == Some(k.ctx) && k.ctx in s.taken
    ensures History(s, whose, had, log + [k])
  {
    hide ToldOf, Made, Results, Remembers;
    forall c | c in s.taken && c != k.ctx ensures Made(log + [k], c) == Made(log, c) {
      MadeMore(log, k, c);
    }
  }

  lemma AllKept(s: World, whose: map<Context, Handle>, had: map<Context, seq<Outcome>>, log: seq<Call>)
    requires History(s, whose, had, log)
    ensures Kept(s.taken, whose, had, whose, had) && (forall c :: c in s.ctxs ==> c in s.taken)
  {
    hide ToldOf, Made, Results, Remembers;
  }

  /** The callback for a result, if there is one. */
  function CallFor(c: Context, h: Handle, x: Ctx, r: Outcome, was: Poll): Call {
    Call(c, h, r.status, x.stat, if r.status == 0 then r.stat else ZERO_STAT, was)
  }

  lemma ToldMore(x: Ctx, rs: seq<Outcome>, made: seq<Call>, h: Handle, r: Outcome, c: Context, was: Poll)
    requires Remembers(x, rs) && (Results(rs) ==> ToldOf(made, rs, h)) && Results(rs + [r])
    ensures ToldOf(if Reports(x, r.status, r.stat) then made + [CallFor(c, h, x, r, was)] else made, rs + [r], h)
  {
    assert (rs + [r])[|rs|] == r;
    assert forall i :: 0 <= i < |rs| ==> rs[i] == (rs + [r])[i];
    ReportsNews(x, rs, r.status, r.stat);
    if Reports(x, r.status, r.stat) {
      NewsSame(rs, r, |rs|);
      NewNews(made, rs, h, r, CallFor(c, h, x, r, was));
    } else {
      OldNews(made, rs, h, r);
    }
  }

  lemma RemembersMore(x: Ctx, y: Ctx, rs: seq<Outcome>, r: Outcome)
    requires Remembers(x, rs)
    requires y.busy == (if r.status == 0 then 1 else r.status) && y.stat == if r.status == 0 then r.stat else x.stat
    ensures Remembers(y, rs + [r])
  {
    NewsSame(rs, r, |rs|);
  }

  /** What History says of a context: the calls made for it are, one by one and in order, those for its
      news: with the handle, the status, and the stats before and now. */
  lemma ToldExactly(s: World, whose: map<Context, Handle>, had: map<Context, seq<Outcome>>, log: seq<Call>, c: Context)
    requires History(s, whose, had, log) && s.calling.None? && c in s.taken
    ensures c in had && c in whose
    ensures Results(had[c]) ==>
      var rs, made := had[c], Made(log, c);
      var ps := NewsUpTo(rs, |rs|);
      && |made| == |ps|
      && (forall i: nat :: i in ps <==> i < |rs| && News(rs, i))
      && (forall j, k :: 0 <= j < k < |ps| ==> ps[j] < ps[k])
      && forall j :: 0 <= j < |ps| ==> made[j].handle == whose[c] && ps[j] < |rs| && Tells(made[j], rs, ps[j])
  {
    hide Made;
    NewsAre(had[c], |had[c]|);
    hide NewsUpTo, News, Tells, Remembers;
  }

  lemma RemembersStill(x: Ctx, y: Ctx, rs: seq<Outcome>)
    requires Remembers(x, rs) && y.busy == x.busy && y.stat == x.stat
    ensures Remembers(y, rs)
  {
  }

  lemma CtxIs(s: World, c: Context)
    requires Inv(s) && c in s.ctxs
    ensures CtxOk(s, c)
  {
  }

  // ---- the code ----

  class Loop {
    var polls: map<Handle, Poll>
    var ctxs: map<Context, Ctx>
    /** The contexts there have been; one stands for one allocation. */
    var taken: set<Context>
    var now: nat
    ghost var calling: Option<Context>
    ghost var log: seq<Call>
    /** For each context its handle, and the results that it has had while the handle was active. */
    ghost var whose: map<Context, Handle>
    ghost var had: map<Context, seq<Outcome>>

    ghost function Now(): World
      reads this
    {
      World(polls, ctxs, taken, now, calling)
    }

    ghost predicate Valid()
      reads this
    {
      Inv(Now()) && History(Now(), whose, had, log)
    }

    constructor ()
      ensures Valid() && polls == map[] && ctxs == map[]
    {
      polls, ctxs, taken, now, calling, log := map[], map[], {}, 0, None, [];
      whose, had := map[], map[];
    }

    /** uv_fs_poll_init */
    method Init(h: Handle)
      requires Valid() && h !in polls
      modifies this`polls
      ensures Valid() && polls == old(polls)[h := Poll(false, None)]
    {
      hide History;
      ghost var s := Now();
      polls := polls[h := Poll(false, None)];
      Unchanged(s, Now());
      HistorySame(s, Now(), whose, had, log);
    }

    /** Time goes on. */
    method Tick(later: nat)
      requires Valid() && now <= later
      modifies this`now
      ensures Valid() && now == later
    {
      hide History;
      ghost var s := Now();
      now := later;
      Unchanged(s, Now());
      HistorySame(s, Now(), whose, had, log);
    }

    // ---- the timer and the request, with what they ask of their callers ----

    /** uv_close of the timer: it must not be closing. */
    method CloseTimer(c: Context)
      requires c in ctxs && !ctxs[c].timerClosing
      modifies this`ctxs
      ensures ctxs == old(ctxs)[c := Closing(old(ctxs[c]))]
    {
      ctxs := ctxs[c := Closing(ctxs[c])];
    }

    /** uv_timer_start: the timer must not be closing. */
    method StartTimer(c: Context, timeout: nat)
      requires c in ctxs && !ctxs[c].timerClosing
      modifies this`ctxs
      ensures ctxs == old(ctxs)[c := old(ctxs[c]).(timerActive := true, due := now + timeout)]
    {
      ctxs := ctxs[c := ctxs[c].(timerActive := true, due := now + timeout)];
    }

    /** uv_fs_stat: the request must not be in use. */
    method StartStat(c: Context)
      requires c in ctxs && !ctxs[c].statPending
      modifies this`ctxs
      ensures ctxs == old(ctxs)[c := old(ctxs[c]).(statPending := true)]
    {
      ctxs := ctxs[c := ctxs[c].(statPending := true)];
    }

    // ---- the functions of the file ----

    /** uv_fs_poll_start */
    method Start(h: Handle, c: Context, interval: nat)
      requires Valid() && h in polls && c !in taken
      modifies this`polls, this`ctxs, this`taken, this`whose, this`had
      ensures Valid() && old(taken) <= taken && Kept(old(taken), old(whose), old(had), whose, had)
      ensures old(polls[h].active) ==> polls == old(polls) && ctxs == old(ctxs)
      ensures !old(polls[h].active) ==> polls == old(polls)[h := Poll(true, Some(c))]
      ensures !old(polls[h].active) ==>
        ctxs == old(ctxs)[c := NewCtx(h, now, if interval == 0 then 1 else interval).(statPending := true)]
      ensures old(taken) <= taken
    {
      hide Inv, History;
      AllKept(Now(), whose, had, log);
      if polls[h].active {
        return;
      }
      var x := NewCtx(h, now, if interval == 0 then 1 else interval);
      StartKeeps(Now(), h, c, x.interval);
      ghost var s, w, g := Now(), whose, had;
      whose, had := whose[c := h], had[c := []];
      ghost var before := ctxs;
      ctxs := ctxs[c := x];
      taken := taken + {c};
      StartStat(c);
      assert ctxs == before[c := x.(statPending := true)];
      polls := polls[h := Poll(true, Some(c))];
      HistoryStarts(s, Now(), h, c, ctxs[c], w, g, log);
    }

    /** uv_fs_poll_stop; its asserts hold, and those of uv_close. An inactive timer means a stat
        request in progress, or poll_cb, which sees to the rest. */
    method Stop(h: Handle)
      requires Valid() && h in polls
      modifies this`polls, this`ctxs
      ensures Valid() && polls == old(polls)[h := Poll(false, None)] && ctxs.Keys == old(ctxs.Keys)
      ensures forall c :: c in ctxs ==> LeftAlone(old(ctxs[c]), ctxs[c])
    {
      hide History;
      assert PollOk(Now(), h);
      if !polls[h].active {
        assert polls == polls[h := Poll(false, None)];
        return;
      }
      var c := polls[h].ctx.value;
      assert ctxs[c].parent == Some(h);
      assert CtxOk(Now(), c);
      assert !ctxs[c].timerActive ==> ctxs[c].statPending || calling == Some(c);
      StopKeeps(Now(), h);
      ghost var s := Now();
      ctxs := ctxs[c := ctxs[c].(parent := None)];
      if ctxs[c].timerActive {
        CloseTimer(c);
      }
      assert ctxs == Stopped(s, h).ctxs;
      polls := polls[h := Poll(false, None)];
      HistorySame(s, Now(), whose, had, log);
    }

    /** The loop's timers: a timer that is due is stopped and its callback, timer_cb, called, whose
        asserts hold. */
    method TimerCb(c: Context)
      requires Valid() && c in ctxs && ctxs[c].timerActive && ctxs[c].due <= now && calling.None?
      modifies this`ctxs
      ensures Valid() && ctxs == old(ctxs)[c := old(ctxs[c]).(timerActive := false, start := now, statPending := true)]
    {
      hide History;
      assert CtxOk(Now(), c);
      assert ctxs[c].parent.Some? && polls[ctxs[c].parent.value].ctx == Some(c);
      ghost var s := Now();
      ctxs := ctxs[c := ctxs[c].(timerActive := false)];
      ctxs := ctxs[c := ctxs[c].(start := now)];
      StartStat(c);
      assert ctxs == s.ctxs[c := s.ctxs[c].(timerActive := false, start := now, statPending := true)];
      MovedKeeps(s, c, ctxs[c], None);
      HistorySame(s, Now(), whose, had, log);
    }

    /** timer_close_cb: the context is freed, once, with nothing of it in use. */
    method TimerCloseCb(c: Context)
      requires Valid() && c in ctxs && ctxs[c].timerClosing
      modifies this`ctxs
      ensures Valid() && ctxs == old(ctxs) - {c}
      ensures old(ctxs[c].parent).None? && !old(ctxs[c].statPending) && !old(ctxs[c].timerActive)
    {
      hide History;
      ghost var s := Now();
      FreedKeeps(Now(), c);
      ctxs := ctxs - {c};
      HistorySame(s, Now(), whose, had, log);
    }

    /** What the user's callback may do: start and stop handles, this one included; time may go on. */
    method UserCode()
      requires Valid()
      modifies this`polls, this`ctxs, this`taken, this`now, this`whose, this`had
      ensures Valid() && now >= old(now) && old(taken) <= taken && Kept(old(taken), old(whose), old(had), whose, had)
      ensures forall c :: c in old(ctxs) ==> c in ctxs && LeftAlone(old(ctxs[c]), ctxs[c])
    {
      hide Inv, History;
      AllKept(Now(), whose, had, log);
      ghost var before := ctxs;
      var steps: nat := *;
      while steps > 0
        invariant Valid() && now >= old(now) && old(taken) <= taken && Kept(old(taken), old(whose), old(had), whose, had)
        invariant forall c :: c in before ==> c in ctxs && LeftAlone(before[c], ctxs[c])
      {
        var h: Handle, c: Context, n: nat, choice: nat := *, *, *, *;
        AllKept(Now(), whose, had, log);
        if choice == 0 && h in polls && c !in taken {
          Start(h, c, n);
        } else if choice == 1 && h in polls {
          Stop(h);
        } else if choice == 2 {
          Tick(now + n);
        }
        steps := steps - 1;
      }
    }

    /** poll_cb: the result of a stat. If the handle is still active the result is one more that the
        context has had, and the callback is made if it is news (Valid, by History); then the timer is
        armed again, unless the handle has been stopped, before or by the callback. */
    method PollCb(c: Context, result: int, stat: int)
      requires Valid() && c in ctxs && ctxs[c].statPending && calling.None?
      modifies this
      ensures Valid() && calling.None? && c in ctxs && !ctxs[c].statPending
      ensures if ctxs[c].parent.Some?
        then ctxs[c].timerActive && now < ctxs[c].due <= now + ctxs[c].interval
          && OnGrid(ctxs[c].start, ctxs[c].interval, ctxs[c].due)
        else ctxs[c].timerClosing
      ensures log == old(log) || (|log| == |old(log)| + 1 && log[..|old(log)|] == old(log) && Rightful(log[|old(log)|]))
      ensures log != old(log) <==> old(ctxs[c].parent).Some? && Reports(old(ctxs[c]), result, stat)
      ensures c in old(had) && c in had && c in old(whose) && c in whose && whose[c] == old(whose)[c]
      ensures had[c] == old(had)[c] + if old(ctxs[c].parent).Some? then [Outcome(result, stat)] else []
      ensures forall x :: x in old(taken) && x != c ==> x in old(had) && x in had && had[x] == old(had)[x]
    {
      hide History, Remembers, Results, ToldOf, Made, Inv;
      AllKept(Now(), whose, had, log);
      var x := ctxs[c];
      CtxIs(Now(), c);
      MovedKeeps(Now(), c, x.(statPending := false), Some(c));
      HistoryCalls(Now(), c, x.(statPending := false), whose, had, log);
      calling := Some(c);
      ctxs := ctxs[c := x.(statPending := false)];
      CtxIs(Now(), c);
      ghost var rs, made, was := had[c], Made(log, c), if x.parent.Some? then polls[x.parent.value] else Poll(false, None);
      if x.parent.Some? {
        Deal(c, result, stat);
        RemembersMore(x, ctxs[c], rs, Outcome(result, stat));
        if Results(rs + [Outcome(result, stat)]) {
          ToldMore(x, rs, made, whose[c], Outcome(result, stat), c, was);
        }
        HistoryHas(Now(), c, rs + [Outcome(result, stat)], whose, had, log);
        had := had[c := rs + [Outcome(result, stat)]];
      }
      if x.parent.None? {
        RemembersStill(x, ctxs[c], rs);
      }
      Rearm(c);
    }

    /** The part of poll_cb between the check of the handle and `out`. */
    method Deal(c: Context, result: int, stat: int)
      requires Valid() && c in ctxs && calling == Some(c) && ctxs[c].parent.Some? && ctxs[c].parent.value in polls
      modifies this`polls, this`ctxs, this`taken, this`now, this`whose, this`had, this`log
      ensures Valid() && c in ctxs && old(taken) <= taken && Kept(old(taken), old(whose), old(had), whose, had)
      ensures var x, y := old(ctxs[c]), ctxs[c];
        && y.busy == (if result == 0 then 1 else result) && y.stat == if result == 0 then stat else x.stat
      ensures var x := old(ctxs[c]);
        var k := CallFor(c, x.parent.value, x, Outcome(result, stat), old(polls)[x.parent.value]);
        if Reports(x, result, stat) then log == old(log) + [k] && Made(log, c) == Made(old(log), c) + [k] else log == old(log)
    {
      hide Inv, History, Made;
      AllKept(Now(), whose, had, log);
      var x := ctxs[c];
      if result != 0 {
        if x.busy != result {
          Report(CallFor(c, x.parent.value, x, Outcome(result, stat), polls[x.parent.value]));
          UserCode();
          Note(c, result, ctxs[c].stat);
        }
      } else {
        if x.busy != 0 && (x.busy < 0 || x.stat != stat) {
          Report(CallFor(c, x.parent.value, x, Outcome(result, stat), polls[x.parent.value]));
          UserCode();
        }
        Note(c, 1, stat);
      }
    }

    /** The user's callback is called. */
    ghost method Report(k: Call)
      requires Valid() && calling == Some(k.ctx) && k.ctx in taken
      modifies this`log
      ensures Valid() && log == old(log) + [k] && Made(log, k.ctx) == old(Made(log, k.ctx)) + [k]
    {
      hide Inv, History;
      HistoryTells(Now(), k, whose, had, log);
      MadeMore(log, k, k.ctx);
      log := log + [k];
    }

    /** busy_polling and statbuf are set. */
    method Note(c: Context, busy: int, stat: int)
      requires Valid() && c in ctxs && calling == Some(c)
      modifies this`ctxs
      ensures Valid() && ctxs == old(ctxs)[c := old(ctxs[c]).(busy := busy, stat := stat)]
    {
      hide History;
      assert CtxOk(Now(), c);
      HistoryCalls(Now(), c, ctxs[c].(busy := busy, stat := stat), whose, had, log);
      MovedKeeps(Now(), c, ctxs[c].(busy := busy, stat := stat), calling);
      ctxs := ctxs[c := ctxs[c].(busy := busy, stat := stat)];
    }

    /** The end of poll_cb; a handle stopped before the callback gets here too. The asserts of
        uv_close and the rule of uv_timer_start hold. */
    method Rearm(c: Context)
      requires Valid() && c in ctxs && calling == Some(c)
      requires c in had && c in whose
      requires Remembers(ctxs[c], had[c]) && (Results(had[c]) ==> ToldOf(Made(log, c), had[c], whose[c]))
      modifies this`ctxs, this`calling
      ensures Valid() && calling.None? && c in ctxs && !ctxs[c].statPending
      ensures if ctxs[c].parent.Some?
        then ctxs[c].timerActive && now < ctxs[c].due <= now + ctxs[c].interval
          && OnGrid(ctxs[c].start, ctxs[c].interval, ctxs[c].due)
        else ctxs[c].timerClosing
    {
      hide History, ToldOf, Remembers, Results;
      var x := ctxs[c];
      assert CtxOk(Now(), c);
      ghost var s := Now();
      if x.parent.None? {
        CloseTimer(c);
      } else {
        DelayLands(x.interval, x.start, now);
        StartTimer(c, Delay(x.interval, now - x.start));
      }
      calling := None;
      MovedKeeps(s, c, ctxs[c], None);
      HistoryReturns(s, c, ctxs[c], whose, had, log);
    }
  }

  /** What others may do to a context: its handle is stopped, and a running timer then closed. */
  predicate LeftAlone(x: Ctx, y: Ctx) {
    y == x || y == AfterStop(x)
  }

  function AfterStop(x: Ctx): Ctx {
    if x.timerActive then Closing(x.(parent := None)) else x.(parent := None)
  }

  /** Whether a result is reported: an error other than the last one, or a success that differs
      from the last one or follows an error; never the first success. */
  predicate Reports(x: Ctx, result: int, stat: int) {
    if result != 0 then x.busy != result else x.busy != 0 && (x.busy < 0 || x.stat != stat)
  }

  // ---- what each step keeps ----

  lemma Unchanged(s: World, t: World)
    requires Inv(s) && t.ctxs == s.ctxs && t.taken == s.taken && s.now <= t.now && t.calling == s.calling
    requires forall h :: h in s.polls ==> h in t.polls && t.polls[h] == s.polls[h]
    requires forall h :: h in t.polls && h !in s.polls ==> t.polls[h] == Poll(false, None)
    ensures Inv(t)
  {
    forall h | h in t.polls ensures PollOk(t, h) {
      assert h in s.polls ==> PollOk(s, h);
    }
    forall c | c in t.ctxs ensures CtxOk(t, c) {
      assert CtxOk(s, c);
    }
  }

  lemma StartKeeps(s: World, h: Handle, c: Context, interval: nat)
    requires Inv(s) && h in s.polls && !s.polls[h].active && c !in s.taken && interval > 0
    ensures Inv(s.(polls := s.polls[h := Poll(true, Some(c))], taken := s.taken + {c},
                   ctxs := s.ctxs[c := NewCtx(h, s.now, interval).(statPending := true)]))
  {
    var t := s.(polls := s.polls[h := Poll(true, Some(c))], taken := s.taken + {c},
                ctxs := s.ctxs[c := NewCtx(h, s.now, interval).(statPending := true)]);
    assert c in s.ctxs ==> CtxOk(s, c);
    forall x | x in t.polls ensures PollOk(t, x) {
      assert PollOk(s, x);
    }
    forall x | x in t.ctxs ensures CtxOk(t, x) {
      assert x in s.ctxs ==> CtxOk(s, x);
    }
  }

  function Stopped(s: World, h: Handle): World
    requires h in s.polls && s.polls[h].ctx.Some? && s.polls[h].ctx.value in s.ctxs
  {
    var c := s.polls[h].ctx.value;
    s.(polls := s.polls[h := Poll(false, None)], ctxs := s.ctxs[c := AfterStop(s.ctxs[c])])
  }

  lemma StopKeeps(s: World, h: Handle)
    requires Inv(s) && h in s.polls && s.polls[h].active
    ensures s.polls[h].ctx.Some? && s.polls[h].ctx.value in s.ctxs && Inv(Stopped(s, h))
  {
    assert PollOk(s, h);
    var t, c := Stopped(s, h), s.polls[h].ctx.value;
    assert CtxOk(s, c);
    forall x | x in t.polls ensures PollOk(t, x) {
      assert PollOk(s, x);
    }
    forall x | x in t.ctxs ensures CtxOk(t, x) {
      assert CtxOk(s, x);
    }
  }

  /** A context waits for something else, with the same parent. */
  lemma MovedKeeps(s: World, c: Context, x: Ctx, calling: Option<Context>)
    requires Inv(s) && c in s.ctxs && x.parent == s.ctxs[c].parent
    requires CtxOk(s.(ctxs := s.ctxs[c := x], calling := calling), c)
    requires (s.calling.None? || s.calling == Some(c)) && (calling.None? || calling == Some(c))
    ensures Inv(s.(ctxs := s.ctxs[c := x], calling := calling))
  {
    var t := s.(ctxs := s.ctxs[c := x], calling := calling);
    forall h | h in t.polls ensures PollOk(t, h) {
      assert PollOk(s, h);
    }
    forall y | y in t.ctxs ensures CtxOk(t, y) {
      assert CtxOk(s, y);
    }
  }

  lemma FreedKeeps(s: World, c: Context)
    requires Inv(s) && c in s.ctxs && s.ctxs[c].timerClosing
    ensures Inv(s.(ctxs := s.ctxs - {c}))
    ensures s.ctxs[c].parent.None? && !s.ctxs[c].statPending && !s.ctxs[c].timerActive
  {
    var t := s.(ctxs := s.ctxs - {c});
    assert CtxOk(s, c);
    forall h | h in t.polls ensures PollOk(t, h) {
      assert PollOk(s, h);
    }
    forall y | y in t.ctxs ensures CtxOk(t, y) {
      assert CtxOk(s, y);
    }
  }
}
