/** Feeding a byte string in pieces or whole makes no difference: http_parser_execute
    ends in the same state, error and position, with the same callbacks once adjacent
    data callbacks of one kind are joined. */
module HttpSegments {
  import opened HttpTypes
  import opened HttpStep
  import opened HttpRun

  // ---- joining data callbacks ----

  function Push(t: seq<Event>, e: Event): seq<Event> {
    if t != [] && e.Data? && t[|t| - 1].Data? && t[|t| - 1].kind == e.kind
    then t[..|t| - 1] + [Data(e.kind, t[|t| - 1].bytes + e.bytes)]
    else t + [e]
  }

  function Join(t: seq<Event>): seq<Event> {
    if t == [] then [] else Push(Join(t[..|t| - 1]), t[|t| - 1])
  }

  lemma JoinMore(t: seq<Event>, e: Event)
    ensures Join(t + [e]) == Push(Join(t), e)
  {
    assert (t + [e])[..|t|] == t;
  }

  lemma PushTwice(t: seq<Event>, k: Kind, a: seq<byte>, b: seq<byte>)
    ensures Push(Push(t, Data(k, a)), Data(k, b)) == Push(t, Data(k, a + b))
  {
    var u := Push(t, Data(k, a));
    if t != [] && t[|t| - 1].Data? && t[|t| - 1].kind == k {
      assert t[|t| - 1].bytes + a + b == t[|t| - 1].bytes + (a + b);
      assert u[..|u| - 1] == t[..|t| - 1];
    } else {
      assert u[..|u| - 1] == t;
    }
  }

  lemma PushNothing(t: seq<Event>, k: Kind, a: seq<byte>)
    ensures Push(Push(t, Data(k, a)), Data(k, [])) == Push(t, Data(k, a))
  {
    PushTwice(t, k, a, []);
    assert a + [] == a;
  }

  /** The callbacks so far, with the open mark as if it were flushed here. */
  function View(c: Conf): seq<Event> {
    if c.open.Closed? then Join(c.out) else Push(Join(c.out), Data(c.open.kind, c.open.bytes))
  }

  /** Two runs that differ only in where buffers ended. */
  ghost predicate Same(c: Conf, d: Conf) {
    && c.p == d.p && View(c) == View(d)
    && (c.open.Closed? ==> d.open.Closed?)
    && (c.open.Open? ==> (d.open.Open? && d.open.kind == c.open.kind) || (d.open.Closed? && c.open.kind == Body))
  }

  /** The same marks too. */
  ghost predicate Level(c: Conf, d: Conf) {
    Same(c, d) && (c.open.Open? <==> d.open.Open?)
  }

  lemma SetMarkView(k: Kind, c: Conf)
    requires c.open.Closed?
    ensures View(SetMark(k, c)) == Push(View(c), Data(k, []))
  {
  }

  lemma FlushMarkView(k: Kind, c: Conf)
    ensures View(FlushMark(k, c)) == View(c)
  {
    if c.open.Open? && c.open.kind == k {
      JoinMore(c.out, Data(k, c.open.bytes));
    }
  }

  lemma PerformSame(s: State, a: Act, p: Parser, c: Conf, d: Conf)
    requires Same(c, d) && Shape(s, a) && Fits(s, c.open) && Fits(s, d.open)
    requires a != Quiet || MarkOf(s) != Has(Body)
    ensures Level(Perform(a, c.(p := p)), Perform(a, d.(p := p)))
  {
    var c', d' := c.(p := p), d.(p := p);
    match a
    case Quiet =>
    case Mark(k) => SetMarkView(k, c'); SetMarkView(k, d');
    case Flush(k) => FlushMarkView(k, c'); FlushMarkView(k, d');
    case Touch(k) =>
      SetMarkView(k, c'); SetMarkView(k, d');
      FlushMarkView(k, SetMark(k, c')); FlushMarkView(k, SetMark(k, d'));
    case Notify(e) => JoinMore(c.out, e); JoinMore(d.out, e);
  }

  /** Setting the body mark again in a new buffer. */
  lemma BodyMarkSame(c: Conf, d: Conf)
    requires Same(c, d) && Fits(ChunkData, c.open) && Fits(ChunkData, d.open)
    ensures Level(SetMark(Body, c), SetMark(Body, d))
  {
    if c.open.Open? && d.open.Closed? {
      PushNothing(Join(c.out), Body, c.open.bytes);
    }
  }

  lemma TakeView(c: Conf, ch: byte)
    requires c.open.Open?
    ensures View(Take(c, ch)) == Push(View(c), Data(c.open.kind, [ch]))
  {
    PushTwice(Join(c.out), c.open.kind, c.open.bytes, [ch]);
  }

  lemma TakeSame(c: Conf, d: Conf, ch: byte)
    requires Level(c, d)
    ensures Level(Take(c, ch), Take(d, ch))
  {
    if c.open.Open? {
      TakeView(c, ch);
      TakeView(d, ch);
    }
  }

  lemma EndBodySame(c: Conf, d: Conf, ch: byte)
    requires Level(c, d) && c.open.Open? && c.open.kind == Body
    ensures Level(EndBody(c, ch), EndBody(d, ch))
  {
    EndBodyView(c, ch);
    EndBodyView(d, ch);
  }

  lemma EndBodyView(c: Conf, ch: byte)
    requires c.open.Open? && c.open.kind == Body
    ensures View(EndBody(c, ch)) == Push(Push(View(c), Data(Body, [ch])), Complete)
  {
    PushTwice(Join(c.out), Body, c.open.bytes, [ch]);
    JoinMore(c.out, Data(Body, c.open.bytes + [ch]));
    JoinMore(c.out + [Data(Body, c.open.bytes + [ch])], Complete);
    assert EndBody(c, ch) == Conf(Done(c.p, Next).p, Closed, c.out + [Data(Body, c.open.bytes + [ch])] + [Complete]);
  }

  lemma ReadByteSame(c: Conf, d: Conf, ch: byte)
    requires Same(c, d) && Reads(c.p.state) && Fits(ChunkData, c.open) && Fits(ChunkData, d.open)
    ensures Level(ReadByte(c, ch), ReadByte(d, ch))
  {
    BodyMarkSame(c, d);
    var c', d' := SetMark(Body, c).(p := CountOff(c.p)), SetMark(Body, d).(p := CountOff(d.p));
    assert Level(c', d');
    if c'.p.state.MessageDone? {
      EndBodySame(c', d', ch);
    }
  }

  lemma PassSame(hc: Decide, c: Conf, d: Conf, ch: byte)
    requires Same(c, d) && Sound(c.p) && Fits(c.p.state, c.open) && Fits(c.p.state, d.open) && !Reads(c.p.state)
    ensures var o := Pass(hc, c.p, ch);
      var c', d' := Perform(o.act, c.(p := o.p)), Perform(o.act, d.(p := o.p));
      !o.ctl.Fail? ==>
        Level(c', d') && Fits(o.p.state, c'.open) && Fits(o.p.state, d'.open) && (o.ctl.Again? ==> Sound(o.p))
  {
    var o := Pass(hc, c.p, ch);
    PassGood(hc, c.p, ch);
    if !o.ctl.Fail? {
      ChunkDataEnds(hc, c.p, ch);
      PerformSame(c.p.state, o.act, o.p, c, d);
      PerformFits(c.p.state, o.act, o.p.state, c.(p := o.p));
      PerformFits(c.p.state, o.act, o.p.state, d.(p := o.p));
    }
  }

  /** One turn of the switch, and the rest. */
  lemma SwitchIs(hc: Decide, c: Conf, ch: byte)
    ensures Switch(hc, c, ch) ==
      if Reads(c.p.state) then (ReadByte(c, ch), Next)
      else
        var o := Pass(hc, c.p, ch);
        var d := Perform(o.act, c.(p := o.p));
        if o.ctl.Again? then Switch(hc, d, ch) else (d, o.ctl)
  {
    hide Pass, ReadByte, Perform;
  }

  lemma {:induction false} SwitchSame(hc: Decide, c: Conf, d: Conf, ch: byte)
    requires Same(c, d) && Sound(c.p) && Fits(c.p.state, c.open) && Fits(c.p.state, d.open)
    ensures Switch(hc, c, ch).1 == Switch(hc, d, ch).1 && Switch(hc, c, ch).0.p == Switch(hc, d, ch).0.p
    ensures !Switch(hc, c, ch).1.Fail? ==> Level(Switch(hc, c, ch).0, Switch(hc, d, ch).0)
    decreases Rank(c.p.state)
  {
    hide Switch, Pass, ReadByte, Perform, Sound;
    SwitchIs(hc, c, ch);
    SwitchIs(hc, d, ch);
    if Reads(c.p.state) {
      ReadByteSame(c, d, ch);
    } else {
      var o := Pass(hc, c.p, ch);
      PassSame(hc, c, d, ch);
      if o.ctl.Again? {
        SwitchSame(hc, Perform(o.act, c.(p := o.p)), Perform(o.act, d.(p := o.p)), ch);
      }
    }
  }

  /** Outside the reading states, a body mark is only met to be flushed. */
  lemma ChunkDataEnds(hc: Decide, p: Parser, ch: byte)
    requires !Reads(p.state)
    ensures MarkOf(p.state) == Has(Body) ==> Pass(hc, p, ch).act == Flush(Body)
  {
  }

  lemma ByteStepSame(hc: Decide, c: Conf, d: Conf, ch: byte)
    requires Same(c, d) && Between(c) && Between(d)
    ensures ByteStep(hc, c, ch).1 == ByteStep(hc, d, ch).1 && ByteStep(hc, c, ch).0.p == ByteStep(hc, d, ch).0.p
    ensures !ByteStep(hc, c, ch).1.Fail? ==> Level(ByteStep(hc, c, ch).0, ByteStep(hc, d, ch).0)
  {
    CountKeeps(c);
    var c', d' := c.(p := Count(c.p)), d.(p := Count(d.p));
    SwitchSame(hc, c', d', ch);
    if Switch(hc, c', ch).1.Next? {
      TakeSame(Switch(hc, c', ch).0, Switch(hc, d', ch).0, ch);
    }
  }

  lemma {:induction false} RunSame(hc: Decide, c: Conf, d: Conf, data: seq<byte>)
    requires Same(c, d) && Between(c) && Between(d)
    ensures var r, t := Run(hc, c, data), Run(hc, d, data);
      && r.ctl == t.ctl && r.conf.p == t.conf.p && r.consumed == t.consumed
      && (!r.ctl.Fail? ==> Same(r.conf, t.conf))
    decreases data
  {
    if data != [] {
      ByteStepSame(hc, c, d, data[0]);
      ByteStepKeeps(hc, c, data[0]);
      ByteStepKeeps(hc, d, data[0]);
      if ByteStep(hc, c, data[0]).1.Next? {
        RunSame(hc, ByteStep(hc, c, data[0]).0, ByteStep(hc, d, data[0]).0, data[1..]);
      }
    }
  }

  // ---- one call, and a series of calls ----

  /** The marks that are set again at the start of a buffer. */
  function Enter(p: Parser, out: seq<Event>): Conf {
    match MarkOf(p.state)
    case NoMark => Conf(p, Closed, out)
    case Has(k) => Conf(p, if k == Body then Closed else Open(k, []), out)
  }

  /** The callbacks for marks left over at the end of a buffer. */
  function Leave(c: Conf): Conf {
    if c.open.Open? then FlushMark(c.open.kind, c) else c
  }

  datatype Call = Call(p: Parser, out: seq<Event>, consumed: nat)

  /** An empty buffer stands for the end of the input. */
  function AtEof(p: Parser): Call {
    match p.state
    case BodyIdentityEof => Call(p, [Complete], 0)
    case Dead => Call(p, [], 0)
    case StartReqOrRes => Call(p, [], 0)
    case StartRes => Call(p, [], 0)
    case StartReq => Call(p, [], 0)
    case _ => Call(p.(errno := InvalidEofState), [], 1)
  }

  /** http_parser_execute */
  function Execute(hc: Decide, p: Parser, data: seq<byte>): Call {
    if !p.errno.Ok? then Call(p, [], 0)
    else if data == [] then AtEof(p)
    else
      var r := Run(hc, Enter(p, []), data);
      var c := if r.ctl.Next? then Leave(r.conf) else r.conf;
      Call(c.p, c.out, r.consumed)
  }

  /** A caller that feeds piece after piece until an error or an upgrade. */
  function Feed(hc: Decide, p: Parser, pieces: seq<seq<byte>>): Call
    decreases pieces
  {
    if pieces == [] || !p.errno.Ok? || p.upgrade then Call(p, [], 0)
    else
      var a := Execute(hc, p, pieces[0]);
      Chain(a, Feed(hc, a.p, pieces[1..]))
  }

  function Chain(a: Call, b: Call): Call {
    Call(b.p, a.out + b.out, a.consumed + b.consumed)
  }

  function Concat(pieces: seq<seq<byte>>): seq<byte> {
    if pieces == [] then [] else pieces[0] + Concat(pieces[1..])
  }

  lemma EnterBetween(p: Parser, out: seq<Event>)
    requires Sound(p) && (p.state.ChunkSizeStart? ==> p.nread == 0)
    ensures Between(Enter(p, out))
  {
  }

  /** Ending a buffer after any byte and starting the next one changes nothing that counts. */
  lemma CutSame(c: Conf)
    requires Between(c)
    ensures Same(c, Enter(c.p, Leave(c).out)) && Between(Enter(c.p, Leave(c).out)) && Leave(c).p == c.p
    ensures Join(Leave(c).out) == View(c)
  {
    EnterBetween(c.p, Leave(c).out);
    if c.open.Open? {
      JoinMore(c.out, Data(c.open.kind, c.open.bytes));
      PushNothing(Join(c.out), c.open.kind, c.open.bytes);
    }
  }

  /** Callbacks made earlier do not matter for what follows. */
  lemma {:induction false} RunShift(hc: Decide, c: Conf, pre: seq<Event>, data: seq<byte>)
    ensures var r, t := Run(hc, c, data), Run(hc, c.(out := pre + c.out), data);
      t == r.(conf := r.conf.(out := pre + r.conf.out))
    decreases data
  {
    if data != [] {
      ByteStepShift(hc, c, pre, data[0]);
      if ByteStep(hc, c, data[0]).1.Next? {
        RunShift(hc, ByteStep(hc, c, data[0]).0, pre, data[1..]);
      }
    }
  }

  lemma ByteStepShift(hc: Decide, c: Conf, pre: seq<Event>, ch: byte)
    ensures var (d, ctl) := ByteStep(hc, c, ch);
      ByteStep(hc, c.(out := pre + c.out), ch) == (d.(out := pre + d.out), ctl)
  {
    SwitchShift(hc, c.(p := Count(c.p)), pre, ch);
  }

  lemma {:induction false} SwitchShift(hc: Decide, c: Conf, pre: seq<Event>, ch: byte)
    ensures var (d, ctl) := Switch(hc, c, ch);
      Switch(hc, c.(out := pre + c.out), ch) == (d.(out := pre + d.out), ctl)
    decreases Rank(c.p.state)
  {
    if Reads(c.p.state) {
      ReadByteShift(c, pre, ch);
    } else {
      var o := Pass(hc, c.p, ch);
      PerformShift(o.act, c.(p := o.p), pre);
      if o.ctl.Again? {
        SwitchShift(hc, Perform(o.act, c.(p := o.p)), pre, ch);
      }
    }
  }

  lemma PerformShift(a: Act, c: Conf, pre: seq<Event>)
    ensures var d := Perform(a, c); Perform(a, c.(out := pre + c.out)) == d.(out := pre + d.out)
  {
    assert forall e: Event :: pre + c.out + [e] == pre + (c.out + [e]);
  }

  lemma ReadByteShift(c: Conf, pre: seq<Event>, ch: byte)
    requires Reads(c.p.state)
    ensures var d := ReadByte(c, ch); ReadByte(c.(out := pre + c.out), ch) == d.(out := pre + d.out)
  {
    assert forall e: Event :: pre + c.out + [e] == pre + (c.out + [e]);
    assert forall e: Event, f: Event :: pre + c.out + [e] + [f] == pre + (c.out + [e] + [f]);
  }

  /** The first piece, against the run `c` that has not been cut. */
  lemma PieceSame(hc: Decide, c: Conf, pre: seq<Event>, a: seq<byte>)
    requires Between(c) && Between(Enter(c.p, pre)) && Same(c, Enter(c.p, pre)) && a != []
    ensures var r, t, x := Run(hc, c, a), Run(hc, Enter(c.p, pre), a), Execute(hc, c.p, a);
      && x.p == r.conf.p && x.consumed == r.consumed
      && r.ctl == t.ctl && r.conf.p == t.conf.p && (!r.ctl.Fail? ==> Same(r.conf, t.conf))
      && pre + x.out == (if r.ctl.Next? then Leave(t.conf) else t.conf).out
  {
    hide ByteStep;
    var e := Enter(c.p, pre);
    RunSame(hc, c, e, a);
    RunShift(hc, Enter(c.p, []), pre, a);
    assert pre + [] == pre;
    assert e == Enter(c.p, []).(out := pre);
    var u := Run(hc, Enter(c.p, []), a).conf;
    assert Run(hc, e, a).conf == u.(out := pre + u.out);
    assert forall d: Event :: pre + u.out + [d] == pre + (u.out + [d]);
  }

  /** ... and, when it is read to its end, how the next piece starts. */
  lemma CutAfter(hc: Decide, c: Conf, pre: seq<Event>, a: seq<byte>)
    requires Between(c) && Between(Enter(c.p, pre)) && Same(c, Enter(c.p, pre)) && a != []
    requires Run(hc, c, a).ctl.Next?
    ensures var r, x := Run(hc, c, a), Execute(hc, c.p, a);
      var e := Enter(r.conf.p, pre + x.out);
      && Between(r.conf) && Between(e) && Same(r.conf, e) && Join(pre + x.out) == View(r.conf)
      && (r.conf.p.upgrade ==> c.p.upgrade)
  {
    PieceSame(hc, c, pre, a);
    RunKeeps(hc, c, a);
    RunKeeps(hc, Enter(c.p, pre), a);
    var r, t := Run(hc, c, a), Run(hc, Enter(c.p, pre), a);
    CutSame(t.conf);
    SameTrans(r.conf, t.conf, Enter(r.conf.p, Leave(t.conf).out));
  }

  /** A stop or an error in a piece ends the feeding there. */
  lemma FeedStops(hc: Decide, c: Conf, pre: seq<Event>, pieces: seq<seq<byte>>)
    requires Between(c) && Between(Enter(c.p, pre)) && Same(c, Enter(c.p, pre)) && !c.p.upgrade
    requires pieces != [] && pieces[0] != [] && !Run(hc, c, pieces[0]).ctl.Next?
    ensures var r, f := Run(hc, c, pieces[0]), Feed(hc, c.p, pieces);
      && f.p == r.conf.p && f.consumed == r.consumed
      && (!r.ctl.Fail? ==> Join(pre + f.out) == View(r.conf))
  {
    var a := pieces[0];
    PieceSame(hc, c, pre, a);
    RunKeeps(hc, c, a);
    RunKeeps(hc, Enter(c.p, pre), a);
    var x := Execute(hc, c.p, a);
    assert Feed(hc, x.p, pieces[1..]) == Call(x.p, [], 0);
    assert x.out + [] == x.out;
    assert Feed(hc, c.p, pieces) == x;
  }

  /** The pieces fed one after the other, against the run `c` that has not been cut. */
  lemma {:induction false} FeedSame(hc: Decide, c: Conf, pre: seq<Event>, pieces: seq<seq<byte>>)
    requires Between(c) && Between(Enter(c.p, pre)) && Same(c, Enter(c.p, pre)) && !c.p.upgrade
    requires pieces == [] ==> Join(pre) == View(c)
    requires forall i :: 0 <= i < |pieces| ==> pieces[i] != []
    ensures var r, f := Run(hc, c, Concat(pieces)), Feed(hc, c.p, pieces);
      && f.p == r.conf.p && f.consumed == r.consumed
      && (!r.ctl.Fail? ==> Join(pre + f.out) == View(r.conf))
    decreases pieces
  {
    if pieces == [] {
      assert pre + [] == pre;
    } else {
      var a, rest := pieces[0], pieces[1..];
      var r := Run(hc, c, a);
      RunAppend(hc, c, a, Concat(rest));
      if r.ctl.Next? {
        PieceSame(hc, c, pre, a);
        CutAfter(hc, c, pre, a);
        var x := Execute(hc, c.p, a);
        FeedSame(hc, r.conf, pre + x.out, rest);
        ChainAfter(pre, x, Feed(hc, x.p, rest));
      } else {
        FeedStops(hc, c, pre, pieces);
      }
    }
  }

  lemma ChainAfter(pre: seq<Event>, a: Call, b: Call)
    ensures pre + Chain(a, b).out == pre + a.out + b.out
  {
    assert pre + (a.out + b.out) == pre + a.out + b.out;
  }

  lemma SameTrans(c: Conf, d: Conf, e: Conf)
    requires Same(c, d) && Same(d, e)
    ensures Same(c, e)
  {
  }

  /** Feeding a byte string in any pieces ends in the same parser, after the same number of
      bytes, as feeding it whole; without an error the callbacks are the same too, once
      adjacent data callbacks of a kind are joined. */
  lemma AnySegmentation(hc: Decide, p: Parser, pieces: seq<seq<byte>>)
    requires Sound(p) && !p.upgrade && (p.state.ChunkSizeStart? ==> p.nread == 0)
    requires pieces != [] && forall i :: 0 <= i < |pieces| ==> pieces[i] != []
    ensures var whole, parts := Execute(hc, p, Concat(pieces)), Feed(hc, p, pieces);
      && parts.p == whole.p && parts.consumed == whole.consumed
      && (whole.p.errno.Ok? ==> Join(parts.out) == Join(whole.out))
  {
    var c := Enter(p, []);
    EnterBetween(p, []);
    FeedSame(hc, c, [], pieces);
    assert [] + Feed(hc, p, pieces).out == Feed(hc, p, pieces).out;
    var r := Run(hc, c, Concat(pieces));
    RunKeeps(hc, c, Concat(pieces));
    if r.ctl.Next? {
      CutSame(r.conf);
    }
  }
}
