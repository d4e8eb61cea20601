/** The order of callbacks a request parser makes: per message begin, url+, (field|value)*,
    headers complete, body*, (field|value)*, complete. */
module HttpGrammar {
  import opened HttpTypes
  import opened HttpStep
  import opened HttpRun
  import opened HttpSegments

  /** How far a message has got; Broken after a callback out of order. */
  datatype Phase = Idle | Begun | InTarget | InHeaders | InBody | InTrailers | Broken

  function After(g: Phase, e: Event): Phase {
    match g
    case Idle => if e.Begin? then Begun else Broken
    case Begun => if e.Data? && e.kind.Url? then InTarget else Broken
    case InTarget =>
      if e.Data? && e.kind.Url? then InTarget else if Header(e) then InHeaders
      else if e.HeadersComplete? then InBody else Broken
    case InHeaders => if Header(e) then InHeaders else if e.HeadersComplete? then InBody else Broken
    case InBody =>
      if e.Data? && e.kind.Body? then InBody else if Header(e) then InTrailers
      else if e.Complete? then Idle else Broken
    case InTrailers => if Header(e) then InTrailers else if e.Complete? then Idle else Broken
    case Broken => Broken
  }

  predicate Header(e: Event) {
    e.Data? && (e.kind.Field? || e.kind.Value?)
  }

  /** Where the callbacks so far have led. */
  function Track(out: seq<Event>): Phase {
    if out == [] then Idle else After(Track(out[..|out| - 1]), out[|out| - 1])
  }

  lemma TrackMore(out: seq<Event>, e: Event)
    ensures Track(out + [e]) == After(Track(out), e)
  {
    assert (out + [e])[..|out|] == out;
  }

  predicate HeaderPart(s: State) {
    s.HeaderFieldStart? || s.HeaderField? || s.HeaderValueStart? || s.HeaderValue? || s.HeaderValueLws?
    || s.HeaderAlmostDone? || s.HeadersAlmostDone?
  }

  /** The phases a request parser can be in, by its state. */
  predicate Agrees(p: Parser, g: Phase) {
    p.typ.Request? &&
    if p.state.StartReq? then g.Idle?
    else if p.state.ReqMethod? || p.state.SpacesBeforeUrl? then g.Begun? && !p.flags.trailing
    else if InUrl(p.state) then (g.Begun? || g.InTarget?) && !p.flags.trailing
    else if InRequestLine(p.state) then g.InTarget? && !p.flags.trailing
    else if HeaderPart(p.state) then if p.flags.trailing then g.InBody? || g.InTrailers? else g.InTarget? || g.InHeaders?
    else if p.state.HeadersDone? || InChunk(p.state) || p.state.ChunkData? || p.state.BodyIdentity? then g.InBody?
    else false
  }

  lemma AgreesWhole(p: Parser, g: Phase)
    requires Agrees(p, g)
    ensures !g.Broken?
  {
  }

  /** The phase after what a pass does about callbacks, the mark being as it fits the state. */
  function Did(a: Act, o: Open, g: Phase): Phase {
    match a
    case Quiet => g
    case Mark(_) => g
    case Flush(k) => if o.Open? && o.kind == k then After(g, Data(k, o.bytes)) else g
    case Touch(k) => if o.Closed? || o.kind == k then After(g, Data(k, [])) else g
    case Notify(e) => After(g, e)
  }

  lemma TouchIs(k: Kind, c: Conf)
    ensures Track(Perform(Touch(k), c).out) == Did(Touch(k), c.open, Track(c.out))
  {
    hide Track;
    if SetMark(k, c).open.kind == k {
      TrackMore(c.out, Data(k, SetMark(k, c).open.bytes));
    }
  }

  lemma DidIs(a: Act, c: Conf, g: Phase)
    requires Track(c.out) == g
    ensures Track(Perform(a, c).out) == Did(a, c.open, g)
  {
    hide Track;
    match a
    case Quiet =>
    case Mark(k) =>
    case Flush(k) =>
      if c.open.Open? && c.open.kind == k {
        TrackMore(c.out, Data(k, c.open.bytes));
      }
    case Touch(k) => TouchIs(k, c);
    case Notify(e) => TrackMore(c.out, e);
  }

  ghost predicate StepAgrees(p: Parser, o: Out, open: Open, g: Phase) {
    !Did(o.act, open, g).Broken? && (!o.ctl.Fail? ==> Agrees(o.p, Did(o.act, open, g)))
  }

  lemma StartAgrees(p: Parser, ch: byte, open: Open, g: Phase)
    requires Agrees(p, g) && (p.state.StartReq? || p.state.ReqMethod?)
    ensures p.state.StartReq? ==> StepAgrees(p, StartStep(p, ch), open, g)
    ensures p.state.ReqMethod? ==> StepAgrees(p, MethodStep(p, ch), open, g)
  {
  }

  lemma UrlAgrees(p: Parser, ch: byte, open: Open, g: Phase)
    requires Agrees(p, g) && GroupOf(p.state).GUrl? && Fits(p.state, open)
    ensures StepAgrees(p, UrlStep(p, ch), open, g)
  {
    hide UrlChar;
    UrlCharStays(p.state, ch);
    UrlCharStays(HostStart, ch);
  }

  lemma LineAgrees(p: Parser, ch: byte, open: Open, g: Phase)
    requires Agrees(p, g) && InRequestLine(p.state)
    ensures StepAgrees(p, RequestLineStep(p, ch), open, g)
  {
  }

  lemma FieldCharKeeps(p: Parser, ch: byte)
    ensures var q := FieldChar(p, ch, Token(ch)); q == p.(index := q.index, headerState := q.headerState)
  {
  }

  lemma FieldStartAgrees(p: Parser, ch: byte, open: Open, g: Phase)
    requires Agrees(p, g) && p.state.HeaderFieldStart?
    ensures StepAgrees(p, FieldStep(p, ch), open, g)
  {
    hide Token;
  }

  lemma InFieldAgrees(p: Parser, ch: byte, open: Open, g: Phase)
    requires Agrees(p, g) && p.state.HeaderField? && Fits(p.state, open)
    ensures StepAgrees(p, FieldStep(p, ch), open, g)
  {
    hide FieldChar, Token;
    FieldCharKeeps(p, ch);
  }

  lemma FieldAgrees(p: Parser, ch: byte, open: Open, g: Phase)
    requires Agrees(p, g) && GroupOf(p.state).GField? && Fits(p.state, open)
    ensures StepAgrees(p, FieldStep(p, ch), open, g)
  {
    hide FieldStep, StepAgrees, Agrees, Fits;
    if p.state.HeaderField? {
      InFieldAgrees(p, ch, open, g);
    } else {
      FieldStartAgrees(p, ch, open, g);
    }
  }

  lemma FirstValueKeeps(p: Parser, ch: byte)
    ensures var o := FirstValueChar(p, ch);
      o.p.typ == p.typ && o.p.flags.trailing == p.flags.trailing && (!o.ctl.Fail? ==> o.p.state.HeaderValue?)
  {
  }

  /** The first byte of a value, or an empty value. */
  lemma ValueBegins(p: Parser, ch: byte, open: Open, g: Phase)
    requires Agrees(p, g) && p.state.HeaderValueStart? && ch != CR && ch != LF
    ensures StepAgrees(p, ValueStep(p, ch), open, g)
  {
    hide FirstValueChar, ValueChar;
    FirstValueKeeps(p.(index := 0), ch);
  }

  lemma ValueEmpty(p: Parser, ch: byte, open: Open, g: Phase)
    requires Agrees(p, g) && p.state.HeaderValueStart? && Fits(p.state, open) && (ch == CR || ch == LF)
    ensures StepAgrees(p, ValueStep(p, ch), open, g)
  {
    hide FirstValueChar, ValueChar;
  }

  lemma ValueStartAgrees(p: Parser, ch: byte, open: Open, g: Phase)
    requires Agrees(p, g) && p.state.HeaderValueStart? && Fits(p.state, open)
    ensures StepAgrees(p, ValueStep(p, ch), open, g)
  {
    hide ValueStep, StepAgrees, Agrees, Fits;
    if ch == CR || ch == LF {
      ValueEmpty(p, ch, open, g);
    } else {
      ValueBegins(p, ch, open, g);
    }
  }

  lemma AlmostDoneAgrees(p: Parser, ch: byte, open: Open, g: Phase)
    requires Agrees(p, g) && p.state.HeaderAlmostDone?
    ensures StepAgrees(p, ValueStep(p, ch), open, g)
  {
    hide FirstValueChar, ValueChar;
  }

  lemma LwsAgrees(p: Parser, ch: byte, open: Open, g: Phase)
    requires Agrees(p, g) && p.state.HeaderValueLws?
    ensures StepAgrees(p, ValueStep(p, ch), open, g)
  {
    hide FirstValueChar, ValueChar;
  }

  lemma InValueAgrees(p: Parser, ch: byte, open: Open, g: Phase)
    requires Agrees(p, g) && p.state.HeaderValue? && Fits(p.state, open)
    ensures StepAgrees(p, ValueStep(p, ch), open, g)
  {
  }

  lemma ValueAgrees(p: Parser, ch: byte, open: Open, g: Phase)
    requires Agrees(p, g) && GroupOf(p.state).GValue? && Fits(p.state, open)
    ensures StepAgrees(p, ValueStep(p, ch), open, g)
  {
    hide ValueStep, StepAgrees, Agrees, Fits;
    if p.state.HeaderValueStart? {
      ValueStartAgrees(p, ch, open, g);
    } else if p.state.HeaderValue? {
      InValueAgrees(p, ch, open, g);
    } else if p.state.HeaderAlmostDone? {
      AlmostDoneAgrees(p, ch, open, g);
    } else {
      LwsAgrees(p, ch, open, g);
    }
  }

  lemma HeadersAgree(hc: Decide, p: Parser, open: Open, g: Phase)
    requires Agrees(p, g) && GroupOf(p.state).GHeaders?
    ensures StepAgrees(p, HeadersStep(hc, p), open, g)
  {
  }

  lemma ChunkSizeAgrees(p: Parser, ch: byte, open: Open, g: Phase)
    requires Agrees(p, g) && (p.state.ChunkSizeStart? || p.state.ChunkSize? || p.state.ChunkParameters?)
    ensures StepAgrees(p, ChunkStep(p, ch), open, g)
  {
  }

  lemma ChunkEndAgrees(p: Parser, ch: byte, open: Open, g: Phase)
    requires Agrees(p, g) && (p.state.ChunkSizeAlmostDone? || p.state.ChunkDataAlmostDone? || p.state.ChunkDataDone?)
    ensures StepAgrees(p, ChunkStep(p, ch), open, g)
  {
  }

  lemma ChunkAgrees(p: Parser, ch: byte, open: Open, g: Phase)
    requires Agrees(p, g) && InChunk(p.state)
    ensures StepAgrees(p, ChunkStep(p, ch), open, g)
  {
    hide ChunkStep, StepAgrees, Agrees;
    if p.state.ChunkSizeStart? || p.state.ChunkSize? || p.state.ChunkParameters? {
      ChunkSizeAgrees(p, ch, open, g);
    } else {
      ChunkEndAgrees(p, ch, open, g);
    }
  }

  lemma PassAgrees(hc: Decide, p: Parser, ch: byte, open: Open, g: Phase)
    requires Agrees(p, g) && Fits(p.state, open) && !Reads(p.state)
    ensures StepAgrees(p, Pass(hc, p, ch), open, g)
  {
    hide Agrees, StepAgrees, Fits;
    GroupAgrees(p, g);
    match GroupOf(p.state)
    case GStart => StartAgrees(p, ch, open, g);
    case GMethod => StartAgrees(p, ch, open, g);
    case GUrl => UrlAgrees(p, ch, open, g);
    case GRequestLine => LineAgrees(p, ch, open, g);
    case GField => FieldAgrees(p, ch, open, g);
    case GValue => ValueAgrees(p, ch, open, g);
    case GHeaders => HeadersAgree(hc, p, open, g);
    case _ => ChunkAgrees(p, ch, open, g);
  }

  lemma GroupAgrees(p: Parser, g: Phase)
    requires Agrees(p, g) && !Reads(p.state)
    ensures !GroupOf(p.state).GStatusLine? && !GroupOf(p.state).GDone? && !GroupOf(p.state).GBody?
    ensures GroupOf(p.state).GStart? ==> p.state.StartReq?
  {
  }

  lemma LastByteAgrees(c: Conf, ch: byte)
    requires Track(c.out).InBody? && c.open.Open?
    ensures Track(EndBody(c, ch).out).Idle?
  {
    hide Track;
    var bytes := c.open.bytes + [ch];
    TrackMore(c.out, Data(Body, bytes));
    TrackMore(c.out + [Data(Body, bytes)], Complete);
    assert EndBody(c, ch).out == c.out + [Data(Body, bytes)] + [Complete];
  }

  lemma ReadAgrees(c: Conf, ch: byte)
    requires Agrees(c.p, Track(c.out)) && Reads(c.p.state) && Fits(c.p.state, c.open)
    ensures Agrees(ReadByte(c, ch).p, Track(ReadByte(c, ch).out))
  {
    hide Track;
    var d := SetMark(Body, c).(p := CountOff(c.p));
    if d.p.state.MessageDone? {
      LastByteAgrees(d, ch);
    }
  }

  lemma {:induction false} SwitchAgrees(hc: Decide, c: Conf, ch: byte)
    requires Sound(c.p) && Fits(c.p.state, c.open) && Agrees(c.p, Track(c.out))
    ensures var (d, ctl) := Switch(hc, c, ch); !Track(d.out).Broken? && (!ctl.Fail? ==> Agrees(d.p, Track(d.out)))
    decreases Rank(c.p.state)
  {
    hide Agrees, Pass, Track, Sound, Good, Fits, Shape, NextMark, Perform;
    if Reads(c.p.state) {
      ReadAgrees(c, ch);
      AgreesWhole(ReadByte(c, ch).p, Track(ReadByte(c, ch).out));
    } else {
      var o := Pass(hc, c.p, ch);
      PassGood(hc, c.p, ch);
      PassAgrees(hc, c.p, ch, c.open, Track(c.out));
      PassKeepsFit(hc, c, ch);
      DidIs(o.act, c.(p := o.p), Track(c.out));
      if o.ctl.Again? {
        SwitchAgrees(hc, Perform(o.act, c.(p := o.p)), ch);
      }
    }
  }

  lemma PassKeepsFit(hc: Decide, c: Conf, ch: byte)
    requires Sound(c.p) && Fits(c.p.state, c.open) && !Reads(c.p.state)
    ensures var o := Pass(hc, c.p, ch);
      o.ctl.Again? ==> Sound(o.p) && Fits(o.p.state, Perform(o.act, c.(p := o.p)).open)
  {
    hide Pass, Sound;
    var o := Pass(hc, c.p, ch);
    PassGood(hc, c.p, ch);
    if o.ctl.Again? {
      PerformFits(c.p.state, o.act, o.p.state, c.(p := o.p));
    }
  }

  lemma ByteAgrees(hc: Decide, c: Conf, ch: byte)
    requires Between(c) && Agrees(c.p, Track(c.out))
    ensures var (d, ctl) := ByteStep(hc, c, ch); !Track(d.out).Broken? && (!ctl.Fail? ==> Agrees(d.p, Track(d.out)))
  {
    hide Switch, Track;
    CountKeeps(c);
    AgreesWhole(c.p, Track(c.out));
    SwitchAgrees(hc, c.(p := Count(c.p)), ch);
  }

  lemma {:induction false} RunAgrees(hc: Decide, c: Conf, data: seq<byte>)
    requires Between(c) && Agrees(c.p, Track(c.out))
    ensures var r := Run(hc, c, data);
      !Track(r.conf.out).Broken? && (!r.ctl.Fail? ==> Agrees(r.conf.p, Track(r.conf.out)))
    decreases data
  {
    hide ByteStep, Agrees, Track, Between;
    AgreesWhole(c.p, Track(c.out));
    if data != [] {
      ByteAgrees(hc, c, data[0]);
      ByteStepKeeps(hc, c, data[0]);
      if ByteStep(hc, c, data[0]).1.Next? {
        RunAgrees(hc, ByteStep(hc, c, data[0]).0, data[1..]);
      }
    }
  }

  /** Handing over what is behind an open mark at the end of a buffer. */
  lemma LeaveAgrees(c: Conf)
    requires Fits(c.p.state, c.open) && Agrees(c.p, Track(c.out))
    ensures Agrees(Leave(c).p, Track(Leave(c).out))
  {
    if c.open.Open? {
      TrackMore(c.out, Data(c.open.kind, c.open.bytes));
    }
  }

  lemma ExecuteAgrees(hc: Decide, p: Parser, pre: seq<Event>, data: seq<byte>)
    requires Between(Enter(p, pre)) && Agrees(p, Track(pre)) && data != []
    ensures var x := Execute(hc, p, data);
      && !Track(pre + x.out).Broken?
      && (x.p.errno.Ok? ==> Agrees(x.p, Track(pre + x.out)) && (!x.p.upgrade ==> Between(Enter(x.p, pre + x.out))))
  {
    hide ByteStep, Agrees, Track, Run;
    var e := Enter(p, pre);
    var t := Run(hc, e, data);
    assert e.p == p && e.out == pre;
    PieceSame(hc, e, pre, data);
    RunKeeps(hc, e, data);
    RunAgrees(hc, e, data);
    if t.ctl.Next? {
      LeaveAgrees(t.conf);
      AgreesWhole(Leave(t.conf).p, Track(Leave(t.conf).out));
      CutSame(t.conf);
    }
  }

  /** Whatever request bytes come, cut into buffers in whatever way: the callbacks made so far
      are in order. */
  lemma {:induction false} FeedAgrees(hc: Decide, p: Parser, pre: seq<Event>, pieces: seq<seq<byte>>)
    requires p.errno.Ok? ==> Agrees(p, Track(pre)) && (!p.upgrade ==> Between(Enter(p, pre)))
    requires !Track(pre).Broken?
    requires forall i :: 0 <= i < |pieces| ==> pieces[i] != []
    ensures var f := Feed(hc, p, pieces);
      !Track(pre + f.out).Broken? && (f.p.errno.Ok? ==> Agrees(f.p, Track(pre + f.out)))
    decreases |pieces|
  {
    hide Agrees, Track, Execute, Between, Enter;
    if pieces == [] || !p.errno.Ok? || p.upgrade {
      assert pre + [] == pre;
    } else {
      ExecuteAgrees(hc, p, pre, pieces[0]);
      var x := Execute(hc, p, pieces[0]);
      FeedAgrees(hc, x.p, pre + x.out, pieces[1..]);
      ChainAfter(pre, x, Feed(hc, x.p, pieces[1..]));
    }
  }

  lemma InitAgrees()
    ensures Agrees(Init(Request), Track([])) && Between(Enter(Init(Request), [])) && Init(Request).errno.Ok?
    ensures !Track([]).Broken?
  {
  }

  /** The same from the start: never a callback out of order, whether or not an error ends it. */
  lemma RequestsInOrder(hc: Decide, pieces: seq<seq<byte>>)
    requires forall i :: 0 <= i < |pieces| ==> pieces[i] != []
    ensures !Track(Feed(hc, Init(Request), pieces).out).Broken?
  {
    hide Feed, Track, Agrees, Enter, Init, Between;
    InitAgrees();
    FeedAgrees(hc, Init(Request), [], pieces);
    assert [] + Feed(hc, Init(Request), pieces).out == Feed(hc, Init(Request), pieces).out;
  }

  lemma EofIs(hc: Decide, p: Parser, g: Phase)
    requires p.errno.Ok? && Agrees(p, g)
    ensures Execute(hc, p, []) == Call(if g.Idle? then p else p.(errno := InvalidEofState), [], if g.Idle? then 0 else 1)
  {
    hide Run, Enter, Leave;
  }

  /** The end of the input is an error exactly in the middle of a request, as the callbacks have it. */
  lemma EndsBetween(hc: Decide, pieces: seq<seq<byte>>)
    requires forall i :: 0 <= i < |pieces| ==> pieces[i] != []
    requires Feed(hc, Init(Request), pieces).p.errno.Ok?
    ensures var f := Feed(hc, Init(Request), pieces);
      && Execute(hc, f.p, []).out == []
      && (Execute(hc, f.p, []).p.errno == if Track(f.out).Idle? then Ok else InvalidEofState)
  {
    hide Feed, Track, Enter, Init, Between, Agrees, Execute;
    InitAgrees();
    FeedAgrees(hc, Init(Request), [], pieces);
    var f := Feed(hc, Init(Request), pieces);
    assert [] + f.out == f.out;
    EofIs(hc, f.p, Track(f.out));
  }
}
