/** Callbacks that fail, or pause the parser: where http_parser_execute then stops, and that it goes
    on from there as if it had not. */
module HttpCallbacks {
  import opened HttpTypes
  import opened HttpStep
  import opened HttpRun
  import opened HttpSegments
  import opened HttpBody

  /** What a callback does besides taking the event: return 0, return something else, or call
      http_parser_pause. */
  datatype Reply = Fine | Fails | Pauses

  /** The application: its reply to an event, for the parser that it sees. */
  type Listener = (Parser, Event) -> Reply

  const DEAF: Listener := (p: Parser, e: Event) => Fine

  /** HPE_CB_ and the name of the callback. */
  function Code(e: Event): (code: Errno)
    ensures !code.Ok?
  {
    match e
    case Begin => CbMessageBegin
    case HeadersComplete => CbHeadersComplete
    case Complete => CbMessageComplete
    case Data(k, _) => match k case Url => CbUrl case Field => CbHeaderField case Value => CbHeaderValue case Body => CbBody
  }

  /** The parser after its callback. */
  function Told(p: Parser, e: Event, r: Reply): Parser {
    match r
    case Fine => p
    case Fails => p.(errno := Code(e))
    case Pauses => p.(errno := Paused)
  }

  /** The reply to the callback that leads from `out` to d.out, if there is one. */
  function ReplyTo(cb: Listener, out: seq<Event>, d: Conf): Reply {
    if d.out == out || d.out == [] then Fine else cb(d.p, d.out[|d.out| - 1])
  }

  /** After a callback that was the last one. */
  function Broken(cb: Listener, d: Conf): (e: Conf)
    requires d.out != []
    ensures e.open == d.open && e.out == d.out
  {
    var e := d.out[|d.out| - 1];
    d.(p := Told(d.p, e, cb(d.p, e)))
  }

  lemma ReplyIs(cb: Listener, out: seq<Event>, p: Parser, open: Open, e: Event)
    ensures var d := Conf(p, open, out + [e]);
      ReplyTo(cb, out, d) == cb(p, e) && Broken(cb, d) == Conf(Told(p, e, cb(p, e)), open, out + [e])
  {
    assert |out + [e]| != |out|;
  }

  /** The last byte of a body of known length: on_body, from which the byte is not consumed, and
      on_message_complete. */
  function EndBodyCb(cb: Listener, c: Conf, ch: byte): (Conf, Control) {
    var bytes := if c.open.Open? then c.open.bytes else [];
    var d := Conf(c.p, Closed, c.out + [Data(Body, bytes + [ch])]);
    var e := EndBody(c, ch);
    if ReplyTo(cb, c.out, d) != Fine then (Broken(cb, d), Fail)
    else if ReplyTo(cb, d.out, e) != Fine then (Broken(cb, e), Stop)
    else (e, Next)
  }

  function ReadByteCb(cb: Listener, c: Conf, ch: byte): (Conf, Control)
    requires Reads(c.p.state)
  {
    var d := SetMark(Body, c).(p := CountOff(c.p));
    if d.p.state.MessageDone? then EndBodyCb(cb, d, ch) else (d, Next)
  }

  /** The switch; a callback that does not reply with Fine ends the call, before the byte where it is
      looked at again, behind it elsewhere. */
  function SwitchCb(hc: Decide, cb: Listener, c: Conf, ch: byte): (Conf, Control)
    decreases Rank(c.p.state)
  {
    if Reads(c.p.state) then ReadByteCb(cb, c, ch)
    else
      var o := Pass(hc, c.p, ch);
      var d := Perform(o.act, c.(p := o.p));
      if o.ctl.Fail? then (d, Fail)
      else if ReplyTo(cb, c.out, d) != Fine then (Broken(cb, d), if o.ctl.Again? then Fail else Stop)
      else if o.ctl.Again? then SwitchCb(hc, cb, d, ch)
      else (d, o.ctl)
  }

  function ByteStepCb(hc: Decide, cb: Listener, c: Conf, ch: byte): (Conf, Control) {
    var q := Count(c.p);
    if ParsingHeader(q.state) && q.nread > MAX_HEADER_SIZE then (c.(p := q.(errno := HeaderOverflow)), Fail)
    else
      var (d, ctl) := SwitchCb(hc, cb, c.(p := q), ch);
      if ctl.Next? then (Take(d, ch), ctl) else (d, ctl)
  }

  function RunCb(hc: Decide, cb: Listener, c: Conf, data: seq<byte>): Result
    decreases data
  {
    if data == [] then Result(c, 0, Next)
    else
      var (d, ctl) := ByteStepCb(hc, cb, c, data[0]);
      if ctl.Next? then var r := RunCb(hc, cb, d, data[1..]); r.(consumed := r.consumed + 1)
      else Result(d, if ctl.Stop? then 1 else 0, ctl)
  }

  /** The callback for a mark left over at the end of a buffer. */
  function LeaveCb(cb: Listener, c: Conf): Conf {
    if ReplyTo(cb, c.out, Leave(c)) != Fine then Broken(cb, Leave(c)) else Leave(c)
  }

  function AtEofCb(cb: Listener, p: Parser): Call {
    var x := AtEof(p);
    if x.out == [] then x else Call(Told(x.p, Complete, cb(x.p, Complete)), x.out, x.consumed)
  }

  /** http_parser_execute, with callbacks that may fail or pause the parser. */
  function ExecuteCb(hc: Decide, cb: Listener, p: Parser, data: seq<byte>): Call {
    if !p.errno.Ok? then Call(p, [], 0)
    else if data == [] then AtEofCb(cb, p)
    else
      var r := RunCb(hc, cb, Enter(p, []), data);
      var c := if r.ctl.Next? then LeaveCb(cb, r.conf) else r.conf;
      Call(c.p, c.out, r.consumed)
  }

  // ---- a disturbed run is the beginning of the undisturbed one ----

  predicate Hands(e: Event, k: Kind) {
    e.Data? && e.kind == k
  }

  /** The error names the callback that has failed, or says that the parser is paused. */
  predicate Names(code: Errno, r: Reply, e: Event) {
    && (code.Paused? <==> r.Pauses?)
    && (code.CbMessageBegin? <==> r.Fails? && e.Begin?) && (code.CbMessageComplete? <==> r.Fails? && e.Complete?)
    && (code.CbHeadersComplete? <==> r.Fails? && e.HeadersComplete?)
    && (code.CbUrl? <==> r.Fails? && Hands(e, Url)) && (code.CbBody? <==> r.Fails? && Hands(e, Body))
    && (code.CbHeaderField? <==> r.Fails? && Hands(e, Field)) && (code.CbHeaderValue? <==> r.Fails? && Hands(e, Value))
  }

  lemma ToldNames(p: Parser, e: Event, r: Reply)
    requires r != Fine
    ensures Told(p, e, r) == p.(errno := Told(p, e, r).errno) && Names(Told(p, e, r).errno, r, e)
  {
  }

  /** The parser is as a callback has left it that fails or pauses: nothing but its error is different. */
  ghost predicate LeftBy(cb: Listener, p: Parser, last: Event) {
    exists q: Parser :: cb(q, last) != Fine && p == q.(errno := p.errno) && Names(p.errno, cb(q, last), last)
  }

  /** The last callback of `e` has ended the call, at one of the callbacks in `full`. */
  ghost predicate Ended(cb: Listener, out: seq<Event>, full: seq<Event>, e: Conf) {
    |out| < |e.out| && out <= e.out <= full && LeftBy(cb, e.p, e.out[|e.out| - 1])
  }

  lemma PerformGrows(a: Act, c: Conf)
    ensures c.out <= Perform(a, c).out
  {
  }

  lemma ReadGrows(c: Conf, ch: byte)
    requires Reads(c.p.state)
    ensures c.out <= ReadByte(c, ch).out
  {
  }

  lemma BrokenEnds(cb: Listener, c: Conf, d: Conf, full: seq<Event>)
    requires c.out <= d.out <= full && ReplyTo(cb, c.out, d) != Fine
    ensures Ended(cb, c.out, full, Broken(cb, d))
  {
    var last := d.out[|d.out| - 1];
    assert cb(d.p, last) != Fine && Broken(cb, d).p == Told(d.p, last, cb(d.p, last));
    ToldNames(d.p, last, cb(d.p, last));
  }

  lemma {:induction false} SwitchGrows(hc: Decide, c: Conf, ch: byte)
    ensures c.out <= Switch(hc, c, ch).0.out
    decreases Rank(c.p.state)
  {
    hide Pass, Perform, ReadByte;
    if Reads(c.p.state) {
      ReadGrows(c, ch);
    } else {
      var o := Pass(hc, c.p, ch);
      PerformGrows(o.act, c.(p := o.p));
      if o.ctl.Again? {
        SwitchGrows(hc, Perform(o.act, c.(p := o.p)), ch);
      }
    }
  }

  lemma EndBodyEnds(cb: Listener, c: Conf, ch: byte)
    ensures var (e, k) := EndBodyCb(cb, c, ch);
      (e == EndBody(c, ch) && k.Next?) || (!k.Next? && !k.Again? && Ended(cb, c.out, EndBody(c, ch).out, e))
  {
    hide Told, Code;
    var bytes := if c.open.Open? then c.open.bytes else [];
    var d := Conf(c.p, Closed, c.out + [Data(Body, bytes + [ch])]);
    if ReplyTo(cb, c.out, d) != Fine {
      BrokenEnds(cb, c, d, EndBody(c, ch).out);
    } else if ReplyTo(cb, d.out, EndBody(c, ch)) != Fine {
      BrokenEnds(cb, d, EndBody(c, ch), EndBody(c, ch).out);
    }
  }

  lemma {:induction false} SwitchEnds(hc: Decide, cb: Listener, c: Conf, ch: byte)
    ensures var (d, ctl), (e, k) := Switch(hc, c, ch), SwitchCb(hc, cb, c, ch);
      (e == d && k == ctl) || (!k.Next? && !k.Again? && Ended(cb, c.out, d.out, e))
    decreases Rank(c.p.state)
  {
    hide Pass, Perform, Ended, EndBodyCb, EndBody, Broken, ReplyTo;
    if Reads(c.p.state) {
      EndBodyEnds(cb, SetMark(Body, c).(p := CountOff(c.p)), ch);
    } else {
      var o := Pass(hc, c.p, ch);
      var d := Perform(o.act, c.(p := o.p));
      PerformGrows(o.act, c.(p := o.p));
      SwitchGrows(hc, d, ch);
      if !o.ctl.Fail? && ReplyTo(cb, c.out, d) != Fine {
        BrokenEnds(cb, c, d, if o.ctl.Again? then Switch(hc, d, ch).0.out else d.out);
      } else if o.ctl.Again? {
        SwitchEnds(hc, cb, d, ch);
        EndedEarlier(cb, c.out, d.out, Switch(hc, d, ch).0.out, SwitchCb(hc, cb, d, ch).0);
      }
    }
  }

  lemma EndedEarlier(cb: Listener, out: seq<Event>, more: seq<Event>, full: seq<Event>, e: Conf)
    requires out <= more
    ensures Ended(cb, more, full, e) ==> Ended(cb, out, full, e)
  {
  }

  lemma EndedLater(cb: Listener, out: seq<Event>, full: seq<Event>, more: seq<Event>, e: Conf)
    requires full <= more && Ended(cb, out, full, e)
    ensures Ended(cb, out, more, e)
  {
  }

  lemma ByteStepEnds(hc: Decide, cb: Listener, c: Conf, ch: byte)
    ensures c.out <= ByteStep(hc, c, ch).0.out
    ensures var (d, ctl), (e, k) := ByteStep(hc, c, ch), ByteStepCb(hc, cb, c, ch);
      (e == d && k == ctl) || (!k.Next? && !k.Again? && Ended(cb, c.out, d.out, e))
  {
    hide Switch, SwitchCb, Ended;
    SwitchGrows(hc, c.(p := Count(c.p)), ch);
    SwitchEnds(hc, cb, c.(p := Count(c.p)), ch);
  }

  lemma {:induction false} RunGrows(hc: Decide, c: Conf, data: seq<byte>)
    ensures c.out <= Run(hc, c, data).conf.out
    decreases data
  {
    hide ByteStep, ByteStepCb;
    if data != [] {
      ByteStepEnds(hc, DEAF, c, data[0]);
      RunGrows(hc, ByteStep(hc, c, data[0]).0, data[1..]);
    }
  }

  /** The run with such callbacks is the one without, or it is ended by the first callback that fails
      or pauses, and up to there it is the same. */
  lemma {:induction false} RunEnds(hc: Decide, cb: Listener, c: Conf, data: seq<byte>)
    ensures var r, x := Run(hc, c, data), RunCb(hc, cb, c, data);
      x == r || (!x.ctl.Next? && Ended(cb, c.out, r.conf.out, x.conf))
    decreases data
  {
    hide ByteStep, ByteStepCb, Ended;
    if data != [] {
      ByteStepEnds(hc, cb, c, data[0]);
      var d := ByteStep(hc, c, data[0]).0;
      RunGrows(hc, d, data[1..]);
      if ByteStepCb(hc, cb, c, data[0]) == ByteStep(hc, c, data[0]) {
        RunEnds(hc, cb, d, data[1..]);
        EndedEarlier(cb, c.out, d.out, Run(hc, d, data[1..]).conf.out, RunCb(hc, cb, d, data[1..]).conf);
      } else {
        EndedLater(cb, c.out, d.out, Run(hc, c, data).conf.out, ByteStepCb(hc, cb, c, data[0]).0);
      }
    }
  }

  /** The same of http_parser_execute: with a callback that fails or pauses the parser, the callbacks made
      are the first ones of the undisturbed call, that one is the last of them, and its code is the
      error; otherwise nothing is different. */
  lemma ExecuteEnds(hc: Decide, cb: Listener, p: Parser, data: seq<byte>)
    ensures var x, y := ExecuteCb(hc, cb, p, data), Execute(hc, p, data);
      x == y || Ended(cb, [], y.out, Conf(x.p, Closed, x.out))
  {
    hide Run, RunCb, Ended;
    if p.errno.Ok? {
      if data == [] {
        EofEnds(cb, p);
      } else {
        var c := Enter(p, []);
        RunEnds(hc, cb, c, data);
        var r, x := Run(hc, c, data), RunCb(hc, cb, c, data);
        LeaveEnds(cb, r.conf);
        RunGrows(hc, c, data);
        if x != r {
          EndedLater(cb, [], r.conf.out, Leave(r.conf).out, x.conf);
          EndedOpen(cb, [], r.conf.out, x.conf);
          EndedOpen(cb, [], Leave(r.conf).out, x.conf);
        } else if r.ctl.Next? && LeaveCb(cb, r.conf) != Leave(r.conf) {
          EndedEarlier(cb, [], r.conf.out, Leave(r.conf).out, LeaveCb(cb, r.conf));
          EndedOpen(cb, [], Leave(r.conf).out, LeaveCb(cb, r.conf));
        }
      }
    }
  }

  lemma EofEnds(cb: Listener, p: Parser)
    ensures var x, y := AtEofCb(cb, p), AtEof(p); x == y || Ended(cb, [], y.out, Conf(x.p, Closed, x.out))
  {
    assert [Complete][0] == Complete;
  }

  lemma LeaveEnds(cb: Listener, c: Conf)
    ensures c.out <= Leave(c).out && (LeaveCb(cb, c) == Leave(c) || Ended(cb, c.out, Leave(c).out, LeaveCb(cb, c)))
  {
    hide Ended, Broken;
    if ReplyTo(cb, c.out, Leave(c)) != Fine {
      BrokenEnds(cb, c, Leave(c), Leave(c).out);
    }
  }

  lemma EndedOpen(cb: Listener, out: seq<Event>, full: seq<Event>, e: Conf)
    requires Ended(cb, out, full, e)
    ensures Ended(cb, out, full, Conf(e.p, Closed, e.out))
  {
    hide LeftBy;
  }

  // ---- going on after a pause ----

  /** The parser that is no longer paused, as the next call finds it. */
  function Resumed(c: Conf): Conf {
    Conf(c.p.(errno := Ok), Closed, c.out)
  }

  /** The byte that is looked at again is counted again, if it is counted. */
  function Uncounted(c: Conf): Conf {
    if ParsingHeader(c.p.state) && c.p.nread > 0 then c.(p := c.p.(nread := c.p.nread - 1)) else c
  }

  /** A pass after which the byte is looked at again. */
  ghost predicate Recounts(p: Parser, o: Out) {
    o.ctl.Again? ==>
      && o.p.nread == p.nread && ParsingHeader(p.state) && ParsingHeader(o.p.state)
      && (o.act.Quiet? || o.p.state.HeadersDone? || o.p.state.HeaderAlmostDone?)
  }

  lemma AgainCounts(hc: Decide, p: Parser, ch: byte)
    requires !Reads(p.state)
    ensures Recounts(p, Pass(hc, p, ch))
  {
    hide StartStep, MethodStep, StatusLineStep, UrlStep, RequestLineStep, FieldStep, ValueStep, HeadersStep, ChunkStep,
      Recounts;
    match GroupOf(p.state)
    case GStart => StartCounts(p, ch);
    case GField => FieldCounts(p, ch);
    case GValue => ValueCounts(p, ch);
    case GHeaders => HeadersCount(hc, p);
    case _ => OthersCount(hc, p, ch);
  }

  lemma StartCounts(p: Parser, ch: byte)
    requires GroupOf(p.state).GStart?
    ensures Recounts(p, StartStep(p, ch))
  {
  }

  lemma FieldCounts(p: Parser, ch: byte)
    requires GroupOf(p.state).GField?
    ensures Recounts(p, FieldStep(p, ch))
  {
    hide FieldChar;
  }

  lemma ValueCounts(p: Parser, ch: byte)
    requires GroupOf(p.state).GValue?
    ensures Recounts(p, ValueStep(p, ch))
  {
    hide MoreLength, Match;
  }

  lemma HeadersCount(hc: Decide, p: Parser)
    requires GroupOf(p.state).GHeaders?
    ensures Recounts(p, HeadersStep(hc, p))
  {
  }

  lemma OthersCount(hc: Decide, p: Parser, ch: byte)
    requires !Reads(p.state)
    requires !GroupOf(p.state).GStart? && !GroupOf(p.state).GField? && !GroupOf(p.state).GValue? && !GroupOf(p.state).GHeaders?
    ensures Recounts(p, Pass(hc, p, ch))
  {
    hide StartStep, MethodStep, StatusLineStep, UrlStep, RequestLineStep, FieldStep, ValueStep, HeadersStep, ChunkStep;
  }

  /** A pass with a callback leaves no mark. */
  lemma EventCloses(s: State, a: Act, t: State, c: Conf)
    requires Shape(s, a) && NextMark(s, a, t) && Fits(s, c.open) && Perform(a, c).out != c.out
    ensures Perform(a, c).open.Closed? && MarkOf(t) == NoMark && !a.Quiet?
  {
  }

  lemma ResumedSame(cb: Listener, d: Conf)
    requires d.out != [] && d.p.errno.Ok? && d.open.Closed? && Broken(cb, d).p.errno.Paused?
    ensures Resumed(Broken(cb, d)) == d
  {
  }

  lemma SoundOk(p: Parser)
    requires Sound(p)
    ensures p.errno.Ok?
  {
  }

  /** How the switch goes on after a pause. */
  ghost predicate SwitchGoesOn(hc: Decide, c: Conf, ch: byte, k: Control, d: Conf) {
    && Sound(d.p) && Fits(d.p.state, d.open)
    && if k.Fail? then
         && Switch(hc, c, ch) == Switch(hc, d, ch) && ParsingHeader(d.p.state) == ParsingHeader(c.p.state)
         && d.p.nread == c.p.nread && (d.p.state.HeaderAlmostDone? || d.p.state.HeadersDone? || d.p.state.MessageDone?)
       else
         k.Stop? && Switch(hc, c, ch).0 == d && MarkOf(d.p.state) == NoMark
         && (Switch(hc, c, ch).1.Next? || (Switch(hc, c, ch).1.Stop? && d.p.upgrade))
         && (d.p.state.ChunkSizeStart? ==> d.p.nread == 0)
  }

  lemma DoneAgain(hc: Decide, d: Conf, ch: byte)
    requires d.p.state.MessageDone?
    ensures Switch(hc, d, ch) == (Conf(Done(d.p, Next).p, d.open, d.out + [Complete]), Next)
  {
    hide StartStep, MethodStep, StatusLineStep, UrlStep, RequestLineStep, FieldStep, ValueStep, HeadersStep, ChunkStep;
  }

  /** A body that has come to its end. */
  lemma EndKeeps(c: Conf)
    requires Sound(c.p) && Reads(c.p.state) && CountOff(c.p).state.MessageDone?
    ensures var p := CountOff(c.p);
      && Sound(p) && p.nread == c.p.nread && !ParsingHeader(c.p.state) && !ParsingHeader(p.state)
      && Sound(Done(p, Next).p) && MarkOf(Done(p, Next).p.state) == NoMark && !Done(p, Next).p.state.ChunkSizeStart?
  {
    hide FieldState, ValueState;
  }

  lemma EndBodyGoes(hc: Decide, cb: Listener, c: Conf, ch: byte)
    requires Sound(c.p) && Reads(c.p.state) && Fits(c.p.state, c.open)
    requires ReadByteCb(cb, c, ch).0.p.errno.Paused?
    ensures SwitchGoesOn(hc, c, ch, ReadByteCb(cb, c, ch).1, Resumed(ReadByteCb(cb, c, ch).0))
  {
    hide Sound, Switch, Pass;
    SoundOk(c.p);
    SwitchIs(hc, c, ch);
    EndKeeps(c);
    var d := SetMark(Body, c).(p := CountOff(c.p));
    var bytes := if d.open.Open? then d.open.bytes else [];
    var m := Conf(d.p, Closed, d.out + [Data(Body, bytes + [ch])]);
    DoneAgain(hc, m, ch);
    SoundOk(d.p);
    if ReplyTo(cb, d.out, m) != Fine {
      ResumedSame(cb, m);
    } else {
      ResumedSame(cb, EndBody(d, ch));
    }
  }

  lemma {:induction false} SwitchGoes(hc: Decide, cb: Listener, c: Conf, ch: byte)
    requires Sound(c.p) && Fits(c.p.state, c.open) && SwitchCb(hc, cb, c, ch).0.p.errno.Paused?
    ensures SwitchGoesOn(hc, c, ch, SwitchCb(hc, cb, c, ch).1, Resumed(SwitchCb(hc, cb, c, ch).0))
    decreases Rank(c.p.state)
  {
    hide Pass, Sound, Fits, Perform, ReadByteCb, ReadByte, Shape, NextMark;
    if Reads(c.p.state) {
      EndBodyGoes(hc, cb, c, ch);
    } else {
      var o := Pass(hc, c.p, ch);
      var d := Perform(o.act, c.(p := o.p));
      PassGood(hc, c.p, ch);
      AgainCounts(hc, c.p, ch);
      if !o.ctl.Fail? {
        PerformFits(c.p.state, o.act, o.p.state, c.(p := o.p));
        SoundOk(o.p);
        if ReplyTo(cb, c.out, d) != Fine {
          EventCloses(c.p.state, o.act, o.p.state, c.(p := o.p));
          ResumedSame(cb, d);
        } else if o.ctl.Again? {
          SwitchGoes(hc, cb, d, ch);
        }
      }
    }
  }

  /** A byte at which the parser is paused: either it is consumed, and all is as without the pause, or
      it is looked at again, and then all is as without the pause but that it is counted twice. */
  ghost predicate ByteGoes(hc: Decide, c: Conf, ch: byte, k: Control, d: Conf) {
    && Between(d)
    && if k.Fail? then
         && ByteStep(hc, c, ch) == ByteStep(hc, Uncounted(d), ch)
         && (d.p.state.HeaderAlmostDone? || d.p.state.HeadersDone? || d.p.state.MessageDone?)
       else k.Stop? && ByteStep(hc, c, ch).0 == d
            && (ByteStep(hc, c, ch).1.Next? || (ByteStep(hc, c, ch).1.Stop? && d.p.upgrade))
  }

  lemma ByteStepGoes(hc: Decide, cb: Listener, c: Conf, ch: byte)
    requires Between(c) && ByteStepCb(hc, cb, c, ch).0.p.errno.Paused?
    ensures ByteGoes(hc, c, ch, ByteStepCb(hc, cb, c, ch).1, Resumed(ByteStepCb(hc, cb, c, ch).0))
  {
    hide Switch, SwitchCb, Sound, Fits;
    CountKeeps(c);
    SwitchGoes(hc, cb, c.(p := Count(c.p)), ch);
  }

  /** A pause is transparent: from the parser that is no longer paused and the bytes not consumed, the
      run goes on to where it would have come without the pause, but that a byte that is looked at again
      is counted once more for the header limit, which the model takes back (Uncounted). After a message
      that ends with an upgrade there is nothing to go on with. */
  lemma {:induction false} PauseGoesOn(hc: Decide, cb: Listener, c: Conf, data: seq<byte>)
    requires Between(c) && c.p.errno.Ok? && RunCb(hc, cb, c, data).conf.p.errno.Paused?
    ensures var r, x := Run(hc, c, data), RunCb(hc, cb, c, data);
      var d := Resumed(x.conf);
      && Between(d) && x.consumed <= |data|
      && if x.ctl.Fail? then
           && r == Later(x.consumed, Run(hc, Uncounted(d), data[x.consumed..])) && x.consumed < |data|
           && (d.p.state.HeaderAlmostDone? || d.p.state.HeadersDone? || d.p.state.MessageDone?)
         else
           && x.ctl.Stop?
           && (r == Later(x.consumed, Run(hc, d, data[x.consumed..])) || (d.p.upgrade && r == Result(d, x.consumed, Stop)))
    decreases data
  {
    hide ByteStep, ByteStepCb, Between, Uncounted;
    if data != [] {
      ByteStepEnds(hc, cb, c, data[0]);
      ByteStepKeeps(hc, c, data[0]);
      var (e, k) := ByteStepCb(hc, cb, c, data[0]);
      if k.Next? {
        PauseGoesOn(hc, cb, e, data[1..]);
        var n := RunCb(hc, cb, e, data[1..]).consumed;
        assert data[1..][n..] == data[n + 1..];
      } else {
        ByteStepGoes(hc, cb, c, data[0]);
        assert data[0..] == data;
      }
    }
  }

  /** Past the headers the count is of no account. */
  lemma CountedOnce(hc: Decide, d: Conf, ch: byte)
    requires Sound(d.p) && (d.p.state.MessageDone? || (d.p.state.HeadersDone? && d.p.nread < MAX_HEADER_SIZE))
    ensures ByteStep(hc, d, ch) == ByteStep(hc, Uncounted(d), ch)
  {
    hide Switch, Pass;
    if d.p.state.HeadersDone? {
      DoneSwitch(hc, d.(p := Count(d.p)), ch);
      DoneSwitch(hc, d.(p := Count(Uncounted(d).p)), ch);
      assert Count(d.p).(nread := 0) == Count(Uncounted(d).p).(nread := 0);
    }
  }

  lemma DoneSwitch(hc: Decide, c: Conf, ch: byte)
    requires c.p.state.HeadersDone?
    ensures Switch(hc, c, ch) == Switch(hc, c.(p := c.p.(nread := 0)), ch)
  {
    hide Pass, Perform;
    HeadersPass(hc, c.p, ch);
    HeadersPass(hc, c.p.(nread := 0), ch);
    assert HeadersStep(hc, c.p) == HeadersStep(hc, c.p.(nread := 0));
  }

  /** So the next call goes on exactly as without the pause, unless the pause was in a header value that
      ends with LF alone, or the headers are as long as they may be. */
  lemma PauseExact(hc: Decide, cb: Listener, c: Conf, data: seq<byte>)
    requires Between(c) && c.p.errno.Ok? && RunCb(hc, cb, c, data).conf.p.errno.Paused?
    requires var x := RunCb(hc, cb, c, data);
      x.ctl.Fail? ==> !x.conf.p.state.HeaderAlmostDone? && x.conf.p.nread < MAX_HEADER_SIZE
    ensures var r, x := Run(hc, c, data), RunCb(hc, cb, c, data);
      var d := Resumed(x.conf);
      && x.consumed <= |data|
      && (r == Later(x.consumed, Run(hc, d, data[x.consumed..]))
          || (x.ctl.Stop? && d.p.upgrade && r == Result(d, x.consumed, Stop)))
  {
    hide RunCb, ByteStep, Sound, Uncounted;
    PauseGoesOn(hc, cb, c, data);
    var x := RunCb(hc, cb, c, data);
    if x.ctl.Fail? {
      var rest := data[x.consumed..];
      CountedOnce(hc, Resumed(x.conf), rest[0]);
      assert Run(hc, Uncounted(Resumed(x.conf)), rest) == Run(hc, Resumed(x.conf), rest);
    }
  }

  // ---- the pieces of a run ----

  lemma {:induction false} RunCbAppend(hc: Decide, cb: Listener, c: Conf, a: seq<byte>, b: seq<byte>)
    ensures var r := RunCb(hc, cb, c, a);
      RunCb(hc, cb, c, a + b) == if r.ctl.Next? then Later(|a|, RunCb(hc, cb, r.conf, b)) else r
    decreases a
  {
    hide ByteStepCb;
    if a == [] {
      assert a + b == b;
    } else {
      assert (a + b)[1..] == a[1..] + b && (a + b)[0] == a[0];
      RunCbAppend(hc, cb, ByteStepCb(hc, cb, c, a[0]).0, a[1..], b);
    }
  }

  /** Without a callback nothing can be different. */
  lemma RunCbQuiet(hc: Decide, cb: Listener, c: Conf, data: seq<byte>)
    requires Run(hc, c, data).conf.out == c.out
    ensures RunCb(hc, cb, c, data) == Run(hc, c, data)
  {
    hide Run, RunCb, LeftBy;
    RunEnds(hc, cb, c, data);
  }

  lemma ByteStepCbKeeps(hc: Decide, cb: Listener, c: Conf, ch: byte)
    requires Between(c)
    ensures var (d, ctl) := ByteStepCb(hc, cb, c, ch); ctl.Next? ==> Between(d)
  {
    hide ByteStep, ByteStepCb, Between, Ended;
    ByteStepEnds(hc, cb, c, ch);
    ByteStepKeeps(hc, c, ch);
  }

  // ---- callbacks made earlier do not matter ----

  /** The same with the callbacks `pre` before. */
  function Shifted(c: Conf, pre: seq<Event>): Conf {
    c.(out := pre + c.out)
  }

  lemma ReplyShift(cb: Listener, out: seq<Event>, d: Conf, pre: seq<Event>)
    requires out <= d.out
    ensures ReplyTo(cb, pre + out, Shifted(d, pre)) == ReplyTo(cb, out, d)
    ensures ReplyTo(cb, out, d) != Fine ==> Broken(cb, Shifted(d, pre)) == Shifted(Broken(cb, d), pre)
  {
    if d.out == out {
    } else {
      assert |pre + d.out| != |pre + out|;
      assert (pre + d.out)[|pre + d.out| - 1] == d.out[|d.out| - 1];
    }
  }

  lemma EndBodyCbShift(cb: Listener, c: Conf, pre: seq<Event>, ch: byte)
    ensures var (d, k) := EndBodyCb(cb, c, ch); EndBodyCb(cb, Shifted(c, pre), ch) == (Shifted(d, pre), k)
  {
    hide ReplyTo, Broken;
    var bytes := if c.open.Open? then c.open.bytes else [];
    var d := Conf(c.p, Closed, c.out + [Data(Body, bytes + [ch])]);
    var e := EndBody(c, ch);
    assert pre + c.out + [Data(Body, bytes + [ch])] == pre + d.out;
    assert EndBody(Shifted(c, pre), ch) == Shifted(e, pre) by {
      assert pre + d.out + [Complete] == pre + (d.out + [Complete]);
    }
    ReplyShift(cb, c.out, d, pre);
    ReplyShift(cb, d.out, e, pre);
  }

  lemma {:induction false} SwitchCbShift(hc: Decide, cb: Listener, c: Conf, pre: seq<Event>, ch: byte)
    ensures var (d, k) := SwitchCb(hc, cb, c, ch); SwitchCb(hc, cb, Shifted(c, pre), ch) == (Shifted(d, pre), k)
    decreases Rank(c.p.state)
  {
    hide Pass, Perform, EndBodyCb, ReplyTo, Broken;
    if Reads(c.p.state) {
      EndBodyCbShift(cb, SetMark(Body, c).(p := CountOff(c.p)), pre, ch);
    } else {
      var o := Pass(hc, c.p, ch);
      var d := Perform(o.act, c.(p := o.p));
      PerformShift(o.act, c.(p := o.p), pre);
      PerformGrows(o.act, c.(p := o.p));
      ReplyShift(cb, c.out, d, pre);
      if o.ctl.Again? {
        SwitchCbShift(hc, cb, d, pre, ch);
      }
    }
  }

  lemma ByteStepCbShift(hc: Decide, cb: Listener, c: Conf, pre: seq<Event>, ch: byte)
    ensures var (d, k) := ByteStepCb(hc, cb, c, ch); ByteStepCb(hc, cb, Shifted(c, pre), ch) == (Shifted(d, pre), k)
  {
    hide SwitchCb;
    SwitchCbShift(hc, cb, c.(p := Count(c.p)), pre, ch);
  }

  lemma {:induction false} RunCbShift(hc: Decide, cb: Listener, c: Conf, pre: seq<Event>, data: seq<byte>)
    ensures var r := RunCb(hc, cb, c, data);
      RunCb(hc, cb, Shifted(c, pre), data) == r.(conf := Shifted(r.conf, pre))
    decreases data
  {
    hide ByteStepCb;
    if data != [] {
      ByteStepCbShift(hc, cb, c, pre, data[0]);
      if ByteStepCb(hc, cb, c, data[0]).1.Next? {
        RunCbShift(hc, cb, ByteStepCb(hc, cb, c, data[0]).0, pre, data[1..]);
      }
    }
  }

  lemma LeaveCbShift(cb: Listener, c: Conf, pre: seq<Event>)
    ensures LeaveCb(cb, Shifted(c, pre)) == Shifted(LeaveCb(cb, c), pre)
  {
    hide ReplyTo, Broken;
    assert forall e: Event :: pre + c.out + [e] == pre + (c.out + [e]);
    ReplyShift(cb, c.out, Leave(c), pre);
  }

  // ---- a body read in bulk ----

  /** A body, or the piece of it that there is, with its callbacks. */
  function BodyCb(cb: Listener, c: Conf, data: seq<byte>): (Conf, Control)
    requires Counted(c.p.state) && 0 < |data| <= c.p.contentLength
  {
    var d := AfterBody(c, data);
    var m := Conf(c.p.(contentLength := 0, state := MessageDone), Closed, c.out + [Data(Body, Held(c) + data)]);
    if |data| < c.p.contentLength || c.p.state.ChunkData? then (d, Next)
    else if ReplyTo(cb, c.out, m) != Fine then (Broken(cb, m), Fail)
    else if ReplyTo(cb, m.out, d) != Fine then (Broken(cb, d), Stop)
    else (d, Next)
  }

  function BodyTaken(n: nat, k: Control): nat
    requires n > 0
  {
    if k.Fail? then n - 1 else n
  }

  lemma LastByteCb(hc: Decide, cb: Listener, c: Conf, ch: byte)
    requires Counted(c.p.state) && Fits(c.p.state, c.open) && 0 < c.p.contentLength
    ensures ByteStepCb(hc, cb, c, ch) == BodyCb(cb, c, [ch])
  {
    hide ReplyTo, Broken;
    var m := Conf(c.p.(contentLength := 0, state := MessageDone), Closed, c.out + [Data(Body, Held(c) + [ch])]);
    BodyByte(hc, c, ch);
    assert c.out + [Data(Body, Held(c) + [ch])] + [Complete] == c.out + [Data(Body, Held(c) + [ch]), Complete];
  }

  lemma OneByteCb(hc: Decide, cb: Listener, c: Conf, ch: byte)
    ensures var (d, k) := ByteStepCb(hc, cb, c, ch);
      RunCb(hc, cb, c, [ch]) == Result(d, if k.Next? || k.Stop? then 1 else 0, k)
  {
    hide ByteStepCb;
    assert [ch][1..] == [];
  }

  /** All but the last byte first. */
  lemma BodyCbMore(cb: Listener, c: Conf, a: seq<byte>, ch: byte)
    requires Counted(c.p.state) && Fits(c.p.state, c.open) && a != [] && |a| + 1 <= c.p.contentLength
    ensures var d := AfterBody(c, a);
      && d.out == c.out && Counted(d.p.state) && Fits(d.p.state, d.open) && 0 < d.p.contentLength
      && BodyCb(cb, d, [ch]) == BodyCb(cb, c, a + [ch])
  {
    hide ReplyTo, Broken;
    assert Held(AfterBody(c, a)) + [ch] == Held(c) + (a + [ch]);
  }

  lemma BodyRunCb(hc: Decide, cb: Listener, c: Conf, data: seq<byte>)
    requires Counted(c.p.state) && Fits(c.p.state, c.open) && 0 < |data| <= c.p.contentLength
    ensures var (d, k) := BodyCb(cb, c, data);
      RunCb(hc, cb, c, data) == Result(d, BodyTaken(|data|, k), k) && !k.Again?
  {
    hide Run, RunCb, ByteStepCb, BodyCb, AfterBody, Fits;
    var a, ch := data[..|data| - 1], data[|data| - 1];
    assert data == a + [ch];
    if a == [] {
      assert data == [ch];
      LastByteCb(hc, cb, c, ch);
      OneByteCb(hc, cb, c, ch);
    } else {
      BodyRun(hc, c, a);
      BodyCbMore(cb, c, a, ch);
      RunCbQuiet(hc, cb, c, a);
      RunCbAppend(hc, cb, c, a, [ch]);
      var d := AfterBody(c, a);
      LastByteCb(hc, cb, d, ch);
      OneByteCb(hc, cb, d, ch);
    }
    BodyCtl(cb, c, data);
  }

  lemma BodyCtl(cb: Listener, c: Conf, data: seq<byte>)
    requires Counted(c.p.state) && 0 < |data| <= c.p.contentLength
    ensures !BodyCb(cb, c, data).1.Again?
  {
  }
}
