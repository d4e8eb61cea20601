/** Feeding bytes one at a time: the reference for the buffer loop of
    http_parser_execute, and what it keeps true in every reachable state. */
module HttpRun {
  import opened HttpTypes
  import opened HttpStep

  /** The mark that is set, with the bytes since; at most one is (see `Fits`). */
  datatype Open = Closed | Open(kind: Kind, bytes: seq<byte>)

  /** A parser inside a buffer: the open mark and the callbacks made so far. */
  datatype Conf = Conf(p: Parser, open: Open, out: seq<Event>)

  function SetMark(k: Kind, c: Conf): Conf {
    if c.open.Closed? then c.(open := Open(k, [])) else c
  }

  function FlushMark(k: Kind, c: Conf): Conf {
    if c.open.Open? && c.open.kind == k then c.(open := Closed, out := c.out + [Data(k, c.open.bytes)]) else c
  }

  function Perform(a: Act, c: Conf): (d: Conf)
    ensures d.p == c.p
  {
    match a
    case Quiet => c
    case Mark(k) => SetMark(k, c)
    case Flush(k) => FlushMark(k, c)
    case Touch(k) => FlushMark(k, SetMark(k, c))
    case Notify(e) => c.(out := c.out + [e])
  }

  /** A body byte counted off. */
  function CountOff(p: Parser): Parser {
    var left := if p.contentLength > 0 then p.contentLength - 1 else 0;
    if p.state.BodyIdentityEof? then p
    else if left > 0 then p.(contentLength := left)
    else p.(contentLength := 0, state := if p.state.ChunkData? then ChunkDataAlmostDone else MessageDone)
  }

  /** The last byte of a body of known length: the data callback takes it in, and the same
      byte is looked at again to end the message. */
  function EndBody(c: Conf, ch: byte): Conf {
    var bytes := if c.open.Open? then c.open.bytes else [];
    var o := Done(c.p, Next);
    Perform(o.act, Conf(o.p, Closed, c.out + [Data(Body, bytes + [ch])]))
  }

  /** The states that take body bytes. */
  function ReadByte(c: Conf, ch: byte): Conf
    requires Reads(c.p.state)
  {
    var d := SetMark(Body, c).(p := CountOff(c.p));
    if d.p.state.MessageDone? then EndBody(d, ch) else d
  }

  /** The switch, with `goto reexecute_byte`. */
  function Switch(hc: Decide, c: Conf, ch: byte): (Conf, Control)
    decreases Rank(c.p.state)
  {
    if Reads(c.p.state) then (ReadByte(c, ch), Next)
    else
      var o := Pass(hc, c.p, ch);
      var d := Perform(o.act, c.(p := o.p));
      if o.ctl.Again? then Switch(hc, d, ch) else (d, o.ctl)
  }

  function Count(p: Parser): Parser {
    if ParsingHeader(p.state) then p.(nread := p.nread + 1) else p
  }

  /** The byte just read joins the open mark. */
  function Take(c: Conf, ch: byte): Conf {
    if c.open.Open? then c.(open := Open(c.open.kind, c.open.bytes + [ch])) else c
  }

  /** One turn of the loop over the buffer. */
  function ByteStep(hc: Decide, c: Conf, ch: byte): (Conf, Control) {
    var q := Count(c.p);
    if ParsingHeader(q.state) && q.nread > MAX_HEADER_SIZE then (c.(p := q.(errno := HeaderOverflow)), Fail)
    else
      var (d, ctl) := Switch(hc, c.(p := q), ch);
      if ctl.Next? then (Take(d, ch), ctl) else (d, ctl)
  }

  // ---- the part of the switch for a state ----

  lemma FieldPass(hc: Decide, p: Parser, ch: byte)
    requires GroupOf(p.state).GField?
    ensures !Reads(p.state) && Pass(hc, p, ch) == FieldStep(p, ch)
  {
    hide StartStep, MethodStep, StatusLineStep, UrlStep, RequestLineStep, FieldStep, ValueStep, HeadersStep, ChunkStep;
  }

  lemma ValuePass(hc: Decide, p: Parser, ch: byte)
    requires GroupOf(p.state).GValue?
    ensures !Reads(p.state) && Pass(hc, p, ch) == ValueStep(p, ch)
  {
    hide StartStep, MethodStep, StatusLineStep, UrlStep, RequestLineStep, FieldStep, ValueStep, HeadersStep, ChunkStep;
  }

  lemma HeadersPass(hc: Decide, p: Parser, ch: byte)
    requires GroupOf(p.state).GHeaders?
    ensures !Reads(p.state) && Pass(hc, p, ch) == HeadersStep(hc, p)
  {
    hide StartStep, MethodStep, StatusLineStep, UrlStep, RequestLineStep, FieldStep, ValueStep, HeadersStep, ChunkStep;
  }

  lemma ChunkPass(hc: Decide, p: Parser, ch: byte)
    requires InChunk(p.state)
    ensures !Reads(p.state) && Pass(hc, p, ch) == ChunkStep(p, ch)
  {
    hide StartStep, MethodStep, StatusLineStep, UrlStep, RequestLineStep, FieldStep, ValueStep, HeadersStep, ChunkStep;
  }

  /** A byte that takes one pass of the switch. */
  lemma OnePass(hc: Decide, c: Conf, ch: byte)
    requires !Reads(c.p.state) && (!ParsingHeader(c.p.state) || c.p.nread < MAX_HEADER_SIZE)
    ensures var o := Pass(hc, Count(c.p), ch);
      o.ctl.Next? ==> ByteStep(hc, c, ch) == (Take(Perform(o.act, c.(p := o.p)), ch), Next)
  {
  }

  /** A byte that takes two passes. */
  lemma TwoPasses(hc: Decide, c: Conf, ch: byte)
    requires !Reads(c.p.state) && (!ParsingHeader(c.p.state) || c.p.nread < MAX_HEADER_SIZE)
    requires Pass(hc, Count(c.p), ch).ctl.Again?
    ensures var o := Pass(hc, Count(c.p), ch);
      var u := Pass(hc, o.p, ch);
      u.ctl.Next? ==>
        ByteStep(hc, c, ch) == (Take(Perform(u.act, Perform(o.act, c.(p := o.p)).(p := u.p)), ch), Next)
  {
    var o := Pass(hc, Count(c.p), ch);
    var d := Perform(o.act, c.(p := o.p));
    var u := Pass(hc, o.p, ch);
    hide Pass, Perform;
    if u.ctl.Next? {
      assert Switch(hc, d, ch) == (Perform(u.act, d.(p := u.p)), Next);
    }
  }

  datatype Result = Result(conf: Conf, consumed: nat, ctl: Control)

  function Run(hc: Decide, c: Conf, data: seq<byte>): Result
    decreases data
  {
    if data == [] then Result(c, 0, Next)
    else
      var (d, ctl) := ByteStep(hc, c, data[0]);
      if ctl.Next? then var r := Run(hc, d, data[1..]); r.(consumed := r.consumed + 1)
      else Result(d, if ctl.Stop? then 1 else 0, ctl)
  }

  /** What is left of the run from position i on. */
  function Later(i: nat, r: Result): Result {
    r.(consumed := i + r.consumed)
  }

  lemma {:induction false} RunAppend(hc: Decide, c: Conf, a: seq<byte>, b: seq<byte>)
    ensures var r := Run(hc, c, a);
      Run(hc, c, a + b) ==
        if r.ctl.Next? then var t := Run(hc, r.conf, b); t.(consumed := |a| + t.consumed) else r
    ensures Run(hc, c, a).ctl.Next? ==> Run(hc, c, a).consumed == |a|
    decreases a
  {
    if a == [] {
      assert a + b == b;
    } else {
      assert (a + b)[1..] == a[1..] + b && (a + b)[0] == a[0];
      RunAppend(hc, ByteStep(hc, c, a[0]).0, a[1..], b);
    }
  }

  lemma RunStep(hc: Decide, c: Conf, d: Conf, data: seq<byte>)
    requires data != [] && ByteStep(hc, c, data[0]) == (d, Next)
    ensures var r := Run(hc, d, data[1..]); Run(hc, c, data) == r.(consumed := r.consumed + 1)
    ensures |data| == 1 ==> Run(hc, c, data) == Result(d, 1, Next)
  {
    if |data| == 1 {
      assert data[1..] == [];
    }
  }

  lemma RunMore(hc: Decide, c: Conf, a: seq<byte>, d: Conf, ch: byte, e: Conf)
    requires Run(hc, c, a) == Result(d, |a|, Next) && ByteStep(hc, d, ch) == (e, Next)
    ensures Run(hc, c, a + [ch]) == Result(e, |a| + 1, Next)
  {
    RunAppend(hc, c, a, [ch]);
    RunStep(hc, d, e, [ch]);
  }

  // ---- invariants between bytes ----

  /** Which mark a state goes with. */
  datatype Slot = NoMark | Has(kind: Kind)

  function MarkOf(s: State): Slot {
    if InUrl(s) then Has(Url)
    else if s.HeaderField? then Has(Field)
    else if s.HeaderValue? then Has(Value)
    else if Reads(s) || s.ChunkDataAlmostDone? then Has(Body)
    else NoMark
  }

  /** At most one mark is set, and it is the one of the state; the body mark may be unset. */
  ghost predicate Fits(s: State, o: Open) {
    match MarkOf(s)
    case NoMark => o.Closed?
    case Has(k) => if o.Closed? then k == Body else o.kind == k
  }

  predicate FieldState(p: Parser) {
    match p.headerState
    case HGeneral => true
    case HC => p.index == 0
    case HCO => p.index == 1
    case HCON => p.index == 2
    case MConnection => p.index + 1 < 10  // |"connection"|
    case MProxyConnection => p.index + 1 < 16  // |"proxy-connection"|
    case MContentLength => p.index + 1 < 14  // |"content-length"|
    case MTransferEncoding => p.index + 1 < 17  // |"transfer-encoding"|
    case MUpgrade => p.index + 1 < 7  // |"upgrade"|
    case HConnection => true
    case HContentLength => true
    case HTransferEncoding => true
    case HUpgrade => true
    case _ => false
  }

  predicate ValueState(p: Parser) {
    match p.headerState
    case HGeneral => true
    case HContentLength => p.contentLength < NO_LENGTH
    case MChunked => p.index + 1 < 7  // |"chunked"|
    case MKeepAlive => p.index + 1 < 10  // |"keep-alive"|
    case MClose => p.index + 1 < 5  // |"close"|
    case HChunked => true
    case HKeepAlive => true
    case HClose => true
    case _ => false
  }

  predicate ChunkState(s: State) {
    InChunk(s) || s.ChunkData?
  }

  /** What the asserts inside the switch rely on. */
  predicate Sound(p: Parser) {
    && p.errno.Ok? && p.contentLength <= NO_LENGTH
    && (p.state.HeaderField? ==> FieldState(p))
    && (p.state.HeaderValue? ==> ValueState(p))
    && (ChunkState(p.state) ==> p.flags.chunked && (p.state.ChunkSizeStart? || p.contentLength < NO_LENGTH))
    && (p.state.ChunkData? || p.state.BodyIdentity? ==> 0 < p.contentLength < NO_LENGTH)
    && (p.state.ChunkDataAlmostDone? ==> p.contentLength == 0)
  }

  /** What a pass may do about callbacks, by the mark of the state it starts in. */
  ghost predicate Shape(s: State, a: Act) {
    match MarkOf(s)
    case NoMark => !a.Flush? && (a.Notify? ==> !a.event.Data?)
    case Has(k) => a == Quiet || a == Flush(k)
  }

  /** The mark of the state that follows. */
  ghost predicate NextMark(s: State, a: Act, t: State) {
    match a
    case Quiet => MarkOf(t) == MarkOf(s) || (MarkOf(s) == NoMark && MarkOf(t) == Has(Body))
    case Mark(k) => MarkOf(t) == Has(k) && k != Body
    case _ => MarkOf(t) == NoMark
  }

  ghost predicate Good(p: Parser, o: Out) {
    && (o.ctl.Fail? <==> !o.p.errno.Ok?) && !o.p.errno.Paused?
    && (o.ctl.Fail? ==> !o.act.Flush? && !o.act.Touch?)
    && (!o.ctl.Fail? ==> Shape(p.state, o.act) && NextMark(p.state, o.act, o.p.state))
    && (o.ctl.Next? ==> Sound(o.p) && (o.p.state.ChunkSizeStart? ==> o.p.nread == 0))
    && (o.ctl.Stop? ==> Sound(o.p) && o.p.upgrade && MarkOf(o.p.state) == NoMark && !o.p.state.ChunkSizeStart?)
    && (o.ctl.Again? ==> Sound(o.p) && (o.p.upgrade ==> p.upgrade || o.p.state.HeadersDone?))
    && (o.ctl.Next? ==> o.p.upgrade ==> p.upgrade && !p.state.HeadersDone?)
    && (o.p.state.ReqMethod? ==> GroupOf(p.state).GStart? || p.state.ReqMethod?)
  }

  lemma StartResGood(p: Parser, ch: byte)
    requires Sound(p) && (p.state.Dead? || p.state.StartReqOrRes? || p.state.ResOrRespH? || p.state.StartRes?)
    ensures Good(p, StartStep(p, ch))
  {
    hide FieldState, ValueState;
  }

  lemma StartReqGood(p: Parser, ch: byte)
    requires Sound(p) && (p.state.StartReq?)
    ensures Good(p, StartStep(p, ch))
  {
    hide FieldState, ValueState;
  }

  lemma MethodGood(p: Parser, ch: byte)
    requires Sound(p) && p.state.ReqMethod?
    ensures Good(p, MethodStep(p, ch))
  {
    hide FieldState, ValueState;
  }

  lemma StatusWordGood(p: Parser, ch: byte)
    requires Sound(p) && (p.state.ResH? || p.state.ResHT? || p.state.ResHTT? || p.state.ResHTTP? || p.state.ResStatus? || p.state.ResLineAlmostDone?)
    ensures Good(p, StatusLineStep(p, ch))
  {
    hide FieldState, ValueState;
  }

  lemma StatusVersionGood(p: Parser, ch: byte)
    requires Sound(p) && (p.state.ResFirstMajor? || p.state.ResMajor? || p.state.ResFirstMinor? || p.state.ResMinor?)
    ensures Good(p, StatusLineStep(p, ch))
  {
    hide FieldState, ValueState;
  }

  lemma StatusCodeGood(p: Parser, ch: byte)
    requires Sound(p) && (p.state.ResFirstStatus? || p.state.ResStatusCode?)
    ensures Good(p, StatusLineStep(p, ch))
  {
    hide FieldState, ValueState;
  }

  lemma RequestWordGood(p: Parser, ch: byte)
    requires Sound(p) && (p.state.HttpH? || p.state.HttpHT? || p.state.HttpHTT? || p.state.HttpHTTP?)
    ensures Good(p, RequestLineStep(p, ch))
  {
    hide FieldState, ValueState;
  }

  lemma RequestEdgeGood(p: Parser, ch: byte)
    requires Sound(p) && (p.state.HttpStart? || p.state.ReqLineAlmostDone?)
    ensures Good(p, RequestLineStep(p, ch))
  {
    hide FieldState, ValueState;
  }

  lemma RequestVersionGood(p: Parser, ch: byte)
    requires Sound(p) && (p.state.ReqFirstMajor? || p.state.ReqMajor? || p.state.ReqFirstMinor? || p.state.ReqMinor?)
    ensures Good(p, RequestLineStep(p, ch))
  {
    hide FieldState, ValueState;
  }

  lemma FieldStartGood(p: Parser, ch: byte)
    requires Sound(p) && p.state.HeaderFieldStart?
    ensures Good(p, FieldStep(p, ch))
  {
    hide FieldChar, ValueState;
  }

  lemma FieldCharSound(p: Parser, ch: byte)
    requires FieldState(p)
    ensures var q := FieldChar(p, ch, Token(ch)); FieldState(q) && q == p.(index := q.index, headerState := q.headerState)
  {
  }

  lemma FieldGood(p: Parser, ch: byte)
    requires Sound(p) && p.state.HeaderField?
    ensures Good(p, FieldStep(p, ch))
  {
    hide FieldChar, FieldState, ValueState;
    FieldCharSound(p, ch);
  }

  /** What one more byte of a value leaves. */
  ghost predicate ValueOut(p: Parser, o: Out) {
    && o.act == Quiet && o.p.upgrade == p.upgrade && o.p.state.HeaderValue?
    && if o.ctl.Fail? then !o.p.errno.Ok? && !o.p.errno.Paused? else o.ctl.Next? && Sound(o.p)
  }

  lemma LengthCharSound(p: Parser, ch: byte)
    requires Sound(p) && p.state.HeaderValue? && p.headerState.HContentLength?
    ensures ValueOut(p, ValueChar(p, ch))
  {
    hide FieldState, Match;
  }

  lemma MatchKeeps(p: Parser, word: string, c: byte, ok: HeaderState)
    requires p.index + 1 < |word|
    ensures var q := Match(p, word, c, ok);
      && q == p.(index := p.index + 1, headerState := q.headerState)
      && (q.headerState.HGeneral? || q.headerState == ok || (q.headerState == p.headerState && q.index + 1 < |word|))
  {
  }

  lemma WordCharSound(p: Parser, ch: byte)
    requires Sound(p) && p.state.HeaderValue? && !p.headerState.HContentLength?
    ensures ValueOut(p, ValueChar(p, ch))
  {
    hide FieldState, MoreLength, Match;
    match p.headerState
    case MChunked => MatchKeeps(p, "chunked", Lower(ch), HChunked);
    case MKeepAlive => MatchKeeps(p, "keep-alive", Lower(ch), HKeepAlive);
    case MClose => MatchKeeps(p, "close", Lower(ch), HClose);
    case _ =>
  }

  lemma ValueCharSound(p: Parser, ch: byte)
    requires Sound(p) && p.state.HeaderValue?
    ensures ValueOut(p, ValueChar(p, ch))
  {
    hide Sound, ValueChar;
    if p.headerState.HContentLength? {
      LengthCharSound(p, ch);
    } else {
      WordCharSound(p, ch);
    }
  }

  lemma FirstValueCharSound(p: Parser, ch: byte)
    requires Sound(p) && p.state.HeaderValueStart?
    ensures var o := FirstValueChar(p.(index := 0), ch);
      && o.act == Quiet && (o.p.state.HeaderValue? || o.p.state.HeaderValueStart?) && o.p.upgrade == p.upgrade
      && if o.ctl.Fail? then !o.p.errno.Ok? && !o.p.errno.Paused? else o.ctl.Next? && Sound(o.p) && o.p.state.HeaderValue?
  {
  }

  lemma ValueStartGood(p: Parser, ch: byte)
    requires Sound(p) && p.state.HeaderValueStart?
    ensures Good(p, ValueStep(p, ch))
  {
    hide FieldState, FirstValueChar, ValueChar;
    FirstValueCharSound(p, ch);
  }

  lemma ValueGood(p: Parser, ch: byte)
    requires Sound(p) && p.state.HeaderValue?
    ensures Good(p, ValueStep(p, ch))
  {
    hide FieldState, ValueState, ValueChar, FirstValueChar;
    ValueCharSound(p, ch);
  }

  lemma ValueEndGood(p: Parser, ch: byte)
    requires Sound(p) && (p.state.HeaderAlmostDone? || p.state.HeaderValueLws?)
    ensures Good(p, ValueStep(p, ch))
  {
    hide FieldState, ValueState, FirstValueChar, ValueChar;
  }

  lemma ChunkSizeGood(p: Parser, ch: byte)
    requires Sound(p) && (p.state.ChunkSizeStart? || p.state.ChunkSize?)
    ensures Good(p, ChunkStep(p, ch))
  {
    hide FieldState, ValueState;
  }

  lemma ChunkLineGood(p: Parser, ch: byte)
    requires Sound(p) && (p.state.ChunkParameters? || p.state.ChunkSizeAlmostDone?)
    ensures Good(p, ChunkStep(p, ch))
  {
    hide FieldState, ValueState;
  }

  lemma ChunkEndGood(p: Parser, ch: byte)
    requires Sound(p) && (p.state.ChunkDataAlmostDone? || p.state.ChunkDataDone?)
    ensures Good(p, ChunkStep(p, ch))
  {
    hide FieldState, ValueState;
  }

  lemma UrlCharStays(s: State, ch: byte)
    ensures var t := UrlChar(s, ch); t.Dead? || InUrl(t)
  {
  }

  lemma UrlStartGood(p: Parser, ch: byte)
    requires Sound(p) && p.state.SpacesBeforeUrl?
    ensures Good(p, UrlStep(p, ch))
  {
    hide FieldState, ValueState, UrlChar;
    UrlCharStays(p.state, ch);
    UrlCharStays(HostStart, ch);
  }

  lemma UrlGood(p: Parser, ch: byte)
    requires Sound(p) && InUrl(p.state)
    ensures Good(p, UrlStep(p, ch))
  {
    hide FieldState, ValueState, UrlChar;
    UrlCharStays(p.state, ch);
  }

  lemma HeadersGood(hc: Decide, p: Parser)
    requires Sound(p) && (p.state.HeadersAlmostDone? || p.state.HeadersDone?)
    ensures Good(p, HeadersStep(hc, p))
  {
    hide FieldState, ValueState;
  }

  lemma DoneGood(hc: Decide, p: Parser, ch: byte)
    requires Sound(p) && p.state.MessageDone?
    ensures !Reads(p.state) && Good(p, Pass(hc, p, ch))
  {
    hide StartStep, MethodStep, StatusLineStep, UrlStep, RequestLineStep, FieldStep, ValueStep, HeadersStep, ChunkStep;
  }

  lemma StatusLineGood(p: Parser, ch: byte)
    requires Sound(p) && InStatusLine(p.state)
    ensures Good(p, StatusLineStep(p, ch))
  {
    if p.state.ResFirstMajor? || p.state.ResMajor? || p.state.ResFirstMinor? || p.state.ResMinor? {
      StatusVersionGood(p, ch);
    } else if p.state.ResFirstStatus? || p.state.ResStatusCode? {
      StatusCodeGood(p, ch);
    } else {
      StatusWordGood(p, ch);
    }
  }

  lemma RequestLineGood(p: Parser, ch: byte)
    requires Sound(p) && InRequestLine(p.state)
    ensures Good(p, RequestLineStep(p, ch))
  {
    if p.state.ReqFirstMajor? || p.state.ReqMajor? || p.state.ReqFirstMinor? || p.state.ReqMinor? {
      RequestVersionGood(p, ch);
    } else if p.state.HttpStart? || p.state.ReqLineAlmostDone? {
      RequestEdgeGood(p, ch);
    } else {
      RequestWordGood(p, ch);
    }
  }

  lemma ChunkGood(p: Parser, ch: byte)
    requires Sound(p) && InChunk(p.state)
    ensures Good(p, ChunkStep(p, ch))
  {
    if p.state.ChunkSizeStart? || p.state.ChunkSize? {
      ChunkSizeGood(p, ch);
    } else if p.state.ChunkParameters? || p.state.ChunkSizeAlmostDone? {
      ChunkLineGood(p, ch);
    } else {
      ChunkEndGood(p, ch);
    }
  }

  lemma ValueGroupGood(p: Parser, ch: byte)
    requires Sound(p) && GroupOf(p.state).GValue?
    ensures Good(p, ValueStep(p, ch))
  {
    if p.state.HeaderValueStart? {
      ValueStartGood(p, ch);
    } else if p.state.HeaderValue? {
      ValueGood(p, ch);
    } else {
      ValueEndGood(p, ch);
    }
  }

  lemma UrlGroupGood(p: Parser, ch: byte)
    requires Sound(p) && GroupOf(p.state).GUrl?
    ensures Good(p, UrlStep(p, ch))
  {
    if p.state.SpacesBeforeUrl? {
      UrlStartGood(p, ch);
    } else {
      UrlGood(p, ch);
    }
  }

  lemma StartGroupGood(p: Parser, ch: byte)
    requires Sound(p) && GroupOf(p.state).GStart?
    ensures Good(p, StartStep(p, ch))
  {
    if p.state.StartReq? {
      StartReqGood(p, ch);
    } else {
      StartResGood(p, ch);
    }
  }

  lemma FieldGroupGood(p: Parser, ch: byte)
    requires Sound(p) && GroupOf(p.state).GField?
    ensures Good(p, FieldStep(p, ch))
  {
    if p.state.HeaderField? {
      FieldGood(p, ch);
    } else {
      FieldStartGood(p, ch);
    }
  }

  /** Every pass of the switch keeps the invariant and at most one mark. */
  lemma PassGood(hc: Decide, p: Parser, ch: byte)
    requires Sound(p) && !Reads(p.state)
    ensures Good(p, Pass(hc, p, ch))
  {
    match GroupOf(p.state)
    case GStart => StartGroupGood(p, ch);
    case GMethod => MethodGood(p, ch);
    case GStatusLine => StatusLineGood(p, ch);
    case GUrl => UrlGroupGood(p, ch);
    case GRequestLine => RequestLineGood(p, ch);
    case GField => FieldGroupGood(p, ch);
    case GValue => ValueGroupGood(p, ch);
    case GHeaders => HeadersGood(hc, p);
    case GDone => DoneGood(hc, p, ch);
    case _ => ChunkGood(p, ch);
  }

  /** What holds between two bytes. */
  ghost predicate Between(c: Conf) {
    Sound(c.p) && Fits(c.p.state, c.open) && (c.p.state.ChunkSizeStart? ==> c.p.nread == 0)
  }

  lemma PerformFits(s: State, a: Act, t: State, c: Conf)
    requires Shape(s, a) && NextMark(s, a, t) && Fits(s, c.open)
    ensures Fits(t, Perform(a, c).open)
  {
  }

  lemma ReadByteKeeps(c: Conf, ch: byte)
    requires Sound(c.p) && Reads(c.p.state) && Fits(c.p.state, c.open)
    ensures Between(ReadByte(c, ch))
  {
    hide FieldState, ValueState;
  }

  lemma {:induction false} SwitchKeeps(hc: Decide, c: Conf, ch: byte)
    requires Sound(c.p) && Fits(c.p.state, c.open)
    ensures var (d, ctl) := Switch(hc, c, ch);
      && (ctl.Next? ==> Between(d) && (d.p.upgrade ==> c.p.upgrade && !c.p.state.HeadersDone?))
      && (ctl.Stop? ==> Between(d) && d.p.upgrade && d.open.Closed?)
      && (ctl.Fail? <==> !d.p.errno.Ok?) && !ctl.Again?
    decreases Rank(c.p.state)
  {
    if Reads(c.p.state) {
      ReadByteKeeps(c, ch);
    } else {
      var o := Pass(hc, c.p, ch);
      PassGood(hc, c.p, ch);
      if !o.ctl.Fail? {
        PerformFits(c.p.state, o.act, o.p.state, c.(p := o.p));
      }
      if o.ctl.Again? {
        SwitchKeeps(hc, Perform(o.act, c.(p := o.p)), ch);
      }
    }
  }

  lemma CountKeeps(c: Conf)
    requires Between(c)
    ensures Sound(Count(c.p)) && Count(c.p).state == c.p.state
    ensures c.p.state.ChunkSizeStart? ==> Count(c.p).nread == 1
  {
  }

  lemma ByteStepKeeps(hc: Decide, c: Conf, ch: byte)
    requires Between(c)
    ensures var (d, ctl) := ByteStep(hc, c, ch);
      && (ctl.Next? ==> Between(d) && (d.p.upgrade ==> c.p.upgrade))
      && (ctl.Stop? ==> Between(d) && d.p.upgrade && d.open.Closed?)
      && (ctl.Fail? <==> !d.p.errno.Ok?) && !ctl.Again?
  {
    CountKeeps(c);
    SwitchKeeps(hc, c.(p := Count(c.p)), ch);
  }

  /** In every state that any input leads to, the asserts of the switch hold: the header
      matcher is in a state that is handled there, a body length is neither zero nor
      "none", and at most one mark is set. */
  lemma {:induction false} RunKeeps(hc: Decide, c: Conf, data: seq<byte>)
    requires Between(c)
    ensures var r := Run(hc, c, data);
      && (r.ctl.Next? ==> Between(r.conf) && (r.conf.p.upgrade ==> c.p.upgrade))
      && (r.ctl.Stop? ==> Between(r.conf) && r.conf.p.upgrade && r.conf.open.Closed?)
      && (r.ctl.Fail? <==> !r.conf.p.errno.Ok?) && !r.ctl.Again?
    decreases data
  {
    if data != [] {
      ByteStepKeeps(hc, c, data[0]);
      var (d, ctl) := ByteStep(hc, c, data[0]);
      if ctl.Next? {
        RunKeeps(hc, d, data[1..]);
      }
    }
  }

  lemma InitBetween(t: MessageType)
    ensures Between(Conf(Init(t), Closed, []))
  {
  }

  // ---- the method table ----

  /** The index into the method name stays within it, terminating zero included. */
  predicate MethodInRange(p: Parser) {
    p.state.ReqMethod? ==> p.index <= |Name(p.meth)|
  }

  lemma RematchFits(m: Method, i: nat, ch: byte)
    requires i <= |Name(m)| && Matcher(Name(m), i) != ch && ch != 0
    ensures var r := Rematch(m, i, ch); r.0.Ok? ==> i + 1 <= |Name(r.1)|
  {
  }

  lemma MethodStepInRange(p: Parser, ch: byte)
    requires p.state.ReqMethod? && MethodInRange(p)
    ensures var o := MethodStep(p, ch); o.ctl.Next? ==> MethodInRange(o.p)
  {
    if Matcher(Name(p.meth), p.index) != ch && ch != 0 {
      RematchFits(p.meth, p.index, ch);
    }
  }

  lemma StartStepInRange(p: Parser, ch: byte)
    requires GroupOf(p.state).GStart?
    ensures var o := StartStep(p, ch); !o.ctl.Fail? ==> MethodInRange(o.p)
  {
  }

  lemma {:induction false} SwitchInRange(hc: Decide, c: Conf, ch: byte)
    requires Sound(c.p) && Fits(c.p.state, c.open) && MethodInRange(c.p)
    ensures var (d, ctl) := Switch(hc, c, ch); ctl.Next? ==> MethodInRange(d.p)
    decreases Rank(c.p.state)
  {
    if !Reads(c.p.state) {
      var o := Pass(hc, c.p, ch);
      PassGood(hc, c.p, ch);
      if c.p.state.ReqMethod? {
        MethodStepInRange(c.p, ch);
      } else if GroupOf(c.p.state).GStart? {
        StartStepInRange(c.p, ch);
      }
      if o.ctl.Again? {
        PerformFits(c.p.state, o.act, o.p.state, c.(p := o.p));
        SwitchInRange(hc, Perform(o.act, c.(p := o.p)), ch);
      }
    }
  }

  /** Whatever the input, the method matcher never indexes past the end of a name. */
  lemma {:induction false} RunInRange(hc: Decide, c: Conf, data: seq<byte>)
    requires Between(c) && MethodInRange(c.p)
    ensures var r := Run(hc, c, data); r.ctl.Next? ==> MethodInRange(r.conf.p)
    decreases data
  {
    if data != [] {
      CountKeeps(c);
      SwitchInRange(hc, c.(p := Count(c.p)), data[0]);
      ByteStepKeeps(hc, c, data[0]);
      var (d, ctl) := ByteStep(hc, c, data[0]);
      if ctl.Next? {
        RunInRange(hc, d, data[1..]);
      }
    }
  }
}
