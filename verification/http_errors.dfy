/** Which errors there are in which state of the parser, and the limit of the headers. */
module HttpErrors {
  import opened HttpTypes
  import opened HttpStep
  import opened HttpRun
  import opened HttpBody

  /** What a byte can be blamed for. */
  function Blames(s: State): set<Errno> {
    match s
    case Dead => {ClosedConnection}
    case StartReqOrRes => {InvalidMethod}
    case StartReq => {InvalidMethod}
    case ReqMethod => {InvalidMethod, Unknown}
    case ResOrRespH => {InvalidConstant}
    case StartRes => {InvalidConstant}
    case HttpStart => {InvalidConstant}
    case ReqLineAlmostDone => {LfExpected}
    case HeaderField => {InvalidHeaderToken}
    case HeaderFieldStart => {InvalidHeaderToken, CbHeadersComplete}
    case HeaderValueLws => {InvalidHeaderToken, CbHeadersComplete}
    case HeadersAlmostDone => {CbHeadersComplete}
    case HeaderValueStart => {InvalidContentLength}
    case HeaderValue => {InvalidContentLength}
    case ChunkSizeStart => {InvalidChunkSize}
    case ChunkSize => {InvalidChunkSize, InvalidContentLength}
    case _ =>
      if InVersionNumber(s) then {InvalidVersion}
      else if s.ResFirstStatus? || s.ResStatusCode? then {InvalidStatus}
      else if s.SpacesBeforeUrl? || InUrl(s) then {InvalidUrl}
      else {}
  }

  predicate InVersionNumber(s: State) {
    s.ResFirstMajor? || s.ResMajor? || s.ResFirstMinor? || s.ResMinor?
    || s.ReqFirstMajor? || s.ReqMajor? || s.ReqFirstMinor? || s.ReqMinor?
  }

  /** A pass blames its own state, and hands the byte on to one that can be blamed for no more. */
  ghost predicate BlamesOwn(p: Parser, o: Out) {
    && (o.ctl.Fail? ==> o.p.errno in Blames(p.state))
    && (o.ctl.Again? ==> Blames(o.p.state) <= Blames(p.state) && !Reads(o.p.state))
  }

  lemma StartBlames(p: Parser, ch: byte)
    requires GroupOf(p.state).GStart?
    ensures BlamesOwn(p, StartStep(p, ch))
  {
  }

  lemma MethodBlames(p: Parser, ch: byte)
    requires p.state.ReqMethod?
    ensures BlamesOwn(p, MethodStep(p, ch))
  {
    hide Name;
  }

  lemma StatusBlames(p: Parser, ch: byte)
    requires InStatusLine(p.state)
    ensures BlamesOwn(p, StatusLineStep(p, ch))
  {
  }

  lemma UrlBlames(p: Parser, ch: byte)
    requires p.state.SpacesBeforeUrl? || InUrl(p.state)
    ensures BlamesOwn(p, UrlStep(p, ch))
  {
    hide UrlChar;
  }

  lemma RequestBlames(p: Parser, ch: byte)
    requires InRequestLine(p.state)
    ensures BlamesOwn(p, RequestLineStep(p, ch))
  {
  }

  lemma FieldBlames(p: Parser, ch: byte)
    requires GroupOf(p.state).GField?
    ensures BlamesOwn(p, FieldStep(p, ch))
  {
    hide FieldChar;
  }

  lemma ValueStartBlames(p: Parser, ch: byte)
    requires p.state.HeaderValueStart?
    ensures BlamesOwn(p, ValueStep(p, ch))
  {
    hide Lower, ValueChar, FirstValueChar;
    FirstBlames(p.(index := 0), ch);
  }

  lemma FirstBlames(p: Parser, ch: byte)
    ensures var o := FirstValueChar(p, ch); !o.ctl.Again? && (o.ctl.Fail? ==> o.p.errno.InvalidContentLength?)
  {
    hide Lower;
  }

  lemma InValueBlames(p: Parser, ch: byte)
    requires p.state.HeaderValue?
    ensures BlamesOwn(p, ValueStep(p, ch))
  {
    hide Lower, ValueChar, FirstValueChar;
    CharBlames(p, ch);
  }

  lemma CharBlames(p: Parser, ch: byte)
    ensures var o := ValueChar(p, ch); !o.ctl.Again? && (o.ctl.Fail? ==> o.p.errno.InvalidContentLength?)
  {
    hide Match, Lower;
  }

  lemma ValueEndBlames(p: Parser, ch: byte)
    requires p.state.HeaderAlmostDone? || p.state.HeaderValueLws?
    ensures BlamesOwn(p, ValueStep(p, ch))
  {
    hide Lower, ValueChar, FirstValueChar;
  }

  lemma ValueBlames(p: Parser, ch: byte)
    requires GroupOf(p.state).GValue?
    ensures BlamesOwn(p, ValueStep(p, ch))
  {
    hide ValueStep, BlamesOwn;
    if p.state.HeaderValueStart? {
      ValueStartBlames(p, ch);
    } else if p.state.HeaderValue? {
      InValueBlames(p, ch);
    } else {
      ValueEndBlames(p, ch);
    }
  }

  lemma HeadersBlames(hc: Decide, p: Parser)
    requires GroupOf(p.state).GHeaders?
    ensures var o := HeadersStep(hc, p); (o.ctl.Fail? ==> o.p.errno in Blames(p.state)) && (o.ctl.Again? ==> o.p.state.HeadersDone?)
    ensures p.state.HeadersDone? ==> !HeadersStep(hc, p).ctl.Fail?
  {
  }

  lemma ChunkBlames(p: Parser, ch: byte)
    requires InChunk(p.state)
    ensures BlamesOwn(p, ChunkStep(p, ch))
  {
  }

  lemma PassBlames(hc: Decide, p: Parser, ch: byte)
    requires !Reads(p.state)
    ensures BlamesOwn(p, Pass(hc, p, ch))
  {
    hide StartStep, MethodStep, StatusLineStep, UrlStep, RequestLineStep, FieldStep, ValueStep, HeadersStep, ChunkStep;
    match GroupOf(p.state)
    case GStart => StartBlames(p, ch);
    case GMethod => MethodBlames(p, ch);
    case GStatusLine => StatusBlames(p, ch);
    case GUrl => UrlBlames(p, ch);
    case GRequestLine => RequestBlames(p, ch);
    case GField => FieldBlames(p, ch);
    case GValue => ValueBlames(p, ch);
    case GHeaders => HeadersBlames(hc, p);
    case GChunk => ChunkBlames(p, ch);
    case _ =>
  }

  lemma {:induction false} SwitchBlames(hc: Decide, c: Conf, ch: byte)
    ensures var (d, k) := Switch(hc, c, ch); k.Fail? ==> d.p.errno in Blames(c.p.state)
    decreases Rank(c.p.state)
  {
    hide Pass, Blames, Perform, ReadByte;
    if !Reads(c.p.state) {
      PassBlames(hc, c.p, ch);
      var o := Pass(hc, c.p, ch);
      if o.ctl.Again? {
        SwitchBlames(hc, Perform(o.act, c.(p := o.p)), ch);
      }
    }
  }

  lemma NoOverflow(s: State)
    ensures HeaderOverflow !in Blames(s)
  {
  }

  /** One byte: it is too many for the headers exactly when 80 KB of them have been read, and otherwise an
      error is one that the state can be blamed for. */
  lemma ByteBlames(hc: Decide, c: Conf, ch: byte)
    ensures var (d, k) := ByteStep(hc, c, ch);
      k.Fail? ==> d.p.errno in Blames(c.p.state) + {HeaderOverflow}
    ensures var (d, k) := ByteStep(hc, c, ch);
      k.Fail? && d.p.errno.HeaderOverflow? <==> ParsingHeader(c.p.state) && c.p.nread >= 80 * 1024
  {
    hide Switch, Blames;
    NoOverflow(c.p.state);
    SwitchBlames(hc, c.(p := Count(c.p)), ch);
  }

  /** A run that ends with an error: it has gone as far as the byte that is to blame, and says for what. */
  lemma {:induction false} RunBlames(hc: Decide, c: Conf, data: seq<byte>) returns (d: Conf)
    requires Run(hc, c, data).ctl.Fail?
    ensures var r := Run(hc, c, data);
      && r.consumed < |data| && Goes(hc, c, data[..r.consumed], d)
      && r.conf.p.errno in Blames(d.p.state) + {HeaderOverflow}
      && (r.conf.p.errno.HeaderOverflow? <==> ParsingHeader(d.p.state) && d.p.nread >= MAX_HEADER_SIZE)
    decreases data
  {
    hide ByteStep, Blames, Goes;
    var (e, k) := ByteStep(hc, c, data[0]);
    var r := Run(hc, c, data);
    if k.Next? {
      d := RunBlames(hc, e, data[1..]);
      GoesByte(hc, c, data[0], e);
      var n := r.consumed - 1;
      GoesOn(hc, c, [data[0]], e, data[1..][..n], d);
      assert [data[0]] + data[1..][..n] == data[..r.consumed];
    } else {
      d := c;
      ByteBlames(hc, c, data[0]);
      GoesNowhere(hc, c);
      assert data[..0] == [];
    }
  }
}
