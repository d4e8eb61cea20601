/** The switch of http_parser_execute: what one byte does in each state, as far as
    it does not depend on the rest of the buffer. */
module HttpStep {
  import opened HttpTypes

  datatype Kind = Field | Value | Url | Body

  datatype Event = Begin | HeadersComplete | Complete | Data(kind: Kind, bytes: seq<byte>)

  /** What a pass does about callbacks: nothing, MARK, CALLBACK_DATA, the one right after
      the other, or CALLBACK_NOTIFY. */
  datatype Act = Quiet | Mark(kind: Kind) | Flush(kind: Kind) | Touch(kind: Kind) | Notify(event: Event)

  /** After the switch: the next byte, the same byte again, an error, or an early return
      that counts the current byte as consumed. */
  datatype Control = Next | Again | Fail | Stop

  datatype Out = Out(p: Parser, act: Act, ctl: Control)

  /** What on_headers_complete answers: 0, 1, or something else. */
  datatype Answer = Proceed | SkipBody | Refuse

  type Decide = Parser -> Answer

  function Go(p: Parser, s: State): Out {
    Out(p.(state := s), Quiet, Next)
  }

  function Reject(p: Parser, e: Errno): Out {
    Out(p.(errno := e), Quiet, Fail)
  }

  /** start_state, which NEW_MESSAGE is in the non-strict build. */
  function NewMessage(p: Parser): State {
    if p.typ.Request? then StartReq else StartRes
  }

  function Done(p: Parser, ctl: Control): Out {
    Out(p.(state := NewMessage(p)), Notify(Complete), ctl)
  }

  // ---- the start of a message ----

  function FirstMethod(ch: byte): (m: Method) {
    if Is(ch, 'C') then CONNECT else if Is(ch, 'D') then DELETE else if Is(ch, 'G') then GET
    else if Is(ch, 'H') then HEAD else if Is(ch, 'L') then LOCK else if Is(ch, 'M') then MKCOL
    else if Is(ch, 'N') then NOTIFY else if Is(ch, 'O') then OPTIONS else if Is(ch, 'P') then POST
    else if Is(ch, 'R') then REPORT else if Is(ch, 'S') then SUBSCRIBE else if Is(ch, 'T') then TRACE
    else UNLOCK
  }

  predicate StartsMethod(ch: byte) {
    Is(ch, 'C') || Is(ch, 'D') || Is(ch, 'G') || Is(ch, 'H') || Is(ch, 'L') || Is(ch, 'M') || Is(ch, 'N')
    || Is(ch, 'O') || Is(ch, 'P') || Is(ch, 'R') || Is(ch, 'S') || Is(ch, 'T') || Is(ch, 'U')
  }

  function StartStep(p: Parser, ch: byte): (o: Out)
    ensures o.ctl.Again? ==> p.state.StartReqOrRes? && o.p.state.StartReq?
  {
    var clean := p.(flags := NO_FLAGS, contentLength := NO_LENGTH);
    match p.state
    case Dead =>
      if ch == CR || ch == LF then Go(p, Dead) else Reject(p, ClosedConnection)
    case StartReqOrRes =>
      if ch == CR || ch == LF then Go(p, StartReqOrRes)
      else if Is(ch, 'H') then Out(clean.(state := ResOrRespH), Notify(Begin), Next)
      else Out(clean.(typ := Request, state := StartReq), Quiet, Again)
    case ResOrRespH =>
      if Is(ch, 'T') then Go(p.(typ := Response), ResHT)
      else if !Is(ch, 'E') then Reject(p, InvalidConstant)
      else Go(p.(typ := Request, meth := HEAD, index := 2), ReqMethod)
    case StartRes =>
      if Is(ch, 'H') then Out(clean.(state := ResH), Notify(Begin), Next)
      else if ch == CR || ch == LF then Out(clean, Notify(Begin), Next)
      else Reject(clean, InvalidConstant)
    case _ =>  // StartReq
      if ch == CR || ch == LF then Go(p, StartReq)
      else if !IsAlpha(ch) then Reject(clean, InvalidMethod)
      else if !StartsMethod(ch) then Reject(clean.(meth := DELETE, index := 1), InvalidMethod)
      else Out(clean.(meth := FirstMethod(ch), index := 1, state := ReqMethod), Notify(Begin), Next)
  }

  /** matcher[index], with the terminating zero. */
  function Matcher(s: string, i: int): int {
    if 0 <= i < |s| then s[i] as int else 0
  }

  /** The method table, when the byte is not the expected one. */
  function Rematch(m: Method, i: nat, ch: byte): (r: (Errno, Method)) {
    if m.CONNECT? then
      if i == 1 && Is(ch, 'H') then (Ok, CHECKOUT) else if i == 2 && Is(ch, 'P') then (Ok, COPY) else (Unknown, m)
    else if m.MKCOL? then
      if i == 1 && Is(ch, 'O') then (Ok, MOVE) else if i == 1 && Is(ch, 'E') then (Ok, MERGE)
      else if i == 1 && Is(ch, '-') then (Ok, MSEARCH) else if i == 2 && Is(ch, 'A') then (Ok, MKACTIVITY)
      else (Unknown, m)
    else if m.SUBSCRIBE? then
      if i == 1 && Is(ch, 'E') then (Ok, SEARCH) else (Unknown, m)
    else if i == 1 && m.POST? then
      if Is(ch, 'R') then (Ok, PROPFIND) else if Is(ch, 'U') then (Ok, PUT)
      else if Is(ch, 'A') then (Ok, PATCH) else (Unknown, m)
    else if i == 2 then
      if m.PUT? then (Ok, if Is(ch, 'R') then PURGE else m)
      else if m.UNLOCK? then (Ok, if Is(ch, 'S') then UNSUBSCRIBE else m)
      else (Ok, m)
    else if i == 4 && m.PROPFIND? && Is(ch, 'P') then (Ok, PROPPATCH)
    else (InvalidMethod, m)
  }

  function MethodStep(p: Parser, ch: byte): (o: Out)
    ensures !o.ctl.Again?
  {
    var want := Matcher(Name(p.meth), p.index);
    if ch == 0 then Reject(p, InvalidMethod)
    else if ch == SP && want == 0 then Go(p.(index := p.index + 1), SpacesBeforeUrl)
    else if ch == want then Go(p.(index := p.index + 1), ReqMethod)
    else
      var r := Rematch(p.meth, p.index, ch);
      if r.0.Ok? then Go(p.(meth := r.1, index := p.index + 1), ReqMethod) else Reject(p, r.0)
  }

  // ---- status line ----

  /** One more digit of a number of at most three digits. */
  function Digit(n: nat, ch: byte): nat
    requires IsNum(ch)
  {
    n * 10 + (ch - '0' as int)
  }

  function StatusLineStep(p: Parser, ch: byte): (o: Out)
    ensures !o.ctl.Again?
  {
    match p.state
    case ResH => Go(p, ResHT)
    case ResHT => Go(p, ResHTT)
    case ResHTT => Go(p, ResHTTP)
    case ResHTTP => Go(p, ResFirstMajor)
    case ResFirstMajor =>
      if !IsNum(ch) then Reject(p, InvalidVersion) else Go(p.(major := ch - '0' as int), ResMajor)
    case ResMajor =>
      if Is(ch, '.') then Go(p, ResFirstMinor)
      else if !IsNum(ch) then Reject(p, InvalidVersion)
      else var q := p.(major := Digit(p.major, ch));
        if q.major > 999 then Reject(q, InvalidVersion) else Go(q, ResMajor)
    case ResFirstMinor =>
      if !IsNum(ch) then Reject(p, InvalidVersion) else Go(p.(minor := ch - '0' as int), ResMinor)
    case ResMinor =>
      if ch == SP then Go(p, ResFirstStatus)
      else if !IsNum(ch) then Reject(p, InvalidVersion)
      else var q := p.(minor := Digit(p.minor, ch));
        if q.minor > 999 then Reject(q, InvalidVersion) else Go(q, ResMinor)
    case ResFirstStatus =>
      if IsNum(ch) then Go(p.(status := ch - '0' as int), ResStatusCode)
      else if ch == SP then Go(p, ResFirstStatus)
      else Reject(p, InvalidStatus)
    case ResStatusCode =>
      if !IsNum(ch) then
        if ch == SP then Go(p, ResStatus) else if ch == CR then Go(p, ResLineAlmostDone)
        else if ch == LF then Go(p, HeaderFieldStart) else Reject(p, InvalidStatus)
      else var q := p.(status := Digit(p.status, ch));
        if q.status > 999 then Reject(q, InvalidStatus) else Go(q, ResStatusCode)
    case ResStatus =>
      if ch == CR then Go(p, ResLineAlmostDone) else if ch == LF then Go(p, HeaderFieldStart) else Go(p, ResStatus)
    case _ => Go(p, HeaderFieldStart)  // ResLineAlmostDone
  }

  // ---- request line ----

  /** The URL states in which no white space is allowed. */
  predicate UrlNoSpace(s: State) {
    s.Schema? || s.SchemaSlash? || s.SchemaSlashSlash? || s.HostStart? || s.HostV6Start? || s.HostV6? || s.PortStart?
  }

  predicate UrlMayEnd(s: State) {
    s.Host? || s.HostV6End? || s.Port? || s.Path? || s.QueryStart? || s.Query? || s.FragmentStart? || s.Fragment?
  }

  predicate InUrl(s: State) {
    UrlNoSpace(s) || UrlMayEnd(s)
  }

  function UrlStep(p: Parser, ch: byte): (o: Out)
    ensures !o.ctl.Again?
  {
    if p.state.SpacesBeforeUrl? then
      if ch == SP then Go(p, SpacesBeforeUrl)
      else
        var s := UrlChar(if p.meth.CONNECT? then HostStart else SpacesBeforeUrl, ch);
        if s.Dead? then Out(p.(state := Dead, errno := InvalidUrl), Mark(Url), Fail)
        else Out(p.(state := s), Mark(Url), Next)
    else if UrlNoSpace(p.state) && (ch == SP || ch == CR || ch == LF) then Reject(p, InvalidUrl)
    else if ch == SP then Out(p.(state := HttpStart), Flush(Url), Next)
    else if ch == CR || ch == LF then
      Out(p.(major := 0, minor := 9, state := if ch == CR then ReqLineAlmostDone else HeaderFieldStart),
          Flush(Url), Next)
    else
      var s := UrlChar(p.state, ch);
      if s.Dead? then Reject(p.(state := Dead), InvalidUrl) else Go(p, s)
  }

  function RequestLineStep(p: Parser, ch: byte): (o: Out)
    ensures !o.ctl.Again?
  {
    match p.state
    case HttpStart =>
      if Is(ch, 'H') then Go(p, HttpH) else if ch == SP then Go(p, HttpStart) else Reject(p, InvalidConstant)
    case HttpH => Go(p, HttpHT)
    case HttpHT => Go(p, HttpHTT)
    case HttpHTT => Go(p, HttpHTTP)
    case HttpHTTP => Go(p, ReqFirstMajor)
    case ReqFirstMajor =>
      if !IsNum(ch) || Is(ch, '0') then Reject(p, InvalidVersion) else Go(p.(major := ch - '0' as int), ReqMajor)
    case ReqMajor =>
      if Is(ch, '.') then Go(p, ReqFirstMinor)
      else if !IsNum(ch) then Reject(p, InvalidVersion)
      else var q := p.(major := Digit(p.major, ch));
        if q.major > 999 then Reject(q, InvalidVersion) else Go(q, ReqMajor)
    case ReqFirstMinor =>
      if !IsNum(ch) then Reject(p, InvalidVersion) else Go(p.(minor := ch - '0' as int), ReqMinor)
    case ReqMinor =>
      if ch == CR then Go(p, ReqLineAlmostDone) else if ch == LF then Go(p, HeaderFieldStart)
      else if !IsNum(ch) then Reject(p, InvalidVersion)
      else var q := p.(minor := Digit(p.minor, ch));
        if q.minor > 999 then Reject(q, InvalidVersion) else Go(q, ReqMinor)
    case _ =>  // ReqLineAlmostDone
      if ch != LF then Reject(p, LfExpected) else Go(p, HeaderFieldStart)
  }

  // ---- headers ----

  /** Step a matcher of a fixed word: on to `ok` at its last letter, to HGeneral on a mismatch. */
  function Match(p: Parser, word: string, c: byte, ok: HeaderState): Parser {
    var i := p.index + 1;
    p.(index := i,
       headerState := if i > |word| || c != Matcher(word, i) then HGeneral
                      else if i == |word| - 1 then ok else p.headerState)
  }

  /** s_header_field, for a token character; HttpRun.FieldState says that the states in which the
      code asserts do not come up. */
  function FieldChar(p: Parser, ch: byte, c: byte): Parser {
    match p.headerState
    case HGeneral => p
    case HC => p.(index := p.index + 1, headerState := if Is(c, 'o') then HCO else HGeneral)
    case HCO => p.(index := p.index + 1, headerState := if Is(c, 'n') then HCON else HGeneral)
    case HCON => p.(index := p.index + 1,
      headerState := if Is(c, 'n') then MConnection else if Is(c, 't') then MContentLength else HGeneral)
    case MConnection => Match(p, "connection", c, HConnection)
    case MProxyConnection => Match(p, "proxy-connection", c, HConnection)
    case MContentLength => Match(p, "content-length", c, HContentLength)
    case MTransferEncoding => Match(p, "transfer-encoding", c, HTransferEncoding)
    case MUpgrade => Match(p, "upgrade", c, HUpgrade)
    case _ => if ch != SP then p.(headerState := HGeneral) else p
  }

  function FirstFieldState(c: byte): HeaderState {
    if Is(c, 'c') then HC else if Is(c, 'p') then MProxyConnection
    else if Is(c, 't') then MTransferEncoding else if Is(c, 'u') then MUpgrade else HGeneral
  }

  function FieldStep(p: Parser, ch: byte): (o: Out)
    ensures o.ctl.Again? ==> p.state.HeaderFieldStart? && o.p.state.HeadersAlmostDone?
  {
    var c := Token(ch);
    if p.state.HeaderFieldStart? then
      if ch == CR then Go(p, HeadersAlmostDone)
      else if ch == LF then Out(p.(state := HeadersAlmostDone), Quiet, Again)
      else if c == 0 then Reject(p, InvalidHeaderToken)
      else Out(p.(index := 0, state := HeaderField, headerState := FirstFieldState(c)), Mark(Field), Next)
    else  // HeaderField
      if c != 0 then Go(FieldChar(p, ch, c), HeaderField)
      else if Is(ch, ':') then Out(p.(state := HeaderValueStart), Flush(Field), Next)
      else if ch == CR then Out(p.(state := HeaderAlmostDone), Flush(Field), Next)
      else if ch == LF then Out(p.(state := HeaderFieldStart), Flush(Field), Next)
      else Reject(p, InvalidHeaderToken)
  }

  /** t = content_length * base + digit, in 64 bits; None when the overflow test rejects it. */
  datatype Length = NoLength | Length(n: nat)

  function MoreLength(n: nat, base: nat, digit: nat): Length {
    var t := (n * base + digit) % TWO_64;
    if t < n || t == NO_LENGTH then NoLength else Length(t)
  }

  function ValueChar(p: Parser, ch: byte): Out {
    var c := Lower(ch);
    match p.headerState
    case HGeneral => Go(p, HeaderValue)
    case HContentLength =>
      if ch == SP then Go(p, HeaderValue)
      else if !IsNum(ch) then Reject(p, InvalidContentLength)
      else
        (match MoreLength(p.contentLength, 10, ch - '0' as int)
         case NoLength => Reject(p, InvalidContentLength)
         case Length(n) => Go(p.(contentLength := n), HeaderValue))
    case MChunked => Go(Match(p, "chunked", c, HChunked), HeaderValue)
    case MKeepAlive => Go(Match(p, "keep-alive", c, HKeepAlive), HeaderValue)
    case MClose => Go(Match(p, "close", c, HClose), HeaderValue)
    case HChunked => Go(if ch != SP then p.(headerState := HGeneral) else p, HeaderValue)
    case HKeepAlive => Go(if ch != SP then p.(headerState := HGeneral) else p, HeaderValue)
    case HClose => Go(if ch != SP then p.(headerState := HGeneral) else p, HeaderValue)
    case _ => Go(p.(headerState := HGeneral), HeaderValue)
  }

  function FirstValueChar(p: Parser, ch: byte): Out {
    var c := Lower(ch);
    match p.headerState
    case HUpgrade => Go(p.(flags := p.flags.(upgrade := true), headerState := HGeneral), HeaderValue)
    case HTransferEncoding => Go(p.(headerState := if Is(c, 'c') then MChunked else HGeneral), HeaderValue)
    case HContentLength =>
      if !IsNum(ch) then Reject(p.(state := HeaderValue), InvalidContentLength)
      else Go(p.(contentLength := ch - '0' as int), HeaderValue)
    case HConnection =>
      Go(p.(headerState := if Is(c, 'k') then MKeepAlive else if Is(c, 'c') then MClose else HGeneral), HeaderValue)
    case _ => Go(p.(headerState := HGeneral), HeaderValue)
  }

  function ValueStep(p: Parser, ch: byte): (o: Out)
    ensures o.ctl.Again? ==> if p.state.HeaderValue? then o.p.state.HeaderAlmostDone?
      else !p.state.HeaderValueStart? && !p.state.HeaderAlmostDone? && o.p.state.HeaderFieldStart?
  {
    match p.state
    case HeaderValueStart =>
      if ch == SP || ch == HT then Go(p, HeaderValueStart)
      else
        var q := p.(index := 0);
        if ch == CR then
          Out(q.(headerState := HGeneral, state := HeaderAlmostDone), Touch(Value), Next)
        else if ch == LF then Out(q.(state := HeaderFieldStart), Touch(Value), Next)
        else var o := FirstValueChar(q, ch); o.(act := Mark(Value))
    case HeaderValue =>
      if ch == CR then Out(p.(state := HeaderAlmostDone), Flush(Value), Next)
      else if ch == LF then Out(p.(state := HeaderAlmostDone), Flush(Value), Again)
      else ValueChar(p, ch)
    case HeaderAlmostDone =>
      var f := match p.headerState
        case HKeepAlive => p.flags.(keepAlive := true)
        case HClose => p.flags.(close := true)
        case HChunked => p.flags.(chunked := true)
        case _ => p.flags;
      Go(p.(flags := f), HeaderValueLws)
    case _ =>  // HeaderValueLws
      if ch == SP || ch == HT then Go(p, HeaderValueStart)
      else Out(p.(state := HeaderFieldStart), Quiet, Again)
  }

  // ---- the end of the headers ----

  function HeadersStep(hc: Decide, p: Parser): (o: Out)
    ensures o.ctl.Again? ==> p.state.HeadersAlmostDone? && o.p.state.HeadersDone?
  {
    if p.state.HeadersAlmostDone? then
      if p.flags.trailing then Done(p, Next)
      else
        var q := p.(state := HeadersDone, upgrade := p.flags.upgrade || p.meth.CONNECT?);
        match hc(q)
        case Proceed => Out(q, Notify(HeadersComplete), Again)
        case SkipBody => Out(q.(flags := q.flags.(skipBody := true)), Notify(HeadersComplete), Again)
        case Refuse => Out(q.(errno := CbHeadersComplete), Notify(HeadersComplete), Fail)
    else  // HeadersDone
      var q := p.(nread := 0);
      if q.upgrade then Done(q, Stop)
      else if q.flags.skipBody then Done(q, Next)
      else if q.flags.chunked then Go(q, ChunkSizeStart)
      else if q.contentLength == 0 then Done(q, Next)
      else if q.contentLength != NO_LENGTH then Go(q, BodyIdentity)
      else if q.typ.Request? || !NeedsEof(q) then Done(q, Next)
      else Go(q, BodyIdentityEof)
  }

  // ---- chunks ----

  function ChunkStep(p: Parser, ch: byte): (o: Out)
    ensures !o.ctl.Again?
  {
    var v := Unhex(ch);
    match p.state
    case ChunkSizeStart =>
      if v == -1 then Reject(p, InvalidChunkSize) else Go(p.(contentLength := v), ChunkSize)
    case ChunkSize =>
      if ch == CR then Go(p, ChunkSizeAlmostDone)
      else if v == -1 then
        if Is(ch, ';') || ch == SP then Go(p, ChunkParameters) else Reject(p, InvalidChunkSize)
      else
        (match MoreLength(p.contentLength, 16, v)
         case NoLength => Reject(p, InvalidContentLength)
         case Length(n) => Go(p.(contentLength := n), ChunkSize))
    case ChunkParameters => if ch == CR then Go(p, ChunkSizeAlmostDone) else Go(p, ChunkParameters)
    case ChunkSizeAlmostDone =>
      var q := p.(nread := 0);
      if q.contentLength == 0 then Go(q.(flags := q.flags.(trailing := true)), HeaderFieldStart)
      else Go(q, ChunkData)
    case ChunkDataAlmostDone => Out(p.(state := ChunkDataDone), Flush(Body), Next)
    case _ => Go(p.(nread := 0), ChunkSizeStart)  // ChunkDataDone
  }

  predicate Reads(s: State) {
    s.ChunkData? || s.BodyIdentity? || s.BodyIdentityEof?
  }

  /** The order in which states lead to each other without consuming the byte. */
  function Rank(s: State): nat {
    match s
    case HeaderValueLws => 3
    case HeaderFieldStart => 2
    case HeadersAlmostDone => 1
    case StartReqOrRes => 1
    case HeaderValue => 1
    case _ => 0
  }

  /** Which part of the switch handles a state. */
  datatype Group = GStart | GMethod | GStatusLine | GUrl | GRequestLine | GField | GValue | GHeaders | GChunk | GDone | GBody

  function GroupOf(s: State): Group {
    match s
    case Dead => GStart
    case StartReqOrRes => GStart
    case ResOrRespH => GStart
    case StartRes => GStart
    case StartReq => GStart
    case ReqMethod => GMethod
    case HeaderFieldStart => GField
    case HeaderField => GField
    case HeaderValueStart => GValue
    case HeaderValue => GValue
    case HeaderAlmostDone => GValue
    case HeaderValueLws => GValue
    case HeadersAlmostDone => GHeaders
    case HeadersDone => GHeaders
    case MessageDone => GDone
    case _ =>
      if InStatusLine(s) then GStatusLine else if InRequestLine(s) then GRequestLine
      else if Reads(s) then GBody else if InChunk(s) then GChunk else GUrl
  }

  predicate InStatusLine(s: State) {
    s.ResH? || s.ResHT? || s.ResHTT? || s.ResHTTP? || s.ResFirstMajor? || s.ResMajor? || s.ResFirstMinor?
    || s.ResMinor? || s.ResFirstStatus? || s.ResStatusCode? || s.ResStatus? || s.ResLineAlmostDone?
  }

  predicate InRequestLine(s: State) {
    s.HttpStart? || s.HttpH? || s.HttpHT? || s.HttpHTT? || s.HttpHTTP? || s.ReqFirstMajor? || s.ReqMajor?
    || s.ReqFirstMinor? || s.ReqMinor? || s.ReqLineAlmostDone?
  }

  predicate InChunk(s: State) {
    s.ChunkSizeStart? || s.ChunkSize? || s.ChunkParameters? || s.ChunkSizeAlmostDone?
    || s.ChunkDataAlmostDone? || s.ChunkDataDone?
  }

  /** One pass of the switch, in the states that look at one byte only. */
  function Pass(hc: Decide, p: Parser, ch: byte): (o: Out)
    requires !Reads(p.state)
    ensures o.ctl.Again? ==> Rank(o.p.state) < Rank(p.state) && !Reads(o.p.state)
  {
    match GroupOf(p.state)
    case GStart => StartStep(p, ch)
    case GMethod => MethodStep(p, ch)
    case GStatusLine => StatusLineStep(p, ch)
    case GUrl => UrlStep(p, ch)
    case GRequestLine => RequestLineStep(p, ch)
    case GField => FieldStep(p, ch)
    case GValue => ValueStep(p, ch)
    case GHeaders => HeadersStep(hc, p)
    case GChunk => ChunkStep(p, ch)
    case _ => Done(p, Next)
  }
}
