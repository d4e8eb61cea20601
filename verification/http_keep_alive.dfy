/** What http_should_keep_alive and http_message_needs_eof say, in terms of the first line and the header
    lines as they are written (sections 4.4 and 8.1.2 of RFC 2616). */
module HttpKeepAlive {
  import opened HttpTypes
  import opened HttpStep
  import opened HttpRun
  import opened HttpBody
  import opened HttpNames
  import opened HttpHeaders
  import opened HttpStart
  import opened HttpStatusLine
  import HttpMethod
  import HttpRequestLine

  // ---- what the lines say ----

  ghost predicate OnConnection(h: HeaderLine) {
    Spells(h.name, CONNECTION, LOWER) || Spells(h.name, PROXY_CONNECTION, LOWER)
  }

  ghost predicate SaysKeepAlive(h: HeaderLine) {
    OnConnection(h) && Spells(h.value, KEEP_ALIVE, FOLD)
  }

  ghost predicate SaysClose(h: HeaderLine) {
    OnConnection(h) && Spells(h.value, CLOSE, FOLD)
  }

  lemma ConnectionHeading(name: seq<byte>)
    ensures Spells(name, CONNECTION, LOWER) || Spells(name, PROXY_CONNECTION, LOWER) <==> HeadingOf(name).OfConnection?
  {
    assert CONTENT_LENGTH[0] == 'c' && TRANSFER_ENCODING[0] == 't' && UPGRADE[0] == 'u';
    assert CONNECTION[0] == 'c' && PROXY_CONNECTION[0] == 'p' && CONTENT_LENGTH[3] == 't' && CONNECTION[3] == 'n';
  }

  lemma OneAnswer(value: seq<byte>)
    ensures !(Spells(value, KEEP_ALIVE, FOLD) && Spells(value, CLOSE, FOLD))
    ensures Spells(value, KEEP_ALIVE, FOLD) || Spells(value, CLOSE, FOLD) ==> value != []
  {
    assert KEEP_ALIVE[0] == 'k' && CLOSE[0] == 'c';
  }

  lemma HearConnection(s: Said, h: HeaderLine)
    ensures var t := Hear(s, h);
      && (t.flags.keepAlive <==> s.flags.keepAlive || SaysKeepAlive(h))
      && (t.flags.close <==> s.flags.close || SaysClose(h))
  {
    hide Spells, HeadingOf, Decimal;
    ConnectionHeading(h.name);
    OneAnswer(h.value);
  }

  /** The connection is to be kept or closed if and only if some line says so. */
  lemma {:induction false} ConnectionSaid(s: Said, hs: seq<HeaderLine>)
    ensures var t := HearAll(s, hs);
      && (t.flags.keepAlive <==> s.flags.keepAlive || exists h :: h in hs && SaysKeepAlive(h))
      && (t.flags.close <==> s.flags.close || exists h :: h in hs && SaysClose(h))
    decreases hs
  {
    hide Hear, SaysKeepAlive, SaysClose;
    if hs != [] {
      HearConnection(s, hs[0]);
      ConnectionSaid(Hear(s, hs[0]), hs[1..]);
      assert forall h :: h in hs <==> h == hs[0] || h in hs[1..];
    }
  }

  lemma {:induction false} FoldedSmall(n: nat, value: seq<byte>, ending: Ending, fs: seq<Fold>)
    requires n < NO_LENGTH && FoldsOk(value, ending, fs, true) && value != []
    ensures FoldedLength(n, fs) < NO_LENGTH
    decreases fs
  {
    hide Digits;
    if fs != [] && Decimal(fs[0].value) {
      FoldedSmall(HttpBody.Value(10, Digits(fs[0].value)), fs[0].value, fs[0].ending, fs[1..]);
    }
  }

  lemma LengthOk(h: HeaderLine)
    requires LineOk(h) && SaysLength(h)
    ensures LengthOf(h) < NO_LENGTH
  {
    OneHeading(h.name);
    hide Spells, HeadingOf, Digits, FoldsOk;
    FoldedSmall(HttpBody.Value(10, Digits(h.value)), h.value, h.ending, h.folds);
  }

  /** There is a length if and only if some line gives one. */
  lemma {:induction false} LengthGiven(s: Said, hs: seq<HeaderLine>)
    requires LinesOk(hs) && s.length <= NO_LENGTH
    ensures HearAll(s, hs).length <= NO_LENGTH
    ensures HearAll(s, hs).length != NO_LENGTH <==> s.length != NO_LENGTH || exists h :: h in hs && SaysLength(h)
    decreases hs
  {
    hide Hear, SaysLength, LineOk, LengthOf;
    if hs != [] {
      HearSays(s, hs[0]);
      if SaysLength(hs[0]) {
        LengthOk(hs[0]);
      }
      LengthGiven(Hear(s, hs[0]), hs[1..]);
      assert forall h :: h in hs <==> h == hs[0] || h in hs[1..];
    }
  }

  // ---- the questions ----

  /** At the headers of a new message. */
  predicate Fresh(c: Conf) {
    c.p.flags == NO_FLAGS && c.p.contentLength == NO_LENGTH
  }

  /** The parser once on_headers_complete has been asked, which may have it skip the body. */
  function Asked(hc: Decide, c: Conf, hs: seq<HeaderLine>, skip: bool): Parser {
    var p := Seen(hc, c, hs);
    p.(flags := p.flags.(skipBody := skip))
  }

  lemma SeenSaid(hc: Decide, c: Conf, hs: seq<HeaderLine>)
    requires AtHeaders(hc, c, hs)
    ensures var p := Seen(hc, c, hs);
      && p.typ == c.p.typ && p.status == c.p.status && p.major == c.p.major && p.minor == c.p.minor
      && p.flags == HearAll(SaidIn(c.p), hs).flags && p.contentLength == HearAll(SaidIn(c.p), hs).length
  {
    hide Run, LinesOk, LinesText, Fields, HearAll;
    BlockGoes(hc, c, hs);
  }

  /** The end of the message is in its bytes: it is a request, its status or its receiver says that it has no
      body, or its lines say how long that is. */
  ghost predicate EndsItself(c: Conf, hs: seq<HeaderLine>, skip: bool) {
    || c.p.typ.Request? || Bodyless(c.p.status) || skip
    || exists h :: h in hs && (SaysChunked(h) || SaysLength(h))
  }

  lemma NeedsEofMeans(hc: Decide, c: Conf, hs: seq<HeaderLine>, skip: bool)
    requires Fresh(c) && AtHeaders(hc, c, hs)
    ensures NeedsEof(Asked(hc, c, hs, skip)) <==> !EndsItself(c, hs, skip)
  {
    hide Seen, SaysChunked, SaysLength, HearAll, LinesOk, SaysUpgrade;
    SeenSaid(hc, c, hs);
    FlagsSaid(SaidIn(c.p), hs);
    LengthGiven(SaidIn(c.p), hs);
    assert (exists h :: h in hs && (SaysChunked(h) || SaysLength(h))) <==>
      (exists h :: h in hs && SaysChunked(h)) || (exists h :: h in hs && SaysLength(h));
  }

  /** From version 1.1 on, unless a line says close, otherwise if one says keep-alive; a minor version of zero
      counts as before 1.1 whatever the major one is. */
  ghost predicate MayStay(c: Conf, hs: seq<HeaderLine>) {
    if c.p.major >= 1 && c.p.minor >= 1 then forall h :: h in hs ==> !SaysClose(h)
    else exists h :: h in hs && SaysKeepAlive(h)
  }

  lemma ShouldKeepAliveMeans(hc: Decide, c: Conf, hs: seq<HeaderLine>, skip: bool)
    requires Fresh(c) && AtHeaders(hc, c, hs)
    ensures ShouldKeepAlive(Asked(hc, c, hs, skip)) <==> MayStay(c, hs) && EndsItself(c, hs, skip)
  {
    hide Seen, SaysKeepAlive, SaysClose, HearAll, LinesOk, NeedsEof, EndsItself;
    SeenSaid(hc, c, hs);
    ConnectionSaid(SaidIn(c.p), hs);
    NeedsEofMeans(hc, c, hs, skip);
  }

  // ---- from the first line on ----

  /** The connection is kept after a response exactly if its status line and its lines say so. */
  lemma KeepAliveResponse(hc: Decide, c: Conf, blanks: seq<byte>, l: StatusLine, hs: seq<HeaderLine>, skip: bool)
    requires StatusOk(l) && AtHeaders(hc, AfterStatus(c, blanks, l), hs) && !c.p.typ.Request?
    ensures ShouldKeepAlive(Asked(hc, AfterStatus(c, blanks, l), hs, skip)) <==>
      && (if Spell(l.version.major) >= 1 && Spell(l.version.minor) >= 1 then forall h :: h in hs ==> !SaysClose(h)
          else exists h :: h in hs && SaysKeepAlive(h))
      && (Bodyless(Spell(l.code)) || skip || exists h :: h in hs && (SaysChunked(h) || SaysLength(h)))
  {
    hide ShouldKeepAlive, Asked, AtHeaders, SaysKeepAlive, SaysClose, SaysChunked, SaysLength, Spell, StatusText,
      StatusOk, HttpStatusLine.Begins;
    StatusMade(l);
    ShouldKeepAliveMeans(hc, AfterStatus(c, blanks, l), hs, skip);
  }

  /** ... and after a request exactly if its version and its lines do. */
  lemma KeepAliveRequest(hc: Decide, c: Conf, blanks: seq<byte>, l: HttpRequestLine.RequestLine, m: Method, hs: seq<HeaderLine>)
    requires HttpRequestLine.ProtocolOk(l.protocol) && c.p.typ.Request?
    requires AtHeaders(hc, HttpRequestLine.AfterRequest(c, blanks, l, m), hs)
    ensures ShouldKeepAlive(Asked(hc, HttpRequestLine.AfterRequest(c, blanks, l, m), hs, false)) <==>
      if l.protocol.Named? && Spell(l.protocol.version.major) >= 1 && Spell(l.protocol.version.minor) >= 1
      then forall h :: h in hs ==> !SaysClose(h)
      else exists h :: h in hs && SaysKeepAlive(h)
  {
    hide ShouldKeepAlive, Asked, AtHeaders, SaysKeepAlive, SaysClose, SaysChunked, SaysLength, Spell,
      HttpRequestLine.RequestText;
    ShouldKeepAliveMeans(hc, HttpRequestLine.AfterRequest(c, blanks, l, m), hs, false);
  }

  // ---- a body that lasts until the end of the input ----

  lemma EofFirst(hc: Decide, c: Conf, hs: seq<HeaderLine>)
    requires AtHeaders(hc, c, hs) && Fresh(c) && !EndsItself(c, hs, false) && !c.p.typ.Request?
    requires forall h :: h in hs ==> !SaysUpgrade(h)
    ensures var d := Run(hc, c, Block(hs)).conf;
      Goes(hc, c, Block(hs), d) && AtHeadersEnd(d, NO_LENGTH) && NeedsEof(HeadersSeen(d)) && !d.p.typ.Request?
      && d.out == c.out + Fields(hs)
  {
    hide Run, Block, Fields, HearAll, LinesOk, SaysChunked, SaysUpgrade, SaysLength, NeedsEof;
    BlockGoes(hc, c, hs);
    NeedsEofMeans(hc, c, hs, false);
    HearKeeps(SaidIn(c.p), hs);
    FlagsSaid(SaidIn(c.p), hs);
    NoLengthSaid(SaidIn(c.p), hs);
    assert Asked(hc, c, hs, false) == Seen(hc, c, hs);
  }

  lemma EofStart(hc: Decide, d: Conf, lf: byte)
    requires AtHeadersEnd(d, NO_LENGTH) && hc(HeadersSeen(d)) == Proceed && NeedsEof(HeadersSeen(d)) && !d.p.typ.Request?
    ensures ByteStep(hc, d, lf) ==
      (Conf(HeadersSeen(d).(nread := 0, state := BodyIdentityEof), Closed, d.out + [HeadersComplete]), Next)
  {
    hide Pass, ByteStep, Switch;
    HeadersFirst(hc, d, lf);
    HeadersPass(hc, HeadersSeen(d), lf);
    TwoPasses(hc, d, lf);
  }

  /** A response whose end is not in its bytes: all that follows the headers is its body. */
  lemma EofResponse(hc: Decide, c: Conf, blanks: seq<byte>, l: StatusLine, hs: seq<HeaderLine>, lf: byte, data: seq<byte>)
    requires c.p.state.StartRes? && !c.p.typ.Request? && Room(c, |blanks + StatusText(l)|) && Breaks(blanks) && StatusOk(l)
    requires AtHeaders(hc, AfterStatus(c, blanks, l), hs) && data != []
    requires !Bodyless(Spell(l.code))
    requires forall h :: h in hs ==> !SaysChunked(h) && !SaysUpgrade(h) && !SaysLength(h)
    ensures var r := Run(hc, c, blanks + StatusText(l) + (Block(hs) + ([lf] + data)));
      && r.ctl.Next? && r.conf.p.state.BodyIdentityEof? && r.conf.open == Open(Body, data)
      && r.conf.out == c.out + HttpStatusLine.Begins(|blanks| + 1) + Fields(hs) + [HeadersComplete]
  {
    hide Run, ByteStep, Block, Fields, LinesOk, SaysChunked, SaysUpgrade, SaysLength, StatusText, Spell,
      HttpStatusLine.Begins, Breaks, NeedsEof;
    var d := AfterStatus(c, blanks, l);
    StatusMade(l);
    StatusLineRead(hc, c, blanks, l);
    EofFirst(hc, d, hs);
    var e := Run(hc, d, Block(hs)).conf;
    EofStart(hc, e, lf);
    var f := ByteStep(hc, e, lf).0;
    GoesByte(hc, e, lf, f);
    EofBodyRun(hc, f, data);
    var g := f.(open := Open(Body, data));
    assert [] + data == data;
    GoesOn(hc, e, [lf], f, data, g);
    GoesOn(hc, d, Block(hs), e, [lf] + data, g);
    GoesOn(hc, c, blanks + StatusText(l), d, Block(hs) + ([lf] + data), g);
  }
}
