/** Whole messages, from the first line to the last byte of the body: the callbacks get the pieces of the
    text, in order, and nothing else. */
module HttpWhole {
  import opened HttpTypes
  import opened HttpStep
  import opened HttpRun
  import opened HttpBody
  import opened HttpHeaders
  import opened HttpStart
  import HttpStatusLine
  import HttpRequestLine
  import HttpUrlGrammar

  /** A request with a Content-Length, and neither chunks nor an upgrade. */
  lemma LengthRequest(hc: Decide, c: Conf, blanks: seq<byte>, l: HttpRequestLine.RequestLine, m: Method,
                      a: seq<HeaderLine>, h: HeaderLine, b: seq<HeaderLine>, lf: byte, data: seq<byte>)
    requires c.p.state.StartReq? && c.p.typ.Request? && Room(c, |blanks + HttpRequestLine.RequestText(l)|) && Breaks(blanks)
    requires HttpRequestLine.RequestOk(l, m) && AtHeaders(hc, HttpRequestLine.AfterRequest(c, blanks, l, m), a + [h] + b)
    requires forall k :: k in a + [h] + b ==> !SaysChunked(k) && !SaysUpgrade(k)
    requires SaysLength(h) && (forall k :: k in b ==> !SaysLength(k)) && LengthOf(h) == |data| && 0 < |data| < NO_LENGTH
    ensures var r := Run(hc, c, blanks + HttpRequestLine.RequestText(l) + (Block(a + [h] + b) + ([lf] + data)));
      && r.ctl.Next? && r.conf.open.Closed? && r.conf.p.state.StartReq?
      && r.conf.out == c.out + [Begin, Data(Kind.Url, HttpUrlGrammar.Text(l.target))] + Fields(a + [h] + b)
           + [HeadersComplete, Data(Body, data), Complete]
  {
    hide Run, Block, Fields, LinesOk, SaysChunked, SaysUpgrade, SaysLength, LengthOf, HttpRequestLine.RequestText,
      HttpRequestLine.RequestOk, AtHeaders;
    RequestProtocol(l, m);
    var d := HttpRequestLine.AfterRequest(c, blanks, l, m);
    HttpRequestLine.RequestLineRead(hc, c, blanks, l, m);
    ContentLengthMessage(hc, d, a, h, b, lf, data);
    RunAppend(hc, c, blanks + HttpRequestLine.RequestText(l), Block(a + [h] + b) + ([lf] + data));
  }

  lemma RequestProtocol(l: HttpRequestLine.RequestLine, m: Method)
    requires HttpRequestLine.RequestOk(l, m)
    ensures HttpRequestLine.ProtocolOk(l.protocol)
  {
  }

  /** A request without a length has no body. */
  lemma BodylessRequest(hc: Decide, c: Conf, blanks: seq<byte>, l: HttpRequestLine.RequestLine, m: Method,
                        hs: seq<HeaderLine>, lf: byte)
    requires c.p.state.StartReq? && c.p.typ.Request? && Room(c, |blanks + HttpRequestLine.RequestText(l)|) && Breaks(blanks)
    requires HttpRequestLine.RequestOk(l, m) && AtHeaders(hc, HttpRequestLine.AfterRequest(c, blanks, l, m), hs)
    requires forall k :: k in hs ==> !SaysChunked(k) && !SaysUpgrade(k) && !SaysLength(k)
    ensures var r := Run(hc, c, blanks + HttpRequestLine.RequestText(l) + (Block(hs) + [lf]));
      && r.ctl.Next? && r.conf.open.Closed? && r.conf.p.state.StartReq?
      && r.conf.out == c.out + [Begin, Data(Kind.Url, HttpUrlGrammar.Text(l.target))] + Fields(hs) + [HeadersComplete] + [Complete]
  {
    hide Run, Block, Fields, HearAll, LinesOk, SaysChunked, SaysUpgrade, SaysLength, HttpRequestLine.RequestText,
      HttpRequestLine.RequestOk;
    RequestProtocol(l, m);
    var d := HttpRequestLine.AfterRequest(c, blanks, l, m);
    HttpRequestLine.RequestLineRead(hc, c, blanks, l, m);
    HttpStatusLine.SeenStatus(hc, d, hs);
    FlagsSaid(SaidIn(d.p), hs);
    NoLengthSaid(SaidIn(d.p), hs);
    NoBodyMessage(hc, d, hs, lf);
    RunAppend(hc, c, blanks + HttpRequestLine.RequestText(l), Block(hs) + [lf]);
  }

  /** A response with a Content-Length, and neither chunks nor an upgrade. */
  lemma LengthResponse(hc: Decide, c: Conf, blanks: seq<byte>, l: HttpStatusLine.StatusLine,
                       a: seq<HeaderLine>, h: HeaderLine, b: seq<HeaderLine>, lf: byte, data: seq<byte>)
    requires c.p.state.StartRes? && !c.p.typ.Request? && Room(c, |blanks + HttpStatusLine.StatusText(l)|) && Breaks(blanks)
    requires HttpStatusLine.StatusOk(l) && AtHeaders(hc, HttpStatusLine.AfterStatus(c, blanks, l), a + [h] + b)
    requires forall k :: k in a + [h] + b ==> !SaysChunked(k) && !SaysUpgrade(k)
    requires SaysLength(h) && (forall k :: k in b ==> !SaysLength(k)) && LengthOf(h) == |data| && 0 < |data| < NO_LENGTH
    ensures var r := Run(hc, c, blanks + HttpStatusLine.StatusText(l) + (Block(a + [h] + b) + ([lf] + data)));
      && r.ctl.Next? && r.conf.open.Closed? && r.conf.p.state.StartRes?
      && r.conf.out == c.out + HttpStatusLine.Begins(|blanks| + 1) + Fields(a + [h] + b) + [HeadersComplete, Data(Body, data), Complete]
  {
    hide Run, Block, Fields, LinesOk, SaysChunked, SaysUpgrade, SaysLength, LengthOf, HttpStatusLine.StatusText,
      HttpStatusLine.StatusOk, AtHeaders, Spell, HttpStatusLine.Begins;
    var d := HttpStatusLine.AfterStatus(c, blanks, l);
    HttpStatusLine.StatusLineRead(hc, c, blanks, l);
    ContentLengthMessage(hc, d, a, h, b, lf, data);
    RunAppend(hc, c, blanks + HttpStatusLine.StatusText(l), Block(a + [h] + b) + ([lf] + data));
  }
}
