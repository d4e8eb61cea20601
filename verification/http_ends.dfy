/** What else can come of the end of the headers: an upgrade, a body that the application skips, or a
    message that it refuses. */
module HttpEnds {
  import opened HttpTypes
  import opened HttpStep
  import opened HttpRun
  import opened HttpBody
  import opened HttpHeaders

  // ---- the end of the headers ----

  /** What on_headers_complete gets to see: the connection leaves HTTP after a CONNECT, or when a line has
      asked for an upgrade. */
  function HeadersShown(c: Conf): Parser {
    c.p.(nread := c.p.nread + 1, state := HeadersDone, upgrade := c.p.flags.upgrade || c.p.meth.CONNECT?)
  }

  /** At the last byte of the headers of a message. */
  predicate AtLast(c: Conf) {
    c.p.state.HeadersAlmostDone? && c.open.Closed? && c.p.nread < MAX_HEADER_SIZE && !c.p.flags.trailing
  }

  lemma LastFirst(hc: Decide, c: Conf, lf: byte)
    requires AtLast(c)
    ensures var q, o := HeadersShown(c), Pass(hc, Count(c.p), lf);
      && !Reads(Count(c.p).state) && o.act == Notify(HeadersComplete)
      && (hc(q).Proceed? ==> o.p == q && o.ctl.Again?)
      && (hc(q).SkipBody? ==> o.p == q.(flags := q.flags.(skipBody := true)) && o.ctl.Again?)
      && (hc(q).Refuse? ==> o.p == q.(errno := CbHeadersComplete) && o.ctl.Fail?)
  {
    hide Pass, ByteStep, Switch;
    HeadersPass(hc, Count(c.p), lf);
    assert Count(c.p).(state := HeadersDone, upgrade := HeadersShown(c).upgrade) == HeadersShown(c);
  }

  /** Two passes, the second of which ends the call. */
  lemma TwoAndStop(hc: Decide, c: Conf, ch: byte)
    requires !Reads(c.p.state) && (!ParsingHeader(c.p.state) || c.p.nread < MAX_HEADER_SIZE)
    requires Pass(hc, Count(c.p), ch).ctl.Again?
    ensures var o := Pass(hc, Count(c.p), ch);
      var u := Pass(hc, o.p, ch);
      u.ctl.Stop? ==> ByteStep(hc, c, ch) == (Perform(u.act, Perform(o.act, c.(p := o.p)).(p := u.p)), Stop)
  {
    var o := Pass(hc, Count(c.p), ch);
    var d := Perform(o.act, c.(p := o.p));
    var u := Pass(hc, o.p, ch);
    hide Pass, Perform;
    if u.ctl.Stop? {
      assert Switch(hc, d, ch) == (Perform(u.act, d.(p := u.p)), Stop);
    }
  }

  lemma OneAndFail(hc: Decide, c: Conf, ch: byte)
    requires !Reads(c.p.state) && (!ParsingHeader(c.p.state) || c.p.nread < MAX_HEADER_SIZE)
    requires Pass(hc, Count(c.p), ch).ctl.Fail?
    ensures var o := Pass(hc, Count(c.p), ch); ByteStep(hc, c, ch) == (Perform(o.act, c.(p := o.p)), Fail)
  {
    hide Pass, Perform;
  }

  lemma UpgradeByte(hc: Decide, c: Conf, lf: byte)
    requires AtLast(c) && !hc(HeadersShown(c)).Refuse? && HeadersShown(c).upgrade
    ensures var (d, k) := ByteStep(hc, c, lf);
      k.Stop? && d.open.Closed? && d.p.upgrade && d.p.state == NewMessage(c.p) && d.out == c.out + [HeadersComplete] + [Complete]
  {
    hide Pass, ByteStep, Switch;
    LastFirst(hc, c, lf);
    var o := Pass(hc, Count(c.p), lf);
    HeadersPass(hc, o.p, lf);
    TwoAndStop(hc, c, lf);
  }

  lemma SkipByte(hc: Decide, c: Conf, lf: byte)
    requires AtLast(c) && hc(HeadersShown(c)).SkipBody? && !HeadersShown(c).upgrade
    ensures var (d, k) := ByteStep(hc, c, lf);
      k.Next? && d.open.Closed? && d.p.state == NewMessage(c.p) && d.out == c.out + [HeadersComplete] + [Complete]
  {
    hide Pass, ByteStep, Switch;
    LastFirst(hc, c, lf);
    var o := Pass(hc, Count(c.p), lf);
    HeadersPass(hc, o.p, lf);
    TwoPasses(hc, c, lf);
  }

  lemma RefuseByte(hc: Decide, c: Conf, lf: byte)
    requires AtLast(c) && hc(HeadersShown(c)).Refuse?
    ensures var (d, k) := ByteStep(hc, c, lf);
      k.Fail? && d.p.errno.CbHeadersComplete? && d.out == c.out + [HeadersComplete]
  {
    hide Pass, ByteStep, Switch;
    LastFirst(hc, c, lf);
    OneAndFail(hc, c, lf);
  }

  // ---- from the header lines on ----

  /** At the header lines `hs` of a message. */
  ghost predicate AtLines(c: Conf, hs: seq<HeaderLine>) {
    AtLine(c.p.state) && c.open.Closed? && LinesOk(hs) && c.p.nread + |Block(hs)| < MAX_HEADER_SIZE && !c.p.flags.trailing
  }

  /** What on_headers_complete gets to see after the lines. */
  function Shown(hc: Decide, c: Conf, hs: seq<HeaderLine>): Parser {
    HeadersShown(Run(hc, c, Block(hs)).conf)
  }

  lemma ToLast(hc: Decide, c: Conf, hs: seq<HeaderLine>)
    requires AtLines(c, hs)
    ensures var d := Run(hc, c, Block(hs)).conf;
      && Goes(hc, c, Block(hs), d) && AtLast(d) && d.out == c.out + Fields(hs) && d.p.typ == c.p.typ && NewMessage(d.p) == NewMessage(c.p)
      && (HeadersShown(d).upgrade <==> c.p.meth.CONNECT? || c.p.flags.upgrade || exists h :: h in hs && SaysUpgrade(h))
  {
    hide Run, Block, Fields, HearAll, LinesOk, SaysUpgrade, SaysChunked;
    BlockGoes(hc, c, hs);
    HearKeeps(SaidIn(c.p), hs);
    FlagsSaid(SaidIn(c.p), hs);
  }

  /** After a CONNECT, and when some Upgrade line has a value: the call ends with the empty line, all that
      follows is left to the application, and the message is complete. */
  lemma UpgradeMessage(hc: Decide, c: Conf, hs: seq<HeaderLine>, lf: byte, rest: seq<byte>)
    requires AtLines(c, hs) && !hc(Shown(hc, c, hs)).Refuse?
    requires c.p.meth.CONNECT? || exists h :: h in hs && SaysUpgrade(h)
    ensures var r := Run(hc, c, Block(hs) + ([lf] + rest));
      && r.ctl.Stop? && r.consumed == |Block(hs)| + 1 && r.conf.p.upgrade && r.conf.p.state == NewMessage(c.p)
      && r.conf.out == c.out + Fields(hs) + [HeadersComplete] + [Complete]
  {
    hide Run, ByteStep, Block, Fields, LinesOk, SaysUpgrade, NewMessage;
    var d := Run(hc, c, Block(hs)).conf;
    ToLast(hc, c, hs);
    UpgradeByte(hc, d, lf);
    RunAppend(hc, c, Block(hs), [lf] + rest);
    RunStops(hc, d, lf, rest);
  }

  /** A message whose body the application skips is complete with the empty line, whatever its length. */
  lemma SkippedMessage(hc: Decide, c: Conf, hs: seq<HeaderLine>, lf: byte)
    requires AtLines(c, hs) && hc(Shown(hc, c, hs)).SkipBody?
    requires !c.p.meth.CONNECT? && !c.p.flags.upgrade && forall h :: h in hs ==> !SaysUpgrade(h)
    ensures var r := Run(hc, c, Block(hs) + [lf]);
      && r.ctl.Next? && r.conf.open.Closed? && r.conf.p.state == NewMessage(c.p)
      && r.conf.out == c.out + Fields(hs) + [HeadersComplete] + [Complete]
  {
    hide Run, ByteStep, Block, Fields, LinesOk, SaysUpgrade, NewMessage;
    var d := Run(hc, c, Block(hs)).conf;
    ToLast(hc, c, hs);
    SkipByte(hc, d, lf);
    var e := ByteStep(hc, d, lf).0;
    GoesByte(hc, d, lf, e);
    GoesOn(hc, c, Block(hs), d, [lf], e);
  }

  /** A message that the application refuses is an error at the last byte of its headers. */
  lemma RefusedMessage(hc: Decide, c: Conf, hs: seq<HeaderLine>, lf: byte, rest: seq<byte>)
    requires AtLines(c, hs) && hc(Shown(hc, c, hs)).Refuse?
    ensures var r := Run(hc, c, Block(hs) + ([lf] + rest));
      && r.ctl.Fail? && r.consumed == |Block(hs)| && r.conf.p.errno.CbHeadersComplete?
      && r.conf.out == c.out + Fields(hs) + [HeadersComplete]
  {
    hide Run, ByteStep, Block, Fields, LinesOk, SaysUpgrade;
    var d := Run(hc, c, Block(hs)).conf;
    ToLast(hc, c, hs);
    RefuseByte(hc, d, lf);
    RunAppend(hc, c, Block(hs), [lf] + rest);
    RunStops(hc, d, lf, rest);
  }

  lemma RunStops(hc: Decide, c: Conf, ch: byte, rest: seq<byte>)
    requires ByteStep(hc, c, ch).1.Stop? || ByteStep(hc, c, ch).1.Fail?
    ensures Run(hc, c, [ch] + rest) ==
      Result(ByteStep(hc, c, ch).0, if ByteStep(hc, c, ch).1.Stop? then 1 else 0, ByteStep(hc, c, ch).1)
  {
    hide ByteStep;
    assert ([ch] + rest)[0] == ch;
  }
}
