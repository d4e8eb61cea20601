/** The status line of a response (section 6.1 of RFC 2616): what the parser reads out of it, and that it
    lets nothing else through. */
module HttpStatusLine {
  import opened HttpTypes
  import opened HttpStep
  import opened HttpRun
  import opened HttpBody
  import opened HttpHeaders
  import opened HttpUrlGrammar
  import opened HttpStart

  datatype StatusLine = StatusLine(version: Version, gap: nat, code: seq<byte>, reason: Reason, ending: Ending)

  predicate StatusOk(l: StatusLine) {
    VersionOk(true, l.version) && l.gap > 0 && NumberOk(CODE, l.code) && ReasonOk(l.reason)
  }

  const CODE := Place(true, Code)

  function TailText(l: StatusLine): seq<byte> {
    ReasonText(l.reason) + EndText(l.ending)
  }

  function StatusText(l: StatusLine): seq<byte> {
    [LETTER_H] + VersionText(l.version) + Spaces(l.gap) + l.code + TailText(l)
  }

  // ---- behind the code ----

  lemma TailGoes(hc: Decide, c: Conf, l: StatusLine)
    requires c.p.state.ResStatusCode? && Room(c, |TailText(l)|) && ReasonOk(l.reason)
    ensures Goes(hc, c, TailText(l), Over(c, |TailText(l)|))
  {
    hide ByteStep, Goes, Run, EndText, DIGITS;
    if l.reason.NoReason? {
      LineEndGoes(hc, c, l.ending);
      assert [] + EndText(l.ending) == EndText(l.ending);
    } else {
      var c1 := Moved(c, c.p.(state := ResStatus));
      var c2 := Along(c1, |l.reason.text|);
      DotNoDigit();
      TailByte(hc, c, SP);
      GoesByte(hc, c, SP, c1);
      ReasonGoes(hc, c1, l.reason.text);
      GoesOn(hc, c, [SP], c1, l.reason.text, c2);
      LineEndGoes(hc, c2, l.ending);
      GoesOn(hc, c, [SP] + l.reason.text, c2, EndText(l.ending), Over(c2, |EndText(l.ending)|));
    }
  }

  lemma TailOnly(hc: Decide, c: Conf, data: seq<byte>, d: Conf) returns (r: Reason, e: Ending, rest: seq<byte>)
    requires c.p.state.ResStatusCode? && Room(c, |data|) && Goes(hc, c, data, d) && !InStatusLine(d.p.state)
    requires data != [] && data[0] !in DIGITS
    ensures data == ReasonText(r) + EndText(e) + rest && ReasonOk(r)
    ensures Goes(hc, Over(c, |ReasonText(r) + EndText(e)|), rest, d)
  {
    hide ByteStep, Goes, Run, EndText, DIGITS;
    TailByte(hc, c, data[0]);
    if data[0] == CR || data[0] == LF {
      r := NoReason;
      e, rest := LineEndOnly(hc, c, data, d);
      assert [] + EndText(e) == EndText(e);
    } else {
      PeelByte(hc, c, data, d);
      var c1 := Moved(c, c.p.(state := ResStatus));
      var text, more := ReasonOnly(hc, c1, data[1..], d);
      e, rest := LineEndOnly(hc, Along(c1, |text|), more, d);
      r := Reason(text);
      assert data == ReasonText(r) + EndText(e) + rest by {
        assert data == [SP] + data[1..];
      }
    }
  }

  // ---- the code ----

  /** At the code, and at the spaces before it. */
  function AtCode(c: Conf, n: nat): Conf {
    c.(p := c.p.(nread := c.p.nread + n, state := ResFirstStatus))
  }

  lemma GapByte(hc: Decide, c: Conf, ch: byte)
    requires c.p.state.ResMinor? && Room(c, 1) && ch !in DIGITS
    ensures if ch == SP then ByteStep(hc, c, ch) == (AtCode(c, 1), Next) else ByteStep(hc, c, ch).1.Fail?
  {
    hide ByteStep, DIGITS;
    Classes(ch);
    StatusByte(hc, c, ch);
  }

  lemma GapGoes(hc: Decide, c: Conf, n: nat)
    requires c.p.state.ResMinor? && Room(c, n) && n > 0
    ensures Goes(hc, c, Spaces(n), AtCode(c, n))
  {
    hide ByteStep, Goes, Run, DIGITS;
    DotNoDigit();
    GapByte(hc, c, SP);
    GoesByte(hc, c, SP, AtCode(c, 1));
    SpacesGo(hc, AtCode(c, 1), n - 1);
    GoesOn(hc, c, [SP], AtCode(c, 1), Spaces(n - 1), AtCode(c, n));
    assert Spaces(n) == [SP] + Spaces(n - 1);
  }

  lemma GapOnly(hc: Decide, c: Conf, data: seq<byte>, d: Conf) returns (n: nat, rest: seq<byte>)
    requires c.p.state.ResMinor? && Room(c, |data|) && Goes(hc, c, data, d) && !InStatusLine(d.p.state)
    requires data != [] && data[0] !in DIGITS
    ensures n > 0 && data == Spaces(n) + rest && rest != [] && rest[0] != SP && Goes(hc, AtCode(c, n), rest, d)
  {
    hide ByteStep, Goes, Run, DIGITS;
    GapByte(hc, c, data[0]);
    PeelByte(hc, c, data, d);
    n, rest := SpacesOnly(hc, AtCode(c, 1), data[1..], d);
    assert data == [SP] + data[1..] && Spaces(n + 1) == [SP] + Spaces(n);
    n := n + 1;
  }

  // ---- the line behind its first letter ----

  function RestText(l: StatusLine): seq<byte> {
    VersionText(l.version) + Spaces(l.gap) + l.code + TailText(l)
  }

  /** What is read out of a line: the numbers. */
  function AfterRest(c: Conf, l: StatusLine): Conf
    requires StatusOk(l)
  {
    Conf(c.p.(nread := c.p.nread + |RestText(l)|, state := HeaderFieldStart, major := Spell(l.version.major),
              minor := Spell(l.version.minor), status := Spell(l.code)), c.open, c.out)
  }

  lemma RestGoes(hc: Decide, c: Conf, l: StatusLine)
    requires c.p.state.ResH? && Room(c, |RestText(l)|) && StatusOk(l)
    ensures Goes(hc, c, RestText(l), AfterRest(c, l))
  {
    hide Goes, Run, VersionText, NumberOk, TailText, Spell, ReasonOk, Made, DIGITS;
    var c1 := AfterVersion(c, true, l.version);
    VersionGoes(hc, c, true, l.version);
    var c2 := AtCode(c1, l.gap);
    GapGoes(hc, c1, l.gap);
    GoesOn(hc, c, VersionText(l.version), c1, Spaces(l.gap), c2);
    CodeIs(l.code);
    var c3 := AfterNumber(c2, CODE, l.code);
    NumberRuns(hc, c2, CODE, l.code);
    GoesOn(hc, c, VersionText(l.version) + Spaces(l.gap), c2, l.code, c3);
    TailGoes(hc, c3, l);
    GoesOn(hc, c, VersionText(l.version) + Spaces(l.gap) + l.code, c3, TailText(l), Over(c3, |TailText(l)|));
  }

  lemma CodeIs(code: seq<byte>)
    requires NumberOk(CODE, code)
    ensures Written(CODE, code)
  {
  }

  lemma RestOnly(hc: Decide, c: Conf, data: seq<byte>, d: Conf) returns (l: StatusLine, rest: seq<byte>)
    requires c.p.state.ResH? && Room(c, |data|) && Goes(hc, c, data, d) && !InStatusLine(d.p.state) && !InRequestLine(d.p.state)
    ensures data == RestText(l) + rest && StatusOk(l) && Goes(hc, AfterRest(c, l), rest, d)
  {
    hide Goes, Run, VersionText, NumberOk, Spell, ReasonOk, ReasonText, EndText, Made, DIGITS;
    var v, rest1 := VersionOnly(hc, c, true, data, d);
    var c1 := AfterVersion(c, true, v);
    var n, rest2 := GapOnly(hc, c1, rest1, d);
    var c2 := AtCode(c1, n);
    var code, rest3 := NumberOnly(hc, c2, CODE, rest2, d);
    CodeIs(code);
    var c3 := AfterNumber(c2, CODE, code);
    var r, e;
    r, e, rest := TailOnly(hc, c3, rest3, d);
    l := StatusLine(v, n, code, r, e);
    assert data == RestText(l) + rest;
  }

  // ---- the line ----

  /** One beginning for each of them, as the code has it. */
  function Begins(n: nat): (s: seq<Event>)
    ensures |s| == n
  {
    seq(n, _ => Begin)
  }

  function Fresh(p: Parser): Parser {
    p.(flags := NO_FLAGS, contentLength := NO_LENGTH)
  }

  function AfterBlanks(c: Conf, n: nat): Conf {
    if n == 0 then c else Conf(Fresh(c.p).(nread := c.p.nread + n), Closed, c.out + Begins(n))
  }

  function AtWord(c: Conf): Conf {
    Conf(Fresh(c.p).(nread := c.p.nread + 1, state := ResH), Closed, c.out + [Begin])
  }

  lemma BeginByte(hc: Decide, c: Conf, ch: byte)
    requires c.p.state.StartRes? && Room(c, 1)
    ensures if ch == LETTER_H then ByteStep(hc, c, ch) == (AtWord(c), Next)
      else if ch == CR || ch == LF then ByteStep(hc, c, ch) == (AfterBlanks(c, 1), Next)
      else ByteStep(hc, c, ch).1.Fail?
  {
    hide Pass, ByteStep, Switch;
    StartPass(hc, Count(c.p), ch);
    assert Begins(1) == [Begin];
    if ch == LETTER_H || ch == CR || ch == LF {
      OnePass(hc, c, ch);
    } else {
      OneFailure(hc, c, ch);
    }
  }

  lemma BlanksMore(c: Conf, n: nat)
    ensures AfterBlanks(AfterBlanks(c, 1), n) == AfterBlanks(c, n + 1)
    ensures AtWord(AfterBlanks(c, n)) ==
      Conf(Fresh(c.p).(nread := c.p.nread + n + 1, state := ResH), Closed, c.out + Begins(n + 1))
  {
    assert Begins(1) + Begins(n) == Begins(n + 1) && Begins(n) + [Begin] == Begins(n + 1);
    assert c.out + Begins(1) + Begins(n) == c.out + (Begins(1) + Begins(n));
    assert c.out + Begins(n) + [Begin] == c.out + (Begins(n) + [Begin]);
  }

  lemma {:induction false} BlanksGo(hc: Decide, c: Conf, blanks: seq<byte>)
    requires c.p.state.StartRes? && Room(c, |blanks|) && Breaks(blanks)
    ensures Goes(hc, c, blanks, AfterBlanks(c, |blanks|))
    decreases blanks
  {
    hide ByteStep, Run, Goes;
    if blanks == [] {
      GoesNowhere(hc, c);
    } else {
      var d := AfterBlanks(c, 1);
      BeginByte(hc, c, blanks[0]);
      GoesByte(hc, c, blanks[0], d);
      BlanksGo(hc, d, blanks[1..]);
      BlanksMore(c, |blanks| - 1);
      GoesOn(hc, c, [blanks[0]], d, blanks[1..], AfterBlanks(c, |blanks|));
      assert blanks == [blanks[0]] + blanks[1..];
    }
  }

  lemma {:induction false} BlanksOnly(hc: Decide, c: Conf, data: seq<byte>, d: Conf) returns (blanks: seq<byte>, rest: seq<byte>)
    requires c.p.state.StartRes? && Room(c, |data|) && Goes(hc, c, data, d) && !d.p.state.StartRes?
    ensures data == blanks + [LETTER_H] + rest && Breaks(blanks) && Goes(hc, AtWord(AfterBlanks(c, |blanks|)), rest, d)
    decreases data
  {
    hide ByteStep, Run, Goes;
    if data == [] {
      Nothing(hc, c, d);
      assert false;
    }
    BeginByte(hc, c, data[0]);
    PeelByte(hc, c, data, d);
    if data[0] == LETTER_H {
      blanks, rest := [], data[1..];
      assert data == [] + [LETTER_H] + rest;
    } else {
      blanks, rest := BlanksOnly(hc, AfterBlanks(c, 1), data[1..], d);
      BlanksMore(c, |blanks|);
      blanks := [data[0]] + blanks;
    }
  }

  /** Behind a status line: the three numbers are the values of the digits, and nothing is left of the message
      before. */
  function AfterStatus(c: Conf, blanks: seq<byte>, l: StatusLine): Conf
    requires StatusOk(l)
  {
    Conf(c.p.(flags := NO_FLAGS, contentLength := NO_LENGTH, nread := c.p.nread + |blanks| + |StatusText(l)|,
              state := HeaderFieldStart, major := Spell(l.version.major), minor := Spell(l.version.minor), status := Spell(l.code)),
         Closed, c.out + Begins(|blanks| + 1))
  }

  lemma StatusParts(l: StatusLine)
    ensures StatusText(l) == [LETTER_H] + RestText(l)
  {
    hide VersionText, TailText;
  }

  /** What a status line is read as. */
  lemma StatusLineRead(hc: Decide, c: Conf, blanks: seq<byte>, l: StatusLine)
    requires c.p.state.StartRes? && Room(c, |blanks + StatusText(l)|) && Breaks(blanks) && StatusOk(l)
    ensures Goes(hc, c, blanks + StatusText(l), AfterStatus(c, blanks, l))
  {
    hide ByteStep, Goes, Run, StatusOk, RestText, StatusText, Spell, Made, DIGITS, Begins;
    StatusParts(l);
    StatusMade(l);
    var c1 := AfterBlanks(c, |blanks|);
    BlanksGo(hc, c, blanks);
    BeginByte(hc, c1, LETTER_H);
    GoesByte(hc, c1, LETTER_H, AtWord(c1));
    BlanksMore(c, |blanks|);
    RestGoes(hc, AtWord(c1), l);
    GoesOn(hc, c1, [LETTER_H], AtWord(c1), RestText(l), AfterStatus(c, blanks, l));
    GoesOn(hc, c, blanks, c1, StatusText(l), AfterStatus(c, blanks, l));
  }

  lemma StatusMade(l: StatusLine)
    requires StatusOk(l)
    ensures Made(l.version.major, DIGITS) && Made(l.version.minor, DIGITS) && Made(l.code, DIGITS)
  {
  }

  /** And a parser that is past the line has read one. */
  lemma StatusLineOnly(hc: Decide, c: Conf, data: seq<byte>, d: Conf) returns (blanks: seq<byte>, l: StatusLine, rest: seq<byte>)
    requires c.p.state.StartRes? && Room(c, |data|) && Goes(hc, c, data, d)
    requires !d.p.state.StartRes? && !InStatusLine(d.p.state) && !InRequestLine(d.p.state)
    ensures data == blanks + StatusText(l) + rest && Breaks(blanks) && StatusOk(l)
    ensures Goes(hc, AfterStatus(c, blanks, l), rest, d)
  {
    hide ByteStep, Goes, Run, StatusOk, RestText, StatusText, Spell, Made, DIGITS, Begins, InStatusLine, InRequestLine;
    var more;
    blanks, more := BlanksOnly(hc, c, data, d);
    BlanksMore(c, |blanks|);
    l, rest := RestOnly(hc, AtWord(AfterBlanks(c, |blanks|)), more, d);
    StatusParts(l);
    StatusMade(l);
    assert data == blanks + StatusText(l) + rest;
  }

  // ---- and on to the end of a message without a body ----

  /** The answers that have no body whatever their headers say. */
  predicate Bodyless(status: nat) {
    100 <= status <= 199 || status == 204 || status == 304
  }

  lemma SeenStatus(hc: Decide, c: Conf, hs: seq<HeaderLine>)
    requires AtHeaders(hc, c, hs)
    ensures Seen(hc, c, hs).status == c.p.status && Seen(hc, c, hs).typ == c.p.typ
  {
    hide Run, LinesOk, LinesText, Fields, HearAll;
    BlockGoes(hc, c, hs);
  }

  /** A response with one of these codes is complete with the empty line: the codes are those written in its
      status line. */
  lemma BodylessResponse(hc: Decide, c: Conf, blanks: seq<byte>, l: StatusLine, hs: seq<HeaderLine>, lf: byte)
    requires c.p.state.StartRes? && c.p.typ.Response? && Room(c, |blanks + StatusText(l)|) && Breaks(blanks) && StatusOk(l)
    requires Bodyless(Spell(l.code)) && AtHeaders(hc, AfterStatus(c, blanks, l), hs)
    requires forall h :: h in hs ==> !SaysChunked(h) && !SaysUpgrade(h) && !SaysLength(h)
    ensures var r := Run(hc, c, blanks + StatusText(l) + (Block(hs) + [lf]));
      && r.ctl.Next? && r.conf.open.Closed? && r.conf.p.state.StartRes?
      && r.conf.out == c.out + Begins(|blanks| + 1) + Fields(hs) + [HeadersComplete] + [Complete]
  {
    hide Run, Block, Fields, HearAll, LinesOk, SaysChunked, SaysUpgrade, SaysLength, StatusText, Spell, Begins, Breaks,
      StatusOk;
    var d := AfterStatus(c, blanks, l);
    StatusLineRead(hc, c, blanks, l);
    SeenStatus(hc, d, hs);
    FlagsSaid(SaidIn(d.p), hs);
    NoLengthSaid(SaidIn(d.p), hs);
    NoBodyMessage(hc, d, hs, lf);
    RunAppend(hc, c, blanks + StatusText(l), Block(hs) + [lf]);
  }
}
