/** The request line (section 5.1 of RFC 2616, and the line of HTTP/0.9): what the parser reads out of it,
    and that it lets nothing else through. */
module HttpRequestLine {
  import opened HttpTypes
  import opened HttpStep
  import opened HttpRun
  import opened HttpBody
  import opened HttpHeaders
  import opened HttpUrl
  import opened HttpUrlGrammar
  import opened HttpStart
  import opened HttpMethod
  import HttpStatusLine

  /** What stands behind the target. */
  datatype Protocol = Unnamed | Named(gap: nat, version: Version)

  datatype RequestLine = RequestLine(name: seq<byte>, gap: nat, target: Url, protocol: Protocol, ending: Ending)

  /** The host is complete, or there is a path without one. */
  predicate Ended(u: Url) {
    Addressed(u.front) || u.path != []
  }

  predicate ProtocolOk(p: Protocol) {
    p.Named? ==> p.gap > 0 && VersionOk(false, p.version)
  }

  predicate CrLf(e: Ending) {
    e.Cr? ==> e.next == LF
  }

  ghost predicate RequestOk(l: RequestLine, m: Method) {
    && Spelled(m, l.name) && l.gap > 0 && UrlOk(l.target, m.CONNECT?) && Ended(l.target)
    && ProtocolOk(l.protocol) && CrLf(l.ending)
  }

  function ProtocolText(p: Protocol): seq<byte> {
    match p
    case Unnamed => []
    case Named(n, v) => Spaces(n) + [LETTER_H] + VersionText(v)
  }

  function TailText(p: Protocol, e: Ending): seq<byte> {
    ProtocolText(p) + EndText(e)
  }

  function RequestText(l: RequestLine): seq<byte> {
    l.name + Spaces(l.gap) + Text(l.target) + TailText(l.protocol, l.ending)
  }

  // ---- one byte ----

  lemma MethodPass(hc: Decide, p: Parser, ch: byte)
    requires p.state.ReqMethod?
    ensures !Reads(p.state) && Pass(hc, p, ch) == MethodStep(p, ch)
  {
    hide StartStep, MethodStep, StatusLineStep, UrlStep, RequestLineStep, FieldStep, ValueStep, HeadersStep, ChunkStep;
  }

  lemma MethodByte(hc: Decide, c: Conf, ch: byte)
    requires c.p.state.ReqMethod? && Room(c, 1)
    ensures var o := MethodStep(Count(c.p), ch);
      if o.ctl.Next? then ByteStep(hc, c, ch) == (c.(p := o.p), Next) else ByteStep(hc, c, ch).1.Fail?
  {
    hide Pass, ByteStep, Switch, Rematch, Matcher;
    MethodPass(hc, Count(c.p), ch);
    if MethodStep(Count(c.p), ch).ctl.Next? {
      OnePass(hc, c, ch);
    } else {
      OneFailure(hc, c, ch);
    }
  }

  // ---- the method ----

  /** After k letters that are taken for the beginning of m. */
  function InMethod(c: Conf, m: Method, k: nat): Conf {
    Conf(c.p.(flags := NO_FLAGS, contentLength := NO_LENGTH, nread := c.p.nread + k, state := ReqMethod, meth := m, index := k),
         Closed, c.out + [Begin])
  }

  /** Behind the space after the method. */
  function AfterMethod(c: Conf, m: Method): Conf {
    var k := |Name(m)| + 1;
    Conf(c.p.(flags := NO_FLAGS, contentLength := NO_LENGTH, nread := c.p.nread + k, state := SpacesBeforeUrl, meth := m, index := k),
         Closed, c.out + [Begin])
  }

  lemma FirstByte(hc: Decide, c: Conf, ch: byte)
    requires c.p.state.StartReq? && Room(c, 1)
    ensures if Break(ch) then ByteStep(hc, c, ch) == (Along(c, 1), Next)
      else if StartsMethod(ch) then ByteStep(hc, c, ch) == (InMethod(c, FirstMethod(ch), 1), Next)
      else ByteStep(hc, c, ch).1.Fail?
  {
    hide Pass, ByteStep, Switch;
    StartPass(hc, Count(c.p), ch);
    if Break(ch) || StartsMethod(ch) {
      OnePass(hc, c, ch);
    } else {
      OneFailure(hc, c, ch);
    }
  }

  /** The first letter of every name leads to its first guess, and back. */
  lemma FirstGuess(m: Method)
    ensures var b := Name(m)[0] as int; 0 <= b < 256 && StartsMethod(b) && FirstMethod(b) == GuessAt(m, 1) && !Break(b)
  {
  }

  lemma GuessFirst(b: byte)
    requires StartsMethod(b)
    ensures Begun(FirstMethod(b), [b]) && GuessAt(FirstMethod(b), 1) == FirstMethod(b)
  {
  }

  lemma {:induction false} NameGoes(hc: Decide, c: Conf, m: Method, name: seq<byte>, k: nat)
    requires c.p.state.StartReq? && Room(c, |name|) && Spelled(m, name) && 0 < k <= |name|
    ensures Goes(hc, c, name[..k], InMethod(c, GuessAt(m, k), k))
    decreases k
  {
    hide ByteStep, Goes, Run, Name, Letter, GuessAt, MethodStep, FirstMethod, StartsMethod;
    if k == 1 {
      FirstIs(m, name);
      FirstGuess(m);
      FirstByte(hc, c, name[0]);
      GoesByte(hc, c, name[0], InMethod(c, GuessAt(m, 1), 1));
      assert name[..1] == [name[0]];
    } else {
      NameGoes(hc, c, m, name, k - 1);
      var d := InMethod(c, GuessAt(m, k - 1), k - 1);
      NextLetter(Count(d.p), m, k - 1, name[k - 1]);
      MethodByte(hc, d, name[k - 1]);
      OneMore(hc, c, name[..k - 1], d, name[k - 1]);
      assert name[..k] == name[..k - 1] + [name[k - 1]];
    }
  }

  lemma FirstIs(m: Method, name: seq<byte>)
    requires Begun(m, name)
    ensures name[0] as int == Name(m)[0] as int
  {
    hide Name, Lax;
    assert Letter(m, 0, name[0]);
  }

  lemma MethodGoes(hc: Decide, c: Conf, m: Method, name: seq<byte>)
    requires c.p.state.StartReq? && Room(c, |name| + 1) && Spelled(m, name)
    ensures Goes(hc, c, name + [SP], AfterMethod(c, m))
  {
    hide ByteStep, Goes, Run, Name, Letter, GuessAt, MethodStep;
    var d := InMethod(c, GuessAt(m, |name|), |name|);
    NameGoes(hc, c, m, name, |name|);
    assert name[..|name|] == name;
    NameEnd(Count(d.p), m);
    MethodByte(hc, d, SP);
    OneMore(hc, c, name, d, SP);
  }

  lemma {:induction false} LettersOnly(hc: Decide, c: Conf, m: Method, t: seq<byte>, data: seq<byte>, d: Conf)
    returns (n: Method, more: seq<byte>, rest: seq<byte>)
    requires Begun(m, t) && GuessAt(m, |t|) == m && Room(InMethod(c, m, |t|), |data|)
    requires Goes(hc, InMethod(c, m, |t|), data, d) && !d.p.state.ReqMethod?
    ensures data == more + [SP] + rest && Spelled(n, t + more) && Goes(hc, AfterMethod(c, n), rest, d)
    decreases data
  {
    hide ByteStep, Goes, Run, Name, Letter, GuessAt, MethodStep, Begun;
    var e := InMethod(c, m, |t|);
    if data == [] {
      Nothing(hc, e, d);
      assert false;
    }
    MethodByte(hc, e, data[0]);
    PeelByte(hc, e, data, d);
    assert Count(e.p) == AtLetter(Count(e.p), m, |t|);
    LetterTaken(Count(e.p), m, t, data[0]);
    n := ByteStep(hc, e, data[0]).0.p.meth;
    if ByteStep(hc, e, data[0]).0.p.state.SpacesBeforeUrl? {
      more, rest := [], data[1..];
      assert t + more == t && data == [] + [SP] + rest;
    } else {
      n, more, rest := LettersOnly(hc, c, n, t + [data[0]], data[1..], d);
      assert t + [data[0]] + more == t + ([data[0]] + more);
      more := [data[0]] + more;
    }
  }

  lemma MethodOnly(hc: Decide, c: Conf, data: seq<byte>, d: Conf) returns (m: Method, name: seq<byte>, rest: seq<byte>)
    requires c.p.state.StartReq? && Room(c, |data|) && Goes(hc, c, data, d) && !d.p.state.ReqMethod?
    requires data != [] && !Break(data[0])
    ensures data == name + [SP] + rest && Spelled(m, name) && Goes(hc, AfterMethod(c, m), rest, d)
  {
    hide ByteStep, Goes, Run, Name, Letter, GuessAt, FirstMethod, StartsMethod, Begun;
    FirstByte(hc, c, data[0]);
    PeelByte(hc, c, data, d);
    GuessFirst(data[0]);
    m, name, rest := LettersOnly(hc, c, FirstMethod(data[0]), [data[0]], data[1..], d);
    name := [data[0]] + name;
  }

  // ---- the target ----

  predicate White(ch: byte) {
    ch == SP || ch == CR || ch == LF
  }

  /** Behind i bytes of the target. */
  function InTarget(c: Conf, t: seq<byte>, i: nat): Conf
    requires i <= |t|
  {
    Conf(c.p.(nread := c.p.nread + i, state := StateAt(t, c.p.meth.CONNECT?, i)), Open(Kind.Url, t[..i]), c.out)
  }

  lemma TargetFirst(hc: Decide, c: Conf, ch: byte)
    requires c.p.state.SpacesBeforeUrl? && Room(c, 1) && ch != SP
    ensures var s := UrlChar(StartState(c.p.meth.CONNECT?), ch);
      if s.Dead? then ByteStep(hc, c, ch).1.Fail?
      else ByteStep(hc, c, ch) == (Conf(c.p.(nread := c.p.nread + 1, state := s), Open(Kind.Url, [ch]), c.out), Next)
  {
    hide ByteStep, UrlChar;
    UrlByte(hc, c, ch);
    assert [] + [ch] == [ch];
  }

  lemma TargetNext(hc: Decide, c: Conf, ch: byte)
    requires InUrl(c.p.state) && c.open.Open? && c.p.nread < MAX_HEADER_SIZE && !White(ch)
    ensures var s := UrlChar(c.p.state, ch);
      if s.Dead? then ByteStep(hc, c, ch).1.Fail?
      else ByteStep(hc, c, ch) == (Conf(c.p.(nread := c.p.nread + 1, state := s), Open(c.open.kind, c.open.bytes + [ch]), c.out), Next)
  {
    hide ByteStep, UrlChar;
    UrlByte(hc, c, ch);
  }

  lemma TargetEnd(hc: Decide, c: Conf, ch: byte)
    requires InUrl(c.p.state) && c.open.Open? && c.open.kind.Url? && c.p.nread < MAX_HEADER_SIZE && White(ch)
    ensures if !UrlMayEnd(c.p.state) then ByteStep(hc, c, ch).1.Fail?
      else if ch == SP then ByteStep(hc, c, ch) == (Behind(c, HttpStart), Next)
      else ByteStep(hc, c, ch) == (Old(Behind(c, if ch == CR then ReqLineAlmostDone else HeaderFieldStart)), Next)
  {
    hide ByteStep, UrlChar;
    UrlByte(hc, c, ch);
  }

  /** Behind the byte after the target, which the callback has had. */
  function Behind(c: Conf, s: State): Conf
    requires c.open.Open?
  {
    Conf(c.p.(nread := c.p.nread + 1, state := s), Closed, c.out + [Data(Kind.Url, c.open.bytes)])
  }

  /** Without a name of the protocol it is HTTP/0.9. */
  function Old(c: Conf): Conf {
    c.(p := c.p.(major := 0, minor := 9))
  }

  /** The run over the target goes on as long as it can still become a URL. */
  lemma {:induction false} TargetRuns(hc: Decide, c: Conf, t: seq<byte>, i: nat)
    requires c.p.state.SpacesBeforeUrl? && Room(c, |t|) && 0 < i <= |t| && forall k :: 0 <= k < |t| ==> !White(t[k])
    ensures if Alive(t, c.p.meth.CONNECT?, i) then Goes(hc, c, t[..i], InTarget(c, t, i)) else !Run(hc, c, t[..i]).ctl.Next?
    decreases i
  {
    hide ByteStep, Goes, Run, Alive, StateAt, UrlChar;
    var connect := c.p.meth.CONNECT?;
    assert t[..i] == t[..i - 1] + [t[i - 1]];
    AliveNone(t, connect);
    if i == 1 {
      AliveMore(t, connect, 0);
      TargetFirst(hc, c, t[0]);
      GoesNowhere(hc, c);
      OneMore(hc, c, [], c, t[0]);
      assert t[..0] == [] && t[..1] == [t[0]];
      NotAlive(t, connect, 1);
    } else {
      TargetRuns(hc, c, t, i - 1);
      NotAlive(t, connect, i);
      if Alive(t, connect, i - 1) {
        AliveUrl(t, connect, i - 1);
        AliveMore(t, connect, i - 1);
        TargetNext(hc, InTarget(c, t, i - 1), t[i - 1]);
        OneMore(hc, c, t[..i - 1], InTarget(c, t, i - 1), t[i - 1]);
      } else {
        NoMore(hc, c, t[..i - 1], [t[i - 1]]);
      }
    }
  }

  lemma NotAlive(t: seq<byte>, connect: bool, i: nat)
    requires 0 < i <= |t|
    ensures Alive(t, connect, i) <==> Alive(t, connect, i - 1) && !StateAt(t, connect, i).Dead?
  {
  }

  /** A URL ends where the parser may leave it. */
  lemma UrlEnds(u: Url, connect: bool)
    requires UrlOk(u, connect)
    ensures UrlMayEnd(StateOf(u, connect)) <==> Ended(u)
  {
    hide Made, LETTERS, DIGITS, HOST_BYTES, ADDRESS_BYTES, PATH_BYTES, QUERY_BYTES, FRAGMENT_BYTES;
  }

  function WhiteAt(data: seq<byte>): (n: nat)
    ensures n <= |data| && (forall i :: 0 <= i < n ==> !White(data[i])) && (n < |data| ==> White(data[n]))
  {
    if data == [] || White(data[0]) then 0 else 1 + WhiteAt(data[1..])
  }

  /** Behind the target, its URL in the mark. */
  function AtTargetEnd(c: Conf, u: Url): Conf {
    Conf(c.p.(nread := c.p.nread + |Text(u)|, state := StateOf(u, c.p.meth.CONNECT?)), Open(Kind.Url, Text(u)), c.out)
  }

  lemma AliveNotWhite(t: seq<byte>, connect: bool, i: nat)
    requires i < |t| && Alive(t, connect, |t|)
    ensures !White(t[i])
  {
    hide UrlChar;
    assert StateAt(t, connect, i + 1) == UrlChar(StateAt(t, connect, i), t[i]);
    if White(t[i]) {
      WhiteDies(StateAt(t, connect, i), t[i]);
    }
  }

  lemma WhiteDies(s: State, ch: byte)
    requires White(ch)
    ensures UrlChar(s, ch).Dead?
  {
  }

  lemma TargetGoes(hc: Decide, c: Conf, u: Url)
    requires c.p.state.SpacesBeforeUrl? && Room(c, |Text(u)|) && UrlOk(u, c.p.meth.CONNECT?) && Ended(u)
    ensures Goes(hc, c, Text(u), AtTargetEnd(c, u)) && Text(u) != [] && UrlMayEnd(StateOf(u, c.p.meth.CONNECT?))
  {
    hide Goes, Run, Alive, StateAt, StateOf, Cut, Parts, Text, UrlOk;
    var t, connect := Text(u), c.p.meth.CONNECT?;
    assert t[..|t|] == t;
    WrittenRuns(t, connect, |t|, u);
    UrlEnds(u, connect);
    TextNothing(u, connect);
    NothingGoesOn(connect);
    forall k | 0 <= k < |t| ensures !White(t[k]) {
      AliveNotWhite(t, connect, k);
    }
    TargetRuns(hc, c, t, |t|);
  }

  lemma NothingGoesOn(connect: bool)
    ensures !UrlMayEnd(StateOf(NOTHING, connect))
  {
  }

  lemma TargetOnly(hc: Decide, c: Conf, data: seq<byte>, d: Conf) returns (u: Url, rest: seq<byte>)
    requires c.p.state.SpacesBeforeUrl? && Room(c, |data|) && Goes(hc, c, data, d)
    requires data != [] && data[0] != SP && !InUrl(d.p.state)
    ensures data == Text(u) + rest && UrlOk(u, c.p.meth.CONNECT?) && Ended(u) && rest != [] && White(rest[0])
    ensures Goes(hc, AtTargetEnd(c, u), rest, d)
    ensures InUrl(AtTargetEnd(c, u).p.state) && UrlMayEnd(AtTargetEnd(c, u).p.state)
  {
    hide ByteStep, Goes, Run, Alive, StateAt, StateOf, Cut, Parts, Text, UrlOk, UrlMayEnd, UrlNoSpace, UrlChar;
    var n, connect := WhiteAt(data), c.p.meth.CONNECT?;
    var t := data[..n];
    rest := data[n..];
    assert data == t + rest && t[..|t|] == t;
    TargetFirst(hc, c, data[0]);
    PeelByte(hc, c, data, d);
    if White(data[0]) {
      WhiteDies(StartState(connect), data[0]);
      assert false;
    }
    TargetRuns(hc, c, t, |t|);
    Peel(hc, c, t, rest, d);
    u := ReadUrl(t, connect, |t|);
    WrittenRuns(t, connect, |t|, u);
    AliveUrl(t, connect, |t|);
    var e := AtTargetEnd(c, u);
    GoesTo(hc, c, t, e);
    if rest == [] {
      Nothing(hc, e, d);
      assert false;
    }
    TargetEnd(hc, e, rest[0]);
    PeelByte(hc, e, rest, d);
    UrlEnds(u, connect);
  }

  // ---- behind the target ----

  function MajorOf(p: Protocol): nat
    requires ProtocolOk(p)
  {
    if p.Unnamed? then 0 else Spell(p.version.major)
  }

  function MinorOf(p: Protocol): nat
    requires ProtocolOk(p)
  {
    if p.Unnamed? then 9 else Spell(p.version.minor)
  }

  lemma EndByte(hc: Decide, c: Conf, ch: byte)
    requires c.p.state.ReqMinor? && Room(c, 1) && ch !in DIGITS
    ensures if ch == CR then ByteStep(hc, c, ch) == (Moved(c, c.p.(state := ReqLineAlmostDone)), Next)
      else if ch == LF then ByteStep(hc, c, ch) == (Over(c, 1), Next)
      else ByteStep(hc, c, ch).1.Fail?
  {
    hide ByteStep, DIGITS;
    Classes(ch);
    RequestByte(hc, c, ch);
  }

  lemma LastByte(hc: Decide, c: Conf, ch: byte)
    requires c.p.state.ReqLineAlmostDone? && Room(c, 1)
    ensures if ch == LF then ByteStep(hc, c, ch) == (Over(c, 1), Next) else ByteStep(hc, c, ch).1.Fail?
  {
    hide ByteStep;
    RequestByte(hc, c, ch);
  }

  /** The end of the line, from the state after the byte that begins it. */
  lemma EndGoes(hc: Decide, c: Conf, d: Conf, e: Ending)
    requires Room(d, |EndText(e)| - 1) && CrLf(e)
    requires e.Lf? ==> ByteStep(hc, c, LF) == (Over(d, 0), Next)
    requires e.Cr? ==> ByteStep(hc, c, CR) == (d.(p := d.p.(state := ReqLineAlmostDone)), Next)
    ensures Goes(hc, c, EndText(e), Over(d, |EndText(e)| - 1))
  {
    hide ByteStep, Goes, Run;
    if e.Lf? {
      GoesByte(hc, c, LF, Over(d, 0));
    } else {
      var a := d.(p := d.p.(state := ReqLineAlmostDone));
      GoesByte(hc, c, CR, a);
      LastByte(hc, a, LF);
      GoesByte(hc, a, LF, Over(d, 1));
      GoesOn(hc, c, [CR], a, [LF], Over(d, 1));
    }
  }

  lemma EndOnly(hc: Decide, a: Conf, data: seq<byte>, d: Conf) returns (rest: seq<byte>)
    requires a.p.state.ReqLineAlmostDone? && Room(a, |data|) && Goes(hc, a, data, d) && !d.p.state.ReqLineAlmostDone?
    ensures data == [LF] + rest && Goes(hc, Over(a, 1), rest, d)
  {
    hide ByteStep, Goes, Run;
    if data == [] {
      Nothing(hc, a, d);
      assert false;
    }
    LastByte(hc, a, data[0]);
    PeelByte(hc, a, data, d);
    rest := data[1..];
  }

  /** A mark is set, of a URL that may end here. */
  predicate AtUrlEnd(c: Conf, n: nat) {
    InUrl(c.p.state) && UrlMayEnd(c.p.state) && c.open.Open? && c.open.kind.Url? && c.p.nread + n <= MAX_HEADER_SIZE
  }

  /** At the version, behind the spaces and the first letter. */
  function AtHttp(c: Conf, gap: nat): Conf
    requires c.open.Open?
  {
    var b := Behind(c, HttpH);
    b.(p := b.p.(nread := c.p.nread + gap + 1))
  }

  lemma HttpByte(hc: Decide, c: Conf, ch: byte)
    requires c.p.state.HttpStart? && Room(c, 1) && ch != SP
    ensures if ch == LETTER_H then ByteStep(hc, c, ch) == (Moved(c, c.p.(state := HttpH)), Next) else ByteStep(hc, c, ch).1.Fail?
  {
    hide ByteStep;
    RequestByte(hc, c, ch);
  }

  lemma HttpGoes(hc: Decide, c: Conf, gap: nat)
    requires gap > 0 && AtUrlEnd(c, gap + 1)
    ensures Goes(hc, c, Spaces(gap) + [LETTER_H], AtHttp(c, gap))
  {
    hide ByteStep, Goes, Run, InUrl, UrlMayEnd;
    var c1 := Behind(c, HttpStart);
    var c2 := Along(c1, gap - 1);
    TargetEnd(hc, c, SP);
    GoesByte(hc, c, SP, c1);
    SpacesGo(hc, c1, gap - 1);
    GoesOn(hc, c, [SP], c1, Spaces(gap - 1), c2);
    assert Spaces(gap) == [SP] + Spaces(gap - 1);
    HttpByte(hc, c2, LETTER_H);
    GoesByte(hc, c2, LETTER_H, AtHttp(c, gap));
    GoesOn(hc, c, Spaces(gap), c2, [LETTER_H], AtHttp(c, gap));
  }

  lemma HttpOnly(hc: Decide, c: Conf, data: seq<byte>, d: Conf) returns (gap: nat, rest: seq<byte>)
    requires AtUrlEnd(c, |data|) && Goes(hc, c, data, d) && !InRequestLine(d.p.state) && data != [] && data[0] == SP
    ensures gap > 0 && data == Spaces(gap) + [LETTER_H] + rest && Goes(hc, AtHttp(c, gap), rest, d)
  {
    hide ByteStep, Goes, Run, InUrl, UrlMayEnd;
    var c1 := Behind(c, HttpStart);
    TargetEnd(hc, c, SP);
    PeelByte(hc, c, data, d);
    var n, more := SpacesOnly(hc, c1, data[1..], d);
    var c2 := Along(c1, n);
    HttpByte(hc, c2, more[0]);
    PeelByte(hc, c2, more, d);
    gap, rest := n + 1, more[1..];
    assert Spaces(gap) == [SP] + Spaces(n) && more == [LETTER_H] + rest && data == [SP] + data[1..];
  }

  function AfterTail(c: Conf, p: Protocol, e: Ending): Conf
    requires c.open.Open? && ProtocolOk(p)
  {
    Conf(c.p.(nread := c.p.nread + |TailText(p, e)|, state := HeaderFieldStart, major := MajorOf(p), minor := MinorOf(p)),
         Closed, c.out + [Data(Kind.Url, c.open.bytes)])
  }

  lemma OldGoes(hc: Decide, c: Conf, p: Protocol, e: Ending)
    requires AtUrlEnd(c, |TailText(p, e)|) && p.Unnamed? && CrLf(e)
    ensures Goes(hc, c, TailText(p, e), AfterTail(c, p, e))
  {
    hide ByteStep, Goes, Run, InUrl, UrlMayEnd;
    TargetEnd(hc, c, LF);
    TargetEnd(hc, c, CR);
    EndGoes(hc, c, Old(Behind(c, HeaderFieldStart)), e);
    assert [] + EndText(e) == EndText(e);
  }

  lemma NamedGoes(hc: Decide, c: Conf, p: Protocol, e: Ending)
    requires AtUrlEnd(c, |TailText(p, e)|) && p.Named? && ProtocolOk(p) && CrLf(e)
    ensures Goes(hc, c, TailText(p, e), AfterTail(c, p, e))
  {
    hide ByteStep, Goes, Run, InUrl, UrlMayEnd, VersionText, Spell, NumberOk, EndText, CrLf, DIGITS;
    var Named(gap, v) := p;
    var c1 := AtHttp(c, gap);
    var c2 := AfterVersion(c1, false, v);
    HttpGoes(hc, c, gap);
    VersionGoes(hc, c1, false, v);
    GoesOn(hc, c, Spaces(gap) + [LETTER_H], c1, VersionText(v), c2);
    DotNoDigit();
    LongEnding(e);
    EndByte(hc, c2, LF);
    EndByte(hc, c2, CR);
    EndGoes(hc, c2, Moved(c2, c2.p), e);
    GoesOn(hc, c, ProtocolText(p), c2, EndText(e), Over(c2, |EndText(e)|));
  }

  lemma LongEnding(e: Ending)
    ensures |EndText(e)| == if e.Lf? then 1 else 2
  {
  }

  lemma TailGoes(hc: Decide, c: Conf, p: Protocol, e: Ending)
    requires AtUrlEnd(c, |TailText(p, e)|) && ProtocolOk(p) && CrLf(e)
    ensures Goes(hc, c, TailText(p, e), AfterTail(c, p, e))
  {
    hide Goes, AtUrlEnd, TailText, AfterTail, CrLf;
    if p.Unnamed? {
      OldGoes(hc, c, p, e);
    } else {
      NamedGoes(hc, c, p, e);
    }
  }

  lemma OldOnly(hc: Decide, c: Conf, data: seq<byte>, d: Conf) returns (e: Ending, rest: seq<byte>)
    requires AtUrlEnd(c, |data|) && Goes(hc, c, data, d) && !InRequestLine(d.p.state) && data != [] && Break(data[0])
    ensures data == TailText(Unnamed, e) + rest && CrLf(e) && Goes(hc, AfterTail(c, Unnamed, e), rest, d)
  {
    hide ByteStep, Goes, Run, InUrl, UrlMayEnd;
    TargetEnd(hc, c, data[0]);
    PeelByte(hc, c, data, d);
    if data[0] == LF {
      e, rest := Lf, data[1..];
    } else {
      var a := Old(Behind(c, ReqLineAlmostDone));
      rest := EndOnly(hc, a, data[1..], d);
      e := Cr(LF);
      assert Over(a, 1) == AfterTail(c, Unnamed, e);
    }
    assert data == [data[0]] + data[1..];
    assert data == TailText(Unnamed, e) + rest;
  }

  lemma NamedOnly(hc: Decide, c: Conf, data: seq<byte>, d: Conf) returns (p: Protocol, e: Ending, rest: seq<byte>)
    requires AtUrlEnd(c, |data|) && Goes(hc, c, data, d) && !InRequestLine(d.p.state) && !InStatusLine(d.p.state)
    requires data != [] && data[0] == SP
    ensures data == TailText(p, e) + rest && p.Named? && ProtocolOk(p) && CrLf(e) && Goes(hc, AfterTail(c, p, e), rest, d)
  {
    hide ByteStep, Goes, Run, InUrl, UrlMayEnd, VersionText, Spell, NumberOk, DIGITS;
    var gap, rest1 := HttpOnly(hc, c, data, d);
    var c1 := AtHttp(c, gap);
    NotInVersion(d.p.state);
    var v, rest2 := VersionOnly(hc, c1, false, rest1, d);
    var c2 := AfterVersion(c1, false, v);
    EndByte(hc, c2, rest2[0]);
    PeelByte(hc, c2, rest2, d);
    p := Named(gap, v);
    if rest2[0] == LF {
      e, rest := Lf, rest2[1..];
    } else {
      var a := Moved(c2, c2.p.(state := ReqLineAlmostDone));
      rest := EndOnly(hc, a, rest2[1..], d);
      e := Cr(LF);
    }
    assert rest2 == EndText(e) + rest;
    assert data == TailText(p, e) + rest;
  }

  lemma NotInVersion(s: State)
    requires !InRequestLine(s) && !InStatusLine(s)
    ensures !InVersion(s)
  {
  }

  lemma TailOnly(hc: Decide, c: Conf, data: seq<byte>, d: Conf) returns (p: Protocol, e: Ending, rest: seq<byte>)
    requires AtUrlEnd(c, |data|) && Goes(hc, c, data, d) && !InRequestLine(d.p.state) && !InStatusLine(d.p.state)
    requires data != [] && White(data[0])
    ensures data == TailText(p, e) + rest && ProtocolOk(p) && CrLf(e) && Goes(hc, AfterTail(c, p, e), rest, d)
  {
    hide Goes, Run, AtUrlEnd, AfterTail, TailText, InRequestLine, InStatusLine;
    if data[0] == SP {
      p, e, rest := NamedOnly(hc, c, data, d);
    } else {
      p := Unnamed;
      e, rest := OldOnly(hc, c, data, d);
    }
  }

  // ---- the line ----

  lemma {:induction false} BlanksGo(hc: Decide, c: Conf, blanks: seq<byte>)
    requires c.p.state.StartReq? && Room(c, |blanks|) && Breaks(blanks)
    ensures Goes(hc, c, blanks, Along(c, |blanks|))
    decreases blanks
  {
    hide ByteStep, Run, Goes;
    if blanks == [] {
      GoesNowhere(hc, c);
    } else {
      FirstByte(hc, c, blanks[0]);
      GoesByte(hc, c, blanks[0], Along(c, 1));
      BlanksGo(hc, Along(c, 1), blanks[1..]);
      GoesOn(hc, c, [blanks[0]], Along(c, 1), blanks[1..], Along(c, |blanks|));
      assert blanks == [blanks[0]] + blanks[1..];
    }
  }

  lemma {:induction false} BlanksOnly(hc: Decide, c: Conf, data: seq<byte>, d: Conf) returns (blanks: seq<byte>, rest: seq<byte>)
    requires c.p.state.StartReq? && Room(c, |data|) && Goes(hc, c, data, d) && !d.p.state.StartReq?
    ensures data == blanks + rest && rest != [] && !Break(rest[0]) && Breaks(blanks)
    ensures Goes(hc, Along(c, |blanks|), rest, d)
    decreases data
  {
    hide ByteStep, Run, Goes;
    if data == [] {
      Nothing(hc, c, d);
      assert false;
    } else if !Break(data[0]) {
      blanks, rest := [], data;
      assert Along(c, 0) == c;
    } else {
      FirstByte(hc, c, data[0]);
      PeelByte(hc, c, data, d);
      blanks, rest := BlanksOnly(hc, Along(c, 1), data[1..], d);
      blanks := [data[0]] + blanks;
    }
  }

  /** Behind a request line: the method that is spelled, the numbers of the version, the bytes of the target
      for the url callback, and nothing left of the message before. */
  function AfterRequest(c: Conf, blanks: seq<byte>, l: RequestLine, m: Method): Conf
    requires ProtocolOk(l.protocol)
  {
    Conf(c.p.(flags := NO_FLAGS, contentLength := NO_LENGTH, nread := c.p.nread + |blanks| + |RequestText(l)|,
              state := HeaderFieldStart, meth := m, index := |l.name| + 1, major := MajorOf(l.protocol), minor := MinorOf(l.protocol)),
         Closed, c.out + [Begin, Data(Kind.Url, Text(l.target))])
  }

  /** At the target. */
  function AtTarget(c: Conf, blanks: nat, m: Method, gap: nat): Conf
    requires gap > 0
  {
    Along(AfterMethod(Along(c, blanks), m), gap - 1)
  }

  lemma FrontGoes(hc: Decide, c: Conf, blanks: seq<byte>, l: RequestLine, m: Method)
    requires c.p.state.StartReq? && Room(c, |blanks| + |l.name| + l.gap) && Breaks(blanks)
    requires Spelled(m, l.name) && l.gap > 0
    ensures Goes(hc, c, blanks + (l.name + Spaces(l.gap)), AtTarget(c, |blanks|, m, l.gap))
  {
    hide ByteStep, Goes, Run, Name, Begun;
    var c1 := Along(c, |blanks|);
    var c2 := AfterMethod(c1, m);
    var c3 := AtTarget(c, |blanks|, m, l.gap);
    BlanksGo(hc, c, blanks);
    MethodGoes(hc, c1, m, l.name);
    SpacesGo(hc, c2, l.gap - 1);
    GoesOn(hc, c1, l.name + [SP], c2, Spaces(l.gap - 1), c3);
    assert l.name + [SP] + Spaces(l.gap - 1) == l.name + Spaces(l.gap) by {
      assert Spaces(l.gap) == [SP] + Spaces(l.gap - 1);
    }
    GoesOn(hc, c, blanks, c1, l.name + Spaces(l.gap), c3);
  }

  lemma FrontOnly(hc: Decide, c: Conf, data: seq<byte>, d: Conf)
    returns (blanks: seq<byte>, name: seq<byte>, gap: nat, m: Method, rest: seq<byte>)
    requires c.p.state.StartReq? && Room(c, |data|) && Goes(hc, c, data, d)
    requires !d.p.state.StartReq? && !d.p.state.ReqMethod? && !d.p.state.SpacesBeforeUrl?
    ensures data == blanks + (name + Spaces(gap)) + rest && Spelled(m, name) && gap > 0 && rest != [] && rest[0] != SP
    ensures Breaks(blanks)
    ensures Goes(hc, AtTarget(c, |blanks|, m, gap), rest, d)
  {
    hide ByteStep, Goes, Run, Name, Begun;
    var rest1, rest2, n;
    blanks, rest1 := BlanksOnly(hc, c, data, d);
    m, name, rest2 := MethodOnly(hc, Along(c, |blanks|), rest1, d);
    n, rest := SpacesOnly(hc, AfterMethod(Along(c, |blanks|), m), rest2, d);
    gap := n + 1;
    assert Spaces(gap) == [SP] + Spaces(n);
    assert data == blanks + (name + Spaces(gap)) + rest;
  }

  /** What a request line is read as. */
  lemma RequestLineRead(hc: Decide, c: Conf, blanks: seq<byte>, l: RequestLine, m: Method)
    requires c.p.state.StartReq? && Room(c, |blanks + RequestText(l)|) && Breaks(blanks)
    requires RequestOk(l, m)
    ensures Goes(hc, c, blanks + RequestText(l), AfterRequest(c, blanks, l, m))
  {
    hide ByteStep, Goes, Run, Name, Begun, UrlOk, Ended, StateOf, ProtocolOk, CrLf, TailText, Text, MajorOf, MinorOf,
      UrlMayEnd;
    var u := l.target;
    var c1 := AtTarget(c, |blanks|, m, l.gap);
    var c2 := AtTargetEnd(c1, u);
    FrontGoes(hc, c, blanks, l, m);
    TargetGoes(hc, c1, u);
    assert c.out + [Begin] + [Data(Kind.Url, Text(u))] == c.out + [Begin, Data(Kind.Url, Text(u))];
    TailGoes(hc, c2, l.protocol, l.ending);
    GoesOn(hc, c1, Text(u), c2, TailText(l.protocol, l.ending), AfterRequest(c, blanks, l, m));
    GoesOn(hc, c, blanks + (l.name + Spaces(l.gap)), c1, Text(u) + TailText(l.protocol, l.ending), AfterRequest(c, blanks, l, m));
    assert blanks + RequestText(l) == blanks + (l.name + Spaces(l.gap)) + (Text(u) + TailText(l.protocol, l.ending));
  }

  /** And a parser that is past the line has read one. */
  lemma RequestLineOnly(hc: Decide, c: Conf, data: seq<byte>, d: Conf)
    returns (blanks: seq<byte>, l: RequestLine, m: Method, rest: seq<byte>)
    requires c.p.state.StartReq? && Room(c, |data|) && Goes(hc, c, data, d)
    requires !d.p.state.StartReq? && !d.p.state.ReqMethod? && !d.p.state.SpacesBeforeUrl? && !InUrl(d.p.state)
    requires !InRequestLine(d.p.state) && !InStatusLine(d.p.state)
    ensures data == blanks + RequestText(l) + rest && RequestOk(l, m) && Breaks(blanks)
    ensures Goes(hc, AfterRequest(c, blanks, l, m), rest, d)
  {
    hide ByteStep, Goes, Run, Name, Begun, UrlOk, Ended, StateOf, ProtocolOk, CrLf, TailText, Text, MajorOf, MinorOf,
      UrlMayEnd, InUrl, InRequestLine, InStatusLine;
    var name, gap, rest1, rest2;
    blanks, name, gap, m, rest1 := FrontOnly(hc, c, data, d);
    var c1 := AtTarget(c, |blanks|, m, gap);
    var u;
    u, rest2 := TargetOnly(hc, c1, rest1, d);
    var c2 := AtTargetEnd(c1, u);
    var p, e;
    p, e, rest := TailOnly(hc, c2, rest2, d);
    assert c.out + [Begin] + [Data(Kind.Url, Text(u))] == c.out + [Begin, Data(Kind.Url, Text(u))];
    l := RequestLine(name, gap, u, p, e);
    assert data == blanks + RequestText(l) + rest;
  }

  // ---- a parser that does not know yet which of the two it reads ----

  /** The same parser, made for one kind of message. */
  function As(c: Conf, t: MessageType): Conf {
    c.(p := c.p.(typ := t, state := if t.Request? then StartReq else StartRes))
  }

  lemma EitherByte(hc: Decide, c: Conf, ch: byte)
    requires c.p.state.StartReqOrRes? && Room(c, 1) && (Break(ch) || ch == LETTER_H)
    ensures ByteStep(hc, c, ch) ==
      (if ch == LETTER_H then
         Conf(c.p.(flags := NO_FLAGS, contentLength := NO_LENGTH, nread := c.p.nread + 1, state := ResOrRespH), Closed, c.out + [Begin])
       else Along(c, 1), Next)
  {
    hide Pass, ByteStep, Switch;
    StartPass(hc, Count(c.p), ch);
    OnePass(hc, c, ch);
  }

  lemma SecondByte(hc: Decide, c: Conf, ch: byte)
    requires c.p.state.ResOrRespH? && Room(c, 1)
    ensures if ch == LETTER_T then ByteStep(hc, c, ch) == (Moved(c, c.p.(typ := Response, state := ResHT)), Next)
      else if ch == LETTER_E then
        ByteStep(hc, c, ch) == (Moved(c, c.p.(typ := MessageType.Request, meth := HEAD, index := 2, state := ReqMethod)), Next)
      else ByteStep(hc, c, ch).1.Fail?
  {
    hide Pass, ByteStep, Switch;
    StartPass(hc, Count(c.p), ch);
    if ch == LETTER_T || ch == LETTER_E {
      OnePass(hc, c, ch);
    } else {
      OneFailure(hc, c, ch);
    }
  }

  /** Two runs that come together go on together. */
  lemma Meet(hc: Decide, c: Conf, d: Conf, e: Conf, a: seq<byte>, rest: seq<byte>)
    requires Goes(hc, c, a, e) && Goes(hc, d, a, e)
    ensures Run(hc, c, a + rest) == Run(hc, d, a + rest)
  {
    hide Run;
    RunAppend(hc, c, a, rest);
    RunAppend(hc, d, a, rest);
  }

  /** After HT it reads a response. */
  lemma EitherResponse(hc: Decide, c: Conf, rest: seq<byte>)
    requires c.p.state.StartReqOrRes? && Room(c, 2)
    ensures Run(hc, c, [LETTER_H, LETTER_T] + rest) == Run(hc, As(c, Response), [LETTER_H, LETTER_T] + rest)
  {
    hide ByteStep, Goes, Run;
    var d := As(c, Response);
    var c1, d1 := ByteStep(hc, c, LETTER_H).0, HttpStatusLine.AtWord(d);
    var e := Moved(d1, d1.p.(state := ResHT));
    EitherByte(hc, c, LETTER_H);
    SecondByte(hc, c1, LETTER_T);
    GoesByte(hc, c, LETTER_H, c1);
    GoesByte(hc, c1, LETTER_T, e);
    GoesOn(hc, c, [LETTER_H], c1, [LETTER_T], e);
    HttpStatusLine.BeginByte(hc, d, LETTER_H);
    StatusByte(hc, d1, LETTER_T);
    GoesByte(hc, d, LETTER_H, d1);
    GoesByte(hc, d1, LETTER_T, e);
    GoesOn(hc, d, [LETTER_H], d1, [LETTER_T], e);
    assert [LETTER_H] + [LETTER_T] == [LETTER_H, LETTER_T];
    Meet(hc, c, d, e, [LETTER_H, LETTER_T], rest);
  }

  /** After HE it reads a request, whose method is HEAD so far. */
  lemma EitherHead(hc: Decide, c: Conf, rest: seq<byte>)
    requires c.p.state.StartReqOrRes? && Room(c, 2)
    ensures Run(hc, c, [LETTER_H, LETTER_E] + rest) == Run(hc, As(c, MessageType.Request), [LETTER_H, LETTER_E] + rest)
  {
    hide ByteStep, Goes, Run;
    var d := As(c, MessageType.Request);
    var c1, d1 := ByteStep(hc, c, LETTER_H).0, InMethod(d, HEAD, 1);
    var e := InMethod(d, HEAD, 2);
    EitherByte(hc, c, LETTER_H);
    SecondByte(hc, c1, LETTER_E);
    GoesByte(hc, c, LETTER_H, c1);
    GoesByte(hc, c1, LETTER_E, e);
    GoesOn(hc, c, [LETTER_H], c1, [LETTER_E], e);
    FirstByte(hc, d, LETTER_H);
    MethodByte(hc, d1, LETTER_E);
    GoesByte(hc, d, LETTER_H, d1);
    GoesByte(hc, d1, LETTER_E, e);
    GoesOn(hc, d, [LETTER_H], d1, [LETTER_E], e);
    assert [LETTER_H] + [LETTER_E] == [LETTER_H, LETTER_E];
    Meet(hc, c, d, e, [LETTER_H, LETTER_E], rest);
  }

  /** Any other byte than H begins a request, or is an error in one. */
  lemma EitherRequest(hc: Decide, c: Conf, ch: byte, rest: seq<byte>)
    requires c.p.state.StartReqOrRes? && Room(c, 1) && !Break(ch) && ch != LETTER_H
    ensures Run(hc, c, [ch] + rest) == Run(hc, As(c, MessageType.Request), [ch] + rest)
  {
    hide Pass, Run;
    var d := As(c, MessageType.Request);
    var p := c.p.(flags := NO_FLAGS, contentLength := NO_LENGTH, nread := c.p.nread + 1, typ := MessageType.Request, state := StartReq);
    StartPass(hc, Count(c.p), ch);
    StartPass(hc, p, ch);
    StartPass(hc, Count(d.p), ch);
    assert Switch(hc, c.(p := Count(c.p)), ch) == Switch(hc, c.(p := p), ch);
    assert Switch(hc, c.(p := p), ch) == Switch(hc, d.(p := Count(d.p)), ch);
    SameStep(hc, c, d, ch, rest);
  }

  lemma SameStep(hc: Decide, c: Conf, d: Conf, ch: byte, rest: seq<byte>)
    requires ByteStep(hc, c, ch) == ByteStep(hc, d, ch)
    ensures Run(hc, c, [ch] + rest) == Run(hc, d, [ch] + rest)
  {
    hide ByteStep;
    assert ([ch] + rest)[1..] == rest;
  }

  /** H and any other byte is an error. */
  lemma EitherNeither(hc: Decide, c: Conf, ch: byte, rest: seq<byte>)
    requires c.p.state.StartReqOrRes? && Room(c, 2) && ch != LETTER_T && ch != LETTER_E
    ensures !Run(hc, c, [LETTER_H, ch] + rest).ctl.Next?
  {
    hide ByteStep, Goes, Run;
    var c1 := ByteStep(hc, c, LETTER_H).0;
    EitherByte(hc, c, LETTER_H);
    SecondByte(hc, c1, ch);
    GoesByte(hc, c, LETTER_H, c1);
    OneMore(hc, c, [LETTER_H], c1, ch);
    assert [LETTER_H] + [ch] == [LETTER_H, ch];
    NoMore(hc, c, [LETTER_H, ch], rest);
  }

  /** Blank lines leave it undecided, and no beginning is notified for them. */
  lemma EitherBlank(hc: Decide, c: Conf, ch: byte)
    requires c.p.state.StartReqOrRes? && Room(c, 1) && Break(ch)
    ensures Goes(hc, c, [ch], Along(c, 1))
  {
    hide ByteStep, Goes;
    EitherByte(hc, c, ch);
    GoesByte(hc, c, ch, Along(c, 1));
  }
}
