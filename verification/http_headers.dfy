/** From the header lines to the body: what a block of well-formed lines makes of the length and
    the flags (section 4 of RFC 2616), and so what the body callbacks get after it. */
module HttpHeaders {
  import opened HttpTypes
  import opened HttpStep
  import opened HttpRun
  import opened HttpBody
  import opened HttpNames
  import HttpMessage

  const COLON: byte := 58

  /** What ends a line: LF, or CR and one more byte, which the non-strict build does not look at. */
  datatype Ending = Lf | Cr(next: byte)

  /** A line that begins with white space and goes on with the value before it. */
  datatype Fold = Fold(pad: seq<byte>, value: seq<byte>, ending: Ending)

  datatype HeaderLine = HeaderLine(name: seq<byte>, pad: seq<byte>, value: seq<byte>, ending: Ending, folds: seq<Fold>)

  function EndText(e: Ending): seq<byte> {
    if e.Lf? then [LF] else [CR] + [e.next]
  }

  function FoldText(f: Fold): seq<byte> {
    f.pad + f.value + EndText(f.ending)
  }

  function FoldsText(fs: seq<Fold>): seq<byte> {
    if fs == [] then [] else FoldText(fs[0]) + FoldsText(fs[1..])
  }

  /** The line up to where it may be folded. */
  function HeadText(h: HeaderLine): seq<byte> {
    h.name + [COLON] + h.pad + h.value + EndText(h.ending)
  }

  function LineText(h: HeaderLine): seq<byte> {
    HeadText(h) + FoldsText(h.folds)
  }

  function LinesText(hs: seq<HeaderLine>): seq<byte> {
    if hs == [] then [] else LineText(hs[0]) + LinesText(hs[1..])
  }

  /** One more value for each folded line. */
  function FoldEvents(fs: seq<Fold>): seq<Event> {
    if fs == [] then [] else [Data(Kind.Value, fs[0].value)] + FoldEvents(fs[1..])
  }

  function Callbacks(h: HeaderLine): seq<Event> {
    [Data(Field, h.name), Data(Kind.Value, h.value)] + FoldEvents(h.folds)
  }

  /** The callbacks for the lines. */
  function Fields(hs: seq<HeaderLine>): seq<Event> {
    if hs == [] then [] else Callbacks(hs[0]) + Fields(hs[1..])
  }

  /** What separates tokens (section 2.2 of RFC 2616), but for the white space. */
  const SEPARATORS := "()<>@,;:\\\"/[]?={}"

  /** The bytes of a header name: the visible ones that separate nothing, and the space. */
  lemma TokenMeans(b: byte)
    ensures Token(b) != 0 <==> 32 <= b < 127 && (b as char) !in SEPARATORS
  {
  }

  predicate White(s: seq<byte>) {
    forall i :: 0 <= i < |s| ==> s[i] == SP || s[i] == HT
  }

  // ---- what the lines say ----

  /** The headers that the parser acts on. */
  datatype Heading = OfLength | OfCoding | OfConnection | OfUpgrade | Other

  ghost function HeadingOf(name: seq<byte>): Heading {
    if Spells(name, CONTENT_LENGTH, LOWER) then OfLength
    else if Spells(name, TRANSFER_ENCODING, LOWER) then OfCoding
    else if Spells(name, CONNECTION, LOWER) || Spells(name, PROXY_CONNECTION, LOWER) then OfConnection
    else if Spells(name, UPGRADE, LOWER) then OfUpgrade
    else Other
  }

  /** A value as the header has it: a length, or any bytes. */
  predicate ValueFits(value: seq<byte>, length: bool) {
    if length then Decimal(value) && HttpBody.Value(10, Digits(value)) < NO_LENGTH else ValueBytes(value)
  }

  /** The lines that go on with a value: not after nothing but LF, which ends the header. */
  predicate FoldsOk(value: seq<byte>, ending: Ending, fs: seq<Fold>, length: bool)
    decreases fs
  {
    fs == [] ||
    (var f, more := fs[0], length && value != [];
     && (value != [] || ending.Cr?) && f.pad != [] && White(f.pad) && (f.value != [] ==> ValueFits(f.value, more))
     && FoldsOk(f.value, f.ending, fs[1..], more))
  }

  ghost predicate LineOk(h: HeaderLine) {
    && h.name != [] && Tokens(h.name) && h.name[0] != SP && White(h.pad)
    && (h.value != [] ==> ValueFits(h.value, HeadingOf(h.name).OfLength?))
    && FoldsOk(h.value, h.ending, h.folds, HeadingOf(h.name).OfLength?)
  }

  /** A length that goes on in folded lines is the number in the last of them, up to an empty one. */
  function FoldedLength(n: nat, fs: seq<Fold>): nat
    decreases fs
  {
    if fs == [] || !Decimal(fs[0].value) then n else FoldedLength(HttpBody.Value(10, Digits(fs[0].value)), fs[1..])
  }

  function LengthOf(h: HeaderLine): nat
    requires Decimal(h.value)
  {
    FoldedLength(HttpBody.Value(10, Digits(h.value)), h.folds)
  }

  ghost predicate LinesOk(hs: seq<HeaderLine>) {
    forall i :: 0 <= i < |hs| ==> LineOk(hs[i])
  }

  /** What decides about the body. */
  datatype Said = Said(length: nat, flags: Flags)

  function SaidIn(p: Parser): Said {
    Said(p.contentLength, p.flags)
  }

  /** What one more line says. */
  ghost function Hear(s: Said, h: HeaderLine): Said {
    if h.value == [] then s else
    match HeadingOf(h.name)
    case OfLength => if Decimal(h.value) then s.(length := LengthOf(h)) else s
    case OfCoding => if Spells(h.value, CHUNKED, FOLD) then s.(flags := s.flags.(chunked := true)) else s
    case OfConnection =>
      if Spells(h.value, KEEP_ALIVE, FOLD) then s.(flags := s.flags.(keepAlive := true))
      else if Spells(h.value, CLOSE, FOLD) then s.(flags := s.flags.(close := true))
      else s
    case OfUpgrade => s.(flags := s.flags.(upgrade := true))
    case Other => s
  }

  /** The line without what goes on with it. */
  function Head(h: HeaderLine): HeaderLine {
    h.(folds := [])
  }

  ghost function HearAll(s: Said, hs: seq<HeaderLine>): Said
    decreases hs
  {
    if hs == [] then s else HearAll(Hear(s, hs[0]), hs[1..])
  }

  // ---- the name ----

  /** The state of the matcher says which header it is. */
  ghost predicate Finds(h: HeaderState, k: Heading) {
    && (h.HContentLength? <==> k.OfLength?) && (h.HTransferEncoding? <==> k.OfCoding?)
    && (h.HConnection? <==> k.OfConnection?) && (h.HUpgrade? <==> k.OfUpgrade?)
  }

  lemma NameFinds(p: Parser, name: seq<byte>)
    requires name != []
    ensures Finds(Letters(p, name).headerState, HeadingOf(name))
  {
    hide Letters, Spells;
    NameMeans(p, name);
  }

  lemma {:induction false} LettersOnly(p: Parser, name: seq<byte>)
    requires name != []
    ensures var q := Letters(p, name); q == p.(nread := q.nread, state := q.state, index := q.index, headerState := q.headerState)
    decreases |name|
  {
    if |name| > 1 {
      var a := name[..|name| - 1];
      LettersOnly(p, a);
      LetterOnly(Letters(p, a), name[|name| - 1]);
    }
  }

  lemma LetterOnly(p: Parser, ch: byte)
    ensures var q := OneLetter(p, ch); q == p.(nread := q.nread, state := q.state, index := q.index, headerState := q.headerState)
  {
  }

  function AfterColon(c: Conf, name: seq<byte>): Conf {
    Conf(c.p.(nread := c.p.nread + 1, state := HeaderValueStart), Closed, c.out + [Data(Field, name)])
  }

  lemma ColonByte(hc: Decide, c: Conf, name: seq<byte>)
    requires c.p.state.HeaderField? && c.open == Open(Field, name) && c.p.nread < MAX_HEADER_SIZE
    ensures ByteStep(hc, c, COLON) == (AfterColon(c, name), Next)
  {
    hide Pass, ByteStep, Switch;
    FieldPass(hc, Count(c.p), COLON);
    OnePass(hc, c, COLON);
  }

  /** At the value of a header called `name`. */
  ghost predicate AtValue(c: Conf, name: seq<byte>, d: Conf) {
    && d.p == c.p.(nread := d.p.nread, state := HeaderValueStart, index := d.p.index, headerState := d.p.headerState)
    && d.open.Closed? && d.out == c.out + [Data(Field, name)] && Finds(d.p.headerState, HeadingOf(name))
  }

  lemma NameGoes(hc: Decide, c: Conf, name: seq<byte>) returns (d: Conf)
    requires c.p.state.HeaderFieldStart? && c.open.Closed? && c.p.nread + |name| < MAX_HEADER_SIZE
    requires name != [] && Tokens(name)
    ensures Goes(hc, c, name + [COLON], d) && AtValue(c, name, d) && d.p.nread == c.p.nread + |name| + 1
  {
    hide ByteStep, Letters, Tokens, Finds;
    var m := AfterName(c, name);
    NameRun(hc, c, name);
    LettersKeep(c.p, name);
    LettersOnly(c.p, name);
    NameFinds(c.p, name);
    d := AfterColon(m, name);
    ColonByte(hc, m, name);
    GoesByte(hc, m, COLON, d);
    GoesOn(hc, c, name, m, [COLON], d);
  }

  // ---- the value ----

  function Along(c: Conf, n: nat): Conf {
    c.(p := c.p.(nread := c.p.nread + n))
  }

  lemma PadByte(hc: Decide, c: Conf, ch: byte)
    requires c.p.state.HeaderValueStart? && c.open.Closed? && c.p.nread < MAX_HEADER_SIZE && (ch == SP || ch == HT)
    ensures ByteStep(hc, c, ch) == (Along(c, 1), Next)
  {
    hide Pass, ByteStep, Switch, ValueChar, FirstValueChar;
    ValuePass(hc, Count(c.p), ch);
    OnePass(hc, c, ch);
  }

  lemma {:induction false} PadGoes(hc: Decide, c: Conf, pad: seq<byte>)
    requires c.p.state.HeaderValueStart? && c.open.Closed? && c.p.nread + |pad| <= MAX_HEADER_SIZE && White(pad)
    ensures Goes(hc, c, pad, Along(c, |pad|))
    decreases pad
  {
    hide ByteStep, Run, Goes;
    if pad == [] {
      GoesNowhere(hc, c);
    } else {
      PadByte(hc, c, pad[0]);
      GoesByte(hc, c, pad[0], Along(c, 1));
      PadGoes(hc, Along(c, 1), pad[1..]);
      GoesOn(hc, c, [pad[0]], Along(c, 1), pad[1..], Along(c, |pad|));
      assert pad == [pad[0]] + pad[1..];
    }
  }

  /** The flags for the value that the matcher has found at its end. */
  function Concluded(h: HeaderState, f: Flags): Flags {
    match h
    case HKeepAlive => f.(keepAlive := true)
    case HClose => f.(close := true)
    case HChunked => f.(chunked := true)
    case _ => f
  }

  function FirstFlags(p: Parser): Flags {
    if p.headerState.HUpgrade? then p.flags.(upgrade := true) else p.flags
  }

  lemma FirstOnly(p: Parser, ch: byte)
    requires OnWord(p.headerState)
    ensures var q := FirstValueChar(Count(p).(index := 0), ch).p;
      && q == p.(nread := q.nread, state := q.state, index := q.index, headerState := q.headerState, flags := FirstFlags(p))
      && OnWord(q.headerState)
      && (!p.headerState.HTransferEncoding? && !p.headerState.HConnection? ==> q.headerState.HGeneral?)
  {
  }

  lemma ByteOnly(p: Parser, ch: byte)
    requires OnWord(p.headerState)
    ensures var q := OneByte(p, ch);
      && q == p.(nread := q.nread, state := q.state, index := q.index, headerState := q.headerState)
      && OnWord(q.headerState) && (p.headerState.HGeneral? ==> q.headerState.HGeneral?)
  {
  }

  lemma {:induction false} ValueLettersOnly(p: Parser, value: seq<byte>)
    requires value != [] && OnWord(p.headerState)
    ensures var q := ValueLetters(p, value);
      && q == p.(nread := q.nread, state := q.state, index := q.index, headerState := q.headerState, flags := FirstFlags(p))
      && OnWord(q.headerState)
      && (!p.headerState.HTransferEncoding? && !p.headerState.HConnection? ==> q.headerState.HGeneral?)
    decreases |value|
  {
    hide OneByte, FirstValueChar;
    if |value| == 1 {
      FirstOnly(p, value[0]);
    } else {
      var a := value[..|value| - 1];
      ValueLettersOnly(p, a);
      ByteOnly(ValueLetters(p, a), value[|value| - 1]);
    }
  }

  /** The value has been read, and with the end of the line the parser will have heard `s`. */
  ghost predicate InValue(c: Conf, value: seq<byte>, s: Said, d: Conf) {
    && d.p == c.p.(nread := c.p.nread + |value|, state := HeaderValue, index := d.p.index,
                   headerState := d.p.headerState, contentLength := s.length, flags := d.p.flags)
    && Concluded(d.p.headerState, d.p.flags) == s.flags
    && d.open == Open(Kind.Value, value) && d.out == c.out
  }

  /** Past the first byte of a value that is no length. */
  predicate Past(h: HeaderState) {
    !h.HContentLength? && !h.HTransferEncoding? && !h.HConnection? && !h.HUpgrade?
  }

  lemma FirstPast(p: Parser, ch: byte)
    requires OnWord(p.headerState)
    ensures Past(FirstValueChar(Count(p).(index := 0), ch).p.headerState)
  {
  }

  lemma NextPast(p: Parser, ch: byte)
    requires Past(p.headerState)
    ensures Past(OneByte(p, ch).headerState)
  {
  }

  lemma {:induction false} ValueLettersPast(p: Parser, value: seq<byte>)
    requires value != [] && OnWord(p.headerState)
    ensures Past(ValueLetters(p, value).headerState)
    decreases |value|
  {
    hide OneByte, FirstValueChar, Past;
    if |value| == 1 {
      FirstPast(p, value[0]);
    } else {
      var a := value[..|value| - 1];
      ValueLettersPast(p, a);
      NextPast(ValueLetters(p, a), value[|value| - 1]);
    }
  }

  lemma HeadLength(h: HeaderLine)
    requires Decimal(h.value)
    ensures LengthOf(Head(h)) == HttpBody.Value(10, Digits(h.value))
  {
  }

  lemma ValueHeard(p: Parser, h: HeaderLine)
    requires h.value != [] && Finds(p.headerState, HeadingOf(h.name)) && OnWord(p.headerState)
    ensures var q := ValueLetters(p, h.value);
      Said(p.contentLength, Concluded(q.headerState, FirstFlags(p))) == Hear(SaidIn(p), Head(h))
  {
    hide ValueLetters, Spells, HeadingOf;
    ValueLettersOnly(p, h.value);
    if p.headerState.HTransferEncoding? || p.headerState.HConnection? {
      ValueLettersSay(p, h.value);
      ValueMeans(p, h.value);
      hide ValueSays;
    }
  }

  lemma WordGoes(hc: Decide, c: Conf, h: HeaderLine) returns (d: Conf)
    requires c.p.state.HeaderValueStart? && c.open.Closed? && Finds(c.p.headerState, HeadingOf(h.name)) && LineOk(h)
    requires h.value != [] && !HeadingOf(h.name).OfLength? && c.p.nread + |h.value| <= MAX_HEADER_SIZE
    ensures Goes(hc, c, h.value, d) && InValue(c, h.value, Hear(SaidIn(c.p), Head(h)), d) && Past(d.p.headerState)
  {
    hide Run, ValueLetters, HeadingOf, Hear, ValueBytes, FoldsOk;
    ValueLettersPast(c.p, h.value);
    ValueRun(hc, c, h.value);
    ValueLettersKeep(c.p, h.value);
    ValueLettersOnly(c.p, h.value);
    ValueHeard(c.p, h);
    d := AfterValue(c, h.value);
  }

  lemma LengthGoes(hc: Decide, c: Conf, h: HeaderLine) returns (d: Conf)
    requires c.p.state.HeaderValueStart? && c.open.Closed? && Finds(c.p.headerState, HeadingOf(h.name)) && LineOk(h)
    requires h.value != [] && HeadingOf(h.name).OfLength? && c.p.nread + |h.value| <= MAX_HEADER_SIZE
    ensures Goes(hc, c, h.value, d) && InValue(c, h.value, Hear(SaidIn(c.p), Head(h)), d) && d.p.headerState.HContentLength?
  {
    hide Run, Digits, HeadingOf, FoldsOk;
    HeadLength(h);
    ContentLengthRun(hc, c, h.value);
    d := AfterLength(c, h.value, HttpBody.Value(10, Digits(h.value)));
  }

  // ---- the end of a line ----

  predicate AtLine(s: State) {
    s.HeaderFieldStart? || s.HeaderValueLws?
  }

  /** The line is over. */
  ghost predicate LineOver(c: Conf, n: nat, s: Said, event: Event, d: Conf) {
    && d.p == c.p.(nread := c.p.nread + n, state := d.p.state, index := d.p.index, headerState := d.p.headerState,
                   contentLength := s.length, flags := s.flags)
    && AtLine(d.p.state) && d.open.Closed? && d.out == c.out + [event]
  }

  /** Behind a value: whether more can go on with it, and as what. */
  ghost predicate LineEnd(d: Conf, value: seq<byte>, ending: Ending, length: bool) {
    if value == [] && ending.Lf? then d.p.state.HeaderFieldStart?
    else d.p.state.HeaderValueLws? && if value != [] && length then d.p.headerState.HContentLength? else Past(d.p.headerState)
  }

  lemma AlmostPass(hc: Decide, p: Parser, ch: byte)
    requires p.state.HeaderAlmostDone?
    ensures Pass(hc, p, ch) == Go(p.(flags := Concluded(p.headerState, p.flags)), HeaderValueLws)
  {
    hide Pass, ValueChar, FirstValueChar;
    ValuePass(hc, p, ch);
  }

  lemma AlmostByte(hc: Decide, c: Conf, ch: byte)
    requires c.p.state.HeaderAlmostDone? && c.open.Closed? && c.p.nread < MAX_HEADER_SIZE
    ensures ByteStep(hc, c, ch) ==
      (c.(p := c.p.(nread := c.p.nread + 1, state := HeaderValueLws, flags := Concluded(c.p.headerState, c.p.flags))), Next)
  {
    hide Pass, ByteStep, Switch;
    AlmostPass(hc, Count(c.p), ch);
    OnePass(hc, c, ch);
  }

  lemma ValueCr(hc: Decide, c: Conf)
    requires c.p.state.HeaderValue? && c.open.Open? && c.open.kind.Value? && c.p.nread < MAX_HEADER_SIZE
    ensures ByteStep(hc, c, CR) ==
      (Conf(c.p.(nread := c.p.nread + 1, state := HeaderAlmostDone), Closed, c.out + [Data(Kind.Value, c.open.bytes)]), Next)
  {
    hide Pass, ByteStep, Switch, ValueChar, FirstValueChar;
    ValuePass(hc, Count(c.p), CR);
    OnePass(hc, c, CR);
  }

  lemma LfPass(hc: Decide, p: Parser)
    requires p.state.HeaderValue?
    ensures Pass(hc, p, LF) == Out(p.(state := HeaderAlmostDone), Flush(Kind.Value), Again)
  {
    hide Pass, ValueChar, FirstValueChar;
    ValuePass(hc, p, LF);
  }

  lemma ValueLf(hc: Decide, c: Conf)
    requires c.p.state.HeaderValue? && c.open.Open? && c.open.kind.Value? && c.p.nread < MAX_HEADER_SIZE
    ensures ByteStep(hc, c, LF) ==
      (Conf(c.p.(nread := c.p.nread + 1, state := HeaderValueLws, flags := Concluded(c.p.headerState, c.p.flags)),
            Closed, c.out + [Data(Kind.Value, c.open.bytes)]), Next)
  {
    hide Pass, ByteStep, Switch, ValueStep;
    LfPass(hc, Count(c.p));
    AlmostPass(hc, Count(c.p).(state := HeaderAlmostDone), LF);
    TwoPasses(hc, c, LF);
  }

  lemma EndGoes(hc: Decide, c: Conf, e: Ending) returns (d: Conf)
    requires c.p.state.HeaderValue? && c.open.Open? && c.open.kind.Value? && c.p.nread + |EndText(e)| <= MAX_HEADER_SIZE
    ensures Goes(hc, c, EndText(e), d)
    ensures LineOver(c, |EndText(e)|, Said(c.p.contentLength, Concluded(c.p.headerState, c.p.flags)),
                     Data(Kind.Value, c.open.bytes), d)
    ensures d.p.state.HeaderValueLws? && d.p.headerState == c.p.headerState
  {
    hide ByteStep, Run, Goes;
    d := Conf(c.p.(nread := c.p.nread + |EndText(e)|, state := HeaderValueLws, flags := Concluded(c.p.headerState, c.p.flags)),
              Closed, c.out + [Data(Kind.Value, c.open.bytes)]);
    if e.Lf? {
      ValueLf(hc, c);
      GoesByte(hc, c, LF, d);
    } else {
      var m := Conf(c.p.(nread := c.p.nread + 1, state := HeaderAlmostDone), Closed, c.out + [Data(Kind.Value, c.open.bytes)]);
      ValueCr(hc, c);
      GoesByte(hc, c, CR, m);
      AlmostByte(hc, m, e.next);
      GoesByte(hc, m, e.next, d);
      GoesOn(hc, c, [CR], m, [e.next], d);
    }
  }

  lemma EmptyCr(hc: Decide, c: Conf)
    requires c.p.state.HeaderValueStart? && c.open.Closed? && c.p.nread < MAX_HEADER_SIZE
    ensures ByteStep(hc, c, CR) ==
      (Conf(c.p.(nread := c.p.nread + 1, index := 0, headerState := HGeneral, state := HeaderAlmostDone), Closed,
            c.out + [Data(Kind.Value, [])]), Next)
  {
    hide Pass, ByteStep, Switch, ValueChar, FirstValueChar;
    ValuePass(hc, Count(c.p), CR);
    OnePass(hc, c, CR);
  }

  lemma EmptyLf(hc: Decide, c: Conf)
    requires c.p.state.HeaderValueStart? && c.open.Closed? && c.p.nread < MAX_HEADER_SIZE
    ensures ByteStep(hc, c, LF) ==
      (Conf(c.p.(nread := c.p.nread + 1, index := 0, state := HeaderFieldStart), Closed,
            c.out + [Data(Kind.Value, [])]), Next)
  {
    hide Pass, ByteStep, Switch, ValueChar, FirstValueChar;
    ValuePass(hc, Count(c.p), LF);
    OnePass(hc, c, LF);
  }

  /** A value of no bytes says nothing. */
  lemma EmptyGoes(hc: Decide, c: Conf, e: Ending) returns (d: Conf)
    requires c.p.state.HeaderValueStart? && c.open.Closed? && c.p.nread + |EndText(e)| <= MAX_HEADER_SIZE
    ensures Goes(hc, c, EndText(e), d) && LineOver(c, |EndText(e)|, SaidIn(c.p), Data(Kind.Value, []), d)
    ensures forall length :: LineEnd(d, [], e, length)
  {
    hide ByteStep, Run, Goes;
    if e.Lf? {
      d := Conf(c.p.(nread := c.p.nread + 1, index := 0, state := HeaderFieldStart), Closed, c.out + [Data(Kind.Value, [])]);
      EmptyLf(hc, c);
      GoesByte(hc, c, LF, d);
    } else {
      var m := Conf(c.p.(nread := c.p.nread + 1, index := 0, headerState := HGeneral, state := HeaderAlmostDone), Closed,
                    c.out + [Data(Kind.Value, [])]);
      d := m.(p := m.p.(nread := m.p.nread + 1, state := HeaderValueLws));
      EmptyCr(hc, c);
      GoesByte(hc, c, CR, m);
      AlmostByte(hc, m, e.next);
      GoesByte(hc, m, e.next, d);
      GoesOn(hc, c, [CR], m, [e.next], d);
    }
  }

  /** From the first byte of the value to the end of the line. */
  lemma RestGoes(hc: Decide, c: Conf, h: HeaderLine) returns (d: Conf)
    requires c.p.state.HeaderValueStart? && c.open.Closed? && Finds(c.p.headerState, HeadingOf(h.name)) && LineOk(h)
    requires c.p.nread + |h.value + EndText(h.ending)| <= MAX_HEADER_SIZE
    ensures Goes(hc, c, h.value + EndText(h.ending), d)
    ensures LineOver(c, |h.value + EndText(h.ending)|, Hear(SaidIn(c.p), Head(h)), Data(Kind.Value, h.value), d)
    ensures LineEnd(d, h.value, h.ending, HeadingOf(h.name).OfLength?)
  {
    hide Goes, EndText, HeadingOf, LineOk, Finds, Past;
    if h.value == [] {
      d := EmptyGoes(hc, c, h.ending);
      assert [] + EndText(h.ending) == EndText(h.ending);
    } else {
      hide Hear;
      var m: Conf;
      if HeadingOf(h.name).OfLength? {
        m := LengthGoes(hc, c, h);
      } else {
        m := WordGoes(hc, c, h);
      }
      d := EndGoes(hc, m, h.ending);
      GoesOn(hc, c, h.value, m, EndText(h.ending), d);
    }
  }

  // ---- what goes on with a value ----

  lemma FoldByte(hc: Decide, c: Conf, ch: byte)
    requires c.p.state.HeaderValueLws? && c.open.Closed? && c.p.nread < MAX_HEADER_SIZE && (ch == SP || ch == HT)
    ensures ByteStep(hc, c, ch) == (Along(c, 1).(p := Along(c, 1).p.(state := HeaderValueStart)), Next)
  {
    hide Pass, ByteStep, Switch, ValueChar, FirstValueChar;
    ValuePass(hc, Count(c.p), ch);
    OnePass(hc, c, ch);
  }

  /** At the value of a folded line. */
  function AtFold(c: Conf, f: Fold): Conf {
    c.(p := c.p.(nread := c.p.nread + |f.pad|, state := HeaderValueStart))
  }

  lemma FoldPadGoes(hc: Decide, c: Conf, f: Fold)
    requires c.p.state.HeaderValueLws? && c.open.Closed? && c.p.nread + |f.pad| <= MAX_HEADER_SIZE && f.pad != [] && White(f.pad)
    ensures Goes(hc, c, f.pad, AtFold(c, f))
  {
    hide ByteStep, Goes;
    var m := Along(c, 1).(p := Along(c, 1).p.(state := HeaderValueStart));
    FoldByte(hc, c, f.pad[0]);
    GoesByte(hc, c, f.pad[0], m);
    PadGoes(hc, m, f.pad[1..]);
    GoesOn(hc, c, [f.pad[0]], m, f.pad[1..], AtFold(c, f));
    assert f.pad == [f.pad[0]] + f.pad[1..];
  }

  /** What the length is after a folded line. */
  function FoldLength(n: nat, f: Fold, length: bool): nat {
    if length && f.value != [] && Decimal(f.value) then HttpBody.Value(10, Digits(f.value)) else n
  }

  /** In the value of a folded line, which says nothing but a length. */
  ghost predicate InFold(c: Conf, f: Fold, length: bool, d: Conf) {
    && d.p == c.p.(nread := c.p.nread + |f.value|, state := HeaderValue, index := d.p.index,
                   headerState := d.p.headerState, contentLength := FoldLength(c.p.contentLength, f, length))
    && Concluded(d.p.headerState, d.p.flags) == c.p.flags
    && d.open == Open(Kind.Value, f.value) && d.out == c.out
    && if length then d.p.headerState.HContentLength? else Past(d.p.headerState)
  }

  lemma FoldLengthGoes(hc: Decide, c: Conf, f: Fold) returns (d: Conf)
    requires c.p.state.HeaderValueStart? && c.open.Closed? && c.p.headerState.HContentLength?
    requires f.value != [] && ValueFits(f.value, true) && c.p.nread + |f.value| <= MAX_HEADER_SIZE
    ensures Goes(hc, c, f.value, d) && InFold(c, f, true, d)
  {
    hide Run, Digits;
    ContentLengthRun(hc, c, f.value);
    d := AfterLength(c, f.value, HttpBody.Value(10, Digits(f.value)));
  }

  lemma FoldWordGoes(hc: Decide, c: Conf, f: Fold) returns (d: Conf)
    requires c.p.state.HeaderValueStart? && c.open.Closed? && Past(c.p.headerState)
    requires f.value != [] && ValueFits(f.value, false) && c.p.nread + |f.value| <= MAX_HEADER_SIZE
    ensures Goes(hc, c, f.value, d) && InFold(c, f, false, d)
  {
    hide Run, ValueLetters, ValueBytes;
    ValueRun(hc, c, f.value);
    ValueLettersKeep(c.p, f.value);
    ValueLettersOnly(c.p, f.value);
    d := AfterValue(c, f.value);
  }

  lemma FoldGoes(hc: Decide, c: Conf, f: Fold, length: bool) returns (d: Conf)
    requires c.p.state.HeaderValueLws? && c.open.Closed? && (if length then c.p.headerState.HContentLength? else Past(c.p.headerState))
    requires f.pad != [] && White(f.pad) && (f.value != [] ==> ValueFits(f.value, length)) && c.p.nread + |FoldText(f)| <= MAX_HEADER_SIZE
    ensures Goes(hc, c, FoldText(f), d)
    ensures LineOver(c, |FoldText(f)|, Said(FoldLength(c.p.contentLength, f, length), c.p.flags), Data(Kind.Value, f.value), d)
    ensures LineEnd(d, f.value, f.ending, length)
  {
    hide Goes, EndText, ValueFits, Past;
    var a := AtFold(c, f);
    FoldPadGoes(hc, c, f);
    if f.value == [] {
      d := EmptyGoes(hc, a, f.ending);
      GoesOn(hc, c, f.pad, a, EndText(f.ending), d);
      assert FoldText(f) == f.pad + EndText(f.ending);
    } else {
      var m: Conf;
      if length {
        m := FoldLengthGoes(hc, a, f);
      } else {
        m := FoldWordGoes(hc, a, f);
      }
      hide FoldLength;
      d := EndGoes(hc, m, f.ending);
      GoesOn(hc, c, f.pad, a, f.value, m);
      GoesOn(hc, c, f.pad + f.value, m, EndText(f.ending), d);
    }
  }

  ghost predicate FoldsHeard(c: Conf, fs: seq<Fold>, n: nat, d: Conf) {
    && d.p == c.p.(nread := c.p.nread + |FoldsText(fs)|, state := d.p.state, index := d.p.index,
                   headerState := d.p.headerState, contentLength := n)
    && AtLine(d.p.state) && d.open.Closed? && d.out == c.out + FoldEvents(fs)
  }

  function FoldedOn(n: nat, value: seq<byte>, fs: seq<Fold>, length: bool): nat {
    if length && value != [] then FoldedLength(n, fs) else n
  }

  lemma FoldedMore(n: nat, value: seq<byte>, ending: Ending, fs: seq<Fold>, length: bool)
    requires fs != [] && FoldsOk(value, ending, fs, length)
    ensures var more := length && value != [];
      FoldedOn(n, value, fs, length) == FoldedOn(FoldLength(n, fs[0], more), fs[0].value, fs[1..], more)
  {
    hide Digits;
  }

  lemma FoldsMore(c: Conf, fs: seq<Fold>, n: nat, m: Conf, n': nat, d: Conf)
    requires fs != [] && FoldsHeard(m, fs[1..], n', d)
    requires LineOver(c, |FoldText(fs[0])|, Said(n, c.p.flags), Data(Kind.Value, fs[0].value), m)
    ensures FoldsHeard(c, fs, n', d)
  {
    FoldsSplit(fs);
    hide FoldText, FoldsText, FoldEvents;
    assert c.out + [Data(Kind.Value, fs[0].value)] + FoldEvents(fs[1..]) == c.out + FoldEvents(fs);
  }

  lemma FoldsSplit(fs: seq<Fold>)
    requires fs != []
    ensures FoldsText(fs) == FoldText(fs[0]) + FoldsText(fs[1..])
    ensures FoldEvents(fs) == [Data(Kind.Value, fs[0].value)] + FoldEvents(fs[1..])
  {
    hide FoldText;
  }

  lemma {:induction false} FoldsGo(hc: Decide, c: Conf, value: seq<byte>, ending: Ending, fs: seq<Fold>, length: bool) returns (d: Conf)
    requires LineEnd(c, value, ending, length) && AtLine(c.p.state) && c.open.Closed?
    requires FoldsOk(value, ending, fs, length) && c.p.nread + |FoldsText(fs)| <= MAX_HEADER_SIZE
    ensures Goes(hc, c, FoldsText(fs), d) && FoldsHeard(c, fs, FoldedOn(c.p.contentLength, value, fs, length), d)
    decreases fs
  {
    hide Goes, FoldText, FoldLength, FoldedOn, ValueFits, FoldsHeard;
    if fs == [] {
      d := c;
      GoesNowhere(hc, c);
      NoFolds(c, value, length);
    } else {
      var more := length && value != [];
      var m := FoldGoes(hc, c, fs[0], more);
      FoldedMore(c.p.contentLength, value, ending, fs, length);
      d := FoldsGo(hc, m, fs[0].value, fs[0].ending, fs[1..], more);
      FoldsMore(c, fs, FoldLength(c.p.contentLength, fs[0], more), m, FoldedOn(m.p.contentLength, fs[0].value, fs[1..], more), d);
      GoesOn(hc, c, FoldText(fs[0]), m, FoldsText(fs[1..]), d);
    }
  }

  lemma NoFolds(c: Conf, value: seq<byte>, length: bool)
    requires AtLine(c.p.state) && c.open.Closed?
    ensures FoldsHeard(c, [], FoldedOn(c.p.contentLength, value, [], length), c)
  {
  }

  // ---- a line, and the next one ----

  /** After some lines: what they say has been heard, and each made its two callbacks. */
  ghost predicate Heard(c: Conf, hs: seq<HeaderLine>, d: Conf) {
    && d.p == c.p.(nread := c.p.nread + |LinesText(hs)|, state := d.p.state, index := d.p.index,
                   headerState := d.p.headerState, contentLength := HearAll(SaidIn(c.p), hs).length,
                   flags := HearAll(SaidIn(c.p), hs).flags)
    && AtLine(d.p.state) && d.open.Closed? && d.out == c.out + Fields(hs)
  }

  /** The head of a line, and what goes on with it. */
  lemma HearFolds(s: Said, h: HeaderLine)
    requires LineOk(h)
    ensures Hear(s, h) == Said(FoldedOn(Hear(s, Head(h)).length, h.value, h.folds, HeadingOf(h.name).OfLength?), Hear(s, Head(h)).flags)
  {
    hide HeadingOf, Digits, Spells, FoldsOk;
  }

  lemma OneLine(c: Conf, h: HeaderLine, m: Conf, b: Conf, d: Conf)
    requires LineOk(h)
    requires m.p == c.p.(nread := m.p.nread, state := m.p.state, index := m.p.index, headerState := m.p.headerState)
    requires m.out == c.out + [Data(Field, h.name)]
    requires m.p.nread == c.p.nread + |h.name| + 1 + |h.pad|
    requires LineOver(m, |h.value + EndText(h.ending)|, Hear(SaidIn(c.p), Head(h)), Data(Kind.Value, h.value), b)
    requires FoldsHeard(b, h.folds, FoldedOn(b.p.contentLength, h.value, h.folds, HeadingOf(h.name).OfLength?), d)
    ensures Heard(c, [h], d)
  {
    HearFolds(SaidIn(c.p), h);
    hide Hear, EndText, LineOk, FoldsText, FoldEvents, FoldedOn, HeadingOf;
    assert [h][1..] == [];
    assert LinesText([h]) == LineText(h);
    assert Fields([h]) == Callbacks(h);
    assert HearAll(SaidIn(c.p), [h]) == Hear(SaidIn(c.p), h);
    assert c.out + [Data(Field, h.name)] + [Data(Kind.Value, h.value)] + FoldEvents(h.folds) == c.out + Callbacks(h);
  }

  lemma HeadGoes(hc: Decide, c: Conf, h: HeaderLine) returns (m: Conf, b: Conf)
    requires c.p.state.HeaderFieldStart? && c.open.Closed? && LineOk(h) && c.p.nread + |HeadText(h)| <= MAX_HEADER_SIZE
    ensures m.p == c.p.(nread := c.p.nread + |h.name| + 1 + |h.pad|, state := m.p.state, index := m.p.index, headerState := m.p.headerState)
    ensures m.out == c.out + [Data(Field, h.name)]
    ensures Goes(hc, c, HeadText(h), b)
    ensures LineOver(m, |h.value + EndText(h.ending)|, Hear(SaidIn(c.p), Head(h)), Data(Kind.Value, h.value), b)
    ensures LineEnd(b, h.value, h.ending, HeadingOf(h.name).OfLength?)
  {
    hide Goes, EndText, HeadingOf, Finds, Hear, Tokens, FoldsOk, ValueFits;
    var a := NameGoes(hc, c, h.name);
    PadGoes(hc, a, h.pad);
    m := Along(a, |h.pad|);
    GoesOn(hc, c, h.name + [COLON], a, h.pad, m);
    assert SaidIn(m.p) == SaidIn(c.p);
    b := RestGoes(hc, m, h);
    GoesOn(hc, c, h.name + [COLON] + h.pad, m, h.value + EndText(h.ending), b);
    assert h.name + [COLON] + h.pad + (h.value + EndText(h.ending)) == HeadText(h);
  }

  lemma FirstLine(hc: Decide, c: Conf, h: HeaderLine) returns (d: Conf)
    requires c.p.state.HeaderFieldStart? && c.open.Closed? && LineOk(h) && c.p.nread + |LineText(h)| <= MAX_HEADER_SIZE
    ensures Goes(hc, c, LineText(h), d) && Heard(c, [h], d)
  {
    hide Goes, EndText, HeadingOf, Finds, Hear, Tokens, Heard, FoldsOk, ValueFits, FoldedOn, FoldsHeard, FoldsText;
    var m, b := HeadGoes(hc, c, h);
    d := FoldsGo(hc, b, h.value, h.ending, h.folds, HeadingOf(h.name).OfLength?);
    GoesOn(hc, c, HeadText(h), b, FoldsText(h.folds), d);
    OneLine(c, h, m, b, d);
  }

  lemma SwitchAgain(hc: Decide, c: Conf, ch: byte)
    requires !Reads(c.p.state) && Pass(hc, c.p, ch).ctl.Again? && Pass(hc, c.p, ch).act.Quiet?
    ensures Switch(hc, c, ch) == Switch(hc, c.(p := Pass(hc, c.p, ch).p), ch)
  {
    hide Pass;
  }

  lemma LwsPass(hc: Decide, p: Parser, ch: byte)
    requires p.state.HeaderValueLws? && ch != SP && ch != HT
    ensures !Reads(p.state) && Pass(hc, p, ch) == Out(p.(state := HeaderFieldStart), Quiet, Again)
  {
    hide Pass, ValueChar, FirstValueChar;
    ValuePass(hc, p, ch);
  }

  /** After a line the next byte, unless it is white space, is looked at as at the first line. */
  lemma LwsByte(hc: Decide, c: Conf, ch: byte)
    requires c.p.state.HeaderValueLws? && ch != SP && ch != HT && c.p.nread < MAX_HEADER_SIZE
    ensures ByteStep(hc, c, ch) == ByteStep(hc, c.(p := c.p.(state := HeaderFieldStart)), ch)
  {
    hide Pass, Switch;
    LwsPass(hc, Count(c.p), ch);
    SwitchAgain(hc, c.(p := Count(c.p)), ch);
  }

  lemma NextLine(hc: Decide, c: Conf, data: seq<byte>)
    requires AtLine(c.p.state) && data != [] && data[0] != SP && data[0] != HT && c.p.nread < MAX_HEADER_SIZE
    ensures Run(hc, c, data) == Run(hc, c.(p := c.p.(state := HeaderFieldStart)), data)
  {
    hide ByteStep;
    if c.p.state.HeaderValueLws? {
      LwsByte(hc, c, data[0]);
    }
  }

  lemma SomeLine(hc: Decide, c: Conf, h: HeaderLine) returns (d: Conf)
    requires AtLine(c.p.state) && c.open.Closed? && LineOk(h) && c.p.nread + |LineText(h)| <= MAX_HEADER_SIZE
    ensures Goes(hc, c, LineText(h), d) && Heard(c, [h], d)
  {
    hide Run, LinesText, Fields, Hear, HearAll, HeadingOf;
    var b := c.(p := c.p.(state := HeaderFieldStart));
    d := FirstLine(hc, b, h);
    assert LineText(h)[0] == h.name[0] && Token(h.name[0]) != 0;
    NextLine(hc, c, LineText(h));
    assert SaidIn(b.p) == SaidIn(c.p);
  }

  /** One line first, then the others. */
  lemma LinesMore(s: Said, hs: seq<HeaderLine>)
    requires hs != []
    ensures LinesText(hs) == LineText(hs[0]) + LinesText(hs[1..]) && LinesText([hs[0]]) == LineText(hs[0])
    ensures Fields(hs) == Fields([hs[0]]) + Fields(hs[1..])
    ensures HearAll(s, hs) == HearAll(HearAll(s, [hs[0]]), hs[1..])
  {
    hide Hear, LineText;
    assert [hs[0]][1..] == [];
  }

  lemma HeardMore(c: Conf, hs: seq<HeaderLine>, m: Conf, d: Conf)
    requires hs != [] && Heard(c, [hs[0]], m) && Heard(m, hs[1..], d)
    ensures Heard(c, hs, d)
  {
    hide LinesText, Fields, HearAll;
    LinesMore(SaidIn(c.p), hs);
  }

  lemma HeardNothing(c: Conf)
    requires AtLine(c.p.state) && c.open.Closed?
    ensures Heard(c, [], c)
  {
  }

  /** A block of lines: one callback for each name and each value, in order, and the length and
      the flags are what the lines say. */
  lemma {:induction false} LinesGo(hc: Decide, c: Conf, hs: seq<HeaderLine>) returns (d: Conf)
    requires AtLine(c.p.state) && c.open.Closed? && LinesOk(hs) && c.p.nread + |LinesText(hs)| <= MAX_HEADER_SIZE
    ensures Goes(hc, c, LinesText(hs), d) && Heard(c, hs, d)
    decreases hs
  {
    hide Goes, LineOk, LineText, Fields, HearAll;
    if hs == [] {
      d := c;
      GoesNowhere(hc, c);
      HeardNothing(c);
    } else {
      var m := SomeLine(hc, c, hs[0]);
      LinesMore(SaidIn(c.p), hs);
      d := LinesGo(hc, m, hs[1..]);
      HeardMore(c, hs, m, d);
      hide Heard;
      GoesOn(hc, c, LineText(hs[0]), m, LinesText(hs[1..]), d);
    }
  }

  // ---- a line without a colon ----

  /** In a name, of which no state is one of a value that is found. */
  predicate InName(c: Conf, name: seq<byte>) {
    c.p.state.HeaderField? && c.open == Open(Field, name)
    && !c.p.headerState.HKeepAlive? && !c.p.headerState.HClose? && !c.p.headerState.HChunked?
  }

  lemma BareByte(hc: Decide, c: Conf, name: seq<byte>, ch: byte)
    requires InName(c, name) && c.p.nread < MAX_HEADER_SIZE && (ch == CR || ch == LF)
    ensures ByteStep(hc, c, ch) ==
      (Conf(c.p.(nread := c.p.nread + 1, state := if ch == CR then HeaderAlmostDone else HeaderFieldStart), Closed,
            c.out + [Data(Field, name)]), Next)
  {
    hide Pass, ByteStep, Switch;
    FieldPass(hc, Count(c.p), ch);
    OnePass(hc, c, ch);
  }

  lemma BareEndGoes(hc: Decide, c: Conf, name: seq<byte>, e: Ending) returns (d: Conf)
    requires InName(c, name) && c.p.nread + |EndText(e)| <= MAX_HEADER_SIZE
    ensures Goes(hc, c, EndText(e), d)
    ensures d == Conf(c.p.(nread := c.p.nread + |EndText(e)|, state := d.p.state), Closed, c.out + [Data(Field, name)])
    ensures AtLine(d.p.state)
  {
    hide ByteStep, Run, Goes;
    var b := if e.Lf? then LF else CR;
    var m := ByteStep(hc, c, b).0;
    BareByte(hc, c, name, b);
    GoesByte(hc, c, b, m);
    if e.Lf? {
      d := m;
    } else {
      AlmostByte(hc, m, e.next);
      d := ByteStep(hc, m, e.next).0;
      GoesByte(hc, m, e.next, d);
      GoesOn(hc, c, [CR], m, [e.next], d);
    }
  }

  lemma FirstInName(p: Parser, name: seq<byte>)
    requires |name| == 1
    ensures var h := Letters(p, name).headerState; !h.HKeepAlive? && !h.HClose? && !h.HChunked?
  {
  }

  lemma NextInName(p: Parser, ch: byte)
    requires !p.headerState.HKeepAlive? && !p.headerState.HClose? && !p.headerState.HChunked?
    ensures var h := OneLetter(p, ch).headerState; !h.HKeepAlive? && !h.HClose? && !h.HChunked?
  {
  }

  lemma {:induction false} LettersInName(p: Parser, name: seq<byte>)
    requires name != []
    ensures var h := Letters(p, name).headerState; !h.HKeepAlive? && !h.HClose? && !h.HChunked?
    decreases |name|
  {
    hide OneLetter;
    if |name| == 1 {
      FirstInName(p, name);
    } else {
      var a := name[..|name| - 1];
      LettersInName(p, a);
      NextInName(Letters(p, a), name[|name| - 1]);
    }
  }

  /** A line without a colon: one callback, for the name, none for a value, and it says nothing. */
  lemma BareLine(hc: Decide, c: Conf, name: seq<byte>, e: Ending) returns (d: Conf)
    requires c.p.state.HeaderFieldStart? && c.open.Closed? && c.p.nread + |name + EndText(e)| <= MAX_HEADER_SIZE
    requires name != [] && Tokens(name)
    ensures Goes(hc, c, name + EndText(e), d)
    ensures d == Conf(c.p.(nread := c.p.nread + |name + EndText(e)|, state := d.p.state, index := d.p.index, headerState := d.p.headerState),
                      Closed, c.out + [Data(Field, name)])
    ensures AtLine(d.p.state)
  {
    hide ByteStep, Letters, Tokens, EndText, Goes;
    var m := AfterName(c, name);
    NameRunGoes(hc, c, name);
    LettersKeep(c.p, name);
    LettersOnly(c.p, name);
    LettersInName(c.p, name);
    d := BareEndGoes(hc, m, name, e);
    GoesOn(hc, c, name, m, EndText(e), d);
  }

  lemma NameRunGoes(hc: Decide, c: Conf, name: seq<byte>)
    requires c.p.state.HeaderFieldStart? && c.open.Closed? && c.p.nread + |name| <= MAX_HEADER_SIZE
    requires name != [] && Tokens(name)
    ensures Goes(hc, c, name, AfterName(c, name))
  {
    hide Run, Tokens, AfterName;
    NameRun(hc, c, name);
  }

  // ---- the end of the headers ----

  function AtBlank(c: Conf): Conf {
    c.(p := c.p.(nread := c.p.nread + 1, state := HeadersAlmostDone))
  }

  lemma BlankCr(hc: Decide, c: Conf)
    requires AtLine(c.p.state) && c.open.Closed? && c.p.nread < MAX_HEADER_SIZE
    ensures ByteStep(hc, c, CR) == (AtBlank(c), Next)
  {
    hide Pass, ByteStep, Switch;
    var b := c.(p := c.p.(state := HeaderFieldStart));
    FieldPass(hc, Count(b.p), CR);
    OnePass(hc, b, CR);
    if c.p.state.HeaderValueLws? {
      LwsByte(hc, c, CR);
    }
  }

  /** The lines and the empty line after them, up to its last byte. */
  function Block(hs: seq<HeaderLine>): seq<byte> {
    LinesText(hs) + [CR]
  }

  /** At the last byte of the headers `hs`. */
  ghost predicate AtEnd(c: Conf, hs: seq<HeaderLine>, d: Conf) {
    && d.p == c.p.(nread := c.p.nread + |Block(hs)|, state := HeadersAlmostDone, index := d.p.index,
                   headerState := d.p.headerState, contentLength := HearAll(SaidIn(c.p), hs).length,
                   flags := HearAll(SaidIn(c.p), hs).flags)
    && d.open.Closed? && d.out == c.out + Fields(hs)
  }

  lemma BlockGoes(hc: Decide, c: Conf, hs: seq<HeaderLine>)
    requires AtLine(c.p.state) && c.open.Closed? && LinesOk(hs) && c.p.nread + |Block(hs)| <= MAX_HEADER_SIZE
    ensures var d := Run(hc, c, Block(hs)).conf; Goes(hc, c, Block(hs), d) && AtEnd(c, hs, d)
  {
    hide ByteStep, Run, LinesText, Fields, HearAll, LinesOk;
    var m := LinesGo(hc, c, hs);
    BlankCr(hc, m);
    GoesByte(hc, m, CR, AtBlank(m));
    GoesOn(hc, c, LinesText(hs), m, [CR], AtBlank(m));
  }

  /** What on_headers_complete gets to see after the lines. */
  function Seen(hc: Decide, c: Conf, hs: seq<HeaderLine>): Parser {
    HeadersSeen(Run(hc, c, Block(hs)).conf)
  }

  /** The headers of a message that has a body, `c` being at the first of them. */
  ghost predicate AtHeaders(hc: Decide, c: Conf, hs: seq<HeaderLine>) {
    && AtLine(c.p.state) && c.open.Closed? && LinesOk(hs) && c.p.nread + |Block(hs)| < MAX_HEADER_SIZE
    && !c.p.flags.trailing && !c.p.flags.skipBody && !c.p.meth.CONNECT? && hc(Seen(hc, c, hs)) == Proceed
  }

  lemma {:induction false} HearKeeps(s: Said, hs: seq<HeaderLine>)
    ensures var t := HearAll(s, hs).flags; t.trailing == s.flags.trailing && t.skipBody == s.flags.skipBody
    decreases hs
  {
    hide HeadingOf, Spells, Decimal;
    if hs != [] {
      HearKeeps(Hear(s, hs[0]), hs[1..]);
    }
  }

  /** From the header lines to a body of known length: when the lines say that there are n bytes,
      no chunks and no upgrade, then after the callbacks for the lines the body callback gets
      exactly the n bytes behind the headers, and the message is complete. */
  lemma LengthMessage(hc: Decide, c: Conf, hs: seq<HeaderLine>, lf: byte, data: seq<byte>)
    requires AtHeaders(hc, c, hs)
    requires HearAll(SaidIn(c.p), hs).length == |data| && 0 < |data| < NO_LENGTH
    requires !HearAll(SaidIn(c.p), hs).flags.chunked && !HearAll(SaidIn(c.p), hs).flags.upgrade
    ensures var r := Run(hc, c, Block(hs) + ([lf] + data));
      && r.ctl.Next? && r.conf.open.Closed? && r.conf.p.state == NewMessage(c.p)
      && r.conf.out == c.out + Fields(hs) + [HeadersComplete, Data(Body, data), Complete]
  {
    hide Run, Block, Fields, HearAll, LinesOk;
    var d := Run(hc, c, Block(hs)).conf;
    BlockGoes(hc, c, hs);
    HearKeeps(SaidIn(c.p), hs);
    RunAppend(hc, c, Block(hs), [lf] + data);
    IdentityBody(hc, d, lf, data);
  }

  /** From the header lines to a chunked body: when the lines say chunked and no upgrade, then
      whatever bytes follow, a run without an error is inside chunks or has been through all of
      them to the end of the message, and the body callbacks have had their payloads. */
  lemma ChunkedHeaders(hc: Decide, c: Conf, hs: seq<HeaderLine>, lf: byte, data: seq<byte>)
    requires AtHeaders(hc, c, hs)
    requires HearAll(SaidIn(c.p), hs).flags.chunked && !HearAll(SaidIn(c.p), hs).flags.upgrade
    requires Run(hc, c, Block(hs) + ([lf] + data)).ctl.Next?
    ensures var b := HttpMessage.FirstChunk(Run(hc, c, Block(hs)).conf);
      && b.out == c.out + Fields(hs) + [HeadersComplete]
      && ((exists at :: HttpMessage.Partial(b, data, at, Run(hc, c, Block(hs) + ([lf] + data)).conf))
          || (exists n, at :: 0 <= n <= |data|
                && HttpMessage.Whole(b, data[..n], at, Run(hc, c, Block(hs) + ([lf] + data[..n])).conf)))
  {
    hide Run, Block, Fields, HearAll, LinesOk, HttpMessage.Partial, HttpMessage.Whole;
    var d := Run(hc, c, Block(hs)).conf;
    BlockGoes(hc, c, hs);
    HearKeeps(SaidIn(c.p), hs);
    RunAppend(hc, c, Block(hs), [lf] + data);
    HttpMessage.ChunkedMessage(hc, d, lf, data);
    var b := HttpMessage.FirstChunk(d);
    if at :| HttpMessage.Partial(b, data, at, Run(hc, d, [lf] + data).conf) {
    } else {
      var n, at :| 0 <= n <= |data| && HttpMessage.Whole(b, data[..n], at, Run(hc, d, [lf] + data[..n]).conf);
      RunAppend(hc, c, Block(hs), [lf] + data[..n]);
    }
  }

  lemma NothingLeft(hc: Decide, d: Conf, lf: byte)
    requires AtHeadersEnd(d, d.p.contentLength) && hc(HeadersSeen(d)) == Proceed
    requires d.p.contentLength == 0 || (d.p.contentLength == NO_LENGTH && !NeedsEof(HeadersSeen(d)))
    ensures ByteStep(hc, d, lf) ==
      (Conf(HeadersSeen(d).(nread := 0, state := NewMessage(d.p)), Closed, d.out + [HeadersComplete] + [Complete]), Next)
  {
    hide Pass, ByteStep, Switch;
    HeadersFirst(hc, d, lf);
    HeadersPass(hc, HeadersSeen(d), lf);
    TwoPasses(hc, d, lf);
  }

  /** From the header lines to no body at all: the length is 0, or none is given and the message
      does not last until the end of the input, as a request never does. */
  lemma NoBodyMessage(hc: Decide, c: Conf, hs: seq<HeaderLine>, lf: byte)
    requires AtHeaders(hc, c, hs)
    requires var n := HearAll(SaidIn(c.p), hs).length; n == 0 || (n == NO_LENGTH && !NeedsEof(Seen(hc, c, hs)))
    requires !HearAll(SaidIn(c.p), hs).flags.chunked && !HearAll(SaidIn(c.p), hs).flags.upgrade
    ensures var r := Run(hc, c, Block(hs) + [lf]);
      && r.ctl.Next? && r.conf.open.Closed? && r.conf.p.state == NewMessage(c.p)
      && r.conf.out == c.out + Fields(hs) + [HeadersComplete] + [Complete]
  {
    hide Run, ByteStep, Block, Fields, HearAll, LinesOk, NeedsEof;
    var d := Run(hc, c, Block(hs)).conf;
    BlockGoes(hc, c, hs);
    HearKeeps(SaidIn(c.p), hs);
    NothingLeft(hc, d, lf);
    var e := ByteStep(hc, d, lf).0;
    GoesByte(hc, d, lf, e);
    GoesOn(hc, c, Block(hs), d, [lf], e);
  }

  // ---- what the lines say, line by line ----

  ghost predicate SaysChunked(h: HeaderLine) {
    Spells(h.name, TRANSFER_ENCODING, LOWER) && Spells(h.value, CHUNKED, FOLD)
  }

  ghost predicate SaysUpgrade(h: HeaderLine) {
    Spells(h.name, UPGRADE, LOWER) && h.value != []
  }

  ghost predicate SaysLength(h: HeaderLine) {
    Spells(h.name, CONTENT_LENGTH, LOWER) && Decimal(h.value)
  }

  /** A name spells one word at most. */
  lemma OneHeading(name: seq<byte>)
    ensures Spells(name, CONTENT_LENGTH, LOWER) <==> HeadingOf(name).OfLength?
    ensures Spells(name, TRANSFER_ENCODING, LOWER) <==> HeadingOf(name).OfCoding?
    ensures Spells(name, UPGRADE, LOWER) <==> HeadingOf(name).OfUpgrade?
  {
    assert CONTENT_LENGTH[0] == 'c' && TRANSFER_ENCODING[0] == 't' && UPGRADE[0] == 'u';
    assert CONNECTION[0] == 'c' && PROXY_CONNECTION[0] == 'p';
  }

  lemma HearSays(s: Said, h: HeaderLine)
    ensures var t := Hear(s, h);
      && (t.flags.chunked <==> s.flags.chunked || SaysChunked(h))
      && (t.flags.upgrade <==> s.flags.upgrade || SaysUpgrade(h))
      && t.length == if SaysLength(h) then LengthOf(h) else s.length
  {
    OneHeading(h.name);
    assert |CHUNKED| == 7;
    hide HeadingOf;
  }

  /** The body comes in chunks if and only if some Transfer-Encoding line says so, and the
      connection is upgraded if and only if some Upgrade line has a value. */
  lemma {:induction false} FlagsSaid(s: Said, hs: seq<HeaderLine>)
    ensures var t := HearAll(s, hs);
      && (t.flags.chunked <==> s.flags.chunked || exists h :: h in hs && SaysChunked(h))
      && (t.flags.upgrade <==> s.flags.upgrade || exists h :: h in hs && SaysUpgrade(h))
    decreases hs
  {
    hide Hear, SaysChunked, SaysUpgrade;
    if hs != [] {
      HearSays(s, hs[0]);
      FlagsSaid(Hear(s, hs[0]), hs[1..]);
      assert forall h :: h in hs <==> h == hs[0] || h in hs[1..];
    }
  }

  lemma {:induction false} NoLengthSaid(s: Said, hs: seq<HeaderLine>)
    requires forall h :: h in hs ==> !SaysLength(h)
    ensures HearAll(s, hs).length == s.length
    decreases hs
  {
    hide Hear, SaysLength;
    if hs != [] {
      HearSays(s, hs[0]);
      NoLengthSaid(Hear(s, hs[0]), hs[1..]);
    }
  }

  lemma {:induction false} HearAppend(s: Said, a: seq<HeaderLine>, b: seq<HeaderLine>)
    ensures HearAll(s, a + b) == HearAll(HearAll(s, a), b)
    decreases a
  {
    hide Hear;
    if a == [] {
      assert a + b == b;
    } else {
      assert (a + b)[0] == a[0] && (a + b)[1..] == a[1..] + b;
      HearAppend(Hear(s, a[0]), a[1..], b);
    }
  }

  /** The length is that of the last Content-Length line. */
  lemma LengthSaid(s: Said, a: seq<HeaderLine>, h: HeaderLine, b: seq<HeaderLine>)
    requires SaysLength(h) && forall k :: k in b ==> !SaysLength(k)
    ensures HearAll(s, a + [h] + b).length == LengthOf(h)
  {
    hide Hear, SaysLength, LengthOf, HearAll;
    HearAppend(s, a + [h], b);
    HearAppend(s, a, [h]);
    HearSays(HearAll(s, a), h);
    assert HearAll(HearAll(s, a), [h]) == Hear(HearAll(s, a), h) by { HearOne(HearAll(s, a), h); }
    NoLengthSaid(HearAll(s, a + [h]), b);
  }

  lemma HearOne(s: Said, h: HeaderLine)
    ensures HearAll(s, [h]) == Hear(s, h)
  {
    assert [h][1..] == [];
  }

  /** A message whose lines give a Content-Length and neither chunks nor an upgrade: the body is
      as many bytes as the last such line says. */
  lemma ContentLengthMessage(hc: Decide, c: Conf, a: seq<HeaderLine>, h: HeaderLine, b: seq<HeaderLine>, lf: byte, data: seq<byte>)
    requires AtHeaders(hc, c, a + [h] + b) && !c.p.flags.chunked && !c.p.flags.upgrade
    requires forall k :: k in a + [h] + b ==> !SaysChunked(k) && !SaysUpgrade(k)
    requires SaysLength(h) && forall k :: k in b ==> !SaysLength(k)
    requires LengthOf(h) == |data| && 0 < |data| < NO_LENGTH
    ensures var r := Run(hc, c, Block(a + [h] + b) + ([lf] + data));
      && r.ctl.Next? && r.conf.open.Closed? && r.conf.p.state == NewMessage(c.p)
      && r.conf.out == c.out + Fields(a + [h] + b) + [HeadersComplete, Data(Body, data), Complete]
  {
    hide Run, Block, Fields, HearAll, LinesOk, SaysChunked, SaysUpgrade, SaysLength, LengthOf;
    FlagsSaid(SaidIn(c.p), a + [h] + b);
    LengthSaid(SaidIn(c.p), a, h, b);
    LengthMessage(hc, c, a + [h] + b, lf, data);
  }
}
