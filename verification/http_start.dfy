/** The first line of a message, byte by byte and in both directions: what is read out of a line as it is
    written (section 6.1 of RFC 2616), and that nothing else is let through. */
module HttpStart {
  import opened HttpTypes
  import opened HttpStep
  import opened HttpRun
  import opened HttpBody
  import opened HttpHeaders
  import opened HttpUrlGrammar

  const DOT: byte := '.' as int
  const LETTER_H: byte := 'H' as int
  const LETTER_T: byte := 'T' as int
  const LETTER_E: byte := 'E' as int
  const ZERO: byte := '0' as int

  /** The bytes of blank lines, of which there may be any number before the first line. */
  predicate Break(ch: byte) {
    ch == CR || ch == LF
  }

  predicate Breaks(s: seq<byte>) {
    forall i :: 0 <= i < |s| ==> Break(s[i])
  }

  // ---- one byte ----

  /** After one more byte that leaves no mark. */
  function Moved(c: Conf, q: Parser): Conf {
    c.(p := q.(nread := c.p.nread + 1))
  }

  /** Between two bytes, with room for n more in the header. */
  predicate Room(c: Conf, n: nat) {
    c.open.Closed? && c.p.nread + n <= MAX_HEADER_SIZE
  }

  /** A byte that is not let through. */
  lemma OneFailure(hc: Decide, c: Conf, ch: byte)
    requires !Reads(c.p.state) && c.p.nread < MAX_HEADER_SIZE && Pass(hc, Count(c.p), ch).ctl.Fail?
    ensures ByteStep(hc, c, ch).1.Fail?
  {
  }

  lemma StartPass(hc: Decide, p: Parser, ch: byte)
    requires GroupOf(p.state).GStart?
    ensures !Reads(p.state) && Pass(hc, p, ch) == StartStep(p, ch)
  {
    hide StartStep, MethodStep, StatusLineStep, UrlStep, RequestLineStep, FieldStep, ValueStep, HeadersStep, ChunkStep;
  }

  lemma StatusPass(hc: Decide, p: Parser, ch: byte)
    requires InStatusLine(p.state)
    ensures !Reads(p.state) && Pass(hc, p, ch) == StatusLineStep(p, ch)
  {
    hide StartStep, MethodStep, StatusLineStep, UrlStep, RequestLineStep, FieldStep, ValueStep, HeadersStep, ChunkStep;
  }

  lemma RequestPass(hc: Decide, p: Parser, ch: byte)
    requires InRequestLine(p.state)
    ensures !Reads(p.state) && Pass(hc, p, ch) == RequestLineStep(p, ch)
  {
    hide StartStep, MethodStep, StatusLineStep, UrlStep, RequestLineStep, FieldStep, ValueStep, HeadersStep, ChunkStep;
  }

  lemma UrlPass(hc: Decide, p: Parser, ch: byte)
    requires p.state.SpacesBeforeUrl? || InUrl(p.state)
    ensures !Reads(p.state) && Pass(hc, p, ch) == UrlStep(p, ch)
  {
    hide StartStep, MethodStep, StatusLineStep, UrlStep, RequestLineStep, FieldStep, ValueStep, HeadersStep, ChunkStep;
  }

  lemma StatusQuiet(p: Parser, ch: byte)
    requires InStatusLine(p.state)
    ensures var o := StatusLineStep(p, ch); o.act.Quiet? && !o.ctl.Stop?
  {
  }

  lemma RequestQuiet(p: Parser, ch: byte)
    requires InRequestLine(p.state)
    ensures var o := RequestLineStep(p, ch); o.act.Quiet? && !o.ctl.Stop?
  {
  }

  lemma UrlNotAgain(p: Parser, ch: byte)
    ensures var o := UrlStep(p, ch); o.ctl.Next? || o.ctl.Fail?
  {
    hide UrlChar;
  }

  lemma UrlByte(hc: Decide, c: Conf, ch: byte)
    requires (c.p.state.SpacesBeforeUrl? || InUrl(c.p.state)) && c.p.nread < MAX_HEADER_SIZE
    ensures var o := UrlStep(Count(c.p), ch);
      if o.ctl.Next? then ByteStep(hc, c, ch) == (Take(Perform(o.act, c.(p := o.p)), ch), Next) else ByteStep(hc, c, ch).1.Fail?
  {
    hide Pass, ByteStep, Switch, UrlStep, Perform;
    UrlPass(hc, Count(c.p), ch);
    UrlNotAgain(Count(c.p), ch);
    if UrlStep(Count(c.p), ch).ctl.Next? {
      OnePass(hc, c, ch);
    } else {
      OneFailure(hc, c, ch);
    }
  }

  lemma StatusByte(hc: Decide, c: Conf, ch: byte)
    requires InStatusLine(c.p.state) && Room(c, 1)
    ensures var o := StatusLineStep(Count(c.p), ch);
      if o.ctl.Next? then ByteStep(hc, c, ch) == (c.(p := o.p), Next) else ByteStep(hc, c, ch).1.Fail?
  {
    hide Pass, ByteStep, Switch, StatusLineStep;
    StatusPass(hc, Count(c.p), ch);
    StatusQuiet(Count(c.p), ch);
    if StatusLineStep(Count(c.p), ch).ctl.Next? {
      OnePass(hc, c, ch);
    } else {
      OneFailure(hc, c, ch);
    }
  }

  lemma RequestByte(hc: Decide, c: Conf, ch: byte)
    requires InRequestLine(c.p.state) && Room(c, 1)
    ensures var o := RequestLineStep(Count(c.p), ch);
      if o.ctl.Next? then ByteStep(hc, c, ch) == (c.(p := o.p), Next) else ByteStep(hc, c, ch).1.Fail?
  {
    hide Pass, ByteStep, Switch, RequestLineStep;
    RequestPass(hc, Count(c.p), ch);
    RequestQuiet(Count(c.p), ch);
    if RequestLineStep(Count(c.p), ch).ctl.Next? {
      OnePass(hc, c, ch);
    } else {
      OneFailure(hc, c, ch);
    }
  }

  // ---- runs in pieces ----

  /** A run over two pieces goes over the first and from there over the second. */
  lemma Peel(hc: Decide, c: Conf, a: seq<byte>, b: seq<byte>, d: Conf)
    requires Goes(hc, c, a + b, d)
    ensures var r := Run(hc, c, a); r.ctl.Next? && Goes(hc, c, a, r.conf) && Goes(hc, r.conf, b, d)
  {
    hide Run;
    RunAppend(hc, c, a, b);
  }

  lemma PeelByte(hc: Decide, c: Conf, data: seq<byte>, d: Conf)
    requires Goes(hc, c, data, d) && data != []
    ensures var (e, k) := ByteStep(hc, c, data[0]); k.Next? && Goes(hc, e, data[1..], d)
  {
    hide ByteStep;
  }

  lemma Nothing(hc: Decide, c: Conf, d: Conf)
    requires Goes(hc, c, [], d)
    ensures c == d
  {
  }

  // ---- spaces that are skipped ----

  predicate Skips(s: State) {
    s.ResFirstStatus? || s.SpacesBeforeUrl? || s.HttpStart?
  }

  function Spaces(n: nat): (s: seq<byte>)
    ensures |s| == n && forall i :: 0 <= i < n ==> s[i] == SP
  {
    seq(n, _ => SP)
  }

  lemma SpaceByte(hc: Decide, c: Conf)
    requires Skips(c.p.state) && Room(c, 1)
    ensures ByteStep(hc, c, SP) == (Along(c, 1), Next)
  {
    hide ByteStep;
    if c.p.state.ResFirstStatus? {
      StatusByte(hc, c, SP);
    } else if c.p.state.SpacesBeforeUrl? {
      UrlByte(hc, c, SP);
    } else {
      RequestByte(hc, c, SP);
    }
  }

  lemma {:induction false} SpacesGo(hc: Decide, c: Conf, n: nat)
    requires Skips(c.p.state) && Room(c, n)
    ensures Goes(hc, c, Spaces(n), Along(c, n))
    decreases n
  {
    hide ByteStep, Run, Goes;
    if n == 0 {
      GoesNowhere(hc, c);
      assert Spaces(0) == [];
    } else {
      SpaceByte(hc, c);
      GoesByte(hc, c, SP, Along(c, 1));
      SpacesGo(hc, Along(c, 1), n - 1);
      GoesOn(hc, c, [SP], Along(c, 1), Spaces(n - 1), Along(c, n));
      assert Spaces(n) == [SP] + Spaces(n - 1);
    }
  }

  lemma {:induction false} SpacesOnly(hc: Decide, c: Conf, data: seq<byte>, d: Conf) returns (n: nat, rest: seq<byte>)
    requires Skips(c.p.state) && Room(c, |data|) && Goes(hc, c, data, d) && d.p.state != c.p.state
    ensures data == Spaces(n) + rest && rest != [] && rest[0] != SP && Goes(hc, Along(c, n), rest, d)
    decreases data
  {
    hide ByteStep, Run, Goes;
    if data == [] {
      Nothing(hc, c, d);
      assert false;
    } else if data[0] == SP {
      SpaceByte(hc, c);
      PeelByte(hc, c, data, d);
      n, rest := SpacesOnly(hc, Along(c, 1), data[1..], d);
      assert Spaces(n + 1) == [SP] + Spaces(n);
      assert data == [SP] + data[1..];
      n := n + 1;
    } else {
      n, rest := 0, data;
      assert Along(c, 0) == c;
    }
  }

  // ---- numbers ----

  datatype Number = Major | Minor | Code

  /** Where a number stands, in a status line or a request line. */
  datatype Place = Place(answer: bool, number: Number)

  predicate PlaceOk(w: Place) {
    w.answer || !w.number.Code?
  }

  function FirstOf(w: Place): State {
    match w.number
    case Major => if w.answer then ResFirstMajor else ReqFirstMajor
    case Minor => if w.answer then ResFirstMinor else ReqFirstMinor
    case Code => ResFirstStatus
  }

  function WithinOf(w: Place): State {
    match w.number
    case Major => if w.answer then ResMajor else ReqMajor
    case Minor => if w.answer then ResMinor else ReqMinor
    case Code => ResStatusCode
  }

  function NumberIn(p: Parser, n: Number): nat {
    match n
    case Major => p.major
    case Minor => p.minor
    case Code => p.status
  }

  function WithNumber(p: Parser, n: Number, v: nat): Parser {
    match n
    case Major => p.(major := v)
    case Minor => p.(minor := v)
    case Code => p.(status := v)
  }

  /** What the digits spell. */
  function Spell(ds: seq<byte>): nat
    requires Made(ds, DIGITS)
  {
    HttpBody.Value(10, Digits(ds))
  }

  /** The major version of a request does not begin with a zero. */
  predicate Leads(w: Place, ch: byte) {
    ch in DIGITS && (w == Place(false, Major) ==> ch != ZERO)
  }

  predicate Written(w: Place, ds: seq<byte>) {
    ds != [] && Made(ds, DIGITS) && Leads(w, ds[0])
  }

  predicate NumberOk(w: Place, ds: seq<byte>) {
    Written(w, ds) && Spell(ds) <= 999
  }

  lemma NumBytes(ch: byte)
    ensures IsNum(ch) ==> ZERO <= ch && ch != DOT && ch != SP && ch != CR && ch != LF
  {
  }

  lemma AnswerFirstDigit(hc: Decide, c: Conf, w: Place, ch: byte)
    requires w.answer && PlaceOk(w) && c.p.state == FirstOf(w) && Room(c, 1)
    ensures if Leads(w, ch) then ByteStep(hc, c, ch) == (Moved(c, WithNumber(c.p, w.number, ch - ZERO).(state := WithinOf(w))), Next)
      else ByteStep(hc, c, ch).1.Fail? || (w.number.Code? && ch == SP)
  {
    hide ByteStep, DIGITS, IsNum;
    Classes(ch);
    NumBytes(ch);
    StatusByte(hc, c, ch);
  }

  lemma RequestFirstDigit(hc: Decide, c: Conf, w: Place, ch: byte)
    requires !w.answer && PlaceOk(w) && c.p.state == FirstOf(w) && Room(c, 1)
    ensures if Leads(w, ch) then ByteStep(hc, c, ch) == (Moved(c, WithNumber(c.p, w.number, ch - ZERO).(state := WithinOf(w))), Next)
      else ByteStep(hc, c, ch).1.Fail? || (w.number.Code? && ch == SP)
  {
    hide ByteStep, DIGITS, IsNum;
    Classes(ch);
    NumBytes(ch);
    RequestByte(hc, c, ch);
  }

  lemma FirstDigit(hc: Decide, c: Conf, w: Place, ch: byte)
    requires PlaceOk(w) && c.p.state == FirstOf(w) && Room(c, 1)
    ensures if Leads(w, ch) then ByteStep(hc, c, ch) == (Moved(c, WithNumber(c.p, w.number, ch - ZERO).(state := WithinOf(w))), Next)
      else ByteStep(hc, c, ch).1.Fail? || (w.number.Code? && ch == SP)
  {
    hide ByteStep, DIGITS;
    if w.answer {
      AnswerFirstDigit(hc, c, w, ch);
    } else {
      RequestFirstDigit(hc, c, w, ch);
    }
  }

  lemma AnswerNextDigit(hc: Decide, c: Conf, w: Place, ch: byte)
    requires w.answer && PlaceOk(w) && c.p.state == WithinOf(w) && Room(c, 1) && ch in DIGITS
    ensures var v := NumberIn(c.p, w.number) * 10 + (ch - ZERO);
      if v <= 999 then ByteStep(hc, c, ch) == (Moved(c, WithNumber(c.p, w.number, v)), Next) else ByteStep(hc, c, ch).1.Fail?
  {
    hide ByteStep, DIGITS, IsNum;
    Classes(ch);
    NumBytes(ch);
    StatusByte(hc, c, ch);
  }

  lemma RequestNextDigit(hc: Decide, c: Conf, w: Place, ch: byte)
    requires !w.answer && PlaceOk(w) && c.p.state == WithinOf(w) && Room(c, 1) && ch in DIGITS
    ensures var v := NumberIn(c.p, w.number) * 10 + (ch - ZERO);
      if v <= 999 then ByteStep(hc, c, ch) == (Moved(c, WithNumber(c.p, w.number, v)), Next) else ByteStep(hc, c, ch).1.Fail?
  {
    hide ByteStep, DIGITS, IsNum;
    Classes(ch);
    NumBytes(ch);
    RequestByte(hc, c, ch);
  }

  lemma NextDigit(hc: Decide, c: Conf, w: Place, ch: byte)
    requires PlaceOk(w) && c.p.state == WithinOf(w) && Room(c, 1) && ch in DIGITS
    ensures var v := NumberIn(c.p, w.number) * 10 + (ch - ZERO);
      if v <= 999 then ByteStep(hc, c, ch) == (Moved(c, WithNumber(c.p, w.number, v)), Next) else ByteStep(hc, c, ch).1.Fail?
  {
    hide ByteStep, DIGITS;
    if w.answer {
      AnswerNextDigit(hc, c, w, ch);
    } else {
      RequestNextDigit(hc, c, w, ch);
    }
  }

  /** Behind the digits. */
  function AfterNumber(c: Conf, w: Place, ds: seq<byte>): Conf
    requires Made(ds, DIGITS)
  {
    c.(p := WithNumber(c.p, w.number, Spell(ds)).(nread := c.p.nread + |ds|, state := WithinOf(w)))
  }

  lemma SpellMore(ds: seq<byte>, ch: byte)
    requires Made(ds + [ch], DIGITS)
    ensures Made(ds, DIGITS) && ch in DIGITS
    ensures Spell(ds + [ch]) == Spell(ds) * 10 + (ch - ZERO)
    ensures ds == [] ==> Spell([ch]) == ch - ZERO
  {
    assert (ds + [ch])[..|ds|] == ds && (ds + [ch])[|ds|] == ch;
    assert forall i :: 0 <= i < |ds| ==> (ds + [ch])[i] == ds[i];
    DigitsMore(ds, ch);
    if ds == [] {
      assert [] + [ch] == [ch];
    }
  }

  /** The number is read as what its digits spell, if that is no more than 999, and is an error otherwise. */
  lemma {:induction false} NumberRuns(hc: Decide, c: Conf, w: Place, ds: seq<byte>)
    requires PlaceOk(w) && c.p.state == FirstOf(w) && Room(c, |ds|) && Written(w, ds)
    ensures if NumberOk(w, ds) then Goes(hc, c, ds, AfterNumber(c, w, ds)) else !Run(hc, c, ds).ctl.Next?
    decreases |ds|
  {
    hide ByteStep, Run, Goes, Spell, DIGITS;
    var a, ch := ds[..|ds| - 1], ds[|ds| - 1];
    assert ds == a + [ch];
    SpellMore(a, ch);
    if a == [] {
      assert ds == [ch];
      FirstDigit(hc, c, w, ch);
      GoesByte(hc, c, ch, AfterNumber(c, w, ds));
    } else {
      NumberRuns(hc, c, w, a);
      if NumberOk(w, a) {
        NextDigit(hc, AfterNumber(c, w, a), w, ch);
        OneMore(hc, c, a, AfterNumber(c, w, a), ch);
      } else {
        NoMore(hc, c, a, [ch]);
      }
    }
  }

  lemma OneMore(hc: Decide, c: Conf, a: seq<byte>, d: Conf, ch: byte)
    requires Goes(hc, c, a, d)
    ensures var (e, k) := ByteStep(hc, d, ch);
      if k.Next? then Goes(hc, c, a + [ch], e) else !Run(hc, c, a + [ch]).ctl.Next?
  {
    hide ByteStep;
    var (e, k) := ByteStep(hc, d, ch);
    if k.Next? {
      GoesByte(hc, d, ch, e);
      GoesOn(hc, c, a, d, [ch], e);
    } else {
      RunAppend(hc, c, a, [ch]);
    }
  }

  lemma NoMore(hc: Decide, c: Conf, a: seq<byte>, b: seq<byte>)
    requires !Run(hc, c, a).ctl.Next?
    ensures !Run(hc, c, a + b).ctl.Next?
  {
    hide Run;
    RunAppend(hc, c, a, b);
  }

  function DigitCount(data: seq<byte>): (n: nat)
    ensures n <= |data| && (forall i :: 0 <= i < n ==> data[i] in DIGITS) && (n < |data| ==> data[n] !in DIGITS)
  {
    if data == [] || data[0] !in DIGITS then 0 else 1 + DigitCount(data[1..])
  }

  lemma NumberOnly(hc: Decide, c: Conf, w: Place, data: seq<byte>, d: Conf) returns (ds: seq<byte>, rest: seq<byte>)
    requires PlaceOk(w) && c.p.state == FirstOf(w) && Room(c, |data|) && Goes(hc, c, data, d)
    requires d.p.state != FirstOf(w) && d.p.state != WithinOf(w) && (w.number.Code? && data != [] ==> data[0] != SP)
    ensures data == ds + rest && NumberOk(w, ds) && rest != [] && rest[0] !in DIGITS && Goes(hc, AfterNumber(c, w, ds), rest, d)
  {
    hide ByteStep, Run, Goes, Spell, DIGITS, DigitCount;
    if data == [] {
      Nothing(hc, c, d);
      assert false;
    }
    var n := DigitCount(data);
    ds, rest := data[..n], data[n..];
    FirstDigit(hc, c, w, data[0]);
    PeelByte(hc, c, data, d);
    NumberRuns(hc, c, w, ds);
    assert data == ds + rest;
    Peel(hc, c, ds, rest, d);
    GoesTo(hc, c, ds, AfterNumber(c, w, ds));
    if rest == [] {
      Nothing(hc, AfterNumber(c, w, ds), d);
    }
  }

  lemma GoesTo(hc: Decide, c: Conf, a: seq<byte>, d: Conf)
    requires Goes(hc, c, a, d)
    ensures Run(hc, c, a).conf == d && Run(hc, c, a).ctl.Next?
  {
    hide Run;
  }

  // ---- the word before the version ----

  /** How many of its bytes are left. */
  function WordLeft(s: State): nat {
    match s
    case ResH => 4 case HttpH => 4
    case ResHT => 3 case HttpHT => 3
    case ResHTT => 2 case HttpHTT => 2
    case ResHTTP => 1 case HttpHTTP => 1
    case _ => 0
  }

  function WordNext(s: State): State {
    match s
    case ResH => ResHT case HttpH => HttpHT
    case ResHT => ResHTT case HttpHT => HttpHTT
    case ResHTT => ResHTTP case HttpHTT => HttpHTTP
    case ResHTTP => ResFirstMajor
    case _ => ReqFirstMajor
  }

  function WordState(s: State, n: nat): State
    decreases n
  {
    if n == 0 then s else WordState(WordNext(s), n - 1)
  }

  lemma {:induction false} WordStates(s: State, n: nat)
    requires n <= WordLeft(s)
    ensures n < WordLeft(s) ==> WordLeft(WordState(s, n)) == WordLeft(s) - n
    ensures n > 0 && n == WordLeft(s) ==> WordState(s, n) == if InStatusLine(s) then ResFirstMajor else ReqFirstMajor
    decreases n
  {
    if n > 0 {
      WordStates(WordNext(s), n - 1);
    }
  }

  function AfterWord(c: Conf, n: nat): Conf {
    c.(p := c.p.(nread := c.p.nread + n, state := WordState(c.p.state, n)))
  }

  /** Whatever byte it is. */
  lemma WordByte(hc: Decide, c: Conf, ch: byte)
    requires WordLeft(c.p.state) > 0 && Room(c, 1)
    ensures ByteStep(hc, c, ch) == (AfterWord(c, 1), Next)
  {
    hide ByteStep;
    if InStatusLine(c.p.state) {
      StatusByte(hc, c, ch);
    } else {
      RequestByte(hc, c, ch);
    }
  }

  lemma {:induction false} WordGoes(hc: Decide, c: Conf, word: seq<byte>)
    requires |word| <= WordLeft(c.p.state) && Room(c, |word|)
    ensures Goes(hc, c, word, AfterWord(c, |word|))
    decreases |word|
  {
    hide ByteStep, Run, Goes;
    if word == [] {
      GoesNowhere(hc, c);
    } else {
      var d := AfterWord(c, 1);
      WordByte(hc, c, word[0]);
      GoesByte(hc, c, word[0], d);
      WordStates(c.p.state, 1);
      WordGoes(hc, d, word[1..]);
      GoesOn(hc, c, [word[0]], d, word[1..], AfterWord(c, |word|));
      assert word == [word[0]] + word[1..];
    }
  }

  function AtVersion(c: Conf): Conf {
    c.(p := c.p.(nread := c.p.nread + 4, state := if InStatusLine(c.p.state) then ResFirstMajor else ReqFirstMajor))
  }

  lemma FourGo(hc: Decide, c: Conf, word: seq<byte>)
    requires WordLeft(c.p.state) == 4 == |word| && Room(c, 4)
    ensures Goes(hc, c, word, AtVersion(c))
  {
    hide Goes, WordState;
    WordGoes(hc, c, word);
    WordStates(c.p.state, 4);
  }

  lemma FourOnly(hc: Decide, c: Conf, data: seq<byte>, d: Conf) returns (word: seq<byte>, rest: seq<byte>)
    requires WordLeft(c.p.state) == 4 && Room(c, |data|) && Goes(hc, c, data, d) && WordLeft(d.p.state) == 0
    ensures data == word + rest && |word| == 4 && Goes(hc, AtVersion(c), rest, d)
  {
    hide Run, Goes, WordState, WordLeft;
    if |data| < 4 {
      WordGoes(hc, c, data);
      WordStates(c.p.state, |data|);
      GoesTo(hc, c, data, AfterWord(c, |data|));
      GoesTo(hc, c, data, d);
      assert false;
    }
    word, rest := data[..4], data[4..];
    assert data == word + rest;
    FourGo(hc, c, word);
    Peel(hc, c, word, rest, d);
    GoesTo(hc, c, word, AtVersion(c));
  }

  // ---- the version ----

  /** The word and the two numbers; the non-strict build looks at the first letter of the word only. */
  datatype Version = Version(word: seq<byte>, major: seq<byte>, minor: seq<byte>)

  predicate VersionOk(answer: bool, v: Version) {
    |v.word| == 4 && NumberOk(Place(answer, Major), v.major) && NumberOk(Place(answer, Minor), v.minor)
  }

  function VersionText(v: Version): seq<byte> {
    (v.word + v.major + [DOT]) + v.minor
  }

  function AfterVersion(c: Conf, answer: bool, v: Version): Conf
    requires VersionOk(answer, v)
  {
    c.(p := c.p.(nread := c.p.nread + |VersionText(v)|, major := Spell(v.major), minor := Spell(v.minor),
                 state := WithinOf(Place(answer, Minor))))
  }

  lemma DotByte(hc: Decide, c: Conf, answer: bool, ch: byte)
    requires c.p.state == WithinOf(Place(answer, Major)) && Room(c, 1) && ch !in DIGITS
    ensures if ch == DOT then ByteStep(hc, c, ch) == (Moved(c, c.p.(state := FirstOf(Place(answer, Minor)))), Next)
      else ByteStep(hc, c, ch).1.Fail?
  {
    hide ByteStep, DIGITS;
    Classes(ch);
    if answer {
      StatusByte(hc, c, ch);
    } else {
      RequestByte(hc, c, ch);
    }
  }

  /** At the minor version. */
  function AtMinor(c: Conf, answer: bool, word: seq<byte>, major: seq<byte>): Conf
    requires Made(major, DIGITS)
  {
    c.(p := c.p.(nread := c.p.nread + |word| + |major| + 1, major := Spell(major), state := FirstOf(Place(answer, Minor))))
  }

  lemma MajorGoes(hc: Decide, c: Conf, answer: bool, word: seq<byte>, major: seq<byte>)
    requires c.p.state == (if answer then ResH else HttpH) && Room(c, |word| + |major| + 1)
    requires |word| == 4 && NumberOk(Place(answer, Major), major)
    ensures Goes(hc, c, word + major + [DOT], AtMinor(c, answer, word, major))
  {
    hide ByteStep, Goes, Run, Made, Spell, DIGITS;
    var c1, w := AtVersion(c), Place(answer, Major);
    FourGo(hc, c, word);
    var c2 := AfterNumber(c1, w, major);
    NumberRuns(hc, c1, w, major);
    GoesOn(hc, c, word, c1, major, c2);
    DotNoDigit();
    DotByte(hc, c2, answer, DOT);
    GoesByte(hc, c2, DOT, AtMinor(c, answer, word, major));
    GoesOn(hc, c, word + major, c2, [DOT], AtMinor(c, answer, word, major));
  }

  lemma VersionGoes(hc: Decide, c: Conf, answer: bool, v: Version)
    requires c.p.state == (if answer then ResH else HttpH) && Room(c, |VersionText(v)|) && VersionOk(answer, v)
    ensures Goes(hc, c, VersionText(v), AfterVersion(c, answer, v))
  {
    hide Goes, Run, Made, Spell, DIGITS;
    var c1, u := AtMinor(c, answer, v.word, v.major), Place(answer, Minor);
    MajorGoes(hc, c, answer, v.word, v.major);
    NumberRuns(hc, c1, u, v.minor);
    GoesOn(hc, c, v.word + v.major + [DOT], c1, v.minor, AfterNumber(c1, u, v.minor));
  }

  lemma DotNoDigit()
    ensures DOT !in DIGITS && SP !in DIGITS && CR !in DIGITS && LF !in DIGITS
  {
  }

  /** The states of a version, from its first letter on. */
  predicate InVersion(s: State) {
    WordLeft(s) > 0 || s.ResFirstMajor? || s.ReqFirstMajor? || s.ResMajor? || s.ReqMajor? || s.ResFirstMinor? || s.ReqFirstMinor?
    || s.ResMinor? || s.ReqMinor?
  }

  lemma MajorOnly(hc: Decide, c: Conf, answer: bool, data: seq<byte>, d: Conf)
    returns (word: seq<byte>, major: seq<byte>, rest: seq<byte>)
    requires c.p.state == (if answer then ResH else HttpH) && Room(c, |data|)
    requires Goes(hc, c, data, d) && !InVersion(d.p.state)
    ensures data == word + major + [DOT] + rest && |word| == 4 && NumberOk(Place(answer, Major), major)
    ensures Goes(hc, AtMinor(c, answer, word, major), rest, d)
  {
    hide ByteStep, Goes, Run, Made, Spell, DIGITS;
    var w := Place(answer, Major);
    var rest1, rest2;
    word, rest1 := FourOnly(hc, c, data, d);
    var c1 := AtVersion(c);
    major, rest2 := NumberOnly(hc, c1, w, rest1, d);
    var c2 := AfterNumber(c1, w, major);
    DotByte(hc, c2, answer, rest2[0]);
    PeelByte(hc, c2, rest2, d);
    rest := rest2[1..];
    assert rest2 == [DOT] + rest;
  }

  lemma VersionOnly(hc: Decide, c: Conf, answer: bool, data: seq<byte>, d: Conf) returns (v: Version, rest: seq<byte>)
    requires c.p.state == (if answer then ResH else HttpH) && Room(c, |data|)
    requires Goes(hc, c, data, d) && !InVersion(d.p.state)
    ensures data == VersionText(v) + rest && VersionOk(answer, v) && rest != [] && rest[0] !in DIGITS
    ensures Goes(hc, AfterVersion(c, answer, v), rest, d)
  {
    hide Goes, Run, Made, Spell, DIGITS;
    var word, major, rest1 := MajorOnly(hc, c, answer, data, d);
    var minor;
    minor, rest := NumberOnly(hc, AtMinor(c, answer, word, major), Place(answer, Minor), rest1, d);
    v := Version(word, major, minor);
    assert data == VersionText(v) + rest;
  }

  // ---- the end of a status line ----

  /** What stands behind the code: nothing, or a space and a reason. */
  datatype Reason = NoReason | Reason(text: seq<byte>)

  function ReasonText(r: Reason): seq<byte> {
    if r.NoReason? then [] else [SP] + r.text
  }

  predicate NoBreak(s: seq<byte>) {
    CR !in s && LF !in s
  }

  predicate ReasonOk(r: Reason) {
    r.Reason? ==> NoBreak(r.text)
  }

  function Over(c: Conf, n: nat): Conf {
    c.(p := c.p.(nread := c.p.nread + n, state := HeaderFieldStart))
  }

  lemma TailByte(hc: Decide, c: Conf, ch: byte)
    requires (c.p.state.ResStatusCode? || c.p.state.ResStatus?) && Room(c, 1) && (c.p.state.ResStatusCode? ==> ch !in DIGITS)
    ensures var (d, k) := ByteStep(hc, c, ch);
      if ch == LF then (d, k) == (Over(c, 1), Next)
      else if ch == CR then (d, k) == (Moved(c, c.p.(state := ResLineAlmostDone)), Next)
      else if c.p.state.ResStatus? || ch == SP then (d, k) == (Moved(c, c.p.(state := ResStatus)), Next)
      else k.Fail?
  {
    hide ByteStep, DIGITS;
    Classes(ch);
    StatusByte(hc, c, ch);
  }

  lemma AlmostOver(hc: Decide, c: Conf, ch: byte)
    requires c.p.state.ResLineAlmostDone? && Room(c, 1)
    ensures ByteStep(hc, c, ch) == (Over(c, 1), Next)
  {
    hide ByteStep;
    StatusByte(hc, c, ch);
  }

  lemma LineEndGoes(hc: Decide, c: Conf, e: Ending)
    requires (c.p.state.ResStatusCode? || c.p.state.ResStatus?) && Room(c, |EndText(e)|)
    ensures Goes(hc, c, EndText(e), Over(c, |EndText(e)|))
  {
    hide ByteStep, Goes, DIGITS;
    DotNoDigit();
    if e.Lf? {
      TailByte(hc, c, LF);
      GoesByte(hc, c, LF, Over(c, 1));
    } else {
      var d := Moved(c, c.p.(state := ResLineAlmostDone));
      TailByte(hc, c, CR);
      GoesByte(hc, c, CR, d);
      AlmostOver(hc, d, e.next);
      GoesByte(hc, d, e.next, Over(d, 1));
      GoesOn(hc, c, [CR], d, [e.next], Over(d, 1));
    }
  }

  lemma LineEndOnly(hc: Decide, c: Conf, data: seq<byte>, d: Conf) returns (e: Ending, rest: seq<byte>)
    requires (c.p.state.ResStatusCode? || c.p.state.ResStatus?) && Room(c, |data|) && Goes(hc, c, data, d)
    requires !InStatusLine(d.p.state) && data != [] && (data[0] == CR || data[0] == LF)
    ensures data == EndText(e) + rest && Goes(hc, Over(c, |EndText(e)|), rest, d)
  {
    hide ByteStep, Goes, DIGITS;
    DotNoDigit();
    TailByte(hc, c, data[0]);
    PeelByte(hc, c, data, d);
    if data[0] == LF {
      e, rest := Lf, data[1..];
    } else {
      var m := Moved(c, c.p.(state := ResLineAlmostDone));
      if |data| == 1 {
        Nothing(hc, m, d);
        assert false;
      }
      AlmostOver(hc, m, data[1]);
      PeelByte(hc, m, data[1..], d);
      e, rest := Cr(data[1]), data[2..];
    }
  }

  lemma {:induction false} ReasonGoes(hc: Decide, c: Conf, text: seq<byte>)
    requires c.p.state.ResStatus? && Room(c, |text|) && NoBreak(text)
    ensures Goes(hc, c, text, Along(c, |text|))
    decreases text
  {
    hide ByteStep, Run, Goes;
    if text == [] {
      GoesNowhere(hc, c);
    } else {
      TailByte(hc, c, text[0]);
      GoesByte(hc, c, text[0], Along(c, 1));
      ReasonGoes(hc, Along(c, 1), text[1..]);
      GoesOn(hc, c, [text[0]], Along(c, 1), text[1..], Along(c, |text|));
      assert text == [text[0]] + text[1..];
    }
  }

  lemma {:induction false} ReasonOnly(hc: Decide, c: Conf, data: seq<byte>, d: Conf) returns (text: seq<byte>, rest: seq<byte>)
    requires c.p.state.ResStatus? && Room(c, |data|) && Goes(hc, c, data, d) && !InStatusLine(d.p.state)
    ensures data == text + rest && NoBreak(text) && rest != [] && (rest[0] == CR || rest[0] == LF)
    ensures Goes(hc, Along(c, |text|), rest, d)
    decreases data
  {
    hide ByteStep, Run, Goes;
    if data == [] {
      Nothing(hc, c, d);
      assert false;
    } else if data[0] == CR || data[0] == LF {
      text, rest := [], data;
      assert Along(c, 0) == c;
    } else {
      TailByte(hc, c, data[0]);
      PeelByte(hc, c, data, d);
      text, rest := ReasonOnly(hc, Along(c, 1), data[1..], d);
      text := [data[0]] + text;
    }
  }
}
