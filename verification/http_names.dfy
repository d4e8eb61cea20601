/** The words the parser looks for, letter by letter, in header names and values: when its
    matcher says that it has found one, and when it does. */
module HttpNames {
  import opened HttpTypes
  import opened HttpStep
  import opened HttpRun

  const CONNECTION := "connection"
  const PROXY_CONNECTION := "proxy-connection"
  const CONTENT_LENGTH := "content-length"
  const TRANSFER_ENCODING := "transfer-encoding"
  const UPGRADE := "upgrade"
  const CHUNKED := "chunked"
  const KEEP_ALIVE := "keep-alive"
  const CLOSE := "close"

  /** Spaces only. */
  predicate Blank(s: seq<byte>) {
    forall i :: 0 <= i < |s| ==> s[i] == SP
  }

  /** The first `n` bytes, lower-cased, are the first `n` letters of the word. */
  ghost predicate Begins(name: seq<byte>, n: nat, word: string, lower: byte -> byte) {
    n <= |name| && n <= |word| && forall i :: 0 <= i < n ==> lower(name[i]) == word[i] as int
  }

  /** The word, in letters of any case, and spaces after it. */
  ghost predicate Spells(name: seq<byte>, word: string, lower: byte -> byte) {
    |word| <= |name| && Begins(name, |word|, word, lower) && Blank(name[|word|..])
  }

  lemma SpellsMore(name: seq<byte>, ch: byte, word: string, lower: byte -> byte)
    requires Spells(name, word, lower) && ch == SP
    ensures Spells(name + [ch], word, lower)
  {
    assert (name + [ch])[|word|..] == name[|word|..] + [ch];
  }

  lemma SpellsNow(name: seq<byte>, word: string, lower: byte -> byte)
    requires |name| == |word| && Begins(name, |word|, word, lower)
    ensures Spells(name, word, lower)
  {
  }

  lemma BeginsMore(name: seq<byte>, ch: byte, word: string, lower: byte -> byte)
    requires |name| < |word| && Begins(name, |name|, word, lower)
    ensures Begins(name + [ch], |name| + 1, word, lower) <==> lower(ch) == word[|name|] as int
  {
    var s := name + [ch];
    assert s[|name|] == ch;
    assert forall i :: 0 <= i < |name| ==> s[i] == name[i];
  }

  // ---- one step of a matcher ----

  /** The matcher is inside a word, or past its end. */
  ghost predicate Inside(index: nat, name: seq<byte>, word: string, lower: byte -> byte) {
    |name| < |word| && index + 1 == |name| && Begins(name, |name|, word, lower)
  }

  lemma MatchStep(p: Parser, name: seq<byte>, ch: byte, word: string, ok: HeaderState, lower: byte -> byte)
    requires Inside(p.index, name, word, lower) && |name| > 0
    ensures var q := Match(p, word, lower(ch), ok);
      && q.index == p.index + 1
      && (lower(ch) == word[|name|] as int <==> Begins(name + [ch], |name| + 1, word, lower))
      && (lower(ch) != word[|name|] as int ==> q.headerState.HGeneral?)
      && (lower(ch) == word[|name|] as int && |name| + 1 < |word| ==>
            q.headerState == p.headerState && Inside(q.index, name + [ch], word, lower))
      && (lower(ch) == word[|name|] as int && |name| + 1 == |word| ==>
            q.headerState == ok && Spells(name + [ch], word, lower))
  {
    BeginsMore(name, ch, word, lower);
    if lower(ch) == word[|name|] as int && |name| + 1 == |word| {
      SpellsNow(name + [ch], word, lower);
    }
  }

  // ---- header names ----

  /** s_header_field for one more letter of a name. */
  function OneLetter(p: Parser, ch: byte): Parser {
    FieldChar(Count(p), ch, Token(ch)).(state := HeaderField)
  }

  /** The parser after the letters of a name. */
  function Letters(p: Parser, name: seq<byte>): Parser
    requires name != []
  {
    if |name| == 1 then Count(p).(index := 0, state := HeaderField, headerState := FirstFieldState(Token(name[0])))
    else OneLetter(Letters(p, name[..|name| - 1]), name[|name| - 1])
  }

  predicate Tokens(name: seq<byte>) {
    forall i :: 0 <= i < |name| ==> Token(name[i]) != 0
  }

  const LOWER: byte -> byte := (ch: byte) => Token(ch)

  /** What a state says about the letters read so far. */
  ghost predicate Says(p: Parser, name: seq<byte>) {
    match p.headerState
    case HC => Inside(p.index, name, CONTENT_LENGTH, LOWER) && |name| == 1
    case HCO => Inside(p.index, name, CONTENT_LENGTH, LOWER) && |name| == 2
    case HCON => Inside(p.index, name, CONTENT_LENGTH, LOWER) && |name| == 3
    case MConnection => Inside(p.index, name, CONNECTION, LOWER)
    case MProxyConnection => Inside(p.index, name, PROXY_CONNECTION, LOWER)
    case MContentLength => Inside(p.index, name, CONTENT_LENGTH, LOWER)
    case MTransferEncoding => Inside(p.index, name, TRANSFER_ENCODING, LOWER)
    case MUpgrade => Inside(p.index, name, UPGRADE, LOWER)
    case HConnection => Spells(name, CONNECTION, LOWER) || Spells(name, PROXY_CONNECTION, LOWER)
    case HContentLength => Spells(name, CONTENT_LENGTH, LOWER)
    case HTransferEncoding => Spells(name, TRANSFER_ENCODING, LOWER)
    case HUpgrade => Spells(name, UPGRADE, LOWER)
    case _ => true
  }

  lemma FirstSays(p: Parser, name: seq<byte>)
    requires |name| == 1
    ensures Says(Letters(p, name), name)
  {
  }

  lemma ThreeLetters(name: seq<byte>)
    requires |name| == 3
    ensures Begins(name, 3, CONTENT_LENGTH, LOWER) <==> Begins(name, 3, CONNECTION, LOWER)
  {
    assert CONTENT_LENGTH[0] == CONNECTION[0] && CONTENT_LENGTH[1] == CONNECTION[1] && CONTENT_LENGTH[2] == CONNECTION[2];
  }

  lemma EarlySays(p: Parser, name: seq<byte>, ch: byte)
    requires name != [] && Says(p, name) && (p.headerState.HC? || p.headerState.HCO? || p.headerState.HCON?)
    ensures Says(OneLetter(p, ch), name + [ch])
  {
    BeginsMore(name, ch, CONTENT_LENGTH, LOWER);
    if |name| == 3 {
      ThreeLetters(name);
      BeginsMore(name, ch, CONNECTION, LOWER);
    }
    assert CONTENT_LENGTH[1] == 'o' && CONTENT_LENGTH[2] == 'n' && CONTENT_LENGTH[3] == 't' && CONNECTION[3] == 'n';
  }

  lemma MatchSays(p: Parser, name: seq<byte>, ch: byte)
    requires name != [] && Says(p, name)
    requires p.headerState.MConnection? || p.headerState.MProxyConnection? || p.headerState.MContentLength?
      || p.headerState.MTransferEncoding? || p.headerState.MUpgrade?
    ensures Says(OneLetter(p, ch), name + [ch])
  {
    hide Match, Inside, Spells;
    match p.headerState
    case MConnection => MatchStep(Count(p), name, ch, CONNECTION, HConnection, LOWER);
    case MProxyConnection => MatchStep(Count(p), name, ch, PROXY_CONNECTION, HConnection, LOWER);
    case MContentLength => MatchStep(Count(p), name, ch, CONTENT_LENGTH, HContentLength, LOWER);
    case MTransferEncoding => MatchStep(Count(p), name, ch, TRANSFER_ENCODING, HTransferEncoding, LOWER);
    case _ => MatchStep(Count(p), name, ch, UPGRADE, HUpgrade, LOWER);
  }

  lemma EndSays(p: Parser, name: seq<byte>, ch: byte)
    requires Says(p, name)
    requires p.headerState.HConnection? || p.headerState.HContentLength? || p.headerState.HTransferEncoding? || p.headerState.HUpgrade?
    ensures Says(OneLetter(p, ch), name + [ch])
  {
    hide Spells;
    if ch == SP {
      match p.headerState
      case HConnection =>
        if Spells(name, CONNECTION, LOWER) {
          SpellsMore(name, ch, CONNECTION, LOWER);
        } else {
          SpellsMore(name, ch, PROXY_CONNECTION, LOWER);
        }
      case HContentLength => SpellsMore(name, ch, CONTENT_LENGTH, LOWER);
      case HTransferEncoding => SpellsMore(name, ch, TRANSFER_ENCODING, LOWER);
      case _ => SpellsMore(name, ch, UPGRADE, LOWER);
    }
  }

  /** Whatever the letters, the state tells the truth about them. */
  lemma {:induction false} LettersSay(p: Parser, name: seq<byte>)
    requires name != []
    ensures Says(Letters(p, name), name)
    decreases |name|
  {
    if |name| == 1 {
      FirstSays(p, name);
    } else {
      var a, ch := name[..|name| - 1], name[|name| - 1];
      LettersSay(p, a);
      assert name == a + [ch];
      LetterSays(Letters(p, a), a, ch);
    }
  }

  lemma LetterSays(p: Parser, name: seq<byte>, ch: byte)
    requires name != [] && Says(p, name)
    ensures Says(OneLetter(p, ch), name + [ch])
  {
    if p.headerState.HC? || p.headerState.HCO? || p.headerState.HCON? {
      EarlySays(p, name, ch);
    } else if p.headerState.MConnection? || p.headerState.MProxyConnection? || p.headerState.MContentLength?
      || p.headerState.MTransferEncoding? || p.headerState.MUpgrade? {
      MatchSays(p, name, ch);
    } else if p.headerState.HConnection? || p.headerState.HContentLength? || p.headerState.HTransferEncoding?
      || p.headerState.HUpgrade? {
      EndSays(p, name, ch);
    }
  }

  // ---- and it never misses one ----

  datatype Word = Connection | ProxyConnection | ContentLength | TransferEncoding | Upgrade

  function Text(w: Word): string {
    match w
    case Connection => CONNECTION
    case ProxyConnection => PROXY_CONNECTION
    case ContentLength => CONTENT_LENGTH
    case TransferEncoding => TRANSFER_ENCODING
    case Upgrade => UPGRADE
  }

  /** The state after the whole word. */
  function Goal(w: Word): HeaderState {
    match w
    case Connection => HConnection
    case ProxyConnection => HConnection
    case ContentLength => HContentLength
    case TransferEncoding => HTransferEncoding
    case Upgrade => HUpgrade
  }

  /** The state after n letters of the word, not all. */
  function Track(w: Word, n: nat): HeaderState {
    match w
    case ProxyConnection => MProxyConnection
    case TransferEncoding => MTransferEncoding
    case Upgrade => MUpgrade
    case _ =>
      if n == 1 then HC else if n == 2 then HCO else if n == 3 then HCON
      else if w.Connection? then MConnection else MContentLength
  }

  lemma FirstTracks(p: Parser, w: Word, name: seq<byte>)
    requires |name| == 1 && Begins(name, 1, Text(w), LOWER)
    ensures Letters(p, name).headerState == Track(w, 1) && Letters(p, name).index == 0
  {
  }

  lemma EarlyTracks(p: Parser, w: Word, name: seq<byte>, ch: byte)
    requires (w.Connection? || w.ContentLength?) && 1 <= |name| <= 3 && Begins(name + [ch], |name| + 1, Text(w), LOWER)
    requires p.headerState == Track(w, |name|)
    ensures OneLetter(p, ch).headerState == Track(w, |name| + 1) && OneLetter(p, ch).index == p.index + 1
  {
    assert (name + [ch])[|name|] == ch;
    assert CONTENT_LENGTH[1] == 'o' && CONTENT_LENGTH[2] == 'n' && CONTENT_LENGTH[3] == 't';
    assert CONNECTION[1] == 'o' && CONNECTION[2] == 'n' && CONNECTION[3] == 'n';
  }

  lemma MatchTracks(p: Parser, w: Word, name: seq<byte>, ch: byte)
    requires 1 <= |name| < |Text(w)| && (w.Connection? || w.ContentLength? ==> 4 <= |name|)
    requires Begins(name + [ch], |name| + 1, Text(w), LOWER)
    requires p.headerState == Track(w, |name|) && p.index + 1 == |name|
    ensures var q := OneLetter(p, ch);
      q.index == p.index + 1 && q.headerState == if |name| + 1 == |Text(w)| then Goal(w) else Track(w, |name| + 1)
  {
    BeginsBefore(name, ch, Text(w), LOWER);
    hide Match, Spells, Begins;
    match w
    case Connection => MatchStep(Count(p), name, ch, CONNECTION, HConnection, LOWER);
    case ProxyConnection => MatchStep(Count(p), name, ch, PROXY_CONNECTION, HConnection, LOWER);
    case ContentLength => MatchStep(Count(p), name, ch, CONTENT_LENGTH, HContentLength, LOWER);
    case TransferEncoding => MatchStep(Count(p), name, ch, TRANSFER_ENCODING, HTransferEncoding, LOWER);
    case Upgrade => MatchStep(Count(p), name, ch, UPGRADE, HUpgrade, LOWER);
  }

  lemma BeginsBefore(name: seq<byte>, ch: byte, word: string, lower: byte -> byte)
    requires Begins(name + [ch], |name| + 1, word, lower)
    ensures |name| < |word| && Begins(name, |name|, word, lower) && lower(ch) == word[|name|] as int
  {
    assert (name + [ch])[|name|] == ch;
    assert forall i :: 0 <= i < |name| ==> (name + [ch])[i] == name[i];
  }

  lemma LettersMore(p: Parser, a: seq<byte>, ch: byte)
    requires a != []
    ensures Letters(p, a + [ch]) == OneLetter(Letters(p, a), ch)
  {
    assert (a + [ch])[..|a|] == a;
  }

  lemma {:induction false} WordTracks(p: Parser, w: Word, name: seq<byte>)
    requires name != [] && Begins(name, |name|, Text(w), LOWER)
    ensures var q := Letters(p, name);
      q.index + 1 == |name| && q.headerState == if |name| == |Text(w)| then Goal(w) else Track(w, |name|)
    decreases |name|
  {
    hide Begins, Text, Goal, Track, Letters, OneLetter;
    LongWords(w);
    if |name| == 1 {
      FirstTracks(p, w, name);
    } else {
      var a, ch := name[..|name| - 1], name[|name| - 1];
      assert name == a + [ch];
      BeginsBefore(a, ch, Text(w), LOWER);
      WordTracks(p, w, a);
      LettersMore(p, a, ch);
      if (w.Connection? || w.ContentLength?) && |a| <= 3 {
        EarlyTracks(Letters(p, a), w, a, ch);
      } else {
        MatchTracks(Letters(p, a), w, a, ch);
      }
    }
  }

  lemma LongWords(w: Word)
    ensures |Text(w)| > 4
  {
  }

  /** Spaces after the word change nothing. */
  lemma GoalStays(p: Parser, w: Word)
    requires p.headerState == Goal(w)
    ensures OneLetter(p, SP).headerState == Goal(w)
  {
  }

  lemma SpellsWhole(name: seq<byte>, w: Word)
    requires Spells(name, Text(w), LOWER)
    ensures |name| >= |Text(w)| && (|name| == |Text(w)| ==> Begins(name, |name|, Text(w), LOWER))
  {
  }

  lemma {:induction false} WordFound(p: Parser, w: Word, name: seq<byte>)
    requires Spells(name, Text(w), LOWER)
    ensures name != [] && Letters(p, name).headerState == Goal(w)
    decreases |name|
  {
    hide Spells, Begins, Text, Goal, Track, Letters, OneLetter;
    LongWords(w);
    SpellsWhole(name, w);
    if |name| == |Text(w)| {
      WordTracks(p, w, name);
    } else {
      var a := name[..|name| - 1];
      SpellsBefore(name, Text(w), LOWER);
      WordFound(p, w, a);
      assert name == a + [SP];
      LettersMore(p, a, SP);
      GoalStays(Letters(p, a), w);
    }
  }

  lemma SpellsBefore(name: seq<byte>, word: string, lower: byte -> byte)
    requires Spells(name, word, lower) && |word| < |name|
    ensures Spells(name[..|name| - 1], word, lower) && name[|name| - 1] == SP
  {
    var a := name[..|name| - 1];
    assert name[|word|..][|name| - 1 - |word|] == name[|name| - 1];
    assert forall i :: 0 <= i < |a| - |word| ==> a[|word|..][i] == name[|word|..][i];
  }

  /** The header that a name is taken for: exactly the known names, in any case, with spaces after
      them or none. */
  lemma NameMeans(p: Parser, name: seq<byte>)
    requires name != []
    ensures var h := Letters(p, name).headerState;
      && (h.HContentLength? <==> Spells(name, CONTENT_LENGTH, LOWER))
      && (h.HTransferEncoding? <==> Spells(name, TRANSFER_ENCODING, LOWER))
      && (h.HUpgrade? <==> Spells(name, UPGRADE, LOWER))
      && (h.HConnection? <==> Spells(name, CONNECTION, LOWER) || Spells(name, PROXY_CONNECTION, LOWER))
  {
    hide *;
    NameSound(p, name);
    NameComplete(p, name);
  }

  lemma NameSound(p: Parser, name: seq<byte>)
    requires name != []
    ensures var h := Letters(p, name).headerState;
      && (h.HContentLength? ==> Spells(name, CONTENT_LENGTH, LOWER))
      && (h.HTransferEncoding? ==> Spells(name, TRANSFER_ENCODING, LOWER))
      && (h.HUpgrade? ==> Spells(name, UPGRADE, LOWER))
      && (h.HConnection? ==> Spells(name, CONNECTION, LOWER) || Spells(name, PROXY_CONNECTION, LOWER))
  {
    LettersSay(p, name);
    hide Spells, Letters, Inside;
  }

  lemma NameComplete(p: Parser, name: seq<byte>)
    requires name != []
    ensures var h := Letters(p, name).headerState;
      && (Spells(name, CONTENT_LENGTH, LOWER) ==> h.HContentLength?)
      && (Spells(name, TRANSFER_ENCODING, LOWER) ==> h.HTransferEncoding?)
      && (Spells(name, UPGRADE, LOWER) ==> h.HUpgrade?)
      && (Spells(name, CONNECTION, LOWER) || Spells(name, PROXY_CONNECTION, LOWER) ==> h.HConnection?)
  {
    hide Spells, Letters;
    if Spells(name, Text(ContentLength), LOWER) {
      WordFound(p, ContentLength, name);
    }
    if Spells(name, Text(TransferEncoding), LOWER) {
      WordFound(p, TransferEncoding, name);
    }
    if Spells(name, Text(Upgrade), LOWER) {
      WordFound(p, Upgrade, name);
    }
    if Spells(name, Text(Connection), LOWER) {
      WordFound(p, Connection, name);
    }
    if Spells(name, Text(ProxyConnection), LOWER) {
      WordFound(p, ProxyConnection, name);
    }
  }

  /** The letters are what a run over the name does to the parser. */
  lemma {:induction false} NameRun(hc: Decide, c: Conf, name: seq<byte>)
    requires c.p.state.HeaderFieldStart? && c.open.Closed? && c.p.nread + |name| <= MAX_HEADER_SIZE
    requires name != [] && Tokens(name)
    ensures Run(hc, c, name) == Result(AfterName(c, name), |name|, Next)
    decreases |name|
  {
    hide Run, ByteStep, Letters;
    if |name| == 1 {
      FirstLetterRun(hc, c, name);
    } else {
      var a, ch := name[..|name| - 1], name[|name| - 1];
      assert name == a + [ch];
      NameRun(hc, c, a);
      LetterRun(hc, c, a, ch);
      RunMore(hc, c, a, AfterName(c, a), ch, AfterName(c, name));
    }
  }

  function AfterName(c: Conf, name: seq<byte>): Conf
    requires name != []
  {
    Conf(Letters(c.p, name), Open(Field, name), c.out)
  }

  lemma FirstLetterRun(hc: Decide, c: Conf, name: seq<byte>)
    requires c.p.state.HeaderFieldStart? && c.open.Closed? && c.p.nread < MAX_HEADER_SIZE
    requires |name| == 1 && Tokens(name)
    ensures Run(hc, c, name) == Result(AfterName(c, name), 1, Next)
  {
    hide ByteStep, Run, Pass, Switch;
    FieldPass(hc, Count(c.p), name[0]);
    OnePass(hc, c, name[0]);
    assert [] + [name[0]] == name;
    assert ByteStep(hc, c, name[0]) == (AfterName(c, name), Next);
    RunStep(hc, c, AfterName(c, name), name);
  }

  lemma {:induction false} LettersKeep(p: Parser, name: seq<byte>)
    requires name != [] && ParsingHeader(p.state)
    ensures Letters(p, name).state.HeaderField? && Letters(p, name).nread == p.nread + |name|
    decreases |name|
  {
    if |name| > 1 {
      LettersKeep(p, name[..|name| - 1]);
      LetterKeeps(Letters(p, name[..|name| - 1]), name[|name| - 1]);
    }
  }

  lemma LetterKeeps(p: Parser, ch: byte)
    requires p.state.HeaderField?
    ensures OneLetter(p, ch).state.HeaderField? && OneLetter(p, ch).nread == p.nread + 1
  {
  }

  lemma LetterPass(hc: Decide, p: Parser, ch: byte)
    requires p.state.HeaderField? && Token(ch) != 0
    ensures Pass(hc, Count(p), ch) == Out(OneLetter(p, ch), Quiet, Next)
  {
    hide FieldChar;
  }

  lemma LetterRun(hc: Decide, c: Conf, a: seq<byte>, ch: byte)
    requires a != [] && Token(ch) != 0 && ParsingHeader(c.p.state) && c.p.nread + |a| < MAX_HEADER_SIZE
    ensures ByteStep(hc, AfterName(c, a), ch) == (AfterName(c, a + [ch]), Next)
  {
    LettersKeep(c.p, a);
    assert (a + [ch])[..|a|] == a && (a + [ch])[|a|] == ch;
    assert Letters(c.p, a + [ch]) == OneLetter(Letters(c.p, a), ch);
    LetterPass(hc, Letters(c.p, a), ch);
    hide Letters, ByteStep, Pass, OneLetter;
    OnePass(hc, AfterName(c, a), ch);
  }

  // ---- header values ----

  const FOLD: byte -> byte := (ch: byte) => Lower(ch)

  /** s_header_value for one more byte. */
  function OneByte(p: Parser, ch: byte): Parser {
    ValueChar(Count(p), ch).p
  }

  /** The parser after the bytes of a value. */
  function ValueLetters(p: Parser, value: seq<byte>): Parser
    requires value != []
  {
    if |value| == 1 then FirstValueChar(Count(p).(index := 0), value[0]).p
    else OneByte(ValueLetters(p, value[..|value| - 1]), value[|value| - 1])
  }

  ghost predicate ValueSays(p: Parser, value: seq<byte>, header: HeaderState) {
    match p.headerState
    case MChunked => header.HTransferEncoding? && Inside(p.index, value, CHUNKED, FOLD)
    case MKeepAlive => header.HConnection? && Inside(p.index, value, KEEP_ALIVE, FOLD)
    case MClose => header.HConnection? && Inside(p.index, value, CLOSE, FOLD)
    case HChunked => header.HTransferEncoding? && Spells(value, CHUNKED, FOLD)
    case HKeepAlive => header.HConnection? && Spells(value, KEEP_ALIVE, FOLD)
    case HClose => header.HConnection? && Spells(value, CLOSE, FOLD)
    case HContentLength => false
    case _ => true
  }

  lemma FirstValueSays(p: Parser, value: seq<byte>)
    requires |value| == 1 && (p.headerState.HTransferEncoding? || p.headerState.HConnection?)
    ensures ValueSays(ValueLetters(p, value), value, p.headerState)
  {
  }

  lemma WordSays(p: Parser, value: seq<byte>, ch: byte, header: HeaderState)
    requires value != [] && ValueSays(p, value, header)
    requires p.headerState.MChunked? || p.headerState.MKeepAlive? || p.headerState.MClose?
    ensures ValueSays(OneByte(p, ch), value + [ch], header)
  {
    hide Match, Inside, Spells;
    match p.headerState
    case MChunked => MatchStep(Count(p), value, ch, CHUNKED, HChunked, FOLD);
    case MKeepAlive => MatchStep(Count(p), value, ch, KEEP_ALIVE, HKeepAlive, FOLD);
    case _ => MatchStep(Count(p), value, ch, CLOSE, HClose, FOLD);
  }

  lemma BlankSays(p: Parser, value: seq<byte>, ch: byte, header: HeaderState)
    requires value != [] && ValueSays(p, value, header)
    requires p.headerState.HChunked? || p.headerState.HKeepAlive? || p.headerState.HClose?
    ensures ValueSays(OneByte(p, ch), value + [ch], header)
  {
    hide Inside, Spells;
    if ch == SP {
      match p.headerState
      case HChunked => SpellsMore(value, ch, CHUNKED, FOLD);
      case HKeepAlive => SpellsMore(value, ch, KEEP_ALIVE, FOLD);
      case _ => SpellsMore(value, ch, CLOSE, FOLD);
    }
  }

  lemma ValueStepSays(p: Parser, value: seq<byte>, ch: byte, header: HeaderState)
    requires value != [] && ValueSays(p, value, header)
    ensures ValueSays(OneByte(p, ch), value + [ch], header)
  {
    if p.headerState.MChunked? || p.headerState.MKeepAlive? || p.headerState.MClose? {
      WordSays(p, value, ch, header);
    } else if p.headerState.HChunked? || p.headerState.HKeepAlive? || p.headerState.HClose? {
      BlankSays(p, value, ch, header);
    }
  }

  lemma {:induction false} ValueLettersSay(p: Parser, value: seq<byte>)
    requires value != [] && (p.headerState.HTransferEncoding? || p.headerState.HConnection?)
    ensures ValueSays(ValueLetters(p, value), value, p.headerState)
    decreases |value|
  {
    if |value| == 1 {
      FirstValueSays(p, value);
    } else {
      var a, ch := value[..|value| - 1], value[|value| - 1];
      assert value == a + [ch];
      ValueLettersSay(p, a);
      ValueStepSays(ValueLetters(p, a), a, ch, p.headerState);
    }
  }

  datatype Keyword = Chunked | KeepAlive | Close

  function ValueText(w: Keyword): string {
    match w
    case Chunked => CHUNKED
    case KeepAlive => KEEP_ALIVE
    case Close => CLOSE
  }

  function Header(w: Keyword): HeaderState {
    if w.Chunked? then HTransferEncoding else HConnection
  }

  function ValueTrack(w: Keyword): HeaderState {
    match w
    case Chunked => MChunked
    case KeepAlive => MKeepAlive
    case Close => MClose
  }

  function ValueGoal(w: Keyword): HeaderState {
    match w
    case Chunked => HChunked
    case KeepAlive => HKeepAlive
    case Close => HClose
  }

  lemma FirstValueTracks(p: Parser, w: Keyword, value: seq<byte>)
    requires |value| == 1 && Begins(value, 1, ValueText(w), FOLD) && p.headerState == Header(w)
    ensures ValueLetters(p, value).headerState == ValueTrack(w) && ValueLetters(p, value).index == 0 && |ValueText(w)| > 1
  {
  }

  lemma ValueStepTracks(p: Parser, w: Keyword, value: seq<byte>, ch: byte)
    requires 1 <= |value| < |ValueText(w)| && Begins(value + [ch], |value| + 1, ValueText(w), FOLD)
    requires p.headerState == ValueTrack(w) && p.index + 1 == |value|
    ensures var q := OneByte(p, ch);
      q.index == p.index + 1 && q.headerState == if |value| + 1 == |ValueText(w)| then ValueGoal(w) else ValueTrack(w)
  {
    BeginsBefore(value, ch, ValueText(w), FOLD);
    hide Match, Spells, Begins;
    match w
    case Chunked => MatchStep(Count(p), value, ch, CHUNKED, HChunked, FOLD);
    case KeepAlive => MatchStep(Count(p), value, ch, KEEP_ALIVE, HKeepAlive, FOLD);
    case Close => MatchStep(Count(p), value, ch, CLOSE, HClose, FOLD);
  }

  lemma {:induction false} ValueTracks(p: Parser, w: Keyword, value: seq<byte>)
    requires value != [] && Begins(value, |value|, ValueText(w), FOLD) && p.headerState == Header(w)
    ensures var q := ValueLetters(p, value);
      q.index + 1 == |value| && q.headerState == if |value| == |ValueText(w)| then ValueGoal(w) else ValueTrack(w)
    decreases |value|
  {
    if |value| == 1 {
      FirstValueTracks(p, w, value);
    } else {
      var a, ch := value[..|value| - 1], value[|value| - 1];
      assert value == a + [ch];
      BeginsBefore(a, ch, ValueText(w), FOLD);
      ValueTracks(p, w, a);
      ValueStepTracks(ValueLetters(p, a), w, a, ch);
    }
  }

  lemma {:induction false} ValueFound(p: Parser, w: Keyword, value: seq<byte>)
    requires Spells(value, ValueText(w), FOLD) && p.headerState == Header(w)
    ensures value != [] && ValueLetters(p, value).headerState == ValueGoal(w)
    decreases |value|
  {
    if |value| == |ValueText(w)| {
      ValueTracks(p, w, value);
    } else {
      SpellsBefore(value, ValueText(w), FOLD);
      ValueFound(p, w, value[..|value| - 1]);
    }
  }

  /** Transfer-Encoding counts as chunked exactly for the value "chunked", and Connection as
      keep-alive or close exactly for those values, in any case, with spaces after them or none. */
  lemma ValueMeans(p: Parser, value: seq<byte>)
    requires value != [] && (p.headerState.HTransferEncoding? || p.headerState.HConnection?)
    ensures var h, t := ValueLetters(p, value).headerState, p.headerState.HTransferEncoding?;
      && (h.HChunked? <==> t && Spells(value, CHUNKED, FOLD))
      && (h.HKeepAlive? <==> !t && Spells(value, KEEP_ALIVE, FOLD))
      && (h.HClose? <==> !t && Spells(value, CLOSE, FOLD))
  {
    ValueLettersSay(p, value);
    hide Spells, ValueLetters, Inside;
    if p.headerState.HTransferEncoding? {
      if Spells(value, ValueText(Chunked), FOLD) {
        ValueFound(p, Chunked, value);
      }
    } else {
      if Spells(value, ValueText(KeepAlive), FOLD) {
        ValueFound(p, KeepAlive, value);
      }
      if Spells(value, ValueText(Close), FOLD) {
        ValueFound(p, Close, value);
      }
    }
  }

  /** The bytes of a value: no line end, and no white space in front. */
  predicate ValueBytes(value: seq<byte>) {
    && value != [] && value[0] != SP && value[0] != HT
    && forall i :: 0 <= i < |value| ==> value[i] != CR && value[i] != LF
  }

  predicate OnWord(h: HeaderState) {
    !h.HContentLength?
  }

  function AfterValue(c: Conf, value: seq<byte>): Conf
    requires value != []
  {
    Conf(ValueLetters(c.p, value), Open(Value, value), c.out)
  }

  lemma OneByteKeeps(p: Parser, ch: byte)
    requires p.state.HeaderValue? && OnWord(p.headerState)
    ensures var q := OneByte(p, ch); q.state.HeaderValue? && OnWord(q.headerState) && q.nread == p.nread + 1
  {
  }

  lemma {:induction false} ValueLettersKeep(p: Parser, value: seq<byte>)
    requires value != [] && p.state.HeaderValueStart? && OnWord(p.headerState)
    ensures var q := ValueLetters(p, value); q.state.HeaderValue? && OnWord(q.headerState) && q.nread == p.nread + |value|
    decreases |value|
  {
    if |value| > 1 {
      ValueLettersKeep(p, value[..|value| - 1]);
      OneByteKeeps(ValueLetters(p, value[..|value| - 1]), value[|value| - 1]);
    }
  }

  lemma OneBytePass(hc: Decide, p: Parser, ch: byte)
    requires p.state.HeaderValue? && OnWord(p.headerState) && ch != CR && ch != LF
    ensures Pass(hc, Count(p), ch) == Out(OneByte(p, ch), Quiet, Next)
  {
  }

  lemma FirstBytePass(hc: Decide, c: Conf, value: seq<byte>)
    requires c.p.state.HeaderValueStart? && OnWord(c.p.headerState) && |value| == 1 && ValueBytes(value)
    ensures Pass(hc, Count(c.p), value[0]) == Out(ValueLetters(c.p, value), Mark(Value), Next)
  {
  }

  /** The letters of a value are what a run over it does to the parser. */
  lemma {:induction false} ValueRun(hc: Decide, c: Conf, value: seq<byte>)
    requires c.p.state.HeaderValueStart? && c.open.Closed? && OnWord(c.p.headerState)
    requires ValueBytes(value) && c.p.nread + |value| <= MAX_HEADER_SIZE
    ensures Run(hc, c, value) == Result(AfterValue(c, value), |value|, Next)
    decreases |value|
  {
    hide Run, ByteStep, ValueLetters, OneByte, Pass;
    if |value| == 1 {
      FirstBytePass(hc, c, value);
      OnePass(hc, c, value[0]);
      assert [] + [value[0]] == value;
      RunStep(hc, c, AfterValue(c, value), value);
    } else {
      var a, ch := value[..|value| - 1], value[|value| - 1];
      assert value == a + [ch];
      ValueRun(hc, c, a);
      ValueLettersKeep(c.p, a);
      ValueLettersMore(c.p, a, ch);
      OneBytePass(hc, ValueLetters(c.p, a), ch);
      OnePass(hc, AfterValue(c, a), ch);
      RunMore(hc, c, a, AfterValue(c, a), ch, AfterValue(c, value));
    }
  }

  lemma ValueLettersMore(p: Parser, a: seq<byte>, ch: byte)
    requires a != []
    ensures ValueLetters(p, a + [ch]) == OneByte(ValueLetters(p, a), ch)
  {
    assert (a + [ch])[..|a|] == a && (a + [ch])[|a|] == ch;
  }
}
