/** URLs as they are written, piece by piece (section 3.2 of RFC 2616, section 3 of RFC 3986), and that
    parse_url_char lets through exactly the beginnings of them, part by part. */
module HttpUrlGrammar {
  import opened HttpTypes
  import HttpStep
  import opened HttpUrl
  import opened Options

  // ---- bytes ----

  const LETTERS: set<byte> := set b: byte | 'A' as int <= b <= 'Z' as int || 'a' as int <= b <= 'z' as int
  const DIGITS: set<byte> := set b: byte | '0' as int <= b <= '9' as int
  const HEX_DIGITS: set<byte> := DIGITS + set b: byte | 'A' as int <= b <= 'F' as int || 'a' as int <= b <= 'f' as int
  const COLON: byte := ':' as int
  const SLASH: byte := '/' as int
  const STAR: byte := '*' as int
  const QUESTION: byte := '?' as int
  const HASH: byte := '#' as int
  const OPEN: byte := '[' as int
  const CLOSE: byte := ']' as int

  /** The bytes of a host name. */
  const HOST_BYTES: set<byte> := LETTERS + DIGITS + {'.' as int, '-' as int, '_' as int}

  /** The bytes of an address in brackets. */
  const ADDRESS_BYTES: set<byte> := HEX_DIGITS + {COLON}

  /** The bytes of a path: all but the control characters, the space, # and ?; tab and form feed are let
      through, and whatever is not ASCII. */
  const PATH_BYTES: set<byte> := (set b: byte | b > 32 || b == 9 || b == 12) - {HASH, QUESTION, 127}

  const QUERY_BYTES: set<byte> := PATH_BYTES + {QUESTION}

  const FRAGMENT_BYTES: set<byte> := QUERY_BYTES + {HASH}

  predicate Made(s: seq<byte>, of: set<byte>) {
    forall i :: 0 <= i < |s| ==> s[i] in of
  }

  // ---- the pieces ----

  /** How much there is of :// . */
  type Marks = n: int | 0 <= n <= 3

  datatype Bracket = NoBracket | Opened | Shut

  /** The scheme and the ://, the host, perhaps in brackets, a colon and the port. */
  datatype Front = Front(scheme: seq<byte>, marks: Marks, bracket: Bracket, host: seq<byte>, colon: bool, port: seq<byte>)

  /** A URL, or the beginning of one: then the path, a question mark and the query, hash signs and the
      fragment. */
  datatype Url = Url(front: Front, path: seq<byte>, question: bool, query: seq<byte>, hashes: nat, fragment: seq<byte>)

  const NOWHERE := Front([], 0, NoBracket, [], false, [])
  const NOTHING := Url(NOWHERE, [], false, [], 0, [])

  const MARKS: seq<byte> := [COLON, SLASH, SLASH]

  function Byte(there: bool, b: byte): seq<byte> {
    if there then [b] else []
  }

  function Hashes(n: nat): (s: seq<byte>)
    ensures |s| == n && forall i :: 0 <= i < n ==> s[i] == HASH
  {
    seq(n, _ => HASH)
  }

  function HostText(t: Front): seq<byte> {
    Byte(!t.bracket.NoBracket?, OPEN) + t.host + Byte(t.bracket.Shut?, CLOSE)
  }

  function FrontText(t: Front): seq<byte> {
    (t.scheme + MARKS[..t.marks]) + HostText(t) + (Byte(t.colon, COLON) + t.port)
  }

  function QueryText(question: bool, query: seq<byte>): seq<byte> {
    Byte(question, QUESTION) + query
  }

  function FragmentText(hashes: nat, fragment: seq<byte>): seq<byte> {
    Hashes(hashes) + fragment
  }

  function Text(u: Url): seq<byte> {
    FrontText(u.front) + u.path + QueryText(u.question, u.query) + FragmentText(u.hashes, u.fragment)
  }

  /** There is a host, and it is complete. */
  predicate Hosted(t: Front) {
    t.bracket.Shut? || (t.bracket.NoBracket? && t.host != [])
  }

  /** The path or the query may follow. */
  predicate Addressed(t: Front) {
    Hosted(t) && (t.colon ==> t.port != [])
  }

  /** For CONNECT a URL starts with the host, otherwise with the scheme or the path. */
  predicate FrontOk(t: Front, connect: bool) {
    && Made(t.scheme, LETTERS) && (t.marks > 0 ==> t.scheme != []) && (connect ==> t.scheme == [])
    && (!t.bracket.NoBracket? || t.host != [] ==> connect || t.marks == 3)
    && Made(t.host, if t.bracket.NoBracket? then HOST_BYTES else ADDRESS_BYTES) && (t.bracket.Shut? ==> t.host != [])
    && (t.colon ==> Hosted(t)) && Made(t.port, DIGITS) && (t.port != [] ==> t.colon)
  }

  /** The path starts with a slash behind a host, with a slash or a star without one; the query needs a
      host or a path before it, the fragment a path or a query. */
  predicate UrlOk(u: Url, connect: bool) {
    && FrontOk(u.front, connect) && Made(u.path, PATH_BYTES)
    && (u.path != [] ==>
          (Addressed(u.front) && u.path[0] == SLASH)
          || (u.front == NOWHERE && !connect && (u.path[0] == SLASH || u.path[0] == STAR)))
    && (u.question ==> Addressed(u.front) || u.path != []) && Made(u.query, QUERY_BYTES) && (u.query != [] ==> u.question)
    && (u.hashes > 0 ==> u.path != [] || u.question)
    && (u.fragment != [] ==> u.hashes > 0 && u.fragment[0] != HASH) && Made(u.fragment, FRAGMENT_BYTES)
  }

  // ---- where the parts are ----

  function HostAt(t: Front): nat {
    |t.scheme| + t.marks + if t.bracket.NoBracket? then 0 else 1
  }

  function PortAt(t: Front): nat {
    HostAt(t) + |t.host| + (if t.bracket.Shut? then 1 else 0) + if t.colon then 1 else 0
  }

  function PathStart(u: Url): nat {
    PortAt(u.front) + |u.front.port|
  }

  function QueryAt(u: Url): nat {
    PathStart(u) + |u.path| + if u.question then 1 else 0
  }

  function FragmentAt(u: Url): nat {
    QueryAt(u) + |u.query| + u.hashes
  }

  function PieceOf(u: Url, f: Part): seq<byte> {
    match f
    case Scheme => u.front.scheme
    case HostName => u.front.host
    case PortNumber => u.front.port
    case PathName => u.path
    case QueryString => u.query
    case FragmentId => u.fragment
  }

  function PieceAt(u: Url, f: Part): nat {
    match f
    case Scheme => 0
    case HostName => HostAt(u.front)
    case PortNumber => PortAt(u.front)
    case PathName => PathStart(u)
    case QueryString => QueryAt(u)
    case FragmentId => FragmentAt(u)
  }

  /** A part of no bytes is none. */
  function Parts(u: Url): map<Part, Span> {
    map f: Part | PieceOf(u, f) != [] :: Span(PieceAt(u, f), |PieceOf(u, f)|)
  }

  // ---- the state that a URL leads to ----

  function StateOf(u: Url, connect: bool): State {
    if u.fragment != [] then Fragment
    else if u.hashes > 0 then FragmentStart
    else if u.query != [] then Query
    else if u.question then QueryStart
    else if u.path != [] then Path
    else FrontState(u.front, connect)
  }

  function FrontState(t: Front, connect: bool): State {
    if t.port != [] then Port
    else if t.colon then PortStart
    else if t.bracket.Shut? then HostV6End
    else if t.bracket.Opened? then if t.host == [] then HostV6Start else HostV6
    else if t.host != [] then Host
    else if connect || t.marks == 3 then HostStart
    else if t.marks == 2 then SchemaSlashSlash
    else if t.marks == 1 then SchemaSlash
    else if t.scheme != [] then Schema
    else SpacesBeforeUrl
  }

  // ---- one byte less ----

  function Init(s: seq<byte>): seq<byte>
    requires s != []
  {
    s[..|s| - 1]
  }

  function LessFront(t: Front): Front
    requires t != NOWHERE
  {
    if t.port != [] then t.(port := Init(t.port))
    else if t.colon then t.(colon := false)
    else if t.bracket.Shut? then t.(bracket := Opened)
    else if t.host != [] then t.(host := Init(t.host))
    else if t.bracket.Opened? then t.(bracket := NoBracket)
    else if t.marks > 0 then t.(marks := t.marks - 1)
    else t.(scheme := Init(t.scheme))
  }

  function LastFront(t: Front): byte
    requires t != NOWHERE
  {
    if t.port != [] then t.port[|t.port| - 1]
    else if t.colon then COLON
    else if t.bracket.Shut? then CLOSE
    else if t.host != [] then t.host[|t.host| - 1]
    else if t.bracket.Opened? then OPEN
    else if t.marks > 0 then MARKS[t.marks - 1]
    else t.scheme[|t.scheme| - 1]
  }

  /** A URL without its last byte. */
  function Less(u: Url): Url
    requires u != NOTHING
  {
    if u.fragment != [] then u.(fragment := Init(u.fragment))
    else if u.hashes > 0 then u.(hashes := u.hashes - 1)
    else if u.query != [] then u.(query := Init(u.query))
    else if u.question then u.(question := false)
    else if u.path != [] then u.(path := Init(u.path))
    else u.(front := LessFront(u.front))
  }

  /** Its last byte. */
  function Last(u: Url): byte
    requires u != NOTHING
  {
    if u.fragment != [] then u.fragment[|u.fragment| - 1]
    else if u.hashes > 0 then HASH
    else if u.query != [] then u.query[|u.query| - 1]
    else if u.question then QUESTION
    else if u.path != [] then u.path[|u.path| - 1]
    else LastFront(u.front)
  }

  /** The classes are the tests of the code. */
  lemma Classes(b: byte)
    ensures (b in LETTERS <==> IsAlpha(b)) && (b in DIGITS <==> IsNum(b)) && (b in HOST_BYTES <==> IsHostChar(b))
    ensures b in ADDRESS_BYTES <==> IsHex(b) || Is(b, ':')
    ensures b in PATH_BYTES <==> IsUrlChar(b)
    ensures b in QUERY_BYTES <==> IsUrlChar(b) || Is(b, '?')
    ensures b in FRAGMENT_BYTES <==> IsUrlChar(b) || Is(b, '?') || Is(b, '#')
  {
  }

  lemma JoinOne(a: seq<byte>, x: seq<byte>, y: seq<byte>, b: byte)
    requires y == x + [b]
    ensures a + y == a + x + [b]
  {
  }

  lemma JoinNone(a: seq<byte>)
    ensures a + [] == a
  {
  }

  /** Where a path or a query can follow a host. */
  lemma AddressState(t: Front, connect: bool)
    requires FrontOk(t, connect) && Addressed(t)
    ensures var s := FrontState(t, connect); s.Host? || s.HostV6End? || s.Port?
    ensures t != NOWHERE
  {
  }

  ghost predicate TextGrows(u: Url)
    requires u != NOTHING
  {
    Text(u) == Text(Less(u)) + [Last(u)]
  }

  /** The last byte leads from the state of the URL without it to the URL's. */
  ghost predicate StateGrows(u: Url, connect: bool)
    requires u != NOTHING
  {
    UrlChar(StateOf(Less(u), connect), Last(u)) == StateOf(u, connect) && !StateOf(u, connect).Dead?
  }

  predicate NoFragment(u: Url) {
    u.hashes == 0 && u.fragment == []
  }

  predicate NoQuery(u: Url) {
    NoFragment(u) && !u.question && u.query == []
  }

  // ---- ... of the text ----

  lemma FragmentLess(u: Url)
    requires !NoFragment(u)
    ensures TextGrows(u)
  {
    hide FrontText, QueryText;
    var v := Less(u);
    if u.fragment != [] {
      assert u.fragment == Init(u.fragment) + [Last(u)];
      assert FragmentText(u.hashes, u.fragment) == FragmentText(v.hashes, v.fragment) + [Last(u)];
    } else {
      assert Hashes(u.hashes) == Hashes(u.hashes - 1) + [HASH];
    }
    JoinOne(FrontText(u.front) + u.path + QueryText(u.question, u.query),
            FragmentText(v.hashes, v.fragment), FragmentText(u.hashes, u.fragment), Last(u));
  }

  lemma NoFragmentText()
    ensures FragmentText(0, []) == [] && QueryText(false, []) == []
  {
  }

  lemma QueryLess(u: Url)
    requires NoFragment(u) && !NoQuery(u)
    ensures TextGrows(u)
  {
    hide FrontText, FragmentText;
    var v := Less(u);
    NoFragmentText();
    if u.query != [] {
      assert u.query == Init(u.query) + [Last(u)];
      assert QueryText(u.question, u.query) == QueryText(v.question, v.query) + [Last(u)];
    }
    JoinOne(FrontText(u.front) + u.path, QueryText(v.question, v.query), QueryText(u.question, u.query), Last(u));
    JoinNone(FrontText(u.front) + u.path + QueryText(u.question, u.query));
    JoinNone(FrontText(u.front) + u.path + QueryText(v.question, v.query));
  }

  lemma PathLess(u: Url)
    requires NoQuery(u) && u.path != []
    ensures TextGrows(u)
  {
    hide FrontText, FragmentText, QueryText;
    var v := Less(u);
    NoFragmentText();
    assert u.path == Init(u.path) + [Last(u)];
    JoinOne(FrontText(u.front), v.path, u.path, Last(u));
    JoinNone(FrontText(u.front) + u.path);
    JoinNone(FrontText(u.front) + v.path);
  }

  lemma FrontLess(t: Front)
    requires t != NOWHERE && (t.bracket.Shut? ==> t.host != [])
    ensures FrontText(t) == FrontText(LessFront(t)) + [LastFront(t)]
  {
  }

  lemma TextLess(u: Url)
    requires u != NOTHING && (u.front.bracket.Shut? ==> u.front.host != [])
    ensures TextGrows(u)
  {
    hide TextGrows, FrontText, FragmentText, QueryText;
    if !NoFragment(u) {
      FragmentLess(u);
    } else if !NoQuery(u) {
      QueryLess(u);
    } else if u.path != [] {
      PathLess(u);
    } else {
      FrontLess(u.front);
      FrontGrows(u);
    }
  }

  lemma FrontOnly(t: Front)
    ensures Text(Url(t, [], false, [], 0, [])) == FrontText(t)
  {
    hide FrontText;
  }

  lemma FrontGrows(u: Url)
    requires u != NOTHING && NoQuery(u) && u.path == [] && FrontText(u.front) == FrontText(LessFront(u.front)) + [LastFront(u.front)]
    ensures TextGrows(u)
  {
    hide FrontText;
    FrontOnly(u.front);
    FrontOnly(LessFront(u.front));
  }

  // ---- ... of the grammar ----

  lemma MadeLess(s: seq<byte>, of: set<byte>)
    requires s != [] && Made(s, of)
    ensures Made(Init(s), of) && s[|s| - 1] in of
  {
  }

  lemma FrontOkLess(t: Front, connect: bool)
    requires FrontOk(t, connect) && t != NOWHERE
    ensures FrontOk(LessFront(t), connect)
  {
    hide LETTERS, DIGITS, HOST_BYTES, ADDRESS_BYTES, PATH_BYTES, QUERY_BYTES, FRAGMENT_BYTES;
  }

  lemma OkLess(u: Url, connect: bool)
    requires UrlOk(u, connect) && u != NOTHING
    ensures UrlOk(Less(u), connect)
  {
    hide FrontOk, Addressed, Made, LessFront, LETTERS, DIGITS, HOST_BYTES, ADDRESS_BYTES, PATH_BYTES, QUERY_BYTES,
      FRAGMENT_BYTES;
    if u.fragment != [] {
      MadeLess(u.fragment, FRAGMENT_BYTES);
    } else if u.hashes > 0 {
    } else if u.query != [] {
      MadeLess(u.query, QUERY_BYTES);
    } else if u.question {
    } else if u.path != [] {
      MadeLess(u.path, PATH_BYTES);
    } else {
      FrontOkLess(u.front, connect);
    }
  }

  // ---- ... of the state ----

  lemma FragmentState(u: Url, connect: bool)
    requires UrlOk(u, connect) && !NoFragment(u)
    ensures StateGrows(u, connect)
  {
    hide FrontOk, FrontState, Addressed, LessFront, LastFront, IsHex, LETTERS, DIGITS, HOST_BYTES, ADDRESS_BYTES,
      PATH_BYTES, QUERY_BYTES, FRAGMENT_BYTES;
    Classes(Last(u));
  }

  lemma QueryByteState(u: Url, connect: bool)
    requires UrlOk(u, connect) && NoFragment(u) && u.query != []
    ensures StateGrows(u, connect)
  {
    hide FrontOk, FrontState, Addressed, LessFront, LastFront, IsHex, LETTERS, DIGITS, HOST_BYTES, ADDRESS_BYTES,
      PATH_BYTES, QUERY_BYTES, FRAGMENT_BYTES;
    Classes(Last(u));
  }

  lemma QuestionState(u: Url, connect: bool)
    requires UrlOk(u, connect) && NoFragment(u) && u.question && u.query == []
    ensures StateGrows(u, connect)
  {
    hide FrontOk, FrontState, Addressed, LessFront, LastFront, IsHex, LETTERS, DIGITS, HOST_BYTES, ADDRESS_BYTES,
      PATH_BYTES, QUERY_BYTES, FRAGMENT_BYTES;
    if u.path == [] {
      AddressState(u.front, connect);
    }
  }

  lemma QueryState(u: Url, connect: bool)
    requires UrlOk(u, connect) && NoFragment(u) && !NoQuery(u)
    ensures StateGrows(u, connect)
  {
    hide UrlOk, StateGrows;
    if u.query != [] {
      QueryByteState(u, connect);
    } else {
      QuestionState(u, connect);
    }
  }

  lemma PathByteState(u: Url, connect: bool)
    requires UrlOk(u, connect) && NoQuery(u) && |u.path| > 1
    ensures StateGrows(u, connect)
  {
    hide FrontOk, FrontState, Addressed, LessFront, LastFront, IsHex, LETTERS, DIGITS, HOST_BYTES, ADDRESS_BYTES,
      PATH_BYTES, QUERY_BYTES, FRAGMENT_BYTES;
    Classes(Last(u));
  }

  lemma PathStartState(u: Url, connect: bool)
    requires UrlOk(u, connect) && NoQuery(u) && |u.path| == 1
    ensures StateGrows(u, connect)
  {
    hide FrontOk, FrontState, Addressed, LessFront, LastFront, IsHex, LETTERS, DIGITS, HOST_BYTES, ADDRESS_BYTES,
      PATH_BYTES, QUERY_BYTES, FRAGMENT_BYTES;
    if Addressed(u.front) {
      AddressState(u.front, connect);
    } else {
      NowhereState();
    }
  }

  lemma PathState(u: Url, connect: bool)
    requires UrlOk(u, connect) && NoQuery(u) && u.path != []
    ensures StateGrows(u, connect)
  {
    hide UrlOk, StateGrows;
    if |u.path| > 1 {
      PathByteState(u, connect);
    } else {
      PathStartState(u, connect);
    }
  }

  lemma NowhereState()
    ensures FrontState(NOWHERE, false) == SpacesBeforeUrl
  {
  }

  ghost predicate FrontGrowsTo(t: Front, connect: bool)
    requires t != NOWHERE
  {
    UrlChar(FrontState(LessFront(t), connect), LastFront(t)) == FrontState(t, connect)
  }

  lemma PortState(t: Front, connect: bool)
    requires FrontOk(t, connect) && (t.colon || t.port != [])
    ensures t != NOWHERE && FrontGrowsTo(t, connect)
  {
    hide IsHex, LETTERS, DIGITS, HOST_BYTES, ADDRESS_BYTES, PATH_BYTES, QUERY_BYTES, FRAGMENT_BYTES;
    Classes(LastFront(t));
  }

  lemma HostState(t: Front, connect: bool)
    requires FrontOk(t, connect) && !t.colon && t.port == [] && (t.host != [] || !t.bracket.NoBracket?)
    ensures t != NOWHERE && FrontGrowsTo(t, connect)
  {
    hide IsAlpha, IsHex, IsHostChar, LETTERS, DIGITS, HOST_BYTES, ADDRESS_BYTES, PATH_BYTES, QUERY_BYTES, FRAGMENT_BYTES;
    Classes(LastFront(t));
    AddressNotClosed(LastFront(t));
  }

  lemma AddressNotClosed(b: byte)
    ensures IsHostChar(b) ==> !Is(b, '[') && b != SP && b != CR && b != LF
    ensures IsHex(b) || Is(b, ':') ==> !Is(b, ']') && b != SP && b != CR && b != LF
  {
  }

  lemma SchemeState(t: Front, connect: bool)
    requires FrontOk(t, connect) && !t.colon && t.port == [] && t.host == [] && t.bracket.NoBracket? && t != NOWHERE
    ensures FrontGrowsTo(t, connect)
  {
    hide IsHex, IsHostChar, LETTERS, DIGITS, HOST_BYTES, ADDRESS_BYTES, PATH_BYTES, QUERY_BYTES, FRAGMENT_BYTES;
    Classes(LastFront(t));
  }

  lemma FrontStateLess(t: Front, connect: bool)
    requires FrontOk(t, connect) && t != NOWHERE
    ensures UrlChar(FrontState(LessFront(t), connect), LastFront(t)) == FrontState(t, connect)
  {
    hide UrlChar, FrontState, LessFront, LastFront, FrontOk;
    if t.colon || t.port != [] {
      PortState(t, connect);
    } else if t.host != [] || !t.bracket.NoBracket? {
      HostState(t, connect);
    } else {
      SchemeState(t, connect);
    }
  }

  lemma StateLess(u: Url, connect: bool)
    requires UrlOk(u, connect) && u != NOTHING
    ensures StateGrows(u, connect)
  {
    hide UrlOk, StateGrows, UrlChar;
    if !NoFragment(u) {
      FragmentState(u, connect);
    } else if !NoQuery(u) {
      QueryState(u, connect);
    } else if u.path != [] {
      PathState(u, connect);
    } else {
      FrontAlone(u, connect);
    }
  }

  lemma FrontAlone(u: Url, connect: bool)
    requires UrlOk(u, connect) && u != NOTHING && NoQuery(u) && u.path == []
    ensures StateGrows(u, connect)
  {
    hide UrlChar, LessFront, FrontState, LastFront, FrontOk, LETTERS, DIGITS, HOST_BYTES, ADDRESS_BYTES, PATH_BYTES,
      QUERY_BYTES, FRAGMENT_BYTES;
    FrontStateLess(u.front, connect);
    NotDead(u.front, connect);
  }

  lemma NotDead(t: Front, connect: bool)
    ensures !FrontState(t, connect).Dead?
  {
  }

  // ---- ... and of the parts ----

  lemma TextLength(u: Url)
    ensures |Text(u)| == FragmentAt(u) + |u.fragment|
  {
  }

  /** What the last byte adds: nothing, or one byte of the part that its state belongs to. */
  ghost predicate PartsGrow(u: Url, connect: bool)
    requires u != NOTHING
  {
    var v, f := Less(u), PartOf(StateOf(u, connect));
    if f.None? then Parts(u) == Parts(v)
    else
      && f.value in Parts(u)
      && Parts(u) == Parts(v)[f.value := Parts(u)[f.value]]
      && Parts(u)[f.value] ==
           if f.value in Parts(v) then Span(Parts(v)[f.value].off, Parts(v)[f.value].len + 1) else Span(|Text(v)|, 1)
  }

  ghost predicate PieceGrows(u: Url, connect: bool, g: Part)
    requires u != NOTHING
  {
    var v := Less(u);
    if PartOf(StateOf(u, connect)) == Some(g) then
      && |PieceOf(u, g)| == |PieceOf(v, g)| + 1
      && PieceAt(u, g) == if PieceOf(v, g) != [] then PieceAt(v, g) else |Text(v)|
    else |PieceOf(u, g)| == |PieceOf(v, g)| && (PieceOf(u, g) != [] ==> PieceAt(u, g) == PieceAt(v, g))
  }

  lemma FrontLength(t: Front)
    ensures |FrontText(t)| == PortAt(t) + |t.port|
  {
  }

  lemma RestPiece(u: Url, connect: bool, g: Part)
    requires u != NOTHING && !(NoQuery(u) && u.path == [])
    ensures PieceGrows(u, connect, g)
  {
    hide Text, FrontState, LessFront, HostAt, PortAt;
    TextLength(Less(u));
  }

  lemma FrontPiece(u: Url, connect: bool, g: Part)
    requires UrlOk(u, connect) && u != NOTHING && NoQuery(u) && u.path == []
    ensures PieceGrows(u, connect, g)
  {
    hide Text, Made, LETTERS, DIGITS, HOST_BYTES, ADDRESS_BYTES, PATH_BYTES, QUERY_BYTES, FRAGMENT_BYTES;
    TextLength(Less(u));
  }

  lemma AllPieces(u: Url, connect: bool)
    requires u != NOTHING && forall g: Part :: PieceGrows(u, connect, g)
    ensures PartsGrow(u, connect)
  {
    hide Text, StateOf, Less, PieceOf, PieceAt;
    var v := Less(u);
    forall g: Part ensures (g in Parts(u) <==> PieceOf(u, g) != []) && (g in Parts(v) <==> PieceOf(v, g) != []) {
      assert PieceGrows(u, connect, g);
    }
    forall g: Part | PartOf(StateOf(u, connect)) != Some(g)
      ensures (g in Parts(u) <==> g in Parts(v)) && (g in Parts(u) ==> Parts(u)[g] == Parts(v)[g])
    {
      assert PieceGrows(u, connect, g);
    }
    var f := PartOf(StateOf(u, connect));
    if f.Some? {
      assert PieceGrows(u, connect, f.value);
    }
  }

  lemma PartsLess(u: Url, connect: bool)
    requires UrlOk(u, connect) && u != NOTHING
    ensures PartsGrow(u, connect)
  {
    hide UrlOk, PartsGrow, PieceGrows;
    forall g: Part ensures PieceGrows(u, connect, g) {
      if NoQuery(u) && u.path == [] {
        FrontPiece(u, connect, g);
      } else {
        RestPiece(u, connect, g);
      }
    }
    AllPieces(u, connect);
  }

  // ---- what is written is let through ----

  lemma TextNothing(u: Url, connect: bool)
    requires UrlOk(u, connect)
    ensures Text(u) == [] <==> u == NOTHING
    ensures Text(NOTHING) == [] && Parts(NOTHING) == map[] && UrlOk(NOTHING, connect) && StateOf(NOTHING, connect) == StartState(connect)
  {
    hide Text, LETTERS, DIGITS, HOST_BYTES, ADDRESS_BYTES, PATH_BYTES, QUERY_BYTES, FRAGMENT_BYTES;
    TextLength(u);
    TextLength(NOTHING);
    assert forall g: Part :: PieceOf(NOTHING, g) == [];
  }

  lemma CutStep(buf: seq<byte>, connect: bool, i: nat, u: Url)
    requires i < |buf| && u != NOTHING && Alive(buf, connect, i + 1) && |Text(Less(u))| == i
    requires PartsGrow(u, connect) && StateAt(buf, connect, i + 1) == StateOf(u, connect)
    requires Cut(buf, connect, i, Parts(Less(u)))
    ensures Cut(buf, connect, i + 1, Parts(u))
  {
    hide Alive, StateAt, StateOf, PartOf, Cut, Parts, Text, Less;
    var f := PartOf(StateOf(u, connect));
    if f.None? {
      CutSkip(buf, connect, i, Parts(Less(u)));
    } else if f.value in Parts(Less(u)) {
      CutMore(buf, connect, i, Parts(Less(u)), f.value);
    } else {
      CutNew(buf, connect, i, Parts(Less(u)), f.value);
    }
  }

  lemma AliveNone(buf: seq<byte>, connect: bool)
    ensures Alive(buf, connect, 0) && Cut(buf, connect, 0, map[]) && StateAt(buf, connect, 0) == StartState(connect)
  {
  }

  /** A URL leads to its state, and its parts are the runs that are found. */
  lemma {:induction false} WrittenRuns(buf: seq<byte>, connect: bool, i: nat, u: Url)
    requires i <= |buf| && UrlOk(u, connect) && Text(u) == buf[..i]
    ensures Alive(buf, connect, i) && StateAt(buf, connect, i) == StateOf(u, connect) && Cut(buf, connect, i, Parts(u))
    decreases i
  {
    hide Alive, StateAt, StateOf, Cut, Parts, Text, UrlOk, Less, Last, UrlChar, PartsGrow;
    TextNothing(u, connect);
    if i == 0 {
      AliveNone(buf, connect);
    } else {
      var v := Less(u);
      OkLess(u, connect);
      OkBracket(u, connect);
      TextLess(u);
      StateLess(u, connect);
      PartsLess(u, connect);
      assert buf[..i] == buf[..i - 1] + [buf[i - 1]];
      WrittenRuns(buf, connect, i - 1, v);
      AliveMore(buf, connect, i - 1);
      CutStep(buf, connect, i - 1, u);
    }
  }

  lemma OkBracket(u: Url, connect: bool)
    requires UrlOk(u, connect)
    ensures u.front.bracket.Shut? ==> u.front.host != []
  {
  }

  // ---- and whatever is let through is written so ----

  /** A URL with one more byte, which leads to state t. */
  function More(u: Url, t: State, ch: byte): Url {
    match t
    case Fragment => u.(fragment := u.fragment + [ch])
    case FragmentStart => u.(hashes := u.hashes + 1)
    case Query => u.(query := u.query + [ch])
    case QueryStart => u.(question := true)
    case Path => u.(path := u.path + [ch])
    case _ => u.(front := MoreFront(u.front, t, ch))
  }

  function MoreFront(t: Front, s: State, ch: byte): Front {
    match s
    case Port => t.(port := t.port + [ch])
    case PortStart => t.(colon := true)
    case HostV6End => t.(bracket := Shut)
    case HostV6Start => t.(bracket := Opened)
    case HostStart => t.(marks := 3)
    case SchemaSlashSlash => t.(marks := 2)
    case SchemaSlash => t.(marks := 1)
    case Schema => t.(scheme := t.scheme + [ch])
    case _ => t.(host := t.host + [ch])
  }

  lemma MadeMore(s: seq<byte>, ch: byte, of: set<byte>)
    requires Made(s, of) && ch in of
    ensures Made(s + [ch], of) && s + [ch] != [] && Init(s + [ch]) == s
  {
  }

  /** The byte is the last one of what it makes. */
  ghost predicate Extends(u: Url, v: Url, connect: bool, ch: byte) {
    UrlOk(v, connect) && v != NOTHING && Less(v) == u && Last(v) == ch
  }

  predicate InRest(t: State) {
    t.Fragment? || t.FragmentStart? || t.Query? || t.QueryStart? || t.Path?
  }

  /** When a byte leads into the fragment. */
  lemma ToFragment(u: Url, connect: bool, ch: byte)
    requires UrlOk(u, connect)
    ensures var t := UrlChar(StateOf(u, connect), ch);
      && (t.Fragment? ==> u.hashes > 0 && ch in FRAGMENT_BYTES && (u.fragment == [] ==> ch != HASH))
      && (t.FragmentStart? ==> u.fragment == [] && ch == HASH && (u.path != [] || u.question))
  {
    hide FrontOk, FrontState, Addressed, Made, LETTERS, DIGITS, HOST_BYTES, ADDRESS_BYTES, PATH_BYTES, QUERY_BYTES,
      FRAGMENT_BYTES;
    Classes(ch);
    FrontNoFragment(u.front, connect, ch);
  }

  lemma FragmentMore(u: Url, connect: bool, ch: byte)
    requires UrlOk(u, connect) && u.hashes > 0 && ch in FRAGMENT_BYTES && (u.fragment == [] ==> ch != HASH)
    ensures Extends(u, u.(fragment := u.fragment + [ch]), connect, ch)
  {
    hide FrontOk, Addressed, Made, LessFront, LastFront, LETTERS, DIGITS, HOST_BYTES, ADDRESS_BYTES, PATH_BYTES,
      QUERY_BYTES, FRAGMENT_BYTES;
    MadeMore(u.fragment, ch, FRAGMENT_BYTES);
  }

  lemma HashMore(u: Url, connect: bool)
    requires UrlOk(u, connect) && u.fragment == [] && (u.path != [] || u.question)
    ensures Extends(u, u.(hashes := u.hashes + 1), connect, HASH)
  {
    hide FrontOk, Addressed, Made, LessFront, LastFront, LETTERS, DIGITS, HOST_BYTES, ADDRESS_BYTES, PATH_BYTES,
      QUERY_BYTES, FRAGMENT_BYTES;
  }

  lemma MoreFragment(u: Url, connect: bool, ch: byte)
    requires UrlOk(u, connect)
    requires var t := UrlChar(StateOf(u, connect), ch); t.Fragment? || t.FragmentStart?
    ensures Extends(u, More(u, UrlChar(StateOf(u, connect), ch), ch), connect, ch)
  {
    hide UrlOk, Extends, UrlChar, StateOf, FRAGMENT_BYTES;
    ToFragment(u, connect, ch);
    if UrlChar(StateOf(u, connect), ch).Fragment? {
      FragmentMore(u, connect, ch);
    } else {
      HashMore(u, connect);
    }
  }

  /** No front leads to a fragment. */
  lemma FrontNoFragment(t: Front, connect: bool, ch: byte)
    ensures var s := UrlChar(FrontState(t, connect), ch); !s.Fragment? && !s.FragmentStart? && !s.Query?
  {
  }

  /** When a byte leads into the query. */
  lemma ToQuery(u: Url, connect: bool, ch: byte)
    requires UrlOk(u, connect)
    ensures var t := UrlChar(StateOf(u, connect), ch);
      && (t.Query? ==> NoFragment(u) && u.question && ch in QUERY_BYTES)
      && (t.QueryStart? ==> NoQuery(u) && ch == QUESTION && (Addressed(u.front) || u.path != []))
  {
    hide FrontOk, FrontState, Addressed, Made, LETTERS, DIGITS, HOST_BYTES, ADDRESS_BYTES, PATH_BYTES, QUERY_BYTES,
      FRAGMENT_BYTES;
    Classes(ch);
    FrontNoFragment(u.front, connect, ch);
    FrontAddressed(u.front, connect, ch);
  }

  lemma QueryMore(u: Url, connect: bool, ch: byte)
    requires UrlOk(u, connect) && NoFragment(u) && u.question && ch in QUERY_BYTES
    ensures Extends(u, u.(query := u.query + [ch]), connect, ch)
  {
    hide FrontOk, Addressed, Made, LessFront, LastFront, LETTERS, DIGITS, HOST_BYTES, ADDRESS_BYTES, PATH_BYTES,
      QUERY_BYTES, FRAGMENT_BYTES;
    MadeMore(u.query, ch, QUERY_BYTES);
  }

  lemma QuestionMore(u: Url, connect: bool)
    requires UrlOk(u, connect) && NoQuery(u) && (Addressed(u.front) || u.path != [])
    ensures Extends(u, u.(question := true), connect, QUESTION)
  {
    hide FrontOk, Addressed, Made, LessFront, LastFront, LETTERS, DIGITS, HOST_BYTES, ADDRESS_BYTES, PATH_BYTES,
      QUERY_BYTES, FRAGMENT_BYTES;
  }

  lemma MoreQuery(u: Url, connect: bool, ch: byte)
    requires UrlOk(u, connect)
    requires var t := UrlChar(StateOf(u, connect), ch); t.Query? || t.QueryStart?
    ensures Extends(u, More(u, UrlChar(StateOf(u, connect), ch), ch), connect, ch)
  {
    hide UrlOk, Extends, UrlChar, StateOf, NoQuery, NoFragment, Addressed, QUERY_BYTES;
    ToQuery(u, connect, ch);
    if UrlChar(StateOf(u, connect), ch).Query? {
      QueryMore(u, connect, ch);
    } else {
      QuestionMore(u, connect);
    }
  }

  /** A path or a query follows a complete front, or the path comes first. */
  lemma FrontAddressed(t: Front, connect: bool, ch: byte)
    requires FrontOk(t, connect)
    ensures var s := UrlChar(FrontState(t, connect), ch);
      && (s.QueryStart? ==> Addressed(t) && ch == QUESTION)
      && (s.Path? ==> (Addressed(t) && ch == SLASH) || (t == NOWHERE && !connect && (ch == SLASH || ch == STAR)))
  {
  }

  /** When a byte leads into the path. */
  lemma ToPath(u: Url, connect: bool, ch: byte)
    requires UrlOk(u, connect) && UrlChar(StateOf(u, connect), ch).Path?
    ensures NoQuery(u) && ch in PATH_BYTES
    ensures u.path == [] ==>
      (Addressed(u.front) && ch == SLASH) || (u.front == NOWHERE && !connect && (ch == SLASH || ch == STAR))
  {
    hide FrontOk, FrontState, Addressed, Made, LETTERS, DIGITS, HOST_BYTES, ADDRESS_BYTES, PATH_BYTES, QUERY_BYTES,
      FRAGMENT_BYTES;
    Classes(ch);
    FrontAddressed(u.front, connect, ch);
  }

  lemma PathMore(u: Url, connect: bool, ch: byte)
    requires UrlOk(u, connect) && NoQuery(u) && ch in PATH_BYTES
    requires u.path == [] ==>
      (Addressed(u.front) && ch == SLASH) || (u.front == NOWHERE && !connect && (ch == SLASH || ch == STAR))
    ensures Extends(u, u.(path := u.path + [ch]), connect, ch)
  {
    hide FrontOk, Addressed, Made, LessFront, LastFront, LETTERS, DIGITS, HOST_BYTES, ADDRESS_BYTES, PATH_BYTES,
      QUERY_BYTES, FRAGMENT_BYTES;
    MadeMore(u.path, ch, PATH_BYTES);
  }

  lemma MorePath(u: Url, connect: bool, ch: byte)
    requires UrlOk(u, connect) && UrlChar(StateOf(u, connect), ch).Path?
    ensures Extends(u, More(u, UrlChar(StateOf(u, connect), ch), ch), connect, ch)
  {
    hide UrlOk, Extends, UrlChar, StateOf, NoQuery, Addressed, PATH_BYTES;
    ToPath(u, connect, ch);
    PathMore(u, connect, ch);
  }

  ghost predicate FrontExtends(t: Front, w: Front, connect: bool, ch: byte) {
    FrontOk(w, connect) && w != NOWHERE && LessFront(w) == t && LastFront(w) == ch
  }

  /** What a byte within the front can be. */
  lemma ToFront(t: Front, connect: bool, ch: byte)
    requires FrontOk(t, connect)
    ensures var s := UrlChar(FrontState(t, connect), ch);
      && (s.Port? ==> ch in DIGITS && t.colon)
      && (s.PortStart? ==> ch == COLON && Hosted(t) && !t.colon && t.port == [])
      && (s.HostV6End? ==> ch == CLOSE && t.bracket.Opened? && t.host != [] && !t.colon && t.port == [])
      && (s.HostV6? ==> ch in ADDRESS_BYTES && t.bracket.Opened? && !t.colon && t.port == [])
      && (s.Host? ==> ch in HOST_BYTES && t.bracket.NoBracket? && (connect || t.marks == 3) && !t.colon && t.port == [])
  {
    hide Made, LETTERS, DIGITS, HOST_BYTES, ADDRESS_BYTES, PATH_BYTES, QUERY_BYTES, FRAGMENT_BYTES;
    Classes(ch);
  }

  /** ... and before the host. */
  lemma ToScheme(t: Front, connect: bool, ch: byte)
    requires FrontOk(t, connect)
    ensures var s := UrlChar(FrontState(t, connect), ch);
      && (s.HostV6Start? || s.HostStart? || s.SchemaSlash? || s.SchemaSlashSlash? || s.Schema? ==>
            t.bracket.NoBracket? && t.host == [] && !t.colon && t.port == [])
      && (s.HostV6Start? ==> ch == OPEN && (connect || t.marks == 3))
      && (s.HostStart? ==> ch == SLASH && t.marks == 2)
      && (s.SchemaSlashSlash? ==> ch == SLASH && t.marks == 1)
      && (s.SchemaSlash? ==> ch == COLON && t.marks == 0 && t.scheme != [])
      && (s.Schema? ==> ch in LETTERS && t.marks == 0 && !connect)
  {
    hide Made, LETTERS, DIGITS, HOST_BYTES, ADDRESS_BYTES, PATH_BYTES, QUERY_BYTES, FRAGMENT_BYTES;
    Classes(ch);
  }

  lemma HostMore(t: Front, connect: bool, ch: byte)
    requires FrontOk(t, connect) && !t.colon && t.port == [] && !t.bracket.Shut?
    requires ch in if t.bracket.NoBracket? then HOST_BYTES else ADDRESS_BYTES
    requires t.bracket.NoBracket? ==> connect || t.marks == 3
    ensures FrontExtends(t, t.(host := t.host + [ch]), connect, ch)
  {
    hide Made, LETTERS, DIGITS, HOST_BYTES, ADDRESS_BYTES, PATH_BYTES, QUERY_BYTES, FRAGMENT_BYTES;
    MadeMore(t.host, ch, if t.bracket.NoBracket? then HOST_BYTES else ADDRESS_BYTES);
  }

  lemma PortMore(t: Front, connect: bool, ch: byte)
    requires FrontOk(t, connect) && t.colon && ch in DIGITS
    ensures FrontExtends(t, t.(port := t.port + [ch]), connect, ch)
  {
    hide Made, LETTERS, DIGITS, HOST_BYTES, ADDRESS_BYTES, PATH_BYTES, QUERY_BYTES, FRAGMENT_BYTES;
    MadeMore(t.port, ch, DIGITS);
  }

  lemma ColonMore(t: Front, connect: bool)
    requires FrontOk(t, connect) && !t.colon && t.port == []
    ensures Hosted(t) ==> FrontExtends(t, t.(colon := true), connect, COLON)
    ensures t.bracket.Opened? && t.host != [] ==> FrontExtends(t, t.(bracket := Shut), connect, CLOSE)
    ensures t.bracket.NoBracket? && t.host == [] && (connect || t.marks == 3) ==>
      FrontExtends(t, t.(bracket := Opened), connect, OPEN)
  {
    hide LETTERS, DIGITS, HOST_BYTES, ADDRESS_BYTES, PATH_BYTES, QUERY_BYTES, FRAGMENT_BYTES;
  }

  lemma MarkMore(t: Front, connect: bool)
    requires FrontOk(t, connect) && t.bracket.NoBracket? && t.host == [] && !t.colon && t.port == []
    requires t.scheme != [] && t.marks < 3
    ensures FrontExtends(t, t.(marks := t.marks + 1), connect, MARKS[t.marks])
  {
    hide Made, LETTERS, DIGITS, HOST_BYTES, ADDRESS_BYTES, PATH_BYTES, QUERY_BYTES, FRAGMENT_BYTES;
  }

  lemma SchemeMore(t: Front, connect: bool, ch: byte)
    requires FrontOk(t, connect) && t.bracket.NoBracket? && t.host == [] && !t.colon && t.port == []
    requires t.marks == 0 && !connect && ch in LETTERS
    ensures FrontExtends(t, t.(scheme := t.scheme + [ch]), connect, ch)
  {
    hide Made, LETTERS, DIGITS, HOST_BYTES, ADDRESS_BYTES, PATH_BYTES, QUERY_BYTES, FRAGMENT_BYTES;
    MadeMore(t.scheme, ch, LETTERS);
  }

  lemma MarksScheme(t: Front, connect: bool)
    requires FrontOk(t, connect) && t.marks > 0
    ensures t.scheme != []
  {
  }

  /** The states within the front. */
  lemma FrontStays(t: Front, connect: bool, ch: byte)
    ensures var s := UrlChar(FrontState(t, connect), ch);
      s.Dead? || InRest(s) || s.Port? || s.PortStart? || s.HostV6End? || s.HostV6? || s.HostV6Start? || s.Host?
      || s.HostStart? || s.SchemaSlashSlash? || s.SchemaSlash? || s.Schema?
  {
  }

  lemma MoreFrontOk(t: Front, connect: bool, ch: byte)
    requires FrontOk(t, connect)
    requires var s := UrlChar(FrontState(t, connect), ch); !s.Dead? && !InRest(s)
    ensures FrontExtends(t, MoreFront(t, UrlChar(FrontState(t, connect), ch), ch), connect, ch)
  {
    hide UrlChar, FrontState, FrontOk, FrontExtends, Hosted, LETTERS, DIGITS, HOST_BYTES, ADDRESS_BYTES, PATH_BYTES,
      QUERY_BYTES, FRAGMENT_BYTES;
    FrontStays(t, connect, ch);
    ToFront(t, connect, ch);
    ToScheme(t, connect, ch);
    match UrlChar(FrontState(t, connect), ch)
    case Port => PortMore(t, connect, ch);
    case PortStart => ColonMore(t, connect);
    case HostV6End => ColonMore(t, connect);
    case HostV6Start => ColonMore(t, connect);
    case HostStart => MarksScheme(t, connect); MarkMore(t, connect);
    case SchemaSlashSlash => MarksScheme(t, connect); MarkMore(t, connect);
    case SchemaSlash => MarkMore(t, connect);
    case Schema => SchemeMore(t, connect, ch);
    case _ => HostMore(t, connect, ch);
  }

  lemma MoreOk(u: Url, connect: bool, ch: byte)
    requires UrlOk(u, connect) && !UrlChar(StateOf(u, connect), ch).Dead?
    ensures Extends(u, More(u, UrlChar(StateOf(u, connect), ch), ch), connect, ch)
  {
    hide More, Extends, UrlChar, UrlOk;
    var t := UrlChar(StateOf(u, connect), ch);
    if t.Fragment? || t.FragmentStart? {
      MoreFragment(u, connect, ch);
    } else if t.Query? || t.QueryStart? {
      MoreQuery(u, connect, ch);
    } else if t.Path? {
      MorePath(u, connect, ch);
    } else {
      MoreAlone(u, connect, ch);
    }
  }

  lemma MoreAlone(u: Url, connect: bool, ch: byte)
    requires UrlOk(u, connect)
    requires var t := UrlChar(StateOf(u, connect), ch); !t.Dead? && !InRest(t)
    ensures Extends(u, More(u, UrlChar(StateOf(u, connect), ch), ch), connect, ch)
  {
    hide FrontOk, FrontState, Addressed, Made, LessFront, LastFront, MoreFront, LETTERS, DIGITS, HOST_BYTES,
      ADDRESS_BYTES, PATH_BYTES, QUERY_BYTES, FRAGMENT_BYTES;
    MoreFrontOk(u.front, connect, ch);
  }

  lemma {:induction false} ReadUrl(buf: seq<byte>, connect: bool, i: nat) returns (u: Url)
    requires i <= |buf| && Alive(buf, connect, i)
    ensures UrlOk(u, connect) && Text(u) == buf[..i]
    decreases i
  {
    hide StateAt, StateOf, Cut, Parts, Text, UrlOk, Less, Last, UrlChar, More;
    if i == 0 {
      u := NOTHING;
      TextNothing(NOTHING, connect) by { NothingOk(connect); }
    } else {
      var v := ReadUrl(buf, connect, i - 1);
      WrittenRuns(buf, connect, i - 1, v);
      AliveMore(buf, connect, i - 1);
      MoreOk(v, connect, buf[i - 1]);
      u := More(v, UrlChar(StateOf(v, connect), buf[i - 1]), buf[i - 1]);
      OkBracket(u, connect);
      TextLess(u);
      assert buf[..i] == buf[..i - 1] + [buf[i - 1]];
    }
  }

  lemma NothingOk(connect: bool)
    ensures UrlOk(NOTHING, connect)
  {
  }

  /** A text is let through, with those runs, exactly if it is a URL, or the beginning of one, with those
      parts. */
  lemma UrlMeans(buf: seq<byte>, connect: bool, runs: map<Part, Span>)
    ensures Alive(buf, connect, |buf|) && Cut(buf, connect, |buf|, runs) <==>
      exists u :: UrlOk(u, connect) && Text(u) == buf && Parts(u) == runs
  {
    hide Alive, Cut, UrlOk, Text, Parts, StateAt, StateOf;
    assert buf[..|buf|] == buf;
    if Alive(buf, connect, |buf|) && Cut(buf, connect, |buf|, runs) {
      var u := ReadUrl(buf, connect, |buf|);
      WrittenRuns(buf, connect, |buf|, u);
      CutUnique(buf, connect, Parts(u), runs);
    }
    if u :| UrlOk(u, connect) && Text(u) == buf && Parts(u) == runs {
      WrittenRuns(buf, connect, |buf|, u);
    }
  }

  // ---- complete URLs ----

  /** A host, and what is behind it: a port, a path or a query, is there; or there is no host. */
  predicate Complete(u: Url) {
    (u.front.bracket.NoBracket? && u.front.host == []) || u.front.port != [] || u.path != [] || u.question
  }

  lemma CompleteEnds(u: Url, connect: bool)
    requires UrlOk(u, connect)
    ensures BadEnd(StateOf(u, connect)) <==> !Complete(u)
  {
    hide Made, LETTERS, DIGITS, HOST_BYTES, ADDRESS_BYTES, PATH_BYTES, QUERY_BYTES, FRAGMENT_BYTES;
  }

  // ---- the bytes of the parts ----

  lemma Slice(a: seq<byte>, x: seq<byte>, b: seq<byte>, t: seq<byte>)
    requires t == a + x + b
    ensures |a| + |x| <= |t| && t[|a|..|a| + |x|] == x
  {
  }

  /** A piece of a piece. */
  lemma SliceIn(a: seq<byte>, x: seq<byte>, b: seq<byte>, t: seq<byte>, i: nat, n: nat)
    requires t == a + x + b && i + n <= |x|
    ensures |a| + i + n <= |t| && t[|a| + i..|a| + i + n] == x[i..i + n]
  {
  }

  lemma HostPiece(t: Front, buf: seq<byte>, rest: seq<byte>)
    requires buf == FrontText(t) + rest
    ensures HostAt(t) + |t.host| <= |buf| && buf[HostAt(t)..HostAt(t) + |t.host|] == t.host
  {
    var s, p := t.scheme + MARKS[..t.marks], Byte(t.colon, COLON) + t.port;
    HostInText(t);
    hide HostText;
    assert buf == s + HostText(t) + (p + rest);
    SliceIn(s, HostText(t), p + rest, buf, |Byte(!t.bracket.NoBracket?, OPEN)|, |t.host|);
  }

  lemma HostInText(t: Front)
    ensures var n := |Byte(!t.bracket.NoBracket?, OPEN)|;
      n + |t.host| <= |HostText(t)| && HostText(t)[n..n + |t.host|] == t.host
  {
    Slice(Byte(!t.bracket.NoBracket?, OPEN), t.host, Byte(t.bracket.Shut?, CLOSE), HostText(t));
  }

  lemma PortPiece(t: Front, buf: seq<byte>, rest: seq<byte>)
    requires buf == FrontText(t) + rest
    ensures PortAt(t) + |t.port| <= |buf| && buf[PortAt(t)..PortAt(t) + |t.port|] == t.port
  {
    var s, h, p := t.scheme + MARKS[..t.marks], HostText(t), Byte(t.colon, COLON) + t.port;
    assert buf == (s + h) + p + rest;
    SliceIn(s + h, p, rest, buf, |Byte(t.colon, COLON)|, |t.port|);
  }

  lemma SchemePiece(t: Front, buf: seq<byte>, rest: seq<byte>)
    requires buf == FrontText(t) + rest
    ensures |t.scheme| <= |buf| && buf[..|t.scheme|] == t.scheme
  {
    hide HostText;
    var s := t.scheme + MARKS[..t.marks];
    var more := HostText(t) + (Byte(t.colon, COLON) + t.port) + rest;
    assert buf == s + more;
    SliceIn([], s, more, buf, 0, |t.scheme|);
    assert [] + s == s;
  }

  lemma PathPiece(u: Url)
    ensures var n := |FrontText(u.front)|; n + |u.path| <= |Text(u)| && Text(u)[n..n + |u.path|] == u.path
  {
    hide FrontText, QueryText, FragmentText;
    var more := QueryText(u.question, u.query) + FragmentText(u.hashes, u.fragment);
    assert Text(u) == FrontText(u.front) + u.path + more;
    Slice(FrontText(u.front), u.path, more, Text(u));
  }

  lemma QueryPiece(u: Url)
    ensures var n := |FrontText(u.front)| + |u.path| + if u.question then 1 else 0;
      n + |u.query| <= |Text(u)| && Text(u)[n..n + |u.query|] == u.query
  {
    hide FrontText, FragmentText;
    SliceIn(FrontText(u.front) + u.path, QueryText(u.question, u.query), FragmentText(u.hashes, u.fragment), Text(u),
            |Byte(u.question, QUESTION)|, |u.query|);
  }

  lemma FragmentPiece(u: Url)
    ensures var n := |Text(u)| - |u.fragment|; 0 <= n && Text(u)[n..] == u.fragment
  {
    hide FrontText, QueryText;
    var a := FrontText(u.front) + u.path + QueryText(u.question, u.query);
    JoinNone(Text(u));
    SliceIn(a, FragmentText(u.hashes, u.fragment), [], Text(u), u.hashes, |u.fragment|);
  }

  lemma FrontAndRest(u: Url) returns (rest: seq<byte>)
    ensures Text(u) == FrontText(u.front) + rest
  {
    hide FrontText, QueryText, FragmentText;
    rest := u.path + QueryText(u.question, u.query) + FragmentText(u.hashes, u.fragment);
  }

  /** The bytes of a part are where Parts says. */
  ghost predicate PieceThere(u: Url, f: Part) {
    && PieceAt(u, f) + |PieceOf(u, f)| <= |Text(u)|
    && Text(u)[PieceAt(u, f)..PieceAt(u, f) + |PieceOf(u, f)|] == PieceOf(u, f)
  }

  lemma FrontThere(u: Url, f: Part)
    requires f.Scheme? || f.HostName? || f.PortNumber?
    ensures PieceThere(u, f)
  {
    hide HostAt, PortAt, FrontText, Text;
    var rest := FrontAndRest(u);
    match f
    case Scheme => SchemePiece(u.front, Text(u), rest);
    case HostName => HostPiece(u.front, Text(u), rest);
    case _ => PortPiece(u.front, Text(u), rest);
  }

  lemma RestThere(u: Url, f: Part)
    requires f.PathName? || f.QueryString? || f.FragmentId?
    ensures PieceThere(u, f)
  {
    hide HostAt, PortAt, FrontText, Text;
    FrontLength(u.front);
    TextLength(u);
    match f
    case PathName => PathPiece(u);
    case QueryString => QueryPiece(u);
    case _ => FragmentPiece(u);
  }

  /** The runs are the pieces. */
  lemma PartsAre(u: Url, f: Part)
    requires f in Parts(u)
    ensures Parts(u)[f].off + Parts(u)[f].len <= |Text(u)|
    ensures Text(u)[Parts(u)[f].off..Parts(u)[f].off + Parts(u)[f].len] == PieceOf(u, f)
  {
    hide PieceAt, Text;
    if f.Scheme? || f.HostName? || f.PortNumber? {
      FrontThere(u, f);
    } else {
      RestThere(u, f);
    }
  }
}
