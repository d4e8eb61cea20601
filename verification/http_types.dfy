/** Bytes, parser states and tables of httpparser/http_parser.c, in the non-strict
    build that httpparser/http_parser.h selects. */
module HttpTypes {

  type byte = x: int | 0 <= x < 256

  const CR: byte := 13
  const LF: byte := 10
  const SP: byte := 32
  const HT: byte := 9

  /** ULLONG_MAX, which stands for "no length given". */
  const NO_LENGTH := 0xFFFF_FFFF_FFFF_FFFF
  const TWO_64 := 0x1_0000_0000_0000_0000
  const MAX_HEADER_SIZE := 80 * 1024

  datatype MessageType = Request | Response | Both

  datatype State =
    | Dead
    | StartReqOrRes | ResOrRespH
    | StartRes | ResH | ResHT | ResHTT | ResHTTP
    | ResFirstMajor | ResMajor | ResFirstMinor | ResMinor
    | ResFirstStatus | ResStatusCode | ResStatus | ResLineAlmostDone
    | StartReq | ReqMethod | SpacesBeforeUrl
    | Schema | SchemaSlash | SchemaSlashSlash
    | HostStart | HostV6Start | HostV6 | HostV6End | Host | PortStart | Port
    | Path | QueryStart | Query | FragmentStart | Fragment
    | HttpStart | HttpH | HttpHT | HttpHTT | HttpHTTP
    | ReqFirstMajor | ReqMajor | ReqFirstMinor | ReqMinor | ReqLineAlmostDone
    | HeaderFieldStart | HeaderField | HeaderValueStart | HeaderValue | HeaderValueLws | HeaderAlmostDone
    | ChunkSizeStart | ChunkSize | ChunkParameters | ChunkSizeAlmostDone
    | HeadersAlmostDone | HeadersDone
    | ChunkData | ChunkDataAlmostDone | ChunkDataDone
    | BodyIdentity | BodyIdentityEof | MessageDone

  /** PARSING_HEADER: the states in which bytes count towards the header limit. */
  predicate ParsingHeader(s: State) {
    !(s.ChunkData? || s.ChunkDataAlmostDone? || s.ChunkDataDone?
      || s.BodyIdentity? || s.BodyIdentityEof? || s.MessageDone?)
  }

  datatype HeaderState =
    | HGeneral | HC | HCO | HCON
    | MConnection | MProxyConnection | MContentLength | MTransferEncoding | MUpgrade
    | HConnection | HContentLength | HTransferEncoding | HUpgrade
    | MChunked | MKeepAlive | MClose
    | HChunked | HKeepAlive | HClose

  datatype Errno =
    | Ok | CbHeadersComplete | InvalidEofState | HeaderOverflow | ClosedConnection
    | InvalidVersion | InvalidStatus | InvalidMethod | InvalidUrl | LfExpected
    | InvalidHeaderToken | InvalidContentLength | InvalidChunkSize | InvalidConstant | Unknown
    | CbMessageBegin | CbUrl | CbHeaderField | CbHeaderValue | CbBody | CbMessageComplete | Paused

  datatype Method =
    | DELETE | GET | HEAD | POST | PUT | CONNECT | OPTIONS | TRACE | COPY | LOCK | MKCOL | MOVE
    | PROPFIND | PROPPATCH | SEARCH | UNLOCK | REPORT | MKACTIVITY | CHECKOUT | MERGE | MSEARCH
    | NOTIFY | SUBSCRIBE | UNSUBSCRIBE | PATCH | PURGE

  function Name(m: Method): string {
    match m
    case DELETE => "DELETE" case GET => "GET" case HEAD => "HEAD" case POST => "POST" case PUT => "PUT"
    case CONNECT => "CONNECT" case OPTIONS => "OPTIONS" case TRACE => "TRACE" case COPY => "COPY"
    case LOCK => "LOCK" case MKCOL => "MKCOL" case MOVE => "MOVE" case PROPFIND => "PROPFIND"
    case PROPPATCH => "PROPPATCH" case SEARCH => "SEARCH" case UNLOCK => "UNLOCK" case REPORT => "REPORT"
    case MKACTIVITY => "MKACTIVITY" case CHECKOUT => "CHECKOUT" case MERGE => "MERGE"
    case MSEARCH => "M-SEARCH" case NOTIFY => "NOTIFY" case SUBSCRIBE => "SUBSCRIBE"
    case UNSUBSCRIBE => "UNSUBSCRIBE" case PATCH => "PATCH" case PURGE => "PURGE"
  }

  datatype Flags = Flags(chunked: bool, keepAlive: bool, close: bool, trailing: bool, upgrade: bool, skipBody: bool)

  const NO_FLAGS := Flags(false, false, false, false, false, false)

  /** struct http_parser, without the application's `data` pointer. */
  datatype Parser = Parser(
    typ: MessageType, flags: Flags, state: State, headerState: HeaderState, index: nat,
    nread: nat, contentLength: nat, major: nat, minor: nat, status: nat, meth: Method,
    errno: Errno, upgrade: bool)

  /** http_parser_init */
  function Init(t: MessageType): Parser {
    Parser(t, NO_FLAGS, if t.Request? then StartReq else if t.Response? then StartRes else StartReqOrRes,
           HGeneral, 0, 0, 0, 0, 0, 0, DELETE, Ok, false)
  }

  // ---- characters ----

  predicate Is(ch: byte, c: char) {
    ch == c as int
  }

  /** ch | 0x20 */
  function Lower(ch: byte): byte {
    if ch / 32 % 2 == 1 then ch else ch + 32
  }

  predicate IsNum(ch: byte) {
    '0' as int <= ch <= '9' as int
  }

  predicate IsAlpha(ch: byte) {
    'a' as int <= Lower(ch) <= 'z' as int
  }

  predicate IsHex(ch: byte) {
    IsNum(ch) || 'a' as int <= Lower(ch) <= 'f' as int
  }

  predicate IsHostChar(ch: byte) {
    IsAlpha(ch) || IsNum(ch) || Is(ch, '.') || Is(ch, '-') || Is(ch, '_')
  }

  /** IS_URL_CHAR, with tab and form feed allowed and every byte above 127. */
  predicate IsUrlChar(ch: byte) {
    ch == 9 || ch == 12 || (33 <= ch <= 126 && ch != 35 && ch != 63) || ch >= 128
  }

  /** TOKEN: the lower-cased token character, or 0; a space counts as a token. */
  function Token(ch: byte): byte {
    if 'A' as int <= ch <= 'Z' as int then ch + 32
    else if ('a' as int <= ch <= 'z' as int) || IsNum(ch) then ch
    else if ch == 32 || ch == 33 || (35 <= ch <= 39) || ch == 42 || ch == 43 || ch == 45 || ch == 46
            || (94 <= ch <= 96) || ch == 124 || ch == 126 then ch
    else 0
  }

  /** unhex: -1 below 128 for a non-digit; the 128 entries not initialised are 0. */
  function Unhex(ch: byte): (v: int)
    ensures -1 <= v < 16
  {
    if IsNum(ch) then ch - '0' as int
    else if 'A' as int <= ch <= 'F' as int then ch - 'A' as int + 10
    else if 'a' as int <= ch <= 'f' as int then ch - 'a' as int + 10
    else if ch >= 128 then 0
    else -1
  }

  // ---- parse_url_char ----

  function UrlChar(s: State, ch: byte): State {
    if ch == SP || ch == CR || ch == LF then Dead else
    match s
    case SpacesBeforeUrl =>
      if Is(ch, '/') || Is(ch, '*') then Path else if IsAlpha(ch) then Schema else Dead
    case Schema => if IsAlpha(ch) then Schema else if Is(ch, ':') then SchemaSlash else Dead
    case SchemaSlash => if Is(ch, '/') then SchemaSlashSlash else Dead
    case SchemaSlashSlash => if Is(ch, '/') then HostStart else Dead
    case HostStart => if Is(ch, '[') then HostV6Start else if IsHostChar(ch) then Host else Dead
    case Host => if IsHostChar(ch) then Host else AfterHost(ch)
    case HostV6End => AfterHost(ch)
    case HostV6 => if Is(ch, ']') then HostV6End else if IsHex(ch) || Is(ch, ':') then HostV6 else Dead
    case HostV6Start => if IsHex(ch) || Is(ch, ':') then HostV6 else Dead
    case Port =>
      if Is(ch, '/') then Path else if Is(ch, '?') then QueryStart else if IsNum(ch) then Port else Dead
    case PortStart => if IsNum(ch) then Port else Dead
    case Path =>
      if IsUrlChar(ch) then Path else if Is(ch, '?') then QueryStart
      else if Is(ch, '#') then FragmentStart else Dead
    case QueryStart => InQuery(ch)
    case Query => InQuery(ch)
    case FragmentStart =>
      if IsUrlChar(ch) || Is(ch, '?') then Fragment else if Is(ch, '#') then FragmentStart else Dead
    case Fragment => if IsUrlChar(ch) || Is(ch, '?') || Is(ch, '#') then Fragment else Dead
    case _ => Dead
  }

  function AfterHost(ch: byte): State {
    if Is(ch, ':') then PortStart else if Is(ch, '/') then Path else if Is(ch, '?') then QueryStart else Dead
  }

  function InQuery(ch: byte): State {
    if IsUrlChar(ch) || Is(ch, '?') then Query else if Is(ch, '#') then FragmentStart else Dead
  }

  // ---- questions about a message ----

  /** http_message_needs_eof */
  predicate NeedsEof(p: Parser) {
    && !p.typ.Request?
    && !(p.status / 100 == 1 || p.status == 204 || p.status == 304 || p.flags.skipBody)
    && !(p.flags.chunked || p.contentLength != NO_LENGTH)
  }

  /** http_should_keep_alive */
  predicate ShouldKeepAlive(p: Parser) {
    && (if p.major > 0 && p.minor > 0 then !p.flags.close else p.flags.keepAlive)
    && !NeedsEof(p)
  }
}
