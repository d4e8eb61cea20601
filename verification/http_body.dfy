/** What the body callbacks get: the bytes that Content-Length counts, or the payloads of the
    chunks in order (section 3.6.1 of RFC 2616), and when a length is stored exactly. */
module HttpBody {
  import opened HttpTypes
  import opened HttpStep
  import opened HttpRun

  // ---- bytes of a known number ----

  /** The body bytes behind the mark, not yet handed over. */
  function Held(c: Conf): seq<byte> {
    if c.open.Open? then c.open.bytes else []
  }

  predicate Counted(s: State) {
    s.ChunkData? || s.BodyIdentity?
  }

  /** After `data`, when it is no longer than the length that is left. */
  function AfterBody(c: Conf, data: seq<byte>): Conf
    requires Counted(c.p.state) && 0 < |data| <= c.p.contentLength
  {
    var p := c.p.(contentLength := c.p.contentLength - |data|);
    var bytes := Held(c) + data;
    if p.contentLength > 0 then Conf(p, Open(Body, bytes), c.out)
    else if p.state.ChunkData? then Conf(p.(state := ChunkDataAlmostDone), Open(Body, bytes), c.out)
    else Conf(p.(state := NewMessage(p)), Closed, c.out + [Data(Body, bytes), Complete])
  }

  lemma BodyByte(hc: Decide, c: Conf, ch: byte)
    requires Counted(c.p.state) && Fits(c.p.state, c.open) && 0 < c.p.contentLength
    ensures ByteStep(hc, c, ch) == (AfterBody(c, [ch]), Next)
  {
    assert c.out + [Data(Body, Held(c) + [ch])] + [Complete] == c.out + [Data(Body, Held(c) + [ch]), Complete];
  }

  /** Conservation: a body of known length is exactly the next that many bytes, and the bulk
      step, which moves by the smaller of the length left and the bytes left in the buffer,
      is the same as going byte by byte. */
  lemma {:induction false} BodyRun(hc: Decide, c: Conf, data: seq<byte>)
    requires Counted(c.p.state) && Fits(c.p.state, c.open) && 0 < |data| <= c.p.contentLength
    ensures Run(hc, c, data) == Result(AfterBody(c, data), |data|, Next)
    decreases data
  {
    hide ByteStep;
    var d := AfterBody(c, [data[0]]);
    BodyByte(hc, c, data[0]);
    assert data == [data[0]] + data[1..];
    RunStep(hc, c, d, data);
    if |data| > 1 {
      BodyRun(hc, d, data[1..]);
      assert Held(d) + data[1..] == Held(c) + data;
    } else {
      assert data == [data[0]];
    }
  }

  /** A body that lasts until the end of the input. */
  lemma {:induction false} EofBodyRun(hc: Decide, c: Conf, data: seq<byte>)
    requires c.p.state.BodyIdentityEof? && Fits(c.p.state, c.open) && data != []
    ensures Run(hc, c, data) == Result(c.(open := Open(Body, Held(c) + data)), |data|, Next)
    decreases data
  {
    var d := c.(open := Open(Body, Held(c) + [data[0]]));
    assert ByteStep(hc, c, data[0]) == (d, Next);
    assert data == [data[0]] + data[1..];
    RunStep(hc, c, d, data);
    if |data| > 1 {
      EofBodyRun(hc, d, data[1..]);
      assert Held(d) + data[1..] == Held(c) + data;
    } else {
      assert data == [data[0]];
    }
  }

  /** The headers are at their end, and say how long the body is. */
  predicate AtHeadersEnd(c: Conf, n: nat) {
    && c.p.state.HeadersAlmostDone? && c.open.Closed? && c.p.nread < MAX_HEADER_SIZE
    && !c.p.flags.trailing && !c.p.flags.upgrade && !c.p.flags.chunked && !c.p.flags.skipBody && !c.p.meth.CONNECT?
    && c.p.contentLength == n
  }

  /** What on_headers_complete gets to see. */
  function HeadersSeen(c: Conf): Parser {
    c.p.(nread := c.p.nread + 1, state := HeadersDone, upgrade := false)
  }

  lemma HeadersFirst(hc: Decide, c: Conf, lf: byte)
    requires AtHeadersEnd(c, c.p.contentLength) && hc(HeadersSeen(c)) == Proceed
    ensures Pass(hc, Count(c.p), lf) == Out(HeadersSeen(c), Notify(HeadersComplete), Again)
  {
    hide Pass, ByteStep, Switch;
    HeadersPass(hc, Count(c.p), lf);
    assert Count(c.p).(state := HeadersDone, upgrade := false) == HeadersSeen(c);
  }

  lemma HeadersSecond(hc: Decide, c: Conf, lf: byte)
    requires AtHeadersEnd(c, c.p.contentLength) && 0 < c.p.contentLength < NO_LENGTH
    ensures Pass(hc, HeadersSeen(c), lf) == Go(HeadersSeen(c).(nread := 0), BodyIdentity)
  {
    hide Pass, ByteStep, Switch;
    HeadersPass(hc, HeadersSeen(c), lf);
  }

  lemma HeadersEnd(hc: Decide, c: Conf, lf: byte)
    requires AtHeadersEnd(c, c.p.contentLength) && 0 < c.p.contentLength < NO_LENGTH && hc(HeadersSeen(c)) == Proceed
    ensures ByteStep(hc, c, lf) ==
      (Conf(HeadersSeen(c).(nread := 0, state := BodyIdentity), Closed, c.out + [HeadersComplete]), Next)
  {
    hide Pass, ByteStep, HeadersSeen;
    HeadersFirst(hc, c, lf);
    HeadersSecond(hc, c, lf);
    TwoPasses(hc, c, lf);
  }

  /** A message with Content-Length n: the body callback gets exactly the n bytes after the
      headers, and then the message is complete. */
  lemma IdentityBody(hc: Decide, c: Conf, lf: byte, data: seq<byte>)
    requires AtHeadersEnd(c, |data|) && 0 < |data| < NO_LENGTH && hc(HeadersSeen(c)) == Proceed
    ensures var r := Run(hc, c, [lf] + data);
      && r.ctl.Next? && r.consumed == |data| + 1 && r.conf.open.Closed?
      && r.conf.out == c.out + [HeadersComplete, Data(Body, data), Complete]
      && r.conf.p.state == NewMessage(c.p)
  {
    HeadersEnd(hc, c, lf);
    hide ByteStep, Run;
    var d := Conf(HeadersSeen(c).(nread := 0, state := BodyIdentity), Closed, c.out + [HeadersComplete]);
    RunStep(hc, c, d, [lf]);
    RunAppend(hc, c, [lf], data);
    BodyRun(hc, d, data);
    assert [] + data == data;
    assert c.out + [HeadersComplete] + [Data(Body, data), Complete] == c.out + [HeadersComplete, Data(Body, data), Complete];
  }

  /** Past the headers a body lasts until the end of the input exactly when http_message_needs_eof
      says so; a message after which the connection is kept alive has its end in its bytes. */
  lemma EofExactly(hc: Decide, p: Parser)
    requires p.state.HeadersDone? && !p.upgrade
    ensures HeadersStep(hc, p).p.state.BodyIdentityEof? <==> NeedsEof(p)
    ensures ShouldKeepAlive(p) ==> !HeadersStep(hc, p).p.state.BodyIdentityEof?
  {
    assert NeedsEof(p.(nread := 0)) <==> NeedsEof(p);
  }

  // ---- lengths ----

  function Value(base: nat, digits: seq<nat>): nat {
    if digits == [] then 0 else Value(base, digits[..|digits| - 1]) * base + digits[|digits| - 1]
  }

  /** The wrapping test accepts the right sum exactly when it is below 2^64-1. */
  lemma LengthExact(n: nat, base: nat, digit: nat)
    requires base > 0
    ensures MoreLength(n, base, digit) == Length(n * base + digit) <==> n * base + digit < NO_LENGTH
  {
    assert n * base >= n;
  }

  function DigitOf(ch: byte): nat
    requires IsNum(ch)
  {
    ch - '0' as int
  }

  /** The digits of a Content-Length value; spaces inside it are skipped. */
  function Digits(data: seq<byte>): seq<nat>
    requires forall i :: 0 <= i < |data| ==> IsNum(data[i]) || data[i] == SP
  {
    if data == [] then []
    else
      var ds, ch := Digits(data[..|data| - 1]), data[|data| - 1];
      if ch == SP then ds else ds + [DigitOf(ch)]
  }

  predicate Decimal(data: seq<byte>) {
    data != [] && IsNum(data[0]) && forall i :: 0 <= i < |data| ==> IsNum(data[i]) || data[i] == SP
  }

  lemma LengthStep(p: Parser, ch: byte)
    requires p.state.HeaderValue? && p.headerState.HContentLength? && (IsNum(ch) || ch == SP)
    ensures var v := if ch == SP then p.contentLength else p.contentLength * 10 + DigitOf(ch);
      v < NO_LENGTH ==> ValueStep(p, ch) == Go(p.(contentLength := v), HeaderValue)
  {
    if ch != SP {
      LengthExact(p.contentLength, 10, DigitOf(ch));
    }
  }

  lemma LengthByte(hc: Decide, c: Conf, ch: byte)
    requires c.p.state.HeaderValue? && c.p.headerState.HContentLength? && c.open.Open? && c.p.nread < MAX_HEADER_SIZE
    requires IsNum(ch) || ch == SP
    ensures var v := if ch == SP then c.p.contentLength else c.p.contentLength * 10 + DigitOf(ch);
      v < NO_LENGTH ==>
      ByteStep(hc, c, ch) == (c.(p := c.p.(nread := c.p.nread + 1, contentLength := v),
                                 open := Open(c.open.kind, c.open.bytes + [ch])), Next)
  {
    hide Pass, ByteStep, Switch;
    ValuePass(hc, Count(c.p), ch);
    OnePass(hc, c, ch);
    LengthStep(Count(c.p), ch);
    hide ValueStep, ByteStep, MoreLength;
  }

  /** The configuration after the value bytes `data`, `v` being the length they spell. */
  function AfterLength(c: Conf, data: seq<byte>, v: nat): Conf {
    c.(p := c.p.(nread := c.p.nread + |data|, index := 0, state := HeaderValue, contentLength := v),
       open := Open(Kind.Value, data))
  }

  lemma LengthFirst(hc: Decide, c: Conf, ch: byte)
    requires c.p.state.HeaderValueStart? && c.p.headerState.HContentLength? && c.open.Closed? && c.p.nread < MAX_HEADER_SIZE
    requires IsNum(ch)
    ensures ByteStep(hc, c, ch) == (AfterLength(c, [ch], DigitOf(ch)), Next)
  {
    hide Pass, ByteStep, Switch;
    ValuePass(hc, Count(c.p), ch);
    OnePass(hc, c, ch);
    assert [] + [ch] == [ch];
  }

  lemma FirstLength(hc: Decide, c: Conf, data: seq<byte>)
    requires c.p.state.HeaderValueStart? && c.p.headerState.HContentLength? && c.open.Closed? && c.p.nread < MAX_HEADER_SIZE
    requires |data| == 1 && IsNum(data[0])
    ensures Run(hc, c, data) == Result(AfterLength(c, data, DigitOf(data[0])), 1, Next)
  {
    assert data == [data[0]];
    LengthFirst(hc, c, data[0]);
    RunStep(hc, c, AfterLength(c, data, DigitOf(data[0])), data);
  }

  lemma DigitsMore(data: seq<byte>, ch: byte)
    requires Decimal(data + [ch])
    ensures Value(10, Digits(data + [ch])) ==
      if ch == SP then Value(10, Digits(data)) else Value(10, Digits(data)) * 10 + DigitOf(ch)
  {
    assert (data + [ch])[..|data|] == data;
    assert (data + [ch])[|data|] == ch;
    if ch != SP {
      assert (Digits(data) + [DigitOf(ch)])[..|Digits(data)|] == Digits(data);
    }
  }

  lemma LengthNext(hc: Decide, c: Conf, a: seq<byte>, v: nat, ch: byte)
    requires c.p.headerState.HContentLength? && c.p.nread + |a| < MAX_HEADER_SIZE && (IsNum(ch) || ch == SP)
    ensures var w := if ch == SP then v else v * 10 + DigitOf(ch);
      w < NO_LENGTH ==> ByteStep(hc, AfterLength(c, a, v), ch) == (AfterLength(c, a + [ch], w), Next)
  {
    hide ByteStep;
    LengthByte(hc, AfterLength(c, a, v), ch);
  }

  lemma LengthOn(hc: Decide, c: Conf, a: seq<byte>, v: nat, ch: byte, w: nat)
    requires c.p.headerState.HContentLength? && c.p.nread + |a| < MAX_HEADER_SIZE && (IsNum(ch) || ch == SP)
    requires Run(hc, c, a) == Result(AfterLength(c, a, v), |a|, Next)
    requires w == (if ch == SP then v else v * 10 + DigitOf(ch)) && w < NO_LENGTH
    ensures Run(hc, c, a + [ch]) == Result(AfterLength(c, a + [ch], w), |a| + 1, Next)
  {
    LengthNext(hc, c, a, v, ch);
    RunMore(hc, c, a, AfterLength(c, a, v), ch, AfterLength(c, a + [ch], w));
  }

  /** A decimal length below 2^64-1 is stored exactly and never rejected. */
  lemma {:induction false} ContentLengthRun(hc: Decide, c: Conf, data: seq<byte>)
    requires c.p.state.HeaderValueStart? && c.p.headerState.HContentLength? && c.open.Closed?
    requires Decimal(data) && c.p.nread + |data| <= MAX_HEADER_SIZE
    requires Value(10, Digits(data)) < NO_LENGTH
    ensures Run(hc, c, data) == Result(AfterLength(c, data, Value(10, Digits(data))), |data|, Next)
    decreases data
  {
    hide ByteStep;
    var a, ch := data[..|data| - 1], data[|data| - 1];
    assert data == a + [ch];
    DigitsMore(a, ch);
    if a == [] {
      assert Value(10, Digits(a)) == 0;
      FirstLength(hc, c, data);
    } else {
      ContentLengthRun(hc, c, a);
      LengthOn(hc, c, a, Value(10, Digits(a)), ch, Value(10, Digits(data)));
    }
  }

  /** A value byte is let through with a length below 2^64-1 only. */
  lemma LengthLet(hc: Decide, c: Conf, ch: byte)
    requires c.p.state.HeaderValue? && c.p.headerState.HContentLength? && c.open.Open? && c.p.contentLength < NO_LENGTH
    requires (IsNum(ch) || ch == SP) && ByteStep(hc, c, ch).1.Next?
    ensures var d := ByteStep(hc, c, ch).0;
      && d.p.contentLength < NO_LENGTH
      && d == c.(p := c.p.(nread := c.p.nread + 1, contentLength := d.p.contentLength),
                 open := Open(c.open.kind, c.open.bytes + [ch]))
  {
    var q := Count(c.p);
    ValueCharPass(hc, q, ch);
    hide ValueChar, Pass;
    assert Switch(hc, c.(p := q), ch).1.Next?;
  }

  lemma ValueCharPass(hc: Decide, p: Parser, ch: byte)
    requires p.state.HeaderValue? && p.headerState.HContentLength? && (IsNum(ch) || ch == SP) && p.contentLength < NO_LENGTH
    ensures var o := Pass(hc, p, ch);
      if o.ctl.Next? then o.act == Quiet && o.p == p.(contentLength := o.p.contentLength) && o.p.contentLength < NO_LENGTH
      else o.ctl.Fail?
  {
  }

  /** The digits that are let through, whatever they spell. */
  lemma {:induction false} LengthRun(hc: Decide, c: Conf, data: seq<byte>)
    requires c.p.state.HeaderValueStart? && c.p.headerState.HContentLength? && c.open.Closed?
    requires Decimal(data) && c.p.nread + |data| <= MAX_HEADER_SIZE && Run(hc, c, data).ctl.Next?
    ensures var d := Run(hc, c, data).conf;
      d.p.contentLength < NO_LENGTH && d == AfterLength(c, data, d.p.contentLength)
    decreases data
  {
    hide ByteStep;
    var a, ch := data[..|data| - 1], data[|data| - 1];
    assert data == a + [ch];
    if a == [] {
      FirstLength(hc, c, data);
    } else {
      RunAppend(hc, c, a, [ch]);
      LengthRun(hc, c, a);
      var d := Run(hc, c, a).conf;
      assert Run(hc, d, [ch]).ctl == ByteStep(hc, d, ch).1 && Run(hc, d, [ch]).conf == ByteStep(hc, d, ch).0 by {
        assert [ch][1..] == [];
      }
      LengthLet(hc, d, ch);
    }
  }

  /** The length is stored as it is written exactly when it is below 2^64-1. */
  lemma ContentLengthExact(hc: Decide, c: Conf, data: seq<byte>)
    requires c.p.state.HeaderValueStart? && c.p.headerState.HContentLength? && c.open.Closed?
    requires Decimal(data) && c.p.nread + |data| <= MAX_HEADER_SIZE
    ensures var r := Run(hc, c, data);
      r.ctl.Next? && r.conf.p.contentLength == Value(10, Digits(data)) <==> Value(10, Digits(data)) < NO_LENGTH
  {
    hide Run, Digits;
    if Value(10, Digits(data)) < NO_LENGTH {
      ContentLengthRun(hc, c, data);
    } else if Run(hc, c, data).ctl.Next? {
      LengthRun(hc, c, data);
    }
  }

  /** A number as it is written in decimal. */
  function DecimalText(n: nat): seq<byte> {
    (if n < 10 then [] else DecimalText(n / 10)) + ['0' as int + n % 10]
  }

  lemma {:induction false} DecimalTextMeans(n: nat)
    ensures Decimal(DecimalText(n)) && Value(10, Digits(DecimalText(n))) == n
    decreases n
  {
    var ch: byte := '0' as int + n % 10;
    if n < 10 {
      assert [] + [ch] == [ch] && [ch][..0] == [];
    } else {
      var a := DecimalText(n / 10);
      DecimalTextMeans(n / 10);
      DecimalMore(a, ch);
      DigitsMore(a, ch);
      assert n == n / 10 * 10 + n % 10;
    }
  }

  lemma DecimalMore(a: seq<byte>, ch: byte)
    requires Decimal(a) && IsNum(ch)
    ensures Decimal(a + [ch])
  {
  }

  /** The test is not an overflow test: 46116860184273879040, which is 10 * 2^62, is let through
      as 2^63. */
  lemma WrapAccepted(hc: Decide, c: Conf, n: nat)
    requires c.p.state.HeaderValueStart? && c.p.headerState.HContentLength? && c.open.Closed?
    requires n == 46116860184273879040 && c.p.nread + |DecimalText(n)| <= MAX_HEADER_SIZE
    ensures Run(hc, c, DecimalText(n)) == Result(AfterLength(c, DecimalText(n), 0x8000_0000_0000_0000), |DecimalText(n)|, Next)
  {
    hide *;
    DecimalTextMore(n);
    WrapAfter(hc, c, DecimalText(n / 10), n / 10);
  }

  lemma DecimalTextMore(n: nat)
    requires n >= 10
    ensures DecimalText(n) == DecimalText(n / 10) + ['0' as int + n % 10]
    ensures Decimal(DecimalText(n / 10)) && Value(10, Digits(DecimalText(n / 10))) == n / 10
  {
    DecimalTextMeans(n / 10);
  }

  lemma WrapAfter(hc: Decide, c: Conf, a: seq<byte>, m: nat)
    requires c.p.state.HeaderValueStart? && c.p.headerState.HContentLength? && c.open.Closed?
    requires m == 4611686018427387904 && c.p.nread + |a| < MAX_HEADER_SIZE
    requires Decimal(a) && Value(10, Digits(a)) == m
    ensures Run(hc, c, a + [48]) == Result(AfterLength(c, a + [48], 0x8000_0000_0000_0000), |a| + 1, Next)
  {
    hide Digits, Value, ByteStep, Run, Decimal;
    ContentLengthRun(hc, c, a);
    WrapByte(hc, AfterLength(c, a, m));
    RunMore(hc, c, a, AfterLength(c, a, m), 48, AfterLength(c, a + [48], 0x8000_0000_0000_0000));
  }

  lemma WrapByte(hc: Decide, c: Conf)
    requires c.p.state.HeaderValue? && c.p.headerState.HContentLength? && c.open.Open? && c.p.nread < MAX_HEADER_SIZE
    requires c.p.contentLength == 4611686018427387904
    ensures ByteStep(hc, c, 48) ==
      (c.(p := c.p.(nread := c.p.nread + 1, contentLength := 0x8000_0000_0000_0000),
          open := Open(c.open.kind, c.open.bytes + [48])), Next)
  {
    hide Pass, ByteStep, Switch;
    ValuePass(hc, Count(c.p), 48);
    OnePass(hc, c, 48);
    hide ByteStep;
  }

  // ---- chunks ----

  /** A chunk as it is written: the size in hexadecimal, an extension, line ends, the payload.
      The parser accepts any byte in the four places of a line end but the first CR, and takes
      a byte above 127 for the digit 0. */
  datatype Chunk = Chunk(size: seq<byte>, ext: seq<byte>, lf: byte, payload: seq<byte>, end: byte, last: byte)

  function HexDigits(size: seq<byte>): (ds: seq<nat>)
    requires forall i :: 0 <= i < |size| ==> Unhex(size[i]) >= 0
    ensures |ds| == |size|
  {
    if size == [] then [] else HexDigits(size[..|size| - 1]) + [Unhex(size[|size| - 1])]
  }

  const HEX := "0123456789abcdef"
  const UPPER_HEX := "0123456789ABCDEF"

  /** What counts as a digit of a chunk size: the hexadecimal ones in either case, by their values, and, as 0,
      every byte above 127. */
  lemma SizeDigit(b: byte, k: nat)
    requires k < 16
    ensures Unhex(b) == k <==> b == HEX[k] as int || b == UPPER_HEX[k] as int || (b > 127 && k == 0)
  {
  }

  predicate SizeOk(size: seq<byte>, n: nat) {
    && size != [] && (forall i :: 0 <= i < |size| ==> Unhex(size[i]) >= 0)
    && Value(16, HexDigits(size)) == n && n < NO_LENGTH
  }

  predicate ExtOk(ext: seq<byte>) {
    && (ext != [] ==> Is(ext[0], ';') || ext[0] == SP)
    && forall i :: 0 <= i < |ext| ==> ext[i] != CR
  }

  predicate ChunkOk(k: Chunk) {
    SizeOk(k.size, |k.payload|) && ExtOk(k.ext) && |k.size| + |k.ext| + 2 <= MAX_HEADER_SIZE
  }

  /** The size line. */
  function Line(k: Chunk): seq<byte> {
    k.size + k.ext + [CR] + [k.lf]
  }

  function Encode(k: Chunk): seq<byte> {
    Line(k) + k.payload + [k.end] + [k.last]
  }

  function EncodeAll(ks: seq<Chunk>): seq<byte> {
    if ks == [] then [] else Encode(ks[0]) + EncodeAll(ks[1..])
  }

  /** Chunks are read from here. */
  predicate AtChunk(c: Conf) {
    c.p.state.ChunkSizeStart? && c.p.nread == 0 && c.open.Closed?
  }

  function InSize(c: Conf, size: seq<byte>, v: nat): Conf {
    c.(p := c.p.(state := ChunkSize, nread := c.p.nread + |size|, contentLength := v))
  }

  lemma SizeFirst(hc: Decide, c: Conf, size: seq<byte>)
    requires AtChunk(c) && |size| == 1 && Unhex(size[0]) >= 0
    ensures Run(hc, c, size) == Result(InSize(c, size, Unhex(size[0])), 1, Next)
  {
    hide Pass, ByteStep, Switch;
    ChunkPass(hc, Count(c.p), size[0]);
    OnePass(hc, c, size[0]);
    assert ByteStep(hc, c, size[0]) == (InSize(c, size, Unhex(size[0])), Next);
    hide ByteStep;
    RunStep(hc, c, InSize(c, size, Unhex(size[0])), size);
  }

  /** The byte 128 is taken for a chunk size of 0, which ends the body. */
  lemma HighDigit(hc: Decide, c: Conf)
    requires AtChunk(c)
    ensures Run(hc, c, [128]) == Result(InSize(c, [128], 0), 1, Next)
  {
    SizeFirst(hc, c, [128]);
  }

  lemma SizeByte(hc: Decide, c: Conf, size: seq<byte>, v: nat, ch: byte)
    requires AtChunk(c) && |size| < MAX_HEADER_SIZE && Unhex(ch) >= 0 && v * 16 + Unhex(ch) < NO_LENGTH
    ensures ByteStep(hc, InSize(c, size, v), ch) == (InSize(c, size + [ch], v * 16 + Unhex(ch)), Next)
  {
    hide Pass, ByteStep, Switch;
    ChunkPass(hc, Count(InSize(c, size, v).p), ch);
    OnePass(hc, InSize(c, size, v), ch);
    LengthExact(v, 16, Unhex(ch));
  }

  lemma HexMore(size: seq<byte>, ch: byte)
    requires forall i :: 0 <= i < |size + [ch]| ==> Unhex((size + [ch])[i]) >= 0
    ensures forall i :: 0 <= i < |size| ==> Unhex(size[i]) >= 0
    ensures Unhex(ch) >= 0 && Value(16, HexDigits(size + [ch])) == Value(16, HexDigits(size)) * 16 + Unhex(ch)
  {
    forall i | 0 <= i < |size| ensures Unhex(size[i]) >= 0 {
      assert (size + [ch])[i] == size[i];
    }
    assert (size + [ch])[|size|] == ch && (size + [ch])[..|size|] == size;
    assert (HexDigits(size) + [Unhex(ch)])[..|size|] == HexDigits(size);
  }

  lemma {:induction false} SizeRun(hc: Decide, c: Conf, size: seq<byte>, v: nat)
    requires AtChunk(c) && SizeOk(size, v) && |size| <= MAX_HEADER_SIZE
    ensures Run(hc, c, size) == Result(InSize(c, size, v), |size|, Next)
    decreases size
  {
    hide ByteStep, Run, NewMessage;
    var a, ch := size[..|size| - 1], size[|size| - 1];
    assert size == a + [ch];
    HexMore(a, ch);
    if a == [] {
      assert Value(16, HexDigits(a)) == 0;
      SizeFirst(hc, c, size);
    } else {
      var w := Value(16, HexDigits(a));
      SizeRun(hc, c, a, w);
      SizeByte(hc, c, a, w, ch);
      RunMore(hc, c, a, InSize(c, a, w), ch, InSize(c, size, v));
    }
  }

  /** `data` leads from c to d, with no error and no stop. */
  ghost predicate Goes(hc: Decide, c: Conf, data: seq<byte>, d: Conf) {
    Run(hc, c, data) == Result(d, |data|, Next)
  }

  lemma GoesOn(hc: Decide, c: Conf, a: seq<byte>, d: Conf, b: seq<byte>, e: Conf)
    requires Goes(hc, c, a, d) && Goes(hc, d, b, e)
    ensures Goes(hc, c, a + b, e)
  {
    hide Run;
    RunAppend(hc, c, a, b);
  }

  lemma GoesByte(hc: Decide, c: Conf, ch: byte, d: Conf)
    requires ByteStep(hc, c, ch) == (d, Next)
    ensures Goes(hc, c, [ch], d)
  {
    hide ByteStep;
    RunStep(hc, c, d, [ch]);
  }

  lemma GoesNowhere(hc: Decide, c: Conf)
    ensures Goes(hc, c, [], c)
  {
  }

  function AfterSize(c: Conf, n: nat, v: nat, ext: seq<byte>): Conf {
    c.(p := c.p.(state := if ext == [] then ChunkSize else ChunkParameters, nread := c.p.nread + n, contentLength := v))
  }

  lemma ExtByte(hc: Decide, c: Conf, n: nat, v: nat, ext: seq<byte>, ch: byte)
    requires AtChunk(c) && n < MAX_HEADER_SIZE && ch != CR && (ext == [] ==> Is(ch, ';') || ch == SP)
    ensures ByteStep(hc, AfterSize(c, n, v, ext), ch) == (AfterSize(c, n + 1, v, ext + [ch]), Next)
  {
    hide Pass, ByteStep, Switch;
    ChunkPass(hc, Count(AfterSize(c, n, v, ext).p), ch);
    var d := AfterSize(c, n, v, ext);
    assert d.p.state == if ext == [] then ChunkSize else ChunkParameters;
    assert Count(d.p) == d.p.(nread := d.p.nread + 1);
    OnePass(hc, d, ch);
  }

  lemma ExtMore(a: seq<byte>, ch: byte)
    requires ExtOk(a + [ch])
    ensures ExtOk(a) && ch != CR && (a == [] ==> Is(ch, ';') || ch == SP)
  {
    var ext := a + [ch];
    assert ext[|a|] == ch;
    assert a != [] ==> a[0] == ext[0];
    forall i | 0 <= i < |a| ensures a[i] != CR {
      assert a[i] == ext[i];
    }
  }

  lemma {:induction false} ExtRun(hc: Decide, c: Conf, n: nat, v: nat, ext: seq<byte>)
    requires AtChunk(c) && n + |ext| <= MAX_HEADER_SIZE && ExtOk(ext)
    ensures Goes(hc, AfterSize(c, n, v, []), ext, AfterSize(c, n + |ext|, v, ext))
    decreases ext
  {
    hide ByteStep, Run, Goes, AfterSize, ExtOk;
    if ext == [] {
      GoesNowhere(hc, AfterSize(c, n, v, []));
    } else {
      var a, ch := ext[..|ext| - 1], ext[|ext| - 1];
      assert ext == a + [ch];
      ExtMore(a, ch);
      ExtRun(hc, c, n, v, a);
      ExtByte(hc, c, n + |a|, v, a, ch);
      GoesByte(hc, AfterSize(c, n + |a|, v, a), ch, AfterSize(c, n + |ext|, v, ext));
      GoesOn(hc, AfterSize(c, n, v, []), a, AfterSize(c, n + |a|, v, a), [ch], AfterSize(c, n + |ext|, v, ext));
    }
  }

  /** After the size line: the payload, or the trailer after the last chunk. */
  function AfterLine(c: Conf, v: nat): Conf {
    if v == 0 then
      c.(p := c.p.(state := HeaderFieldStart, flags := c.p.flags.(trailing := true), nread := 0, contentLength := 0))
    else c.(p := c.p.(state := ChunkData, nread := 0, contentLength := v))
  }

  function AtLineEnd(c: Conf, n: nat, v: nat): Conf {
    c.(p := c.p.(state := ChunkSizeAlmostDone, nread := c.p.nread + n, contentLength := v))
  }

  lemma LineCr(hc: Decide, c: Conf, n: nat, v: nat, ext: seq<byte>)
    requires AtChunk(c) && n < MAX_HEADER_SIZE
    ensures ByteStep(hc, AfterSize(c, n, v, ext), CR) == (AtLineEnd(c, n + 1, v), Next)
  {
    hide Pass, ByteStep, Switch;
    ChunkPass(hc, Count(AfterSize(c, n, v, ext).p), CR);
    OnePass(hc, AfterSize(c, n, v, ext), CR);
  }

  lemma LineLf(hc: Decide, c: Conf, n: nat, v: nat, lf: byte)
    requires AtChunk(c) && n < MAX_HEADER_SIZE
    ensures ByteStep(hc, AtLineEnd(c, n, v), lf) == (AfterLine(c, v), Next)
  {
    hide Pass, ByteStep, Switch;
    ChunkPass(hc, Count(AtLineEnd(c, n, v).p), lf);
    OnePass(hc, AtLineEnd(c, n, v), lf);
  }

  lemma LineEnd(hc: Decide, c: Conf, n: nat, v: nat, ext: seq<byte>, lf: byte)
    requires AtChunk(c) && n + 2 <= MAX_HEADER_SIZE
    ensures Goes(hc, AfterSize(c, n, v, ext), [CR] + [lf], AfterLine(c, v))
  {
    hide ByteStep, Run, Goes, AfterSize, AfterLine;
    var m := AtLineEnd(c, n + 1, v);
    LineCr(hc, c, n, v, ext);
    LineLf(hc, c, n + 1, v, lf);
    GoesByte(hc, AfterSize(c, n, v, ext), CR, m);
    GoesByte(hc, m, lf, AfterLine(c, v));
    GoesOn(hc, AfterSize(c, n, v, ext), [CR], m, [lf], AfterLine(c, v));
  }

  lemma LineRun(hc: Decide, c: Conf, size: seq<byte>, v: nat, ext: seq<byte>, lf: byte)
    requires AtChunk(c) && SizeOk(size, v) && ExtOk(ext) && |size| + |ext| + 2 <= MAX_HEADER_SIZE
    ensures Goes(hc, c, size + ext + [CR] + [lf], AfterLine(c, v))
  {
    hide ByteStep, Run, SizeOk, ExtOk, AfterLine;
    var n := |size|;
    SizeRun(hc, c, size, v);
    ExtRun(hc, c, n, v, ext);
    assert InSize(c, size, v) == AfterSize(c, n, v, []);
    GoesOn(hc, c, size, AfterSize(c, n, v, []), ext, AfterSize(c, n + |ext|, v, ext));
    LineEnd(hc, c, n + |ext|, v, ext, lf);
    GoesOn(hc, c, size + ext, AfterSize(c, n + |ext|, v, ext), [CR] + [lf], AfterLine(c, v));
    assert size + ext + ([CR] + [lf]) == size + ext + [CR] + [lf];
  }

  /** After a whole chunk: one more payload handed over, ready for the next chunk. */
  function AfterChunk(c: Conf, payload: seq<byte>): Conf {
    Conf(c.p.(contentLength := 0), Closed, c.out + [Data(Body, payload)])
  }

  function InPayload(c: Conf, payload: seq<byte>): Conf {
    Conf(c.p.(contentLength := 0, nread := 0, state := ChunkDataAlmostDone), Open(Body, payload), c.out)
  }

  function PastPayload(c: Conf, payload: seq<byte>): Conf {
    Conf(c.p.(contentLength := 0, nread := 0, state := ChunkDataDone), Closed, c.out + [Data(Body, payload)])
  }

  lemma PayloadBytes(hc: Decide, c: Conf, payload: seq<byte>)
    requires AtChunk(c) && payload != []
    ensures Goes(hc, AfterLine(c, |payload|), payload, InPayload(c, payload))
  {
    hide ByteStep, Run;
    BodyRun(hc, AfterLine(c, |payload|), payload);
    assert [] + payload == payload;
  }

  lemma PayloadEnd(hc: Decide, c: Conf, payload: seq<byte>, end: byte)
    requires AtChunk(c)
    ensures ByteStep(hc, InPayload(c, payload), end) == (PastPayload(c, payload), Next)
  {
    hide Pass, ByteStep, Switch;
    ChunkPass(hc, Count(InPayload(c, payload).p), end);
    OnePass(hc, InPayload(c, payload), end);
  }

  lemma PayloadLast(hc: Decide, c: Conf, payload: seq<byte>, last: byte)
    requires AtChunk(c)
    ensures ByteStep(hc, PastPayload(c, payload), last) == (AfterChunk(c, payload), Next)
  {
    hide Pass, ByteStep, Switch;
    ChunkPass(hc, Count(PastPayload(c, payload).p), last);
    OnePass(hc, PastPayload(c, payload), last);
  }

  lemma PayloadRun(hc: Decide, c: Conf, payload: seq<byte>, end: byte, last: byte)
    requires AtChunk(c) && payload != []
    ensures Goes(hc, AfterLine(c, |payload|), payload + [end] + [last], AfterChunk(c, payload))
  {
    hide ByteStep, Run, Goes, AfterLine, InPayload, PastPayload, AfterChunk;
    var a, b, d := AfterLine(c, |payload|), InPayload(c, payload), PastPayload(c, payload);
    PayloadBytes(hc, c, payload);
    PayloadEnd(hc, c, payload, end);
    PayloadLast(hc, c, payload, last);
    GoesByte(hc, b, end, d);
    GoesOn(hc, a, payload, b, [end], d);
    GoesByte(hc, d, last, AfterChunk(c, payload));
    GoesOn(hc, a, payload + [end], d, [last], AfterChunk(c, payload));
  }

  lemma ChunkRun(hc: Decide, c: Conf, k: Chunk)
    requires AtChunk(c) && ChunkOk(k) && k.payload != []
    ensures Goes(hc, c, Encode(k), AfterChunk(c, k.payload)) && AtChunk(AfterChunk(c, k.payload))
  {
    hide Goes, SizeOk, ExtOk, AfterLine;
    LineRun(hc, c, k.size, |k.payload|, k.ext, k.lf);
    PayloadRun(hc, c, k.payload, k.end, k.last);
    GoesOn(hc, c, Line(k), AfterLine(c, |k.payload|), k.payload + [k.end] + [k.last], AfterChunk(c, k.payload));
    assert Line(k) + (k.payload + [k.end] + [k.last]) == Encode(k);
  }

  function Payloads(ks: seq<Chunk>): seq<Event> {
    if ks == [] then [] else [Data(Body, ks[0].payload)] + Payloads(ks[1..])
  }

  function AfterChunks(c: Conf, ks: seq<Chunk>): Conf {
    if ks == [] then c else c.(p := c.p.(contentLength := 0), out := c.out + Payloads(ks))
  }

  lemma ChunksMore(c: Conf, ks: seq<Chunk>)
    requires ks != [] && c.open.Closed?
    ensures AfterChunks(AfterChunk(c, ks[0].payload), ks[1..]) == AfterChunks(c, ks)
  {
    assert c.out + [Data(Body, ks[0].payload)] + Payloads(ks[1..]) == c.out + Payloads(ks);
    assert ks[1..] == [] ==> c.out + Payloads(ks) == c.out + [Data(Body, ks[0].payload)];
  }

  lemma {:induction false} ChunksRun(hc: Decide, c: Conf, ks: seq<Chunk>)
    requires AtChunk(c) && forall i :: 0 <= i < |ks| ==> ChunkOk(ks[i]) && ks[i].payload != []
    ensures Goes(hc, c, EncodeAll(ks), AfterChunks(c, ks)) && AtChunk(AfterChunks(c, ks))
    decreases ks
  {
    if ks == [] {
      GoesNowhere(hc, c);
    } else {
      hide Goes, Encode, ChunkOk, AfterChunk, AfterChunks, AtChunk;
      ChunkRun(hc, c, ks[0]);
      var d := AfterChunk(c, ks[0].payload);
      ChunksRun(hc, d, ks[1..]);
      GoesOn(hc, c, Encode(ks[0]), d, EncodeAll(ks[1..]), AfterChunks(d, ks[1..]));
      ChunksMore(c, ks);
    }
  }

  /** After the last chunk and an empty trailer. */
  function AfterTrailer(c: Conf): Conf {
    var p := c.p.(flags := c.p.flags.(trailing := true), nread := 2, contentLength := 0);
    Conf(p.(state := NewMessage(p)), Closed, c.out + [Complete])
  }

  function InTrailer(c: Conf): Conf {
    c.(p := AfterLine(c, 0).p.(state := HeadersAlmostDone, nread := 1))
  }

  lemma TrailerCr(hc: Decide, c: Conf)
    requires AtChunk(c)
    ensures ByteStep(hc, AfterLine(c, 0), CR) == (InTrailer(c), Next)
  {
    hide Pass, ByteStep, Switch;
    FieldPass(hc, Count(AfterLine(c, 0).p), CR);
    OnePass(hc, AfterLine(c, 0), CR);
  }

  lemma TrailerLast(hc: Decide, c: Conf, b: byte)
    requires AtChunk(c)
    ensures ByteStep(hc, InTrailer(c), b) == (AfterTrailer(c), Next)
  {
    hide Pass, ByteStep, Switch;
    HeadersPass(hc, Count(InTrailer(c).p), b);
    OnePass(hc, InTrailer(c), b);
  }

  lemma TrailerRun(hc: Decide, c: Conf, b: byte)
    requires AtChunk(c)
    ensures Goes(hc, AfterLine(c, 0), [CR] + [b], AfterTrailer(c))
  {
    hide ByteStep, Run, Goes, AfterLine, AfterTrailer;
    TrailerCr(hc, c);
    TrailerLast(hc, c, b);
    GoesByte(hc, AfterLine(c, 0), CR, InTrailer(c));
    GoesByte(hc, InTrailer(c), b, AfterTrailer(c));
    GoesOn(hc, AfterLine(c, 0), [CR], InTrailer(c), [b], AfterTrailer(c));
  }

  /** A chunked body as a whole: every payload is handed over once, in order, then the message
      is complete; for any number of chunks of any size, extensions included. */
  lemma ChunkedBody(hc: Decide, c: Conf, ks: seq<Chunk>, size: seq<byte>, ext: seq<byte>, lf: byte, b: byte)
    requires AtChunk(c) && forall i :: 0 <= i < |ks| ==> ChunkOk(ks[i]) && ks[i].payload != []
    requires SizeOk(size, 0) && ExtOk(ext) && |size| + |ext| + 2 <= MAX_HEADER_SIZE
    ensures var r := Run(hc, c, EncodeAll(ks) + (size + ext + [CR] + [lf]) + ([CR] + [b]));
      r.ctl.Next? && r.conf.out == c.out + Payloads(ks) + [Complete]
      && r.conf.p.state == NewMessage(c.p) && r.conf.open.Closed?
  {
    hide Run, SizeOk, ExtOk, ChunkOk, EncodeAll, AfterLine;
    var d := AfterChunks(c, ks);
    ChunksRun(hc, c, ks);
    LineRun(hc, d, size, 0, ext, lf);
    GoesOn(hc, c, EncodeAll(ks), d, size + ext + [CR] + [lf], AfterLine(d, 0));
    TrailerRun(hc, d, b);
    GoesOn(hc, c, EncodeAll(ks) + (size + ext + [CR] + [lf]), AfterLine(d, 0), [CR] + [b], AfterTrailer(d));
    assert ks == [] ==> c.out + Payloads(ks) == c.out;
  }
}
