/** A whole chunked message, from the end of its headers, read backwards: whatever the bytes
    are, as long as there is no error they are chunks one after the other, the last one and a
    trailer (section 3.6.1 of RFC 2616), and the body callbacks have had the payloads. */
module HttpMessage {
  import opened HttpTypes
  import opened HttpStep
  import opened HttpRun
  import opened HttpBody
  import HttpGrammar

  // ---- sizes ----

  predicate Hex(size: seq<byte>) {
    forall i :: 0 <= i < |size| ==> Unhex(size[i]) >= 0
  }

  /** The size that the parser works with: the one that is written, in 64 bits. */
  function Stored(size: seq<byte>): nat
    requires Hex(size)
  {
    HttpBody.Value(16, HexDigits(size)) % TWO_64
  }

  lemma WrapOn(x: nat, digit: nat)
    ensures (x % TWO_64 * 16 + digit) % TWO_64 == (x * 16 + digit) % TWO_64
  {
    var q, y := x / TWO_64, x % TWO_64 * 16 + digit;
    assert x * 16 + digit == y + 16 * q * TWO_64;
    WrapTurns(y, 16 * q);
  }

  lemma {:induction false} WrapTurns(y: nat, turns: nat)
    ensures (y + turns * TWO_64) % TWO_64 == y % TWO_64
    decreases turns
  {
    if turns > 0 {
      WrapTurns(y, turns - 1);
      assert (y + (turns - 1) * TWO_64) + TWO_64 == y + turns * TWO_64;
    }
  }

  lemma StoredMore(size: seq<byte>, ch: byte)
    requires Hex(size) && Unhex(ch) >= 0
    ensures Hex(size + [ch]) && Stored(size + [ch]) == (Stored(size) * 16 + Unhex(ch)) % TWO_64
  {
    assert Hex(size + [ch]);
    HexMore(size, ch);
    WrapOn(HttpBody.Value(16, HexDigits(size)), Unhex(ch));
  }

  lemma StoredFirst(ch: byte)
    requires Unhex(ch) >= 0
    ensures Hex([ch]) && Stored([ch]) == Unhex(ch)
  {
    hide Unhex, Stored;
    assert Stored([]) == 0 by { NothingStored(); }
    StoredMore([], ch);
    assert [] + [ch] == [ch];
  }

  lemma NothingStored()
    ensures Stored([]) == 0
  {
  }

  // ---- how far a message has been read ----

  /** The chunk, or the trailer, that the bytes are in. */
  datatype Part =
    | OfSize(size: seq<byte>)
    | OfExt(size: seq<byte>, ext: seq<byte>)
    | OfLine(size: seq<byte>, ext: seq<byte>)
    | OfPayload(size: seq<byte>, ext: seq<byte>, lf: byte, payload: seq<byte>)
    | OfEnd(size: seq<byte>, ext: seq<byte>, lf: byte, payload: seq<byte>, end: byte)
    | OfTrailer(size: seq<byte>, ext: seq<byte>, lf: byte, trailer: seq<byte>)

  datatype Place = Place(chunks: seq<Chunk>, part: Part)

  /** What has been read of it. */
  function Text(part: Part): seq<byte> {
    match part
    case OfSize(size) => size
    case OfExt(size, ext) => size + ext
    case OfLine(size, ext) => size + ext + [CR]
    case OfPayload(size, ext, lf, payload) => size + ext + [CR] + [lf] + payload
    case OfEnd(size, ext, lf, payload, end) => size + ext + [CR] + [lf] + payload + [end]
    case OfTrailer(size, ext, lf, trailer) => size + ext + [CR] + [lf] + trailer
  }

  function Written(at: Place): seq<byte> {
    EncodeAll(at.chunks) + Text(at.part)
  }

  /** A chunk with a payload as long as its size says, in 64 bits. */
  predicate Chunked(k: Chunk) {
    k.size != [] && Hex(k.size) && ExtOk(k.ext) && k.payload != [] && |k.payload| == Stored(k.size)
  }

  predicate PartOk(part: Part) {
    Hex(part.size) &&
    match part
    case OfSize(_) => true
    case OfExt(size, ext) => size != [] && ExtOk(ext) && ext != []
    case OfLine(size, ext) => size != [] && ExtOk(ext)
    case OfPayload(size, ext, _, payload) => size != [] && ExtOk(ext) && |payload| <= Stored(size) && Stored(size) > 0
    case OfEnd(size, ext, _, payload, _) => size != [] && ExtOk(ext) && |payload| == Stored(size) && Stored(size) > 0
    case OfTrailer(size, ext, _, _) => size != [] && ExtOk(ext) && Stored(size) == 0
  }

  predicate PlaceOk(at: Place) {
    PartOk(at.part) && forall i :: 0 <= i < |at.chunks| ==> Chunked(at.chunks[i])
  }

  /** Nothing but trailer fields and values after `early`. */
  ghost predicate Trails(early: seq<Event>, out: seq<Event>) {
    early <= out && forall i :: |early| <= i < |out| ==> HttpGrammar.Header(out[i])
  }

  /** Where the parser is in that part, `early` being the callbacks for the chunks before. */
  ghost predicate Inside(early: seq<Event>, part: Part, c: Conf)
    requires PartOk(part)
  {
    match part
    case OfSize(size) =>
      && c.out == early && c.open.Closed?
      && (if size == [] then c.p.state.ChunkSizeStart? else c.p.state.ChunkSize? && c.p.contentLength == Stored(size))
    case OfExt(size, _) =>
      c.out == early && c.open.Closed? && c.p.state.ChunkParameters? && c.p.contentLength == Stored(size)
    case OfLine(size, _) =>
      c.out == early && c.open.Closed? && c.p.state.ChunkSizeAlmostDone? && c.p.contentLength == Stored(size)
    case OfPayload(size, _, _, payload) =>
      && c.out == early && Held(c) == payload && (c.open.Closed? || c.open.kind == Body)
      && c.p.contentLength == Stored(size) - |payload|
      && (if |payload| < Stored(size) then c.p.state.ChunkData? else c.p.state.ChunkDataAlmostDone? && c.open.Open?)
    case OfEnd(_, _, _, payload, _) =>
      c.out == early + [Data(Body, payload)] && c.open.Closed? && c.p.state.ChunkDataDone?
    case OfTrailer(_, _, _, _) =>
      Trails(early, c.out) && HttpGrammar.HeaderPart(c.p.state) && c.p.flags.trailing
  }

  /** The parser has read `at` since it was at `c`, ready for chunks. */
  ghost predicate Reached(c: Conf, at: Place, d: Conf) {
    PlaceOk(at) && d.p.typ == c.p.typ && Inside(c.out + Payloads(at.chunks), at.part, d)
  }

  // ---- one byte ----

  /** In the chunk states a byte takes one pass. */
  lemma ChunkByte(hc: Decide, c: Conf, ch: byte)
    requires InChunk(c.p.state) && ByteStep(hc, c, ch).1.Next?
    ensures var o := ChunkStep(Count(c.p), ch);
      o.ctl.Next? && ByteStep(hc, c, ch).0 == Take(Perform(o.act, c.(p := o.p)), ch)
  {
    hide ChunkStep, Pass, Perform, Take, InChunk;
    var q := Count(c.p);
    assert q.state == c.p.state;
    ChunkPass(hc, q, ch);
  }

  lemma WrittenMore(chunks: seq<Chunk>, k: Chunk)
    ensures EncodeAll(chunks + [k]) == EncodeAll(chunks) + Encode(k)
    ensures Payloads(chunks + [k]) == Payloads(chunks) + [Data(Body, k.payload)]
    decreases chunks
  {
    hide Encode;
    if chunks == [] {
      assert [k][1..] == [];
    } else {
      assert (chunks + [k])[0] == chunks[0] && (chunks + [k])[1..] == chunks[1..] + [k];
      WrittenMore(chunks[1..], k);
    }
  }

  /** The next byte brings `at` to `to`. */
  ghost predicate Step(c: Conf, at: Place, ch: byte, d: Conf, to: Place) {
    Reached(c, to, d) && Written(to) == Written(at) + [ch]
  }

  lemma StepPart(c: Conf, at: Place, ch: byte, d: Conf, part: Part)
    requires PlaceOk(at) && PartOk(part) && Text(part) == Text(at.part) + [ch]
    requires d.p.typ == c.p.typ && Inside(c.out + Payloads(at.chunks), part, d)
    ensures Step(c, at, ch, d, Place(at.chunks, part))
  {
    hide Text, PartOk, Inside, Chunked, EncodeAll, Payloads;
    assert EncodeAll(at.chunks) + Text(part) == Written(at) + [ch];
  }

  /** What a byte outside a payload leaves as it is. */
  ghost predicate Still(d: Conf, e: Conf) {
    e.out == d.out && e.open.Closed? && e.p.typ == d.p.typ
  }

  lemma StartGoes(hc: Decide, d: Conf, ch: byte)
    requires d.p.state.ChunkSizeStart? && d.open.Closed? && ByteStep(hc, d, ch).1.Next?
    ensures var e := ByteStep(hc, d, ch).0;
      Still(d, e) && Unhex(ch) >= 0 && e.p.state.ChunkSize? && e.p.contentLength == Unhex(ch)
  {
    hide ByteStep;
    ChunkByte(hc, d, ch);
  }

  lemma SizeGoes(hc: Decide, d: Conf, ch: byte)
    requires d.p.state.ChunkSize? && d.open.Closed? && ByteStep(hc, d, ch).1.Next?
    ensures var e, n := ByteStep(hc, d, ch).0, d.p.contentLength;
      && Still(d, e)
      && if ch == CR then e.p.state.ChunkSizeAlmostDone? && e.p.contentLength == n
         else if Unhex(ch) >= 0 then
           e.p.state.ChunkSize? && e.p.contentLength == (n * 16 + Unhex(ch)) % TWO_64 && e.p.contentLength != NO_LENGTH
         else (Is(ch, ';') || ch == SP) && e.p.state.ChunkParameters? && e.p.contentLength == n
  {
    hide ByteStep;
    ChunkByte(hc, d, ch);
  }

  lemma ExtGoes(hc: Decide, d: Conf, ch: byte)
    requires d.p.state.ChunkParameters? && d.open.Closed? && ByteStep(hc, d, ch).1.Next?
    ensures var e := ByteStep(hc, d, ch).0;
      && Still(d, e) && e.p.contentLength == d.p.contentLength
      && if ch == CR then e.p.state.ChunkSizeAlmostDone? else e.p.state.ChunkParameters?
  {
    hide ByteStep;
    ChunkByte(hc, d, ch);
  }

  lemma LineGoes(hc: Decide, d: Conf, ch: byte)
    requires d.p.state.ChunkSizeAlmostDone? && d.open.Closed? && ByteStep(hc, d, ch).1.Next?
    ensures var e := ByteStep(hc, d, ch).0;
      && Still(d, e) && e.p.contentLength == d.p.contentLength
      && if d.p.contentLength == 0 then e.p.state.HeaderFieldStart? && e.p.flags.trailing else e.p.state.ChunkData?
  {
    hide ByteStep;
    ChunkByte(hc, d, ch);
  }

  lemma PayloadGoes(hc: Decide, d: Conf, ch: byte)
    requires d.p.state.ChunkData? && (d.open.Closed? || d.open.kind == Body) && 0 < d.p.contentLength
    ensures var (e, ctl) := ByteStep(hc, d, ch);
      && ctl.Next? && e.out == d.out && e.open == Open(Body, Held(d) + [ch]) && e.p.typ == d.p.typ
      && e.p.contentLength == d.p.contentLength - 1
      && if d.p.contentLength == 1 then e.p.state.ChunkDataAlmostDone? else e.p.state.ChunkData?
  {
    hide ByteStep;
    BodyByte(hc, d, ch);
  }

  lemma EndGoes(hc: Decide, d: Conf, ch: byte)
    requires d.p.state.ChunkDataAlmostDone? && d.open.Open? && d.open.kind == Body && ByteStep(hc, d, ch).1.Next?
    ensures var e := ByteStep(hc, d, ch).0;
      && e.out == d.out + [Data(Body, d.open.bytes)] && e.open.Closed? && e.p.typ == d.p.typ
      && e.p.state.ChunkDataDone?
  {
    hide ByteStep;
    ChunkByte(hc, d, ch);
  }

  lemma LastGoes(hc: Decide, d: Conf, ch: byte)
    requires d.p.state.ChunkDataDone? && d.open.Closed? && ByteStep(hc, d, ch).1.Next?
    ensures var e := ByteStep(hc, d, ch).0; Still(d, e) && e.p.state.ChunkSizeStart?
  {
    hide ByteStep;
    ChunkByte(hc, d, ch);
  }

  // ---- when the size is the one that is written ----

  lemma {:induction false} SizeLet(hc: Decide, c: Conf, size: seq<byte>)
    requires AtChunk(c) && size != [] && Hex(size) && Run(hc, c, size).ctl.Next?
    ensures var d := Run(hc, c, size).conf; d.p.state.ChunkSize? && d.open.Closed? && d.p.contentLength < NO_LENGTH
    decreases size
  {
    hide ByteStep;
    var a, ch := size[..|size| - 1], size[|size| - 1];
    assert size == a + [ch];
    RunAppend(hc, c, a, [ch]);
    var d := Run(hc, c, a).conf;
    OneByte(hc, d, ch);
    if a == [] {
      StartGoes(hc, d, ch);
    } else {
      SizeLet(hc, c, a);
      SizeGoes(hc, d, ch);
    }
  }

  lemma OneByte(hc: Decide, c: Conf, ch: byte)
    ensures Run(hc, c, [ch]).conf == ByteStep(hc, c, ch).0 && Run(hc, c, [ch]).ctl == ByteStep(hc, c, ch).1
  {
    hide ByteStep;
    assert [ch][1..] == [];
  }

  /** A chunk size is stored as it is written exactly when it is below 2^64-1. */
  lemma SizeExact(hc: Decide, c: Conf, size: seq<byte>)
    requires AtChunk(c) && size != [] && Hex(size) && |size| <= MAX_HEADER_SIZE
    ensures var r := Run(hc, c, size);
      r.ctl.Next? && r.conf.p.contentLength == HttpBody.Value(16, HexDigits(size))
      <==> HttpBody.Value(16, HexDigits(size)) < NO_LENGTH
  {
    hide Run;
    if HttpBody.Value(16, HexDigits(size)) < NO_LENGTH {
      SizeRun(hc, c, size, HttpBody.Value(16, HexDigits(size)));
    } else if Run(hc, c, size).ctl.Next? {
      SizeLet(hc, c, size);
    }
  }

  function HexDigit(d: nat): (ch: byte)
    requires d < 16
    ensures Unhex(ch) == d
  {
    if d < 10 then '0' as int + d else 'a' as int + d - 10
  }

  /** A number as it is written in hexadecimal. */
  function HexText(n: nat): seq<byte> {
    (if n < 16 then [] else HexText(n / 16)) + [HexDigit(n % 16)]
  }

  lemma HexOn(a: seq<byte>, ch: byte)
    requires Hex(a) && Unhex(ch) >= 0
    ensures Hex(a + [ch]) && HttpBody.Value(16, HexDigits(a + [ch])) == HttpBody.Value(16, HexDigits(a)) * 16 + Unhex(ch)
  {
    assert Hex(a + [ch]);
    HexMore(a, ch);
  }

  lemma {:induction false} HexTextMeans(n: nat)
    ensures HexText(n) != [] && Hex(HexText(n)) && HttpBody.Value(16, HexDigits(HexText(n))) == n
    decreases n
  {
    hide HexDigit, Unhex, HexDigits;
    if n < 16 {
      assert HttpBody.Value(16, HexDigits([])) == 0;
      HexOn([], HexDigit(n % 16));
    } else {
      HexTextMeans(n / 16);
      HexOn(HexText(n / 16), HexDigit(n % 16));
      assert n == n / 16 * 16 + n % 16;
    }
  }

  lemma HexTextMore(n: nat)
    requires n >= 16 && n % 16 == 0
    ensures HexText(n) == HexText(n / 16) + [48]
    ensures HexText(n / 16) != [] && Hex(HexText(n / 16)) && HttpBody.Value(16, HexDigits(HexText(n / 16))) == n / 16
  {
    HexTextMeans(n / 16);
    hide HexDigits;
  }

  /** ... and 12000000000000000 is let through as the size 2000000000000000. */
  lemma SizeWraps(hc: Decide, c: Conf, n: nat)
    requires AtChunk(c) && n == 0x1_2000_0000_0000_0000 && |HexText(n)| <= MAX_HEADER_SIZE
    ensures var r := Run(hc, c, HexText(n)); r.ctl.Next? && r.conf.p.contentLength == 0x2000_0000_0000_0000
  {
    hide *;
    HexTextMore(n);
    SizeWrapsAt(hc, c, HexText(n / 16), n / 16);
  }

  lemma SizeWrapsAt(hc: Decide, c: Conf, a: seq<byte>, m: nat)
    requires AtChunk(c) && m == 0x1200_0000_0000_0000 && |a| < MAX_HEADER_SIZE
    requires a != [] && Hex(a) && HttpBody.Value(16, HexDigits(a)) == m
    ensures var r := Run(hc, c, a + [48]); r.ctl.Next? && r.conf.p.contentLength == 0x2000_0000_0000_0000
  {
    hide HexDigits, ByteStep, Run;
    SizeRun(hc, c, a, m);
    var d := HttpBody.InSize(c, a, m);
    SizeWrapsByte(hc, d);
    RunAppend(hc, c, a, [48]);
    OneByte(hc, d, 48);
  }

  lemma SizeWrapsByte(hc: Decide, d: Conf)
    requires d.p.state.ChunkSize? && d.open.Closed? && d.p.nread < MAX_HEADER_SIZE
    requires d.p.contentLength == 0x1200_0000_0000_0000
    ensures var (e, ctl) := ByteStep(hc, d, 48); ctl.Next? && e.p.contentLength == 0x2000_0000_0000_0000
  {
    hide ByteStep, Pass, Switch;
    ChunkPass(hc, Count(d.p), 48);
    OnePass(hc, d, 48);
  }

  // ---- inside a chunk ----

  /** The part after one more byte, inside a chunk. */
  function More(part: Part, ch: byte): Part
    requires PartOk(part) && !part.OfEnd? && !part.OfTrailer?
  {
    match part
    case OfSize(size) =>
      if size != [] && ch == CR then OfLine(size, [])
      else if Unhex(ch) == -1 then OfExt(size, [ch])
      else OfSize(size + [ch])
    case OfExt(size, ext) => if ch == CR then OfLine(size, ext) else OfExt(size, ext + [ch])
    case OfLine(size, ext) => if Stored(size) == 0 then OfTrailer(size, ext, ch, []) else OfPayload(size, ext, ch, [])
    case OfPayload(size, ext, lf, payload) =>
      if |payload| < Stored(size) then OfPayload(size, ext, lf, payload + [ch]) else OfEnd(size, ext, lf, payload, ch)
  }

  lemma MoreText(part: Part, ch: byte)
    requires PartOk(part) && !part.OfEnd? && !part.OfTrailer?
    ensures Text(More(part, ch)) == Text(part) + [ch]
  {
    hide Hex, ExtOk, Stored;
    match part {
      case OfSize(size) =>
        assert size + [] + [CR] == size + [CR];
      case OfExt(size, ext) =>
        assert size + (ext + [ch]) == size + ext + [ch];
      case OfLine(size, ext) =>
        assert size + ext + [CR] + [ch] + [] == size + ext + [CR] + [ch];
      case OfPayload(size, ext, lf, payload) =>
        assert size + ext + [CR] + [lf] + (payload + [ch]) == size + ext + [CR] + [lf] + payload + [ch];
    }
  }

  lemma SizeStep(hc: Decide, early: seq<Event>, part: Part, d: Conf, ch: byte)
    requires PartOk(part) && part.OfSize? && Inside(early, part, d) && ByteStep(hc, d, ch).1.Next?
    ensures var e := ByteStep(hc, d, ch).0;
      PartOk(More(part, ch)) && Inside(early, More(part, ch), e) && e.p.typ == d.p.typ
  {
    hide ByteStep, Stored, Hex;
    if part.size == [] {
      StartGoes(hc, d, ch);
      StoredFirst(ch);
      assert part.size + [ch] == [ch];
    } else {
      SizeGoes(hc, d, ch);
      if Unhex(ch) >= 0 {
        StoredMore(part.size, ch);
      }
    }
  }

  lemma ExtStep(hc: Decide, early: seq<Event>, part: Part, d: Conf, ch: byte)
    requires PartOk(part) && (part.OfExt? || part.OfLine?) && Inside(early, part, d) && ByteStep(hc, d, ch).1.Next?
    ensures var e := ByteStep(hc, d, ch).0;
      PartOk(More(part, ch)) && Inside(early, More(part, ch), e) && e.p.typ == d.p.typ
  {
    hide ByteStep, Stored, Hex;
    if part.OfExt? {
      ExtGoes(hc, d, ch);
    } else {
      LineGoes(hc, d, ch);
    }
  }

  lemma PayloadStep(hc: Decide, early: seq<Event>, part: Part, d: Conf, ch: byte)
    requires PartOk(part) && part.OfPayload? && Inside(early, part, d) && ByteStep(hc, d, ch).1.Next?
    ensures var e := ByteStep(hc, d, ch).0;
      PartOk(More(part, ch)) && Inside(early, More(part, ch), e) && e.p.typ == d.p.typ
  {
    hide ByteStep, Stored, Hex, ExtOk;
    if |part.payload| < Stored(part.size) {
      PayloadGoes(hc, d, ch);
    } else {
      EndGoes(hc, d, ch);
    }
  }

  lemma PartStep(hc: Decide, c: Conf, at: Place, d: Conf, ch: byte)
    requires Reached(c, at, d) && !at.part.OfEnd? && !at.part.OfTrailer? && ByteStep(hc, d, ch).1.Next?
    ensures Step(c, at, ch, ByteStep(hc, d, ch).0, Place(at.chunks, More(at.part, ch)))
  {
    hide ByteStep, PartOk, Inside, Text, More, Chunked, EncodeAll, Payloads;
    var early := c.out + Payloads(at.chunks);
    if at.part.OfSize? {
      SizeStep(hc, early, at.part, d, ch);
    } else if at.part.OfPayload? {
      PayloadStep(hc, early, at.part, d, ch);
    } else {
      ExtStep(hc, early, at.part, d, ch);
    }
    MoreText(at.part, ch);
    StepPart(c, at, ch, ByteStep(hc, d, ch).0, More(at.part, ch));
  }

  /** The chunk that ends with `ch`. */
  function ChunkOf(part: Part, ch: byte): Chunk
    requires part.OfEnd?
  {
    Chunk(part.size, part.ext, part.lf, part.payload, part.end, ch)
  }

  lemma ChunkOfOk(part: Part, ch: byte)
    requires part.OfEnd? && PartOk(part)
    ensures Chunked(ChunkOf(part, ch)) && Encode(ChunkOf(part, ch)) == Text(part) + [ch] && PartOk(OfSize([]))
  {
  }

  lemma EndStep(hc: Decide, c: Conf, at: Place, d: Conf, ch: byte)
    requires Reached(c, at, d) && at.part.OfEnd? && ByteStep(hc, d, ch).1.Next?
    ensures Step(c, at, ch, ByteStep(hc, d, ch).0, Place(at.chunks + [ChunkOf(at.part, ch)], OfSize([])))
  {
    hide ByteStep, Payloads, EncodeAll, Chunked, Encode, PartOk;
    var k := ChunkOf(at.part, ch);
    LastGoes(hc, d, ch);
    ChunkOfOk(at.part, ch);
    WrittenMore(at.chunks, k);
    assert Encode(k) == Text(at.part) + [ch];
    assert c.out + Payloads(at.chunks + [k]) == c.out + Payloads(at.chunks) + [Data(Body, k.payload)];
  }

  // ---- the trailer ----

  /** Callbacks for trailer fields and values only. */
  ghost predicate TrailerAct(a: Act) {
    match a
    case Quiet => true
    case Mark(k) => !k.Body? && !k.Url?
    case Flush(k) => !k.Body? && !k.Url?
    case Touch(k) => !k.Body? && !k.Url?
    case Notify(_) => false
  }

  /** A pass in the trailer: on in the trailer, or the end of the message. */
  ghost predicate TrailerOut(p: Parser, o: Out) {
    !o.ctl.Fail? ==>
      && o.p.typ == p.typ
      && if o.act == Notify(Complete) then o.ctl.Next? && o.p.state == NewMessage(p)
         else TrailerAct(o.act) && HttpGrammar.HeaderPart(o.p.state) && o.p.flags.trailing && !o.ctl.Stop?
  }

  lemma FieldTrails(p: Parser, ch: byte)
    requires (p.state.HeaderFieldStart? || p.state.HeaderField?) && p.flags.trailing
    ensures TrailerOut(p, FieldStep(p, ch))
  {
  }

  lemma ValueStartTrails(p: Parser, ch: byte)
    requires p.state.HeaderValueStart? && p.flags.trailing
    ensures TrailerOut(p, ValueStep(p, ch))
  {
  }

  lemma InValueTrails(p: Parser, ch: byte)
    requires p.state.HeaderValue? && p.flags.trailing
    ensures TrailerOut(p, ValueStep(p, ch))
  {
    hide MoreLength;
  }

  lemma ValueEndTrails(p: Parser, ch: byte)
    requires (p.state.HeaderAlmostDone? || p.state.HeaderValueLws?) && p.flags.trailing
    ensures TrailerOut(p, ValueStep(p, ch))
  {
  }

  lemma TrailerEnds(hc: Decide, p: Parser)
    requires p.state.HeadersAlmostDone? && p.flags.trailing
    ensures TrailerOut(p, HeadersStep(hc, p))
  {
  }

  lemma TrailerPass(hc: Decide, p: Parser, ch: byte)
    requires HttpGrammar.HeaderPart(p.state) && p.flags.trailing
    ensures !Reads(p.state) && TrailerOut(p, Pass(hc, p, ch))
  {
    hide StartStep, MethodStep, StatusLineStep, UrlStep, RequestLineStep, ChunkStep, FieldStep, ValueStep, HeadersStep;
    hide TrailerOut;
    if p.state.HeadersAlmostDone? {
      TrailerEnds(hc, p);
    } else if p.state.HeaderFieldStart? || p.state.HeaderField? {
      FieldTrails(p, ch);
    } else if p.state.HeaderValueStart? {
      ValueStartTrails(p, ch);
    } else if p.state.HeaderValue? {
      InValueTrails(p, ch);
    } else {
      ValueEndTrails(p, ch);
    }
  }

  lemma TrailMore(early: seq<Event>, a: Act, c: Conf)
    requires TrailerAct(a) && Trails(early, c.out)
    ensures Trails(early, Perform(a, c).out)
  {
  }

  /** The trailer is over, and so is the message. */
  ghost predicate Over(early: seq<Event>, out: seq<Event>) {
    out != [] && out[|out| - 1] == Complete && Trails(early, out[..|out| - 1])
  }

  ghost predicate TrailerNow(early: seq<Event>, c: Conf, d: Conf) {
    && d.p.typ == c.p.typ
    && ((Trails(early, d.out) && HttpGrammar.HeaderPart(d.p.state) && d.p.flags.trailing)
        || (Over(early, d.out) && d.p.state == NewMessage(c.p)))
  }

  lemma {:induction false} TrailerSwitch(hc: Decide, early: seq<Event>, c: Conf, ch: byte)
    requires HttpGrammar.HeaderPart(c.p.state) && c.p.flags.trailing && Trails(early, c.out)
    ensures var (d, ctl) := Switch(hc, c, ch); ctl.Next? ==> TrailerNow(early, c, d)
    decreases Rank(c.p.state)
  {
    hide Pass, Trails, TrailerAct;
    TrailerPass(hc, c.p, ch);
    var o := Pass(hc, c.p, ch);
    if o.act == Notify(Complete) {
      assert (c.out + [Complete])[..|c.out|] == c.out;
    } else if !o.ctl.Fail? {
      TrailMore(early, o.act, c.(p := o.p));
      if o.ctl.Again? {
        TrailerSwitch(hc, early, Perform(o.act, c.(p := o.p)), ch);
      }
    }
  }

  lemma TrailerByte(hc: Decide, early: seq<Event>, c: Conf, ch: byte)
    requires HttpGrammar.HeaderPart(c.p.state) && c.p.flags.trailing && Trails(early, c.out)
    ensures var (d, ctl) := ByteStep(hc, c, ch); ctl.Next? ==> TrailerNow(early, c, d)
  {
    hide Switch, Trails, Over;
    TrailerSwitch(hc, early, c.(p := Count(c.p)), ch);
  }

  // ---- whole runs ----

  /** `data` is a whole message: chunks, the last one, and a trailer that ends it. */
  ghost predicate Whole(c: Conf, data: seq<byte>, at: Place, d: Conf) {
    && PlaceOk(at) && at.part.OfTrailer? && data == Written(at)
    && Over(c.out + Payloads(at.chunks), d.out) && d.p.state == NewMessage(c.p)
  }

  /** `data` is the beginning of one. */
  ghost predicate Partial(c: Conf, data: seq<byte>, at: Place, d: Conf) {
    Reached(c, at, d) && data == Written(at)
  }

  lemma TrailerStep(hc: Decide, c: Conf, at: Place, d: Conf, ch: byte)
    requires Reached(c, at, d) && at.part.OfTrailer? && ByteStep(hc, d, ch).1.Next?
    ensures var e, part := ByteStep(hc, d, ch).0, at.part.(trailer := at.part.trailer + [ch]);
      var to := Place(at.chunks, part);
      Step(c, at, ch, e, to) || Whole(c, Written(at) + [ch], to, e)
  {
    hide ByteStep, Trails, Over, Payloads, EncodeAll;
    var early := c.out + Payloads(at.chunks);
    var part := OfTrailer(at.part.size, at.part.ext, at.part.lf, at.part.trailer + [ch]);
    TrailerByte(hc, early, d, ch);
    assert Text(part) == Text(at.part) + [ch];
    assert EncodeAll(at.chunks) + Text(part) == Written(at) + [ch];
  }

  /** Where a run has got to: inside the message, or past its end. */
  ghost predicate Found(hc: Decide, c: Conf, data: seq<byte>) {
    || (exists at :: Partial(c, data, at, Run(hc, c, data).conf))
    || (exists n, at :: 0 <= n <= |data| && Whole(c, data[..n], at, Run(hc, c, data[..n]).conf))
  }

  lemma NextPlace(hc: Decide, c: Conf, data: seq<byte>, at: Place, d: Conf, ch: byte) returns (to: Place)
    requires Partial(c, data, at, d) && ByteStep(hc, d, ch).1.Next?
    ensures var e := ByteStep(hc, d, ch).0; Partial(c, data + [ch], to, e) || Whole(c, data + [ch], to, e)
  {
    hide ByteStep, Reached, Whole, Written;
    if at.part.OfEnd? {
      EndStep(hc, c, at, d, ch);
      to := Place(at.chunks + [ChunkOf(at.part, ch)], OfSize([]));
    } else if at.part.OfTrailer? {
      TrailerStep(hc, c, at, d, ch);
      to := Place(at.chunks, at.part.(trailer := at.part.trailer + [ch]));
    } else {
      assert PartOk(at.part) by { ReachedOk(c, at, d); }
      PartStep(hc, c, at, d, ch);
      to := Place(at.chunks, More(at.part, ch));
    }
  }

  lemma ReachedOk(c: Conf, at: Place, d: Conf)
    requires Reached(c, at, d)
    ensures PartOk(at.part)
  {
  }

  lemma AtStart(c: Conf)
    requires AtChunk(c)
    ensures Partial(c, [], Place([], OfSize([])), c)
  {
    assert c.out + [] == c.out;
  }

  /** Whatever follows the headers of a chunked message, an error-free run has read chunks. */
  lemma {:induction false} ChunksFound(hc: Decide, c: Conf, data: seq<byte>)
    requires AtChunk(c) && Run(hc, c, data).ctl.Next?
    ensures Found(hc, c, data)
    decreases data
  {
    hide ByteStep, Partial, Whole;
    if data == [] {
      AtStart(c);
    } else {
      var a, ch := data[..|data| - 1], data[|data| - 1];
      assert data == a + [ch];
      RunAppend(hc, c, a, [ch]);
      var d := Run(hc, c, a).conf;
      assert Run(hc, d, [ch]).ctl == ByteStep(hc, d, ch).1 by { assert [ch][1..] == []; }
      ChunksFound(hc, c, a);
      hide Run;
      if at :| Partial(c, a, at, d) {
        assert Run(hc, c, data).conf == ByteStep(hc, d, ch).0 by { OneByte(hc, d, ch); }
        var to := NextPlace(hc, c, a, at, d, ch);
        assert data[..|data|] == data;
      } else {
        var n, at :| 0 <= n <= |a| && Whole(c, a[..n], at, Run(hc, c, a[..n]).conf);
        assert data[..n] == a[..n];
      }
    }
  }

  // ---- from the end of the headers ----

  /** The headers are at their end, and say that the body comes in chunks. */
  predicate AtChunkedEnd(c: Conf) {
    && c.p.state.HeadersAlmostDone? && c.open.Closed? && c.p.nread < MAX_HEADER_SIZE && c.p.flags.chunked
    && !c.p.flags.trailing && !c.p.flags.upgrade && !c.p.flags.skipBody && !c.p.meth.CONNECT?
  }

  function FirstChunk(c: Conf): Conf {
    Conf(HeadersSeen(c).(nread := 0, state := ChunkSizeStart), Closed, c.out + [HeadersComplete])
  }

  lemma ChunkedSeen(hc: Decide, c: Conf, lf: byte)
    requires AtChunkedEnd(c) && hc(HeadersSeen(c)) == Proceed
    ensures Pass(hc, Count(c.p), lf) == Out(HeadersSeen(c), Notify(HeadersComplete), Again)
  {
    assert Count(c.p).(state := HeadersDone, upgrade := false) == HeadersSeen(c);
  }

  lemma ChunkedNext(hc: Decide, c: Conf, lf: byte)
    requires AtChunkedEnd(c)
    ensures Pass(hc, HeadersSeen(c), lf) == Go(HeadersSeen(c).(nread := 0), ChunkSizeStart)
  {
  }

  lemma ChunkedEnd(hc: Decide, c: Conf, lf: byte)
    requires AtChunkedEnd(c) && hc(HeadersSeen(c)) == Proceed
    ensures ByteStep(hc, c, lf) == (FirstChunk(c), Next) && AtChunk(FirstChunk(c))
  {
    hide Pass, ByteStep, HeadersSeen;
    ChunkedSeen(hc, c, lf);
    ChunkedNext(hc, c, lf);
    TwoPasses(hc, c, lf);
  }

  /** Whatever bytes follow the headers of a chunked message: a run without an error has made
      one body callback for each chunk, with its payload, and is inside the next chunk or in
      the trailer; or it has got to the end of the message, and then the callbacks before were
      the payloads, trailer fields and values, and nothing else. */
  lemma ChunkedMessage(hc: Decide, c: Conf, lf: byte, data: seq<byte>)
    requires AtChunkedEnd(c) && hc(HeadersSeen(c)) == Proceed && Run(hc, c, [lf] + data).ctl.Next?
    ensures
      || (exists at :: Partial(FirstChunk(c), data, at, Run(hc, c, [lf] + data).conf))
      || (exists n, at ::
            0 <= n <= |data| && Whole(FirstChunk(c), data[..n], at, Run(hc, c, [lf] + data[..n]).conf))
  {
    var b := FirstChunk(c);
    ChunkedEnd(hc, c, lf);
    hide ByteStep, Run, Partial, Whole, FirstChunk;
    StartsThere(hc, c, lf, b, data);
    ChunksFound(hc, b, data);
    if at :| Partial(b, data, at, Run(hc, b, data).conf) {
    } else {
      var n, at :| 0 <= n <= |data| && Whole(b, data[..n], at, Run(hc, b, data[..n]).conf);
      StartsThere(hc, c, lf, b, data[..n]);
    }
  }

  lemma StartsThere(hc: Decide, c: Conf, lf: byte, b: Conf, data: seq<byte>)
    requires ByteStep(hc, c, lf) == (b, Next)
    ensures Run(hc, c, [lf] + data).conf == Run(hc, b, data).conf && Run(hc, c, [lf] + data).ctl == Run(hc, b, data).ctl
  {
    hide ByteStep;
    assert ([lf] + data)[1..] == data;
  }

  // ---- conservation ----

  /** All that the body callbacks have had. */
  function BodyOf(out: seq<Event>): seq<byte> {
    if out == [] then []
    else
      var e := out[|out| - 1];
      BodyOf(out[..|out| - 1]) + if e.Data? && e.kind.Body? then e.bytes else []
  }

  function PayloadsOf(ks: seq<Chunk>): seq<byte> {
    if ks == [] then [] else ks[0].payload + PayloadsOf(ks[1..])
  }

  lemma BodyOfNext(a: seq<Event>, e: Event)
    ensures BodyOf(a + [e]) == BodyOf(a) + (if e.Data? && e.kind.Body? then e.bytes else [])
  {
    assert (a + [e])[..|a|] == a;
  }

  lemma {:induction false} BodyOfMore(a: seq<Event>, b: seq<Event>)
    ensures BodyOf(a + b) == BodyOf(a) + BodyOf(b)
    decreases b
  {
    hide BodyOf;
    if b == [] {
      NoBody();
      assert a + b == a;
    } else {
      var b', e := b[..|b| - 1], b[|b| - 1];
      BodyOfMore(a, b');
      BodyOfNext(a + b', e);
      BodyOfNext(b', e);
      assert b == b' + [e] && a + b == a + b' + [e];
    }
  }

  lemma NoBody()
    ensures BodyOf([]) == []
  {
  }

  lemma {:induction false} BodyOfPayloads(ks: seq<Chunk>)
    ensures BodyOf(Payloads(ks)) == PayloadsOf(ks)
    decreases ks
  {
    if ks != [] {
      var e := Data(Body, ks[0].payload);
      BodyOfPayloads(ks[1..]);
      BodyOfMore([e], Payloads(ks[1..]));
      BodyOfNext([], e);
      assert [] + [e] == [e];
    }
  }

  lemma {:induction false} TrailsNoBody(early: seq<Event>, out: seq<Event>)
    requires Trails(early, out)
    ensures BodyOf(out) == BodyOf(early)
    decreases out
  {
    if |out| == |early| {
      assert out == early;
    } else {
      assert early <= out[..|out| - 1];
      TrailsNoBody(early, out[..|out| - 1]);
    }
  }

  /** The body callbacks of a whole chunked message get the payloads of its chunks, in order,
      nothing more and nothing less. */
  lemma ChunksConserved(c: Conf, data: seq<byte>, at: Place, d: Conf)
    requires Whole(c, data, at, d)
    ensures BodyOf(d.out) == BodyOf(c.out) + PayloadsOf(at.chunks)
    ensures data == EncodeAll(at.chunks) + Text(at.part) && Stored(at.part.size) == 0
    ensures forall i :: 0 <= i < |at.chunks| ==> |at.chunks[i].payload| == Stored(at.chunks[i].size) > 0
  {
    hide EncodeAll, Text, Payloads, BodyOf, PayloadsOf, Stored;
    var early := c.out + Payloads(at.chunks);
    TrailsNoBody(early, d.out[..|d.out| - 1]);
    BodyOfMore(c.out, Payloads(at.chunks));
    BodyOfPayloads(at.chunks);
    BodyOfMore(d.out[..|d.out| - 1], [Complete]);
    assert d.out == d.out[..|d.out| - 1] + [Complete];
    assert BodyOf([Complete]) == [] by { NoBodyIn(Complete); }
  }

  lemma NoBodyIn(e: Event)
    requires !e.Data?
    ensures BodyOf([e]) == []
  {
    assert [e][..0] == [];
  }
}
