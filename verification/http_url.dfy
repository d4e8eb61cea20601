/** http_parser_parse_url: a URL cut into its parts. */
module HttpUrl {
  import opened HttpTypes
  import opened HttpStep
  import opened Options

  datatype Part = Scheme | HostName | PortNumber | PathName | QueryString | FragmentId

  /** A run of the buffer. */
  datatype Span = Span(off: nat, len: nat)

  const WORD := 0x1_0000

  // ---- the states along a URL ----

  /** How far along a URL a state is. */
  function Order(s: State): int {
    match s
    case SpacesBeforeUrl => 0
    case Schema => 1
    case SchemaSlash => 2
    case SchemaSlashSlash => 3
    case HostStart => 4
    case HostV6Start => 5
    case HostV6 => 6
    case Host => 6
    case HostV6End => 7
    case PortStart => 8
    case Port => 9
    case Path => 10
    case QueryStart => 11
    case Query => 12
    case FragmentStart => 13
    case Fragment => 14
    case _ => -1
  }

  /** The part a state belongs to; none for the delimiters. */
  function PartOf(s: State): Option<Part> {
    match s
    case Schema => Some(Scheme)
    case Host => Some(HostName)
    case HostV6 => Some(HostName)
    case Port => Some(PortNumber)
    case Path => Some(PathName)
    case Query => Some(QueryString)
    case Fragment => Some(FragmentId)
    case _ => None
  }

  function PartOrder(f: Part): int {
    match f
    case Scheme => 1
    case HostName => 6
    case PortNumber => 9
    case PathName => 10
    case QueryString => 12
    case FragmentId => 14
  }

  lemma PartByOrder(s: State, f: Part)
    requires InUrl(s)
    ensures PartOf(s) == Some(f) <==> Order(s) == PartOrder(f)
  {
  }

  /** parse_url_char never goes back. */
  lemma OrderRises(s: State, ch: byte)
    requires s.SpacesBeforeUrl? || InUrl(s)
    ensures var t := UrlChar(s, ch); t.Dead? || (InUrl(t) && Order(s) <= Order(t))
  {
  }

  function StartState(connect: bool): State {
    if connect then HostStart else SpacesBeforeUrl
  }

  /** The state after the first i bytes. */
  function StateAt(buf: seq<byte>, connect: bool, i: nat): State
    requires i <= |buf|
  {
    if i == 0 then StartState(connect) else UrlChar(StateAt(buf, connect, i - 1), buf[i - 1])
  }

  /** The part that byte k belongs to. */
  function PartAt(buf: seq<byte>, connect: bool, k: nat): Option<Part>
    requires k < |buf|
  {
    PartOf(StateAt(buf, connect, k + 1))
  }

  ghost predicate Alive(buf: seq<byte>, connect: bool, i: nat)
    requires i <= |buf|
  {
    forall k: nat :: k <= i ==> !StateAt(buf, connect, k).Dead?
  }

  lemma {:induction false} AliveUrl(buf: seq<byte>, connect: bool, i: nat)
    requires 0 < i <= |buf| && Alive(buf, connect, i)
    ensures InUrl(StateAt(buf, connect, i))
    ensures Order(StateAt(buf, connect, i - 1)) <= Order(StateAt(buf, connect, i))
  {
    if i > 1 {
      AliveUrl(buf, connect, i - 1);
    }
    OrderRises(StateAt(buf, connect, i - 1), buf[i - 1]);
  }

  lemma {:induction false} OrderBetween(buf: seq<byte>, connect: bool, j: nat, i: nat)
    requires j <= i <= |buf| && Alive(buf, connect, i)
    ensures Order(StateAt(buf, connect, j)) <= Order(StateAt(buf, connect, i))
    decreases i
  {
    if j < i {
      OrderBetween(buf, connect, j, i - 1);
      AliveUrl(buf, connect, i);
    }
  }

  function OrderAt(buf: seq<byte>, connect: bool, k: nat): int
    requires k < |buf|
  {
    Order(StateAt(buf, connect, k + 1))
  }

  lemma PartOrderAt(buf: seq<byte>, connect: bool, k: nat, i: nat, f: Part)
    requires k < i <= |buf| && Alive(buf, connect, i)
    ensures PartAt(buf, connect, k) == Some(f) <==> OrderAt(buf, connect, k) == PartOrder(f)
  {
    AliveUrl(buf, connect, k + 1);
    hide Order, PartOf, StateAt, InUrl;
    PartByOrder(StateAt(buf, connect, k + 1), f);
  }

  lemma OrderAtRises(buf: seq<byte>, connect: bool, j: nat, k: nat, i: nat)
    requires j <= k < i <= |buf| && Alive(buf, connect, i)
    ensures OrderAt(buf, connect, j) <= OrderAt(buf, connect, k)
  {
    hide Order, StateAt;
    OrderBetween(buf, connect, j + 1, k + 1);
  }

  /** The bytes of one part lie together. */
  lemma PartTogether(buf: seq<byte>, connect: bool, j: nat, k: nat, i: nat, f: Part)
    requires j <= k <= i < |buf| && Alive(buf, connect, i + 1)
    requires PartAt(buf, connect, j) == Some(f) && PartAt(buf, connect, i) == Some(f)
    ensures PartAt(buf, connect, k) == Some(f)
  {
    hide *;
    OrderAtRises(buf, connect, j, k, i + 1);
    OrderAtRises(buf, connect, k, i, i + 1);
    PartOrderAt(buf, connect, j, i + 1, f);
    PartOrderAt(buf, connect, k, i + 1, f);
    PartOrderAt(buf, connect, i, i + 1, f);
  }

  /** The parts come in order. */
  lemma PartsInOrder(buf: seq<byte>, connect: bool, j: nat, k: nat, i: nat, f: Part, g: Part)
    requires j < i && k < i && i <= |buf| && Alive(buf, connect, i)
    requires PartAt(buf, connect, j) == Some(f) && PartAt(buf, connect, k) == Some(g) && PartOrder(f) < PartOrder(g)
    ensures j < k
  {
    hide *;
    PartOrderAt(buf, connect, j, i, f);
    PartOrderAt(buf, connect, k, i, g);
    if k <= j {
      OrderAtRises(buf, connect, k, j, i);
    }
  }

  // ---- what the parts are ----

  /** `s` is exactly the bytes before position i that belong to part f, and there are some. */
  ghost predicate IsRun(buf: seq<byte>, connect: bool, i: nat, f: Part, s: Span) {
    && i <= |buf| && s.len > 0 && s.off + s.len <= i
    && forall k: nat :: k < i ==> (PartAt(buf, connect, k) == Some(f) <==> s.off <= k < s.off + s.len)
  }

  ghost predicate Absent(buf: seq<byte>, connect: bool, i: nat, f: Part) {
    i <= |buf| && forall k: nat :: k < i ==> PartAt(buf, connect, k) != Some(f)
  }

  /** The parts found in the first i bytes. */
  ghost predicate Cut(buf: seq<byte>, connect: bool, i: nat, runs: map<Part, Span>) {
    forall f: Part :: if f in runs then IsRun(buf, connect, i, f, runs[f]) else Absent(buf, connect, i, f)
  }

  lemma CutSkip(buf: seq<byte>, connect: bool, i: nat, runs: map<Part, Span>)
    requires i < |buf| && Cut(buf, connect, i, runs) && PartAt(buf, connect, i) == None
    ensures Cut(buf, connect, i + 1, runs)
  {
    forall f: Part ensures if f in runs then IsRun(buf, connect, i + 1, f, runs[f]) else Absent(buf, connect, i + 1, f) {
      assert if f in runs then IsRun(buf, connect, i, f, runs[f]) else Absent(buf, connect, i, f);
    }
  }

  lemma CutNew(buf: seq<byte>, connect: bool, i: nat, runs: map<Part, Span>, f: Part)
    requires i < |buf| && Cut(buf, connect, i, runs) && PartAt(buf, connect, i) == Some(f) && f !in runs
    ensures Cut(buf, connect, i + 1, runs[f := Span(i, 1)])
  {
    var next := runs[f := Span(i, 1)];
    assert Absent(buf, connect, i, f);
    forall g: Part ensures if g in next then IsRun(buf, connect, i + 1, g, next[g]) else Absent(buf, connect, i + 1, g) {
      assert if g in runs then IsRun(buf, connect, i, g, runs[g]) else Absent(buf, connect, i, g);
    }
  }

  lemma CutMore(buf: seq<byte>, connect: bool, i: nat, runs: map<Part, Span>, f: Part)
    requires i < |buf| && Cut(buf, connect, i, runs) && PartAt(buf, connect, i) == Some(f) && f in runs
    requires Alive(buf, connect, i + 1)
    ensures runs[f].off + runs[f].len == i
    ensures Cut(buf, connect, i + 1, runs[f := Span(runs[f].off, runs[f].len + 1)])
  {
    var s := runs[f];
    assert IsRun(buf, connect, i, f, s);
    if s.off + s.len < i {
      PartTogether(buf, connect, s.off, s.off + s.len, i, f);
    }
    var next := runs[f := Span(s.off, s.len + 1)];
    forall g: Part ensures if g in next then IsRun(buf, connect, i + 1, g, next[g]) else Absent(buf, connect, i + 1, g) {
      assert if g in runs then IsRun(buf, connect, i, g, runs[g]) else Absent(buf, connect, i, g);
    }
  }

  lemma Wraps(n: nat)
    ensures (n % WORD + 1) % WORD == (n + 1) % WORD
  {
  }

  /** Byte i starts part f, or is one more byte of it. */
  function Grown(runs: map<Part, Span>, f: Part, same: bool, i: nat): map<Part, Span>
    requires same ==> f in runs
  {
    runs[f := if same then Span(runs[f].off, runs[f].len + 1) else Span(i, 1)]
  }

  // ---- the port ----

  predicate IsSpace(ch: byte) {
    ch == SP || 9 <= ch <= 13
  }

  function PastSpace(buf: seq<byte>, from: nat): (k: nat)
    ensures from <= k && (from < |buf| && !IsSpace(buf[from]) ==> k == from)
    decreases |buf| - from
  {
    if from < |buf| && IsSpace(buf[from]) then PastSpace(buf, from + 1) else from
  }

  /** strtoul(buf + from, NULL, 10): white space and a sign are skipped, the value is bounded, and a
      minus sign negates it in 64 bits. */
  function StrToUl(buf: seq<byte>, from: nat): nat {
    var k := PastSpace(buf, from);
    var minus, plus := k < |buf| && Is(buf[k], '-'), k < |buf| && Is(buf[k], '+');
    var n := Number(buf, if minus || plus then k + 1 else k);
    if n >= TWO_64 then TWO_64 - 1 else if minus then (TWO_64 - n) % TWO_64 else n
  }

  /** The value of the digits from a position on. */
  function Number(buf: seq<byte>, from: nat): nat {
    NumberUpTo(buf, from, DigitsEnd(buf, from))
  }

  function DigitsEnd(buf: seq<byte>, from: nat): (e: nat)
    ensures from <= e && (from <= |buf| ==> e <= |buf|)
    ensures forall k: nat :: from <= k < e ==> k < |buf| && IsNum(buf[k])
    ensures e < |buf| ==> !IsNum(buf[e])
    decreases |buf| - from
  {
    if from < |buf| && IsNum(buf[from]) then DigitsEnd(buf, from + 1) else from
  }

  /** The decimal value of buf[from..end]. */
  function NumberUpTo(buf: seq<byte>, from: nat, end: nat): nat
    decreases end
  {
    if end <= from || end > |buf| then 0
    else NumberUpTo(buf, from, end - 1) * 10 + if IsNum(buf[end - 1]) then buf[end - 1] - '0' as int else 0
  }

  lemma PortIsDigit(s: State, ch: byte)
    ensures UrlChar(s, ch).Port? ==> IsNum(ch)
    ensures s.Port? && !UrlChar(s, ch).Port? ==> !IsNum(ch)
  {
  }

  /** The digits that strtoul reads are exactly the port's run. */
  lemma PortRun(buf: seq<byte>, connect: bool, s: Span)
    requires Alive(buf, connect, |buf|) && IsRun(buf, connect, |buf|, PortNumber, s)
    ensures DigitsEnd(buf, s.off) == s.off + s.len
  {
    forall k: nat | s.off <= k < s.off + s.len ensures IsNum(buf[k]) {
      AliveUrl(buf, connect, k + 1);
      assert PartAt(buf, connect, k) == Some(PortNumber);
      PortIsDigit(StateAt(buf, connect, k), buf[k]);
    }
    var e := s.off + s.len;
    if e < |buf| {
      assert PartAt(buf, connect, e - 1) == Some(PortNumber) && PartAt(buf, connect, e) != Some(PortNumber);
      AliveUrl(buf, connect, e);
      AliveUrl(buf, connect, e + 1);
      PortIsDigit(StateAt(buf, connect, e), buf[e]);
    }
  }

  // ---- http_parser_parse_url ----

  /** The states a URL must not end in. */
  predicate BadEnd(s: State) {
    s.HostV6Start? || s.HostV6? || s.HostV6End? || s.Host? || s.PortStart?
  }

  /** Offsets and lengths that fit 16 bits. */
  predicate Short(runs: map<Part, Span>) {
    forall f :: f in runs ==> runs[f].off < WORD && runs[f].len < WORD
  }

  /** As they are recorded. */
  function Recorded(s: Span): Span {
    Span(s.off % WORD, s.len % WORD)
  }

  lemma FieldsExactly(runs: map<Part, Span>)
    ensures (forall f :: f in runs ==> Recorded(runs[f]) == runs[f]) <==> Short(runs)
  {
    if f :| f in runs && !(runs[f].off < WORD && runs[f].len < WORD) {
      assert Recorded(runs[f]) != runs[f];
    }
  }

  /** In a buffer that fits 16 bits they are short. */
  lemma ShortRuns(buf: seq<byte>, connect: bool, runs: map<Part, Span>)
    requires Cut(buf, connect, |buf|, runs) && |buf| < WORD
    ensures Short(runs)
  {
    forall f | f in runs ensures runs[f].off < WORD && runs[f].len < WORD {
      assert IsRun(buf, connect, |buf|, f, runs[f]);
    }
  }

  /** What is taken for the port: the number at the recorded offset. */
  function PortRead(buf: seq<byte>, runs: map<Part, Span>): nat {
    if PortNumber in runs then StrToUl(buf, runs[PortNumber].off % WORD) else 0
  }

  /** The decimal value of the port's bytes; 0 when there is no port. */
  function PortValue(buf: seq<byte>, runs: map<Part, Span>): nat {
    if PortNumber in runs then NumberUpTo(buf, runs[PortNumber].off, runs[PortNumber].off + runs[PortNumber].len) else 0
  }

  /** The URLs that are accepted, of those whose bytes are all allowed where they stand, `port` being
      the number read for the port. */
  ghost predicate Acceptable(buf: seq<byte>, connect: bool, runs: map<Part, Span>, port: nat) {
    && (connect ==> runs.Keys == {HostName, PortNumber})
    && !BadEnd(StateAt(buf, connect, |buf|))
    && port <= 0xffff
  }

  /** With short parts it is the value of the port's bytes, or both are too large. */
  lemma ReadShort(buf: seq<byte>, connect: bool, runs: map<Part, Span>)
    requires Alive(buf, connect, |buf|) && Cut(buf, connect, |buf|, runs)
    ensures Short(runs) ==>
      var v, n := PortRead(buf, runs), PortValue(buf, runs); (v <= 0xffff || n <= 0xffff ==> v == n)
  {
    if PortNumber in runs {
      var s := runs[PortNumber];
      assert IsRun(buf, connect, |buf|, PortNumber, s);
      PortRun(buf, connect, s);
      PortFirst(buf, connect, s);
    }
  }

  lemma PortFirst(buf: seq<byte>, connect: bool, s: Span)
    requires Alive(buf, connect, |buf|) && IsRun(buf, connect, |buf|, PortNumber, s)
    ensures var n := Number(buf, s.off); StrToUl(buf, s.off) == if n >= TWO_64 then TWO_64 - 1 else n
  {
    PortRun(buf, connect, s);
    assert IsNum(buf[s.off]);
    hide NumberUpTo;
  }

  /** The parts found lie in the buffer one after the other: scheme, host, port, path, query,
      fragment, with no overlap. */
  lemma PartsApart(buf: seq<byte>, connect: bool, runs: map<Part, Span>, f: Part, g: Part)
    requires Alive(buf, connect, |buf|) && Cut(buf, connect, |buf|, runs)
    requires f in runs && g in runs && PartOrder(f) < PartOrder(g)
    ensures 0 < runs[f].len && 0 < runs[g].len && runs[g].off + runs[g].len <= |buf|
    ensures runs[f].off + runs[f].len <= runs[g].off
  {
    hide Alive, StateAt, PartAt, PartOrder;
    assert IsRun(buf, connect, |buf|, f, runs[f]) && IsRun(buf, connect, |buf|, g, runs[g]);
    var j, k := runs[f].off + runs[f].len - 1, runs[g].off;
    assert PartAt(buf, connect, j) == Some(f) && PartAt(buf, connect, k) == Some(g);
    PartsInOrder(buf, connect, j, k, |buf|, f, g);
  }

  /** A URL can be cut in one way only. */
  lemma CutUnique(buf: seq<byte>, connect: bool, a: map<Part, Span>, b: map<Part, Span>)
    requires Cut(buf, connect, |buf|, a) && Cut(buf, connect, |buf|, b)
    ensures a == b
  {
    hide PartAt;
    forall f: Part ensures f in a <==> f in b {
      SameRun(buf, connect, a, b, f);
    }
    forall f | f in a && f in b ensures a[f] == b[f] {
      SameRun(buf, connect, a, b, f);
    }
  }

  lemma SameRun(buf: seq<byte>, connect: bool, a: map<Part, Span>, b: map<Part, Span>, f: Part)
    requires Cut(buf, connect, |buf|, a) && Cut(buf, connect, |buf|, b)
    ensures f in a <==> f in b
    ensures f in a ==> a[f] == b[f]
  {
    hide PartAt;
    assert if f in a then IsRun(buf, connect, |buf|, f, a[f]) else Absent(buf, connect, |buf|, f);
    assert if f in b then IsRun(buf, connect, |buf|, f, b[f]) else Absent(buf, connect, |buf|, f);
    if f in a {
      assert PartAt(buf, connect, a[f].off) == Some(f) && PartAt(buf, connect, a[f].off + a[f].len - 1) == Some(f);
    }
    if f in b {
      assert PartAt(buf, connect, b[f].off) == Some(f) && PartAt(buf, connect, b[f].off + b[f].len - 1) == Some(f);
    }
  }

  /** No part comes after f so far. */
  ghost predicate Last(buf: seq<byte>, connect: bool, i: nat, runs: map<Part, Span>, f: Part) {
    forall g :: g in runs ==> PartOrder(g) <= PartOrder(f)
  }

  /** The loop's variables after i bytes. */
  ghost predicate Found(buf: seq<byte>, connect: bool, i: nat, runs: map<Part, Span>, last: Option<Part>) {
    && Cut(buf, connect, i, runs)
    && if last.None? then runs == map[] else last.value in runs && Last(buf, connect, i, runs, last.value)
  }

  lemma FoundCut(buf: seq<byte>, connect: bool, i: nat, runs: map<Part, Span>, last: Option<Part>)
    requires Found(buf, connect, i, runs, last)
    ensures Cut(buf, connect, i, runs)
  {
  }

  lemma ScanStart(buf: seq<byte>, connect: bool)
    ensures Found(buf, connect, 0, map[], None) && StartState(connect) == StateAt(buf, connect, 0) && Alive(buf, connect, 0)
  {
  }

  lemma AliveMore(buf: seq<byte>, connect: bool, i: nat)
    requires i < |buf| && Alive(buf, connect, i)
    ensures UrlChar(StateAt(buf, connect, i), buf[i]) == StateAt(buf, connect, i + 1)
    ensures Alive(buf, connect, i + 1) <==> !StateAt(buf, connect, i + 1).Dead?
    ensures StateAt(buf, connect, i + 1).Dead? ==> !Alive(buf, connect, |buf|)
  {
    hide UrlChar;
    assert UrlChar(StateAt(buf, connect, i), buf[i]) == StateAt(buf, connect, i + 1);
  }

  lemma FoundSkip(buf: seq<byte>, connect: bool, i: nat, runs: map<Part, Span>, last: Option<Part>)
    requires i < |buf| && Found(buf, connect, i, runs, last) && PartOf(StateAt(buf, connect, i + 1)) == None
    ensures Found(buf, connect, i + 1, runs, last)
  {
    hide Cut, PartOf, StateAt;
    CutSkip(buf, connect, i, runs);
  }

  lemma FoundMore(buf: seq<byte>, connect: bool, i: nat, runs: map<Part, Span>, last: Option<Part>, f: Part)
    requires i < |buf| && Found(buf, connect, i, runs, last) && PartOf(StateAt(buf, connect, i + 1)) == Some(f)
    requires Alive(buf, connect, i + 1)
    ensures last == Some(f) ==> f in runs
    ensures Found(buf, connect, i + 1, Grown(runs, f, last == Some(f), i), Some(f))
  {
    hide Cut, PartOf, StateAt, Last, Alive;
    if last == Some(f) {
      CutMore(buf, connect, i, runs, f);
    } else {
      LastNew(buf, connect, i, runs, last, f);
      CutNew(buf, connect, i, runs, f);
    }
    LastIs(buf, connect, i, Grown(runs, f, last == Some(f), i), f);
  }

  /** A part that is not the last one is new. */
  lemma LastNew(buf: seq<byte>, connect: bool, i: nat, runs: map<Part, Span>, last: Option<Part>, f: Part)
    requires i < |buf| && Alive(buf, connect, i + 1) && Cut(buf, connect, i, runs)
    requires PartAt(buf, connect, i) == Some(f) && last != Some(f)
    requires if last.None? then runs == map[] else last.value in runs && Last(buf, connect, i, runs, last.value)
    ensures f !in runs
  {
    hide PartAt, Alive, StateAt, PartOrder;
    if f in runs {
      var g := last.value;
      RunStart(buf, connect, i, runs, g);
      OrderDistinct(f, g);
      if PartOrder(f) < PartOrder(g) {
        PartsInOrder(buf, connect, i, runs[g].off, i + 1, f, g);
      }
    }
  }

  lemma RunStart(buf: seq<byte>, connect: bool, i: nat, runs: map<Part, Span>, f: Part)
    requires Cut(buf, connect, i, runs) && f in runs && i <= |buf|
    ensures runs[f].off < i && PartAt(buf, connect, runs[f].off) == Some(f)
  {
    hide PartAt;
    assert IsRun(buf, connect, i, f, runs[f]);
  }

  lemma OrderDistinct(f: Part, g: Part)
    ensures PartOrder(f) == PartOrder(g) ==> f == g
  {
  }

  /** The part of the byte just read is the last one. */
  lemma LastIs(buf: seq<byte>, connect: bool, i: nat, runs: map<Part, Span>, f: Part)
    requires i < |buf| && Alive(buf, connect, i + 1) && Cut(buf, connect, i + 1, runs) && PartAt(buf, connect, i) == Some(f)
    ensures Last(buf, connect, i + 1, runs, f)
  {
    hide PartAt, Alive, StateAt, PartOrder, Cut;
    forall g | g in runs ensures PartOrder(g) <= PartOrder(f) {
      RunStart(buf, connect, i + 1, runs, g);
      if PartOrder(f) < PartOrder(g) {
        PartsInOrder(buf, connect, i, runs[g].off, i + 1, f, g);
      }
    }
  }

  // ---- a part that is not short ----

  function Slashes(n: nat): (buf: seq<byte>)
    ensures |buf| == n && forall i :: 0 <= i < n ==> buf[i] == '/' as int
  {
    seq(n, _ => '/' as int)
  }

  lemma {:induction false} SlashesArePath(n: nat, i: nat)
    requires i <= n
    ensures StateAt(Slashes(n), false, i) == if i == 0 then SpacesBeforeUrl else Path
    decreases i
  {
    if i > 0 {
      SlashesArePath(n, i - 1);
    }
  }

  /** An input: 2^16 slashes are accepted, and recorded as a path of no bytes. */
  lemma LongPath()
    ensures var buf, runs := Slashes(WORD), map[PathName := Span(0, WORD)];
      && Alive(buf, false, |buf|) && Cut(buf, false, |buf|, runs) && Acceptable(buf, false, runs, PortRead(buf, runs))
      && !Short(runs) && Recorded(runs[PathName]) == Span(0, 0)
  {
    var buf, runs := Slashes(WORD), map[PathName := Span(0, WORD)];
    forall i: nat | i <= WORD ensures StateAt(buf, false, i) == if i == 0 then SpacesBeforeUrl else Path {
      SlashesArePath(WORD, i);
    }
    hide StateAt;
    forall k: nat | k < |buf| ensures PartAt(buf, false, k) == Some(PathName) {
      assert StateAt(buf, false, k + 1) == Path;
    }
    assert IsRun(buf, false, |buf|, PathName, runs[PathName]);
    assert forall f: Part :: f != PathName ==> f !in runs && Absent(buf, false, |buf|, f);
    assert StateAt(buf, false, |buf|) == Path;
  }
}
