/** The text form of an IPv6 address (section 2.2 of RFC 4291, sections 4.2.2 and 4.2.3 of
    RFC 5952) and the reading of it, as inet_ntop6 and inet_pton6 of libuv/src/inet.c do it. */
module Inet6Text {
  import opened Inet4
  import opened Options

  type word = x: int | 0 <= x < 0x1_0000

  function Bytes(ws: seq<word>): (b: seq<byte>)
    ensures |b| == 2 * |ws|
  {
    if ws == [] then [] else [ws[0] / 256, ws[0] % 256] + Bytes(ws[1..])
  }

  lemma {:induction false} BytesJoin(a: seq<word>, b: seq<word>)
    ensures Bytes(a + b) == Bytes(a) + Bytes(b)
    decreases a
  {
    if a == [] {
      assert a + b == b;
    } else {
      assert (a + b)[1..] == a[1..] + b;
      BytesJoin(a[1..], b);
      assert Bytes(a + b) == [a[0] / 256, a[0] % 256] + (Bytes(a[1..]) + Bytes(b));
    }
  }

  // ---- the run of zeros that :: stands for ----

  /** A run of words; none when base is -1. */
  datatype Span = Span(base: int, len: nat)

  predicate ZeroRun(ws: seq<word>, b: int, n: nat) {
    0 <= b && b + n <= |ws| && forall i :: b <= i < b + n ==> ws[i] == 0
  }

  /** The scan of inet_ntop6 after i words: the best run finished and the run going on. */
  function Scanned(ws: seq<word>, i: nat): (Span, Span)
    requires i <= |ws|
  {
    if i == 0 then (Span(-1, 0), Span(-1, 0))
    else
      var (best, cur) := Scanned(ws, i - 1);
      if ws[i - 1] == 0 then (best, if cur.base == -1 then Span(i - 1, 1) else Span(cur.base, cur.len + 1))
      else (Better(best, cur), Span(-1, cur.len))
  }

  function Better(best: Span, cur: Span): Span {
    if cur.base != -1 && (best.base == -1 || cur.len > best.len) then cur else best
  }

  function Best(ws: seq<word>): Span {
    var (best, cur) := Scanned(ws, |ws|);
    var b := Better(best, cur);
    if b.base != -1 && b.len < 2 then Span(-1, b.len) else b
  }

  /** The leftmost of the longest runs among those that end at or before `upto`. */
  ghost predicate Leads(ws: seq<word>, upto: int, s: Span) {
    && (s.base != -1 ==> ZeroRun(ws, s.base, s.len) && s.len > 0 && s.base + s.len <= upto)
    && forall b: int, n: nat :: n > 0 && b + n <= upto && ZeroRun(ws, b, n) ==>
         s.base != -1 && (n < s.len || (n == s.len && s.base <= b))
  }

  /** The going-on run is the maximal one that ends at i. */
  ghost predicate Going(ws: seq<word>, i: nat, s: Span) {
    if s.base == -1 then i == 0 || (i <= |ws| && ws[i - 1] != 0)
    else ZeroRun(ws, s.base, s.len) && s.len > 0 && s.base + s.len == i && (s.base > 0 ==> ws[s.base - 1] != 0)
  }

  ghost predicate ScanOk(ws: seq<word>, i: nat)
    requires i <= |ws|
  {
    var (best, cur) := Scanned(ws, i);
    Going(ws, i, cur) && Leads(ws, if cur.base == -1 then i else cur.base, best) && -1 <= best.base && -1 <= cur.base
  }

  /** Taking in the run that ends at i. */
  lemma TakeRun(ws: seq<word>, i: nat, best: Span, cur: Span)
    requires i <= |ws| && cur.base != -1 && Going(ws, i, cur) && Leads(ws, cur.base, best)
    ensures Leads(ws, i, Better(best, cur))
  {
    forall b: int, n: nat | n > 0 && b + n <= i && ZeroRun(ws, b, n)
      ensures var s := Better(best, cur); s.base != -1 && (n < s.len || (n == s.len && s.base <= b))
    {
      assert cur.base > 0 ==> ws[cur.base - 1] != 0;
    }
  }

  lemma {:induction false} ScanKeeps(ws: seq<word>, i: nat)
    requires i <= |ws|
    ensures ScanOk(ws, i)
    decreases i
  {
    if i > 0 {
      ScanKeeps(ws, i - 1);
      var (best, cur) := Scanned(ws, i - 1);
      if ws[i - 1] != 0 {
        if cur.base != -1 {
          TakeRun(ws, i - 1, best, cur);
        }
        LeadsOn(ws, i, Better(best, cur));
      }
    }
  }

  /** A word that is not zero adds no run. */
  lemma LeadsOn(ws: seq<word>, i: nat, s: Span)
    requires 0 < i <= |ws| && ws[i - 1] != 0 && Leads(ws, i - 1, s)
    ensures Leads(ws, i, s)
  {
  }

  /** :: stands for the leftmost longest run of at least two zero words, and for nothing when
      there is none. */
  ghost predicate Compressed(ws: seq<word>, s: Span) {
    if s.base == -1 then forall b: int, n: nat :: ZeroRun(ws, b, n) ==> n < 2
    else
      && ZeroRun(ws, s.base, s.len) && s.len >= 2
      && forall b: int, n: nat :: ZeroRun(ws, b, n) ==> n < s.len || (n == s.len && s.base <= b)
  }

  lemma BestCompressed(ws: seq<word>)
    ensures Compressed(ws, Best(ws)) && -1 <= Best(ws).base
  {
    ScanKeeps(ws, |ws|);
    var (best, cur) := Scanned(ws, |ws|);
    if cur.base != -1 {
      TakeRun(ws, |ws|, best, cur);
    }
    assert Leads(ws, |ws|, Better(best, cur));
  }

  // ---- the text ----

  function Hex(w: word): string {
    Numeral(w, 16)
  }

  function Join(ws: seq<word>): string {
    if ws == [] then "" else if |ws| == 1 then Hex(ws[0]) else Hex(ws[0]) + ":" + Join(ws[1..])
  }

  /** The addresses whose last four bytes are printed in dotted decimal. */
  predicate DottedTail(ws: seq<word>, s: Span)
    requires |ws| == 8
  {
    s.base == 0 && (s.len == 6 || (s.len == 5 && ws[5] == 0xffff))
  }

  /** What follows the :: . */
  function Tail(ws: seq<word>, s: Span): string
    requires |ws| == 8 && 0 <= s.base && s.base + s.len <= 8
  {
    if !DottedTail(ws, s) then Join(ws[s.base + s.len..])
    else (if s.len == 5 then Hex(ws[5]) + ":" else "") + Text(Bytes(ws[6..]))
  }

  function Text6(ws: seq<word>): string
    requires |ws| == 8
  {
    var s := Best(ws);
    if s.base < 0 || s.base + s.len > 8 then Join(ws) else Join(ws[..s.base]) + "::" + Tail(ws, s)
  }

  lemma HexShort(w: word)
    ensures 1 <= |Hex(w)| <= 4
  {
    if w >= 16 {
      if w / 16 >= 16 {
        if w / 256 >= 16 {
          assert w / 16 / 16 == w / 256 && w / 256 / 16 < 16;
          assert |Numeral(w / 16 / 16 / 16, 16)| == 1;
          assert |Numeral(w / 16 / 16, 16)| == 2;
        }
        assert |Numeral(w / 16, 16)| <= 3;
      }
    }
  }

  lemma {:induction false} JoinShort(ws: seq<word>)
    ensures |Join(ws)| <= 5 * |ws| && (ws != [] ==> |Join(ws)| < 5 * |ws|)
  {
    if ws != [] {
      HexShort(ws[0]);
      JoinShort(ws[1..]);
    }
  }

  /** The text and its terminating zero fit the buffer of 46 bytes. */
  lemma Text6Fits(ws: seq<word>)
    requires |ws| == 8
    ensures |Text6(ws)| <= 39
  {
    BestCompressed(ws);
    var s := Best(ws);
    JoinShort(ws);
    if s.base != -1 {
      JoinShort(ws[..s.base]);
      JoinShort(ws[s.base + s.len..]);
      HexShort(ws[5]);
      TextFits(Bytes(ws[6..]));
    }
  }

  // ---- reading ----

  predicate IsXDigit(ch: char) {
    IsDigit(ch) || 'a' <= ch <= 'f' || 'A' <= ch <= 'F'
  }

  function XValue(ch: char): (v: nat)
    requires IsXDigit(ch)
    ensures v < 16
  {
    if IsDigit(ch) then (ch - '0') as nat else if ch >= 'a' then (ch - 'a') as nat + 10 else (ch - 'A') as nat + 10
  }

  /** The variables of inet_pton6: the bytes written, where :: was seen (-1 for nowhere), the
      number being read with its digits, and the text from its start on. */
  datatype Reader = Reader(out: seq<byte>, colon: int, val: nat, seen: nat, token: string)

  function Flush(r: Reader): seq<byte> {
    r.out + [r.val / 256 % 256, r.val % 256]
  }

  function Scan6(r: Reader, s: string): Option<Reader>
    decreases |s|
  {
    if s == "" then Some(r)
    else
      var ch, more := s[0], s[1..];
      if IsXDigit(ch) then
        if r.seen == 4 then None
        else Scan6(r.(val := r.val * 16 + XValue(ch), seen := r.seen + 1), more)
      else if ch == ':' then
        if r.seen == 0 then
          if r.colon != -1 then None else Scan6(r.(colon := |r.out|, token := more), more)
        else if more == "" then None
        else if |r.out| + 2 > 16 then None
        else Scan6(Reader(Flush(r), r.colon, 0, 0, more), more)
      else if ch == '.' && |r.out| + 4 <= 16 then
        match Parse(r.token)
        case None => None
        case Some(b) => Some(r.(out := r.out + b, seen := 0))
      else None
  }

  /** The zeros that :: stands for are put in. */
  function Finish6(r: Reader): Option<seq<byte>> {
    if r.seen > 0 && |r.out| + 2 > 16 then None
    else
      var out := if r.seen > 0 then Flush(r) else r.out;
      if 0 <= r.colon <= |out| then
        if |out| >= 16 then None
        else Some(out[..r.colon] + seq(16 - |out|, _ => 0) + out[r.colon..])
      else if |out| == 16 then Some(out) else None
  }

  function Parse6(s: string): Option<seq<byte>> {
    if s != "" && s[0] == ':' && (|s| < 2 || s[1] != ':') then None
    else
      var t := if s != "" && s[0] == ':' then s[1..] else s;
      match Scan6(Reader([], -1, 0, 0, t), t)
      case None => None
      case Some(r) => Finish6(r)
  }

  lemma XDigit(d: nat)
    requires d < 16
    ensures IsXDigit(DIGITS[d]) && XValue(DIGITS[d]) == d
  {
  }

  lemma JoinFirst(ws: seq<word>)
    requires |ws| > 1
    ensures Join(ws) == Hex(ws[0]) + ":" + Join(ws[1..]) && Join(ws[1..]) != ""
  {
    HexShort(ws[1]);
  }
}
