/** The one form in which inet_ntop6 of libuv/src/inet.c prints an address (section 4 of RFC 5952, and
    section 5 for dotted decimal). */
module Inet6Canonical {
  import opened Inet4
  import opened Inet6Text
  import opened Inet6Grammar

  /** Lower-case digits, and no leading zero. */
  predicate Plain(g: string) {
    g != "" && (forall i :: 0 <= i < |g| ==> '0' <= g[i] <= '9' || 'a' <= g[i] <= 'f') && (|g| > 1 ==> g[0] != '0')
  }

  predicate AllPlain(gs: seq<string>) {
    forall i :: 0 <= i < |gs| ==> Plain(gs[i])
  }

  /** An IPv4 address behind six words of zeros, or behind five and ffff. */
  predicate Embeds(ws: seq<word>)
    requires |ws| == 8
  {
    (forall i :: 0 <= i < 5 ==> ws[i] == 0) && ((ws[5] == 0 && ws[6] != 0) || ws[5] == 0xffff)
  }

  /** The run of words that the :: of an address stands for. */
  function GapOf(a: Address): Span
    requires AddressOk(a)
  {
    if a.gap then Span(|a.before|, (16 - Size(a)) / 2) else Span(-1, 0)
  }

  /** Plain groups; a :: for the leftmost longest run of at least two zero words, and only there; dotted
      decimal for exactly the embedded IPv4 addresses. */
  ghost predicate Canonical(a: Address, ws: seq<word>)
    requires |ws| == 8
  {
    && AddressOk(a) && AddressBytes(a) == Bytes(ws)
    && AllPlain(a.before) && AllPlain(a.after) && Compressed(ws, GapOf(a)) && (a.quad != [] <==> Embeds(ws))
  }

  lemma {:induction false} NumeralPlain(v: nat)
    ensures Plain(Numeral(v, 16)) && (v > 0 ==> Numeral(v, 16)[0] != '0')
    decreases v
  {
    DigitPlain(v % 16);
    if v >= 16 {
      NumeralPlain(v / 16);
    }
  }

  lemma DigitPlain(d: nat)
    requires d < 16
    ensures '0' <= DIGITS[d] <= '9' || 'a' <= DIGITS[d] <= 'f'
    ensures d > 0 ==> DIGITS[d] != '0'
  {
  }

  lemma {:induction false} HexesPlain(ws: seq<word>)
    ensures AllPlain(Hexes(ws))
    decreases ws
  {
    hide Plain;
    if ws != [] {
      NumeralPlain(ws[0]);
      HexesPlain(ws[1..]);
      assert forall i :: 0 < i < |ws| ==> Hexes(ws)[i] == Hexes(ws[1..])[i - 1];
    }
  }

  lemma RunIs(ws: seq<word>, b: int, n: nat)
    ensures ZeroRun(ws, b, n) <==> 0 <= b && b + n <= |ws| && forall i :: b <= i < b + n ==> ws[i] == 0
  {
  }

  /** Which addresses are printed in dotted decimal. */
  lemma DottedExactly(ws: seq<word>)
    requires |ws| == 8 && Compressed(ws, Best(ws))
    ensures Best(ws).base != -1 && DottedTail(ws, Best(ws)) <==> Embeds(ws)
  {
    hide Best;
    var s := Best(ws);
    if Embeds(ws) {
      assert ZeroRun(ws, 0, if ws[5] == 0 then 6 else 5);
      assert s.base != -1;
    }
    assert (forall i :: 0 <= i < 7 ==> ws[i] == 0) ==> ZeroRun(ws, 0, 7);
  }

  lemma PrintedSpan(ws: seq<word>)
    requires |ws| == 8 && Compressed(ws, Best(ws)) && -1 <= Best(ws).base && AddressOk(Written(ws))
    ensures Best(ws).base == -1 ==> GapOf(Written(ws)) == Span(-1, 0)
    ensures Best(ws).base != -1 ==> GapOf(Written(ws)) == Best(ws)
  {
    hide Best;
    if Best(ws).base != -1 {
      SpanInside(ws, Best(ws));
      RunIs(ws, Best(ws).base, Best(ws).len);
    }
  }

  /** What inet_ntop6 prints is the canonical form of the address. */
  lemma PrintsCanonical(ws: seq<word>)
    requires |ws| == 8
    ensures exists a :: Canonical(a, ws) && AddressText(a) == Text6(ws)
  {
    var a := Written(ws);
    BestCompressed(ws);
    WrittenMeans(ws);
    DottedExactly(ws);
    PrintedSpan(ws);
    hide Best, Text6, Bytes, ZeroRun, DottedTail, Plain, Embeds, AllPlain;
    var s := Best(ws);
    assert Compressed(ws, GapOf(a));
    assert AllPlain(a.before) && AllPlain(a.after) && (a.quad != [] <==> s.base != -1 && DottedTail(ws, s)) by {
      PiecesPlain(ws);
    }
    assert Canonical(a, ws);
  }

  lemma PiecesPlain(ws: seq<word>)
    requires |ws| == 8 && Compressed(ws, Best(ws)) && -1 <= Best(ws).base
    ensures AllPlain(Written(ws).before) && AllPlain(Written(ws).after)
    ensures Written(ws).quad != [] <==> Best(ws).base != -1 && DottedTail(ws, Best(ws))
  {
    hide Best, Plain;
    var s := Best(ws);
    HexesPlain(ws);
    NumeralPlain(ws[5]);
    if s.base != -1 {
      SpanInside(ws, s);
      RunIs(ws, s.base, s.len);
      HexesPlain(ws[..s.base]);
      HexesPlain(ws[s.base + s.len..]);
    }
  }

  // ---- and it is the only one ----

  lemma LowerDigit(ch: char)
    requires '0' <= ch <= '9' || 'a' <= ch <= 'f'
    ensures IsXDigit(ch) && DIGITS[XValue(ch)] == ch && (XValue(ch) == 0 <==> ch == '0')
  {
  }

  lemma WorthMore(h: string, ch: char)
    requires XDigits(h + [ch])
    ensures XDigits(h) && IsXDigit(ch) && Worth(h + [ch]) == Worth(h) * 16 + XValue(ch) && (h == "" ==> Worth(h) == 0)
  {
    assert (h + [ch])[..|h|] == h && (h + [ch])[|h|] == ch;
    assert forall i :: 0 <= i < |h| ==> (h + [ch])[i] == h[i];
  }

  lemma PlainInit(h: string, ch: char)
    requires Plain(h + [ch])
    ensures '0' <= ch <= '9' || 'a' <= ch <= 'f'
    ensures h != "" ==> Plain(h) && h != "0"
  {
    assert (h + [ch])[|h|] == ch;
    assert forall i :: 0 <= i < |h| ==> (h + [ch])[i] == h[i];
  }

  lemma {:induction false} PlainHex(g: string)
    requires Plain(g) && XDigits(g)
    ensures Numeral(Worth(g), 16) == g && (Worth(g) == 0 <==> g == "0")
    decreases |g|
  {
    hide DIGITS, XValue, IsXDigit, Numeral, Worth, Plain, XDigits;
    PlainSome(g);
    var h, ch := g[..|g| - 1], g[|g| - 1];
    assert g == h + [ch];
    PlainInit(h, ch);
    WorthMore(h, ch);
    LowerDigit(ch);
    if h != "" {
      PlainHex(h);
    }
    NumeralMore(Worth(h), XValue(ch), h, ch);
  }

  lemma PlainSome(g: string)
    requires Plain(g)
    ensures g != ""
  {
  }

  lemma NumeralMore(n: nat, d: nat, h: string, ch: char)
    requires d < 16 && DIGITS[d] == ch && (if h == "" then n == 0 else n > 0 && Numeral(n, 16) == h)
    ensures Numeral(n * 16 + d, 16) == h + [ch]
  {
    hide DIGITS;
    assert (n * 16 + d) / 16 == n && (n * 16 + d) % 16 == d;
  }

  lemma {:induction false} GroupsHexes(gs: seq<string>)
    requires Groups(gs) && AllPlain(gs)
    ensures gs == Hexes(Values(gs))
    decreases gs
  {
    hide Plain, Worth;
    if gs != [] {
      assert Plain(gs[0]) && Group(gs[0]);
      PlainHex(gs[0]);
      GroupsHexes(gs[1..]);
      assert gs == [gs[0]] + gs[1..];
    }
  }

  lemma {:induction false} BytesUnique(x: seq<word>, y: seq<word>)
    requires Bytes(x) == Bytes(y)
    ensures x == y
    decreases |x|
  {
    assert |x| == |y|;
    if x != [] {
      assert Bytes(x)[0] == Bytes(y)[0] && Bytes(x)[1] == Bytes(y)[1];
      assert x[0] == x[0] / 256 * 256 + x[0] % 256 && y[0] == y[0] / 256 * 256 + y[0] % 256;
      assert Bytes(x)[2..] == Bytes(x[1..]) && Bytes(y)[2..] == Bytes(y[1..]);
      BytesUnique(x[1..], y[1..]);
      assert x == [x[0]] + x[1..] && y == [y[0]] + y[1..];
    }
  }

  lemma Ends(x: seq<byte>, y: seq<byte>)
    ensures (x + y)[..|x|] == x && (x + y)[|x|..] == y
  {
  }

  /** The bytes of the first i words, and of the others. */
  lemma BytesSplit(ws: seq<word>, i: nat)
    requires i <= |ws|
    ensures |Bytes(ws)| == 2 * |ws| && Bytes(ws)[..2 * i] == Bytes(ws[..i]) && Bytes(ws)[2 * i..] == Bytes(ws[i..])
  {
    hide Bytes;
    assert ws == ws[..i] + ws[i..];
    BytesJoin(ws[..i], ws[i..]);
    Ends(Bytes(ws[..i]), Bytes(ws[i..]));
  }

  /** The groups are the words. */
  lemma GroupsAre(gs: seq<string>, ws: seq<word>)
    requires Groups(gs) && AllPlain(gs) && Bytes(Values(gs)) == Bytes(ws)
    ensures gs == Hexes(ws)
  {
    hide Plain, Groups, AllPlain, Values, Bytes;
    BytesUnique(Values(gs), ws);
    GroupsHexes(gs);
  }

  lemma OneRun(ws: seq<word>, s: Span, t: Span)
    requires Compressed(ws, s) && Compressed(ws, t) && -1 <= s.base && -1 <= t.base
    ensures s.base == t.base && (s.base != -1 ==> s == t)
  {
    if s.base != -1 {
      assert ZeroRun(ws, s.base, s.len);
    }
    if t.base != -1 {
      assert ZeroRun(ws, t.base, t.len);
    }
  }

  /** Where the pieces of an address are in its bytes. */
  lemma PiecesAt(a: Address, all: seq<byte>)
    requires AddressOk(a) && AddressBytes(a) == all
    ensures |all| == 16
    ensures all[..2 * |a.before|] == Bytes(Values(a.before))
    ensures all[16 - |a.quad| - 2 * |a.after|..16 - |a.quad|] == Bytes(Values(a.after))
    ensures all[16 - |a.quad|..] == a.quad
  {
    hide Bytes, Values, Groups;
    var x, z, y := Bytes(Values(a.before)), seq(16 - Size(a), _ => 0 as byte), Bytes(Values(a.after));
    assert all == x + z + y + a.quad;
    assert |x| == 2 * |a.before| && |y| == 2 * |a.after|;
  }

  lemma CanonicalBefore(a: Address, ws: seq<word>)
    requires |ws| == 8 && Canonical(a, ws)
    ensures |a.before| <= 8 && a.before == Hexes(ws[..|a.before|])
  {
    hide Bytes, Values, AllPlain, Compressed, Embeds, Groups, AddressBytes, Hexes;
    PiecesAt(a, Bytes(ws));
    SizeSmall(a);
    BytesSplit(ws, |a.before|);
    GroupsAre(a.before, ws[..|a.before|]);
  }

  lemma CanonicalAfter(a: Address, ws: seq<word>)
    requires |ws| == 8 && Canonical(a, ws) && a.quad == []
    ensures |a.after| <= 8 && a.after == Hexes(ws[8 - |a.after|..])
  {
    hide Bytes, Values, AllPlain, Compressed, Embeds, Groups, AddressBytes, Hexes;
    PiecesAt(a, Bytes(ws));
    SizeSmall(a);
    BytesSplit(ws, 8 - |a.after|);
    assert Bytes(ws)[16 - 2 * |a.after|..16] == Bytes(ws)[16 - 2 * |a.after|..];
    GroupsAre(a.after, ws[8 - |a.after|..]);
  }

  lemma CanonicalQuad(a: Address, ws: seq<word>)
    requires |ws| == 8 && Canonical(a, ws) && a.quad != []
    ensures |a.after| <= 6 && a.after == Hexes(ws[..6][6 - |a.after|..]) && a.quad == Bytes(ws[6..])
  {
    hide Bytes, Values, AllPlain, Compressed, Embeds, Groups, AddressBytes, Hexes;
    PiecesAt(a, Bytes(ws));
    SizeSmall(a);
    BytesSplit(ws, 6);
    BytesSplit(ws[..6], 6 - |a.after|);
    assert Bytes(ws)[12 - 2 * |a.after|..12] == Bytes(ws)[..12][12 - 2 * |a.after|..];
    GroupsAre(a.after, ws[..6][6 - |a.after|..]);
  }

  lemma CanonicalPieces(a: Address, ws: seq<word>)
    requires |ws| == 8 && Canonical(a, ws)
    ensures |a.before| <= 8 && a.before == Hexes(ws[..|a.before|])
    ensures a.quad == [] ==> |a.after| <= 8 && a.after == Hexes(ws[8 - |a.after|..])
    ensures a.quad != [] ==> |a.after| <= 6 && a.after == Hexes(ws[..6][6 - |a.after|..]) && a.quad == Bytes(ws[6..])
  {
    hide Canonical, Bytes, Hexes;
    CanonicalBefore(a, ws);
    if a.quad == [] {
      CanonicalAfter(a, ws);
    } else {
      CanonicalQuad(a, ws);
    }
  }

  lemma SizeSmall(a: Address)
    requires AddressOk(a)
    ensures |a.quad| == (if a.quad == [] then 0 else 4) && 2 * |a.before| + 2 * |a.after| + |a.quad| <= 16
  {
  }

  lemma HexesOne(w: word)
    ensures Hexes([w]) == [Hex(w)] && Hexes([]) == []
  {
  }

  lemma CanonicalSpan(a: Address, ws: seq<word>)
    requires |ws| == 8 && Canonical(a, ws)
    ensures var s := Best(ws);
      && (a.gap <==> s.base != -1) && -1 <= s.base
      && (a.gap ==> |a.before| == s.base && 2 * s.len == 16 - Size(a))
      && (a.quad != [] <==> a.gap && DottedTail(ws, s))
  {
    hide Best, Bytes, AllPlain, AddressBytes;
    BestCompressed(ws);
    DottedExactly(ws);
    OneRun(ws, GapOf(a), Best(ws));
    hide Compressed, Embeds, DottedTail;
    SizeSmall(a);
  }

  /** A canonical address is the one that is printed. */
  lemma CanonicalUnique(a: Address, ws: seq<word>)
    requires |ws| == 8 && Canonical(a, ws)
    ensures a == Written(ws)
  {
    hide Best, Bytes, Hexes, Hex, Compressed, AllPlain, Embeds, Groups, AddressBytes;
    CanonicalSpan(a, ws);
    CanonicalPieces(a, ws);
    SizeSmall(a);
    HexesOne(ws[5]);
    if !a.gap {
      assert ws[0..] == ws;
    } else if a.quad != [] {
      assert ws[..6][5..] == [ws[5]] && ws[..6][6..] == [] && ws[..0] == [];
    }
  }

  /** A text is the printed one exactly if it is that of a canonical address. */
  lemma PrintedExactly(ws: seq<word>, t: string)
    requires |ws| == 8
    ensures t == Text6(ws) <==> exists a :: Canonical(a, ws) && AddressText(a) == t
  {
    hide Text6, Written, AddressOk, AddressBytes, AllPlain, Embeds, Compressed, GapOf;
    PrintsCanonical(ws);
    if a :| Canonical(a, ws) && AddressText(a) == t {
      CanonicalUnique(a, ws);
      WrittenMeans(ws);
    }
  }
}
