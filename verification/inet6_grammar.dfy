/** The texts that inet_pton6 of libuv/src/inet.c accepts, and what each of them means
    (section 2.2 of RFC 4291). */
module Inet6Grammar {
  import opened Inet4
  import opened Inet6Text
  import opened Options

  // ---- the grammar ----

  predicate XDigits(g: string) {
    forall i :: 0 <= i < |g| ==> IsXDigit(g[i])
  }

  /** One to four hexadecimal digits, in either case, leading zeros included. */
  predicate Group(g: string) {
    1 <= |g| <= 4 && XDigits(g)
  }

  predicate Groups(gs: seq<string>) {
    forall i :: 0 <= i < |gs| ==> Group(gs[i])
  }

  function Worth(g: string): (v: nat)
    requires XDigits(g)
    ensures (|g| <= 1 ==> v < 16) && (|g| <= 2 ==> v < 256) && (|g| <= 3 ==> v < 4096) && (|g| <= 4 ==> v < 65536)
  {
    if g == "" then 0 else Worth(g[..|g| - 1]) * 16 + XValue(g[|g| - 1])
  }

  function Values(gs: seq<string>): (ws: seq<word>)
    requires Groups(gs)
    ensures |ws| == |gs|
  {
    if gs == [] then [] else [Worth(gs[0])] + Values(gs[1..])
  }

  /** An address as it is written: groups, perhaps a :: with groups before it and after it, and
      perhaps dotted decimal for the last four bytes. */
  datatype Address = Address(before: seq<string>, gap: bool, after: seq<string>, quad: seq<byte>)

  /** With colons between; no quad when it is empty. */
  function Chain(gs: seq<string>, quad: seq<byte>): string
    requires quad == [] || |quad| == 4
  {
    if gs == [] then if quad == [] then "" else Text(quad)
    else if |gs| == 1 && quad == [] then gs[0]
    else gs[0] + ":" + Chain(gs[1..], quad)
  }

  function Size(a: Address): nat {
    2 * |a.before| + 2 * |a.after| + |a.quad|
  }

  /** Sixteen bytes, or fewer and a :: for the zeros that are missing. */
  predicate AddressOk(a: Address) {
    && Groups(a.before) && Groups(a.after) && (a.quad == [] || |a.quad| == 4)
    && if a.gap then Size(a) < 16 else a.before == [] && Size(a) == 16
  }

  function AddressText(a: Address): string
    requires AddressOk(a)
  {
    (if a.gap then Chain(a.before, []) + "::" else "") + Chain(a.after, a.quad)
  }

  function AddressBytes(a: Address): (b: seq<byte>)
    requires AddressOk(a)
    ensures |b| == 16
  {
    Bytes(Values(a.before)) + seq(16 - Size(a), _ => 0) + Bytes(Values(a.after)) + a.quad
  }

  // ---- one group ----

  lemma XDigitsBefore(g: string)
    requires g != "" && XDigits(g)
    ensures XDigits(g[..|g| - 1]) && IsXDigit(g[|g| - 1]) && g == g[..|g| - 1] + [g[|g| - 1]]
  {
  }

  lemma ScanDigit(r: Reader, ch: char, rest: string)
    requires IsXDigit(ch)
    ensures Scan6(r, [ch] + rest) ==
      if r.seen == 4 then None else Scan6(r.(val := r.val * 16 + XValue(ch), seen := r.seen + 1), rest)
  {
    hide IsXDigit, XValue, Parse, Flush;
    var t := [ch] + rest;
    assert t[0] == ch && t[1..] == rest;
  }

  /** The digits of a group are read as its value. */
  lemma {:induction false} ScanDigits(r: Reader, g: string, rest: string)
    requires r.val == 0 && r.seen == 0 && XDigits(g) && |g| <= 4
    ensures Scan6(r, g + rest) == Scan6(r.(val := Worth(g), seen := |g|), rest)
    decreases |g|
  {
    hide Scan6, IsXDigit, XValue;
    if g == "" {
      assert g + rest == rest;
    } else {
      XDigitsBefore(g);
      var a, ch := g[..|g| - 1], g[|g| - 1];
      assert g + rest == a + ([ch] + rest);
      ScanDigits(r, a, [ch] + rest);
      ScanDigit(r.(val := Worth(a), seen := |a|), ch, rest);
    }
  }

  lemma TooLong(r: Reader, g: string, rest: string)
    requires r.val == 0 && r.seen == 0 && XDigits(g) && |g| > 4
    ensures Scan6(r, g + rest).None?
  {
    hide Scan6;
    var b := g[5..] + rest;
    assert g + rest == g[..4] + ([g[4]] + b);
    ScanDigits(r, g[..4], [g[4]] + b);
    ScanDigit(r.(val := Worth(g[..4]), seen := 4), g[4], b);
  }

  /** The hexadecimal digits that a text begins with. */
  function Leading(t: string): (g: string)
    ensures |g| <= |t| && t[..|g|] == g && XDigits(g) && (|g| < |t| ==> !IsXDigit(t[|g|]))
  {
    if t == "" || !IsXDigit(t[0]) then "" else [t[0]] + Leading(t[1..])
  }

  function GroupBytes(g: string): (b: seq<byte>)
    requires Group(g)
    ensures |b| == 2
  {
    Bytes([Worth(g)])
  }

  lemma FlushesGroup(r: Reader, g: string)
    requires Group(g) && r.val == Worth(g)
    ensures Flush(r) == r.out + GroupBytes(g)
  {
    assert Bytes([Worth(g)]) == [Worth(g) / 256, Worth(g) % 256];
  }

  function Start(out: seq<byte>, colon: int, t: string): Reader {
    Reader(out, colon, 0, 0, t)
  }

  /** A group and its colon. */
  lemma ScanGroup(out: seq<byte>, colon: int, g: string, more: string, t: string)
    requires Group(g) && t == g + ":" + more
    ensures Scan6(Start(out, colon, t), t) ==
      if more == "" || |out| + 2 > 16 then None else Scan6(Start(out + GroupBytes(g), colon, more), more)
  {
    var r := Start(out, colon, t).(val := Worth(g), seen := |g|);
    assert t == g + (":" + more);
    ScanDigits(Start(out, colon, t), g, ":" + more);
    FlushesGroup(r, g);
    assert (":" + more)[1..] == more;
    hide Worth, GroupBytes;
  }

  /** The second colon of the :: . */
  lemma ScanGap(out: seq<byte>, colon: int, more: string, t: string)
    requires t == ":" + more
    ensures Scan6(Start(out, colon, t), t) == if colon != -1 then None else Scan6(Start(out, |out|, more), more)
  {
    assert t[1..] == more;
  }

  /** Reading `t` from there makes `all` of the bytes, a last group included, and leaves the :: at
      `gap`. */
  ghost predicate Reads(out: seq<byte>, colon: int, t: string, gap: int, all: seq<byte>) {
    var r := Scan6(Start(out, colon, t), t);
    r.Some? && r.value.colon == gap && (r.value.seen > 0 ==> |r.value.out| + 2 <= 16)
    && (if r.value.seen > 0 then Flush(r.value) else r.value.out) == all
  }

  lemma SameReads(out: seq<byte>, colon: int, t: string, out': seq<byte>, colon': int, t': string, gap: int, all: seq<byte>)
    requires Scan6(Start(out, colon, t), t) == Scan6(Start(out', colon', t'), t')
    ensures Reads(out, colon, t, gap, all) <==> Reads(out', colon', t', gap, all)
  {
    hide Scan6;
  }

  /** A group at the end of the text. */
  lemma LastGroup(out: seq<byte>, colon: int, g: string, gap: int, all: seq<byte>)
    requires Group(g)
    ensures Reads(out, colon, g, gap, all) <==> gap == colon && |out| + 2 <= 16 && all == out + GroupBytes(g)
  {
    var r := Start(out, colon, g).(val := Worth(g), seen := |g|);
    assert g == g + "";
    ScanDigits(Start(out, colon, g), g, "");
    FlushesGroup(r, g);
    hide Worth, GroupBytes;
  }

  lemma Nothing(out: seq<byte>, colon: int, gap: int, all: seq<byte>)
    ensures Reads(out, colon, "", gap, all) <==> gap == colon && all == out
  {
  }

  /** A dot after the digits: the text from the last colon on goes to inet_pton4 as a whole. */
  lemma Quad(out: seq<byte>, colon: int, g: string, more: string, t: string, gap: int, all: seq<byte>)
    requires XDigits(g) && |g| <= 4 && t == g + "." + more
    ensures Reads(out, colon, t, gap, all) <==>
      gap == colon && |out| + 4 <= 16 && Parse(t).Some? && all == out + Parse(t).value
  {
    assert t == g + ("." + more);
    ScanDigits(Start(out, colon, t), g, "." + more);
    hide Worth, Parse;
  }

  // ---- whatever is accepted is in the grammar ----

  lemma NotRead(out: seq<byte>, colon: int, g: string, rest: string, t: string)
    requires XDigits(g) && t == g + rest
    requires |g| > 4 || (rest != "" && !IsXDigit(rest[0]) && rest[0] != ':' && rest[0] != '.')
    ensures Scan6(Start(out, colon, t), t).None?
  {
    hide Worth;
    if |g| > 4 {
      TooLong(Start(out, colon, t), g, rest);
    } else {
      ScanDigits(Start(out, colon, t), g, rest);
    }
  }

  /** What has been read of `t`: a chain to its end, or groups up to a :: . */
  ghost predicate Read(out: seq<byte>, colon: int, t: string, gap: int, all: seq<byte>,
                       gs: seq<string>, quad: seq<byte>, split: bool, rest: string) {
    && Groups(gs) && (quad == [] || |quad| == 4)
    && if !split then t == Chain(gs, quad) && gap == colon && all == out + Bytes(Values(gs)) + quad
       else colon == -1 && quad == [] && t == Heads(gs) + ":" + rest
            && Reads(out + Bytes(Values(gs)), |out| + 2 * |gs|, rest, gap, all)
  }

  /** Groups with a colon after each. */
  function Heads(gs: seq<string>): string {
    if gs == [] then "" else gs[0] + ":" + Heads(gs[1..])
  }

  lemma ReadMore(out: seq<byte>, colon: int, g: string, more: string, t: string, gap: int, all: seq<byte>,
                 gs: seq<string>, quad: seq<byte>, split: bool, rest: string)
    requires Group(g) && t == g + ":" + more && more != ""
    requires Read(out + GroupBytes(g), colon, more, gap, all, gs, quad, split, rest)
    ensures Read(out, colon, t, gap, all, [g] + gs, quad, split, rest)
  {
    hide Reads, Bytes, Worth;
    var hs := [g] + gs;
    assert hs[0] == g && hs[1..] == gs;
    BytesJoin([Worth(g)], Values(gs));
    assert out + GroupBytes(g) + Bytes(Values(gs)) == out + Bytes(Values(hs));
    if split {
      assert t == Heads(hs) + ":" + rest;
    }
  }

  lemma ReadOne(out: seq<byte>, colon: int, g: string, all: seq<byte>)
    requires Group(g) && all == out + GroupBytes(g)
    ensures Read(out, colon, g, colon, all, [g], [], false, "")
  {
    assert [g][1..] == [] && Values([g]) == [Worth(g)];
    assert all == out + Bytes(Values([g])) + [];
  }

  lemma ReadNone(out: seq<byte>, colon: int)
    ensures Read(out, colon, "", colon, out, [], [], false, "")
  {
    assert Bytes(Values([])) == [];
  }

  lemma ReadQuad(out: seq<byte>, colon: int, t: string, b: seq<byte>)
    requires Parse(t) == Some(b)
    ensures Read(out, colon, t, colon, out + b, [], b, false, "")
  {
    ParseExact(t, b);
    assert Bytes(Values([])) == [];
    assert out + [] + b == out + b;
  }

  lemma ReadGap(out: seq<byte>, t: string, gap: int, all: seq<byte>, rest: string)
    requires t == ":" + rest && Reads(out, |out|, rest, gap, all)
    ensures Read(out, -1, t, gap, all, [], [], true, rest)
  {
    hide Reads;
    assert Bytes(Values([])) == [] && out + [] == out;
    assert Heads([]) + ":" + rest == ":" + rest;
  }

  lemma NoRead(out: seq<byte>, colon: int, t: string, gap: int, all: seq<byte>)
    requires Reads(out, colon, t, gap, all)
    ensures Scan6(Start(out, colon, t), t).Some?
  {
    hide Scan6;
  }

  /** What can follow the digits. */
  lemma AfterDigits(out: seq<byte>, colon: int, t: string, gap: int, all: seq<byte>, g: string, rest: string)
    requires XDigits(g) && t == g + rest && (rest != "" ==> !IsXDigit(rest[0])) && Reads(out, colon, t, gap, all)
    ensures |g| <= 4 && (rest == "" || rest[0] == ':' || rest[0] == '.')
  {
    hide Scan6;
    if |g| > 4 || (rest != "" && rest[0] != ':' && rest[0] != '.') {
      NotRead(out, colon, g, rest, t);
    }
  }

  lemma {:induction false} Sound(out: seq<byte>, colon: int, t: string, gap: int, all: seq<byte>)
    returns (gs: seq<string>, quad: seq<byte>, split: bool, rest: string)
    requires Reads(out, colon, t, gap, all)
    ensures Read(out, colon, t, gap, all, gs, quad, split, rest)
    decreases |t|
  {
    hide Scan6, Reads, Read, Parse, GroupBytes;
    var g := Leading(t);
    var after := t[|g|..];
    assert t == g + after;
    gs, quad, split, rest := [], [], false, "";
    AfterDigits(out, colon, t, gap, all, g, after);
    if after == "" {
      assert t == g;
      if g == "" {
        Nothing(out, colon, gap, all);
        ReadNone(out, colon);
      } else {
        LastGroup(out, colon, g, gap, all);
        ReadOne(out, colon, g, all);
        gs := [g];
      }
    } else if after[0] == '.' {
      assert t == g + "." + after[1..];
      Quad(out, colon, g, after[1..], t, gap, all);
      quad := Parse(t).value;
      ReadQuad(out, colon, t, quad);
    } else if g == "" {
      rest := after[1..];
      assert t == ":" + rest;
      ScanGap(out, colon, rest, t);
      NoRead(out, colon, t, gap, all);
      SameReads(out, colon, t, out, |out|, rest, gap, all);
      ReadGap(out, t, gap, all, rest);
      split := true;
    } else {
      var more := after[1..];
      assert t == g + ":" + more;
      ScanGroup(out, colon, g, more, t);
      NoRead(out, colon, t, gap, all);
      SameReads(out, colon, t, out + GroupBytes(g), colon, more, gap, all);
      gs, quad, split, rest := Sound(out + GroupBytes(g), colon, more, gap, all);
      ReadMore(out, colon, g, more, t, gap, all, gs, quad, split, rest);
      gs := [g] + gs;
    }
  }

  // ---- and whatever is in the grammar is accepted ----

  lemma ChainMore(g: string, gs: seq<string>, quad: seq<byte>)
    requires Group(g) && Groups(gs) && (quad == [] || |quad| == 4) && (gs != [] || quad != [])
    ensures Chain([g] + gs, quad) == g + ":" + Chain(gs, quad) && Chain(gs, quad) != ""
    ensures Groups([g] + gs) && Bytes(Values([g] + gs)) == GroupBytes(g) + Bytes(Values(gs))
  {
    var hs := [g] + gs;
    assert hs[0] == g && hs[1..] == gs;
    BytesJoin([Worth(g)], Values(gs));
    if gs == [] {
      TextFits(quad);
    }
    hide Bytes, Worth, Text;
  }

  /** A chain is read to its end. */
  lemma {:induction false} Complete(out: seq<byte>, colon: int, gs: seq<string>, quad: seq<byte>)
    requires Groups(gs) && (quad == [] || |quad| == 4) && |out| + 2 * |gs| + |quad| <= 16
    ensures Reads(out, colon, Chain(gs, quad), colon, out + Bytes(Values(gs)) + quad)
    decreases gs
  {
    hide Scan6, Reads, Worth, Bytes, Text;
    if gs == [] {
      NoValues();
      assert out + [] + quad == out + quad;
      if quad == [] {
        Nothing(out, colon, colon, out);
        assert out + quad == out;
      } else {
        ReadsText(out, colon, quad);
      }
    } else if |gs| == 1 && quad == [] {
      OneValue(gs[0]);
      assert gs == [gs[0]];
      assert out + Bytes(Values(gs)) + quad == out + GroupBytes(gs[0]);
      LastGroup(out, colon, gs[0], colon, out + GroupBytes(gs[0]));
    } else {
      var g, hs := gs[0], gs[1..];
      assert gs == [g] + hs;
      ChainMore(g, hs, quad);
      hide Chain, Values, GroupBytes;
      ScanGroup(out, colon, g, Chain(hs, quad), Chain(gs, quad));
      Complete(out + GroupBytes(g), colon, hs, quad);
      assert out + GroupBytes(g) + Bytes(Values(hs)) + quad == out + Bytes(Values(gs)) + quad;
      SameReads(out, colon, Chain(gs, quad), out + GroupBytes(g), colon, Chain(hs, quad), colon, out + Bytes(Values(gs)) + quad);
    }
  }

  lemma NoValues()
    ensures Bytes(Values([])) == []
  {
  }

  lemma OneValue(g: string)
    requires Group(g)
    ensures Groups([g]) && Bytes(Values([g])) == GroupBytes(g)
  {
    assert [g][1..] == [];
    hide Bytes, Worth;
  }

  lemma ReadsText(out: seq<byte>, colon: int, a: seq<byte>)
    requires |a| == 4 && |out| + 4 <= 16
    ensures Reads(out, colon, Text(a), colon, out + a)
  {
    var more := Octet(a[1]) + "." + Octet(a[2]) + "." + Octet(a[3]);
    assert Text(a) == Octet(a[0]) + "." + more;
    OctetShort(a[0]);
    ParseText(a);
    hide Reads, Parse, Octet, Text;
    Quad(out, colon, Octet(a[0]), more, Text(a), colon, out + a);
  }

  /** Groups with a colon after each, and a second colon. */
  lemma {:induction false} ToGap(out: seq<byte>, gs: seq<string>, rest: string)
    requires Groups(gs) && |out| + 2 * |gs| <= 16
    ensures var t, b := Heads(gs) + ":" + rest, out + Bytes(Values(gs));
      Scan6(Start(out, -1, t), t) == Scan6(Start(b, |b|, rest), rest)
    decreases gs
  {
    hide Scan6, Worth, Bytes;
    var t := Heads(gs) + ":" + rest;
    if gs == [] {
      NoValues();
      assert out + [] == out && t == ":" + rest;
      ScanGap(out, -1, rest, t);
    } else {
      var g, hs := gs[0], gs[1..];
      assert gs == [g] + hs;
      BytesJoin([Worth(g)], Values(hs));
      var u := Heads(hs) + ":" + rest;
      assert t == g + ":" + u;
      ScanGroup(out, -1, g, u, t);
      ToGap(out + GroupBytes(g), hs, rest);
      assert out + GroupBytes(g) + Bytes(Values(hs)) == out + Bytes(Values(gs));
    }
  }

  // ---- the whole text ----

  lemma {:induction false} HeadsChain(gs: seq<string>)
    requires gs != [] && Groups(gs)
    ensures Heads(gs) == Chain(gs, []) + ":" && Chain(gs, []) != "" && IsXDigit(Chain(gs, [])[0])
    decreases gs
  {
    if |gs| == 1 {
      assert gs[1..] == [];
    } else {
      HeadsChain(gs[1..]);
    }
  }

  /** What the end of inet_pton6 makes of the bytes that have been read. */
  function Finished(gap: int, all: seq<byte>): Option<seq<byte>> {
    if 0 <= gap <= |all| then
      if |all| >= 16 then None else Some(all[..gap] + seq(16 - |all|, _ => 0) + all[gap..])
    else if |all| == 16 then Some(all) else None
  }

  /** The text from which the reading starts. */
  function Body(s: string): string {
    if s != "" && s[0] == ':' then s[1..] else s
  }

  predicate GoodStart(s: string) {
    s != "" && s[0] == ':' ==> |s| >= 2 && s[1] == ':'
  }

  lemma ParseReads(s: string, gap: int, all: seq<byte>)
    requires Reads([], -1, Body(s), gap, all)
    ensures Parse6(s) == if GoodStart(s) then Finished(gap, all) else None
  {
    hide Scan6;
  }

  lemma ReadsParse(s: string) returns (gap: int, all: seq<byte>)
    requires Parse6(s).Some?
    ensures GoodStart(s) && Reads([], -1, Body(s), gap, all) && Parse6(s) == Finished(gap, all)
  {
    hide Scan6;
    var r := Scan6(Start([], -1, Body(s)), Body(s)).value;
    gap, all := r.colon, if r.seen > 0 then Flush(r) else r.out;
  }

  lemma FinishedGap(a: Address)
    requires AddressOk(a) && a.gap
    ensures var b, c := Bytes(Values(a.before)), Bytes(Values(a.after)) + a.quad;
      Finished(|b|, b + c) == Some(AddressBytes(a))
  {
    var b, c := Bytes(Values(a.before)), Bytes(Values(a.after)) + a.quad;
    assert (b + c)[..|b|] == b && (b + c)[|b|..] == c;
    hide Bytes, Values;
    assert AddressBytes(a) == b + seq(16 - |b + c|, _ => 0) + c;
  }

  lemma GapText(a: Address)
    requires AddressOk(a) && a.gap
    ensures var s := AddressText(a);
      GoodStart(s) && Body(s) == Heads(a.before) + ":" + Chain(a.after, a.quad)
  {
    hide Chain;
    if a.before == [] {
      assert Chain([], []) == "" by { EmptyChain(); }
      assert AddressText(a) == "::" + Chain(a.after, a.quad);
    } else {
      HeadsChain(a.before);
      assert AddressText(a) == Chain(a.before, []) + ":" + ":" + Chain(a.after, a.quad);
    }
  }

  lemma EmptyChain()
    ensures Chain([], []) == ""
  {
  }

  lemma AcceptGap(a: Address)
    requires AddressOk(a) && a.gap
    ensures Parse6(AddressText(a)) == Some(AddressBytes(a))
  {
    hide Scan6, Reads, Chain, Bytes, Values, AddressText, AddressBytes, Finished, Parse6;
    var s, rest, b := AddressText(a), Chain(a.after, a.quad), Bytes(Values(a.before));
    GapText(a);
    ToGap([], a.before, rest);
    assert [] + b == b;
    Complete(b, |b|, a.after, a.quad);
    var all := b + Bytes(Values(a.after)) + a.quad;
    SameReads([], -1, Body(s), b, |b|, rest, |b|, all);
    ParseReads(s, |b|, all);
    FinishedGap(a);
    assert all == b + (Bytes(Values(a.after)) + a.quad);
  }

  lemma AcceptWhole(a: Address)
    requires AddressOk(a) && !a.gap
    ensures Parse6(AddressText(a)) == Some(AddressBytes(a))
  {
    hide Scan6, Reads, Bytes, Parse6;
    var s := AddressText(a);
    assert s == Chain(a.after, a.quad);
    ChainHead(a.after, a.quad);
    hide Chain;
    Complete([], -1, a.after, a.quad);
    NoValues();
    var all := [] + Bytes(Values(a.after)) + a.quad;
    ParseReads(s, -1, all);
    assert AddressBytes(a) == all;
  }

  lemma ChainHead(gs: seq<string>, quad: seq<byte>)
    requires gs != [] && Groups(gs) && (quad == [] || |quad| == 4)
    ensures Chain(gs, quad) != "" && Chain(gs, quad)[0] != ':'
  {
    assert Group(gs[0]);
  }

  lemma Accept(a: Address)
    requires AddressOk(a)
    ensures Parse6(AddressText(a)) == Some(AddressBytes(a))
  {
    if a.gap {
      AcceptGap(a);
    } else {
      AcceptWhole(a);
    }
  }

  lemma GapTextBack(s: string, gs: seq<string>, rest: string)
    requires GoodStart(s) && Groups(gs) && Body(s) == Heads(gs) + ":" + rest
    ensures s == Chain(gs, []) + "::" + rest
  {
    if gs == [] {
      assert Body(s) == ":" + rest;
      assert s == [s[0]] + s[1..];
      EmptyChain();
    } else {
      HeadsChain(gs);
      hide Chain;
      assert Body(s)[0] == Chain(gs, [])[0];
      assert Body(s) == Chain(gs, []) + "::" + rest;
    }
  }

  lemma WholeBack(s: string, gs: seq<string>, quad: seq<byte>)
    requires GoodStart(s) && gs != [] && Groups(gs) && (quad == [] || |quad| == 4) && Body(s) == Chain(gs, quad)
    ensures s == Chain(gs, quad)
  {
    ChainHead(gs, quad);
  }

  lemma Accepted(s: string) returns (a: Address)
    requires Parse6(s).Some?
    ensures AddressOk(a) && AddressText(a) == s
  {
    hide Scan6, Parse6, Chain, Bytes, Values, Heads, Body, GoodStart, Reads;
    var gap, all := ReadsParse(s);
    var gs, quad, split, rest := Sound([], -1, Body(s), gap, all);
    if !split {
      a := Address([], false, gs, quad);
      assert |all| == 2 * |gs| + |quad|;
      WholeBack(s, gs, quad);
    } else {
      var b := [] + Bytes(Values(gs));
      var hs, q, split', rest' := Sound(b, 2 * |gs|, rest, gap, all);
      a := Address(gs, true, hs, q);
      assert |all| == 2 * |gs| + 2 * |hs| + |q|;
      GapTextBack(s, gs, rest);
    }
  }

  /** The language of inet_pton6 and its meaning: a text is accepted exactly when it is eight
      groups of one to four hexadecimal digits, or fewer with one :: for the zeros that are
      missing, the last two groups in dotted decimal or not; and then the address is those
      groups, the zeros where the :: is, and the dotted bytes. */
  lemma ParseMeans(s: string, b: seq<byte>)
    ensures Parse6(s) == Some(b) <==> exists a :: AddressOk(a) && AddressText(a) == s && AddressBytes(a) == b
  {
    hide Parse6, AddressText, AddressBytes, AddressOk;
    if Parse6(s).Some? {
      var a := Accepted(s);
      Accept(a);
    }
    if a :| AddressOk(a) && AddressText(a) == s && AddressBytes(a) == b {
      Accept(a);
    }
  }

  // ---- what inet_ntop6 prints ----

  lemma {:induction false} WorthNumeral(v: nat)
    ensures XDigits(Numeral(v, 16)) && Worth(Numeral(v, 16)) == v
    decreases v
  {
    var d := DIGITS[v % 16];
    XDigit(v % 16);
    if v < 16 {
      assert Numeral(v, 16)[..0] == "";
    } else {
      WorthNumeral(v / 16);
      assert Numeral(v, 16)[..|Numeral(v / 16, 16)|] == Numeral(v / 16, 16);
    }
  }

  lemma HexGroup(w: word)
    ensures Group(Hex(w)) && Worth(Hex(w)) == w
  {
    HexShort(w);
    WorthNumeral(w);
  }

  function Hexes(ws: seq<word>): (gs: seq<string>)
    ensures |gs| == |ws|
  {
    if ws == [] then [] else [Hex(ws[0])] + Hexes(ws[1..])
  }

  lemma {:induction false} HexesMean(ws: seq<word>)
    ensures Groups(Hexes(ws)) && Values(Hexes(ws)) == ws && Chain(Hexes(ws), []) == Join(ws)
    decreases ws
  {
    hide Hex, Worth, Group;
    if ws != [] {
      HexGroup(ws[0]);
      HexesMean(ws[1..]);
      var gs := Hexes(ws);
      assert gs[0] == Hex(ws[0]) && gs[1..] == Hexes(ws[1..]);
    }
  }

  lemma {:induction false} ZeroBytes(ws: seq<word>)
    requires forall i :: 0 <= i < |ws| ==> ws[i] == 0
    ensures Bytes(ws) == seq(2 * |ws|, _ => 0)
  {
    if ws != [] {
      ZeroBytes(ws[1..]);
    }
  }

  /** An address is its bytes before the ::, the zeros, and the bytes after it. */
  lemma Reassemble(ws: seq<word>, b: nat, n: nat)
    requires |ws| == 8 && ZeroRun(ws, b, n)
    ensures Bytes(ws[..b]) + seq(2 * n, _ => 0) + Bytes(ws[b + n..]) == Bytes(ws)
  {
    hide Bytes;
    var mid := ws[b..b + n];
    ZeroBytes(mid);
    BytesJoin(ws[..b], mid);
    BytesJoin(ws[..b] + mid, ws[b + n..]);
    assert ws == ws[..b] + mid + ws[b + n..];
  }

  /** The address as inet_ntop6 writes it. */
  function Written(ws: seq<word>): Address
    requires |ws| == 8
  {
    var s := Best(ws);
    if s.base < 0 || s.base + s.len > 8 then Address([], false, Hexes(ws), [])
    else if DottedTail(ws, s) then
      Address([], true, if s.len == 5 then [Hex(ws[5])] else [], Bytes(ws[6..]))
    else Address(Hexes(ws[..s.base]), true, Hexes(ws[s.base + s.len..]), [])
  }

  lemma WrittenWhole(ws: seq<word>)
    requires |ws| == 8 && Best(ws).base == -1
    ensures var a := Written(ws); AddressOk(a) && AddressText(a) == Text6(ws) && AddressBytes(a) == Bytes(ws)
  {
    hide Best, Bytes, Chain, Values;
    HexesMean(ws);
    NoValues();
    assert AddressBytes(Written(ws)) == Bytes(ws);
  }

  lemma WrittenGap(ws: seq<word>)
    requires |ws| == 8 && 0 <= Best(ws).base && Compressed(ws, Best(ws)) && !DottedTail(ws, Best(ws))
    ensures var a := Written(ws); AddressOk(a) && AddressText(a) == Text6(ws) && AddressBytes(a) == Bytes(ws)
  {
    hide Best, Bytes, Chain, Values, Compressed, DottedTail, Hexes, Join, ZeroRun, Groups;
    var s := Best(ws);
    SpanInside(ws, s);
    assert 0 <= s.base && s.base + s.len <= 8 by { RunInside(ws, s.base, s.len); }
    var b, c := ws[..s.base], ws[s.base + s.len..];
    HexesMean(b);
    HexesMean(c);
    GapBytes(Hexes(b), Hexes(c), s.len);
    Reassemble(ws, s.base, s.len);
  }

  lemma RunInside(ws: seq<word>, b: int, n: nat)
    requires ZeroRun(ws, b, n)
    ensures 0 <= b && b + n <= |ws|
  {
  }

  lemma GapBytes(before: seq<string>, after: seq<string>, n: nat)
    requires Groups(before) && Groups(after) && |before| + n + |after| == 8 && n > 0
    ensures AddressBytes(Address(before, true, after, [])) ==
      Bytes(Values(before)) + seq(2 * n, _ => 0) + Bytes(Values(after))
  {
    hide Bytes, Values, Groups;
  }

  lemma SpanInside(ws: seq<word>, s: Span)
    requires Compressed(ws, s) && s.base != -1
    ensures ZeroRun(ws, s.base, s.len) && s.len >= 2
  {
  }

  lemma ChainQuad(quad: seq<byte>)
    requires |quad| == 4
    ensures Chain([], quad) == Text(quad)
  {
  }

  lemma ChainMapped(g: string, quad: seq<byte>)
    requires |quad| == 4
    ensures Chain([g], quad) == g + ":" + Text(quad)
  {
    hide Text;
    assert [g][1..] == [];
    ChainQuad(quad);
  }

  /** Six words of zeros, and dotted decimal. */
  lemma WrittenQuad(ws: seq<word>)
    requires |ws| == 8 && Best(ws) == Span(0, 6) && ZeroRun(ws, 0, 6)
    ensures var a := Written(ws); AddressOk(a) && AddressText(a) == Text6(ws) && AddressBytes(a) == Bytes(ws)
  {
    hide Best, Bytes, Values, Chain, Text, Join;
    var quad := Bytes(ws[6..]);
    Reassemble(ws, 0, 6);
    NoValues();
    NoJoin();
    EmptyChain();
    ChainQuad(quad);
    assert ws[..0] == [];
    assert AddressBytes(Written(ws)) == Bytes(ws);
  }

  lemma NoJoin()
    ensures Join([]) == ""
  {
  }

  /** Five words of zeros, ffff, and dotted decimal. */
  lemma WrittenMapped(ws: seq<word>)
    requires |ws| == 8 && Best(ws) == Span(0, 5) && ZeroRun(ws, 0, 5) && ws[5] == 0xffff
    ensures var a := Written(ws); AddressOk(a) && AddressText(a) == Text6(ws) && AddressBytes(a) == Bytes(ws)
  {
    hide Best, Bytes, Values, Chain, Text, Join, Hex, Worth;
    var quad := Bytes(ws[6..]);
    Reassemble(ws, 0, 5);
    NoValues();
    NoJoin();
    EmptyChain();
    HexGroup(ws[5]);
    OneValue(Hex(ws[5]));
    ChainMapped(Hex(ws[5]), quad);
    BytesJoin([ws[5]], ws[6..]);
    assert ws[5..] == [ws[5]] + ws[6..] && ws[..0] == [];
    assert AddressBytes(Written(ws)) == Bytes(ws);
  }

  lemma WrittenMeans(ws: seq<word>)
    requires |ws| == 8
    ensures var a := Written(ws); AddressOk(a) && AddressText(a) == Text6(ws) && AddressBytes(a) == Bytes(ws)
  {
    BestCompressed(ws);
    hide Best, Text6, Bytes, Compressed, ZeroRun;
    var s := Best(ws);
    if s.base == -1 {
      WrittenWhole(ws);
    } else {
      SpanInside(ws, s);
      if !DottedTail(ws, s) {
        WrittenGap(ws);
      } else if s.len == 6 {
        WrittenQuad(ws);
      } else {
        WrittenMapped(ws);
      }
    }
  }

  /** inet_pton6 undoes inet_ntop6, for every address. */
  lemma RoundTrip(ws: seq<word>)
    requires |ws| == 8
    ensures Parse6(Text6(ws)) == Some(Bytes(ws))
  {
    hide Parse6, Text6, Bytes, Written;
    WrittenMeans(ws);
    Accept(Written(ws));
  }
}
