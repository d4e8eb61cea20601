/** inet_ntop6 and inet_pton6 of libuv/src/inet.c, over their buffers. */
module Inet6 {
  import opened Inet4
  import opened Inet6Text
  import Inet6Grammar
  import opened Options

  function Pair(hi: byte, lo: byte): word {
    var h: int := hi;
    h * 256 + lo
  }

  /** The address as eight words. */
  function Words(src: seq<byte>): (ws: seq<word>)
    requires |src| % 2 == 0
    ensures |ws| == |src| / 2
  {
    if src == [] then [] else [Pair(src[0], src[1])] + Words(src[2..])
  }

  lemma {:induction false} WordsBytes(src: seq<byte>)
    requires |src| % 2 == 0
    ensures Bytes(Words(src)) == src
  {
    if src != [] {
      WordsBytes(src[2..]);
      assert src == [src[0], src[1]] + src[2..];
    }
  }

  lemma {:induction false} WordAt(src: seq<byte>, k: nat)
    requires |src| % 2 == 0 && 2 * k + 1 < |src|
    ensures Words(src)[k] == Pair(src[2 * k], src[2 * k + 1])
  {
    if k > 0 {
      WordAt(src[2..], k - 1);
    }
  }

  lemma WordsTail(src: seq<byte>)
    requires |src| == 16
    ensures Bytes(Words(src)[6..]) == src[12..]
  {
    var ws := Words(src);
    WordsBytes(src);
    BytesJoin(ws[..6], ws[6..]);
    assert ws == ws[..6] + ws[6..];
  }

  /** For every address, inet_pton6 reads back what inet_ntop6 prints, which fits 46 bytes. */
  lemma AddressRoundTrip(src: seq<byte>)
    requires |src| == 16
    ensures Parse6(Text6(Words(src))) == Some(src) && |Text6(Words(src))| + 1 <= 46
  {
    WordsBytes(src);
    Inet6Grammar.RoundTrip(Words(src));
    Text6Fits(Words(src));
  }

  // ---- the formatting loop ----

  predicate InRun(s: Span, i: int) {
    s.base != -1 && s.base <= i < s.base + s.len
  }

  /** The test for an encapsulated IPv4 address. */
  predicate Encapsulated(ws: seq<word>, s: Span, i: int)
    requires |ws| == 8
  {
    i == 6 && s.base == 0 && (s.len == 6 || (s.len == 7 && ws[7] != 1) || (s.len == 5 && ws[5] == 0xffff))
  }

  predicate TrailingRun(s: Span) {
    s.base != -1 && s.base + s.len == 8
  }

  /** What is printed from word i on. */
  function From(ws: seq<word>, s: Span, i: nat): string
    requires |ws| == 8 && i <= 8
    decreases 8 - i
  {
    if i == 8 then if TrailingRun(s) then ":" else ""
    else if InRun(s, i) then (if i == s.base then ":" else "") + From(ws, s, i + 1)
    else if Encapsulated(ws, s, i) then Sep(i) + (Text(Bytes(ws[6..])) + From(ws, s, 8))
    else Sep(i) + (Hex(ws[i]) + From(ws, s, i + 1))
  }

  function Sep(i: nat): string {
    if i != 0 then ":" else ""
  }

  /** Words in no run and with no dotted tail after them. */
  lemma {:induction false} FromPlain(ws: seq<word>, s: Span, i: nat)
    requires |ws| == 8 && i < 8 && !TrailingRun(s)
    requires forall k :: i <= k < 8 ==> !InRun(s, k) && !Encapsulated(ws, s, k)
    ensures From(ws, s, i) == Sep(i) + Join(ws[i..])
    decreases 8 - i
  {
    hide Hex, Encapsulated, InRun;
    if i == 7 {
      assert ws[i..] == [ws[7]];
      assert From(ws, s, 8) == "";
      assert Hex(ws[7]) + "" == Hex(ws[7]);
    } else {
      FromPlain(ws, s, i + 1);
      JoinFirst(ws[i..]);
      assert ws[i..][1..] == ws[i + 1..];
      assert From(ws, s, i) == Sep(i) + (Hex(ws[i]) + (":" + Join(ws[i + 1..])));
    }
  }

  lemma {:induction false} FromRun(ws: seq<word>, s: Span, i: nat)
    requires |ws| == 8 && 0 <= s.base && s.base + s.len <= 8 && s.base < i <= s.base + s.len
    ensures From(ws, s, i) == From(ws, s, s.base + s.len)
    decreases 8 - i
  {
    hide Hex, Encapsulated;
    if i < s.base + s.len {
      FromRun(ws, s, i + 1);
    }
  }

  lemma FromStep(ws: seq<word>, s: Span, i: nat)
    requires |ws| == 8 && i < s.base && s.base + s.len <= 8
    ensures From(ws, s, i) == Sep(i) + (Hex(ws[i]) + From(ws, s, i + 1))
  {
  }

  lemma {:induction false} FromBefore(ws: seq<word>, s: Span, i: nat)
    requires |ws| == 8 && i < s.base && s.base + s.len <= 8
    ensures From(ws, s, i) == Sep(i) + Join(ws[i..s.base]) + From(ws, s, s.base)
    decreases 8 - i
  {
    hide Hex, From;
    FromStep(ws, s, i);
    var run := From(ws, s, s.base);
    if i + 1 == s.base {
      assert ws[i..s.base] == [ws[i]];
      assert Sep(i) + (Hex(ws[i]) + run) == Sep(i) + Hex(ws[i]) + run;
    } else {
      hide Join;
      FromBefore(ws, s, i + 1);
      JoinFirst(ws[i..s.base]);
      assert ws[i..s.base][1..] == ws[i + 1..s.base];
      Regroup(Sep(i), Hex(ws[i]), Join(ws[i + 1..s.base]), run);
    }
  }

  lemma Regroup(a: string, b: string, c: string, d: string)
    ensures a + (b + (":" + c + d)) == a + (b + ":" + c) + d
  {
  }

  /** Past the run. */
  lemma FromAfter(ws: seq<word>, s: Span)
    requires |ws| == 8 && Compressed(ws, s) && 0 <= s.base
    ensures From(ws, s, s.base + s.len) == ":" + Tail(ws, s)
  {
    hide Hex, Text, Bytes;
    var k := s.base + s.len;
    if k == 8 {
      assert ws[8..] == [];
    } else if DottedTail(ws, s) {
      var t := Text(Bytes(ws[6..]));
      assert From(ws, s, 8) == "";
      assert From(ws, s, 6) == ":" + t;
      if s.len == 5 {
        assert From(ws, s, 5) == ":" + (Hex(ws[5]) + (":" + t));
      }
    } else {
      FromPlain(ws, s, k);
    }
  }

  /** The loop prints the canonical text. */
  lemma FromStart(ws: seq<word>)
    requires |ws| == 8
    ensures From(ws, Best(ws), 0) == Text6(ws)
  {
    BestCompressed(ws);
    var s := Best(ws);
    hide Best, Hex, From, Tail, Join;
    if s.base == -1 {
      FromPlain(ws, s, 0);
      assert ws[0..] == ws;
    } else {
      SplitFrom(ws, s);
    }
  }

  lemma SplitFrom(ws: seq<word>, s: Span)
    requires |ws| == 8 && Compressed(ws, s) && 0 <= s.base
    ensures From(ws, s, 0) == Join(ws[..s.base]) + "::" + Tail(ws, s)
  {
    hide From, Tail;
    FromMiddle(ws, s);
    if s.base == 0 {
      assert ws[..0] == [] && Join([]) == "";
    } else {
      hide Join;
      FromBefore(ws, s, 0);
      assert ws[0..s.base] == ws[..s.base];
    }
  }

  lemma FromMiddle(ws: seq<word>, s: Span)
    requires |ws| == 8 && Compressed(ws, s) && 0 <= s.base
    ensures From(ws, s, s.base) == "::" + Tail(ws, s)
  {
    hide Tail, Hex, Text, Compressed;
    FromAfter(ws, s);
    RunFits(ws, s);
    FromRun(ws, s, s.base + 1);
    assert ":" + (":" + Tail(ws, s)) == "::" + Tail(ws, s);
  }

  lemma RunFits(ws: seq<word>, s: Span)
    requires |ws| == 8 && Compressed(ws, s) && 0 <= s.base
    ensures s.base + s.len <= 8 && s.len >= 2
  {
  }

  // ---- inet_ntop6 ----

  /** The bytes, two by two; `words` is zero at first. */
  method LoadWords(src: seq<byte>, words: array<word>)
    requires |src| == 16 && words.Length == 8 && forall k :: 0 <= k < 8 ==> words[k] == 0
    modifies words
    ensures words[..] == Words(src)
  {
    var i := 0;
    while i < 16
      invariant 0 <= i <= 16
      invariant forall k :: 0 <= k < i / 2 ==> words[k] == Pair(src[2 * k], src[2 * k + 1])
      invariant i < 16 && i % 2 == 1 ==> words[i / 2] == Pair(src[i - 1], 0)
      invariant forall k :: (i + 1) / 2 <= k < 8 ==> words[k] == 0
    {
      // words[i / 2] |= src[i] << ((1 - i % 2) << 3), on bits that are still zero
      var bits: int := if i % 2 == 0 then Pair(src[i], 0) else src[i];
      words[i / 2] := words[i / 2] + bits;
      i := i + 1;
    }
    forall k | 0 <= k < 8 ensures words[k] == Words(src)[k] {
      WordAt(src, k);
    }
  }

  /** The best run of zeros. */
  method FindBest(words: array<word>) returns (best: Span)
    ensures best == Best(words[..])
  {
    var cur := Span(-1, 0);
    best := Span(-1, 0);
    var i := 0;
    while i < words.Length
      invariant 0 <= i <= words.Length && Scanned(words[..], i) == (best, cur)
    {
      if words[i] == 0 {
        cur := if cur.base == -1 then Span(i, 1) else Span(cur.base, cur.len + 1);
      } else if cur.base != -1 {
        if best.base == -1 || cur.len > best.len {
          best := cur;
        }
        cur := Span(-1, cur.len);
      }
      i := i + 1;
    }
    if cur.base != -1 {
      if best.base == -1 || cur.len > best.len {
        best := cur;
      }
    }
    if best.base != -1 && best.len < 2 {
      best := Span(-1, best.len);
    }
  }

  /** sprintf to the end of what is there. */
  method Append(tmp: array<char>, tp: nat, text: string) returns (tp': nat)
    requires tp + |text| <= tmp.Length
    modifies tmp
    ensures tp' == tp + |text| && tmp[..tp'] == old(tmp[..tp]) + text
  {
    Put(tmp, tp, text);
    ghost var t := tmp[..];
    tp' := tp + |text|;
    assert t[..tp'] == old(tmp[..tp]) + text;
  }

  lemma FitsRest(a: string, b: string, c: string)
    requires |a + (b + c)| <= 39
    ensures a + b + c == a + (b + c) && |a| + |b| <= 39
  {
  }

  /** One turn of the loop: what is printed for word i; `stop` after a dotted tail. */
  method PrintWord(ws: seq<word>, src: seq<byte>, s: Span, i: nat, tmp: array<char>, tp: nat) returns (tp': nat, stop: bool)
    requires |ws| == 8 && i < 8 && |src| == 16 && ws == Words(src) && tmp.Length == 46
    requires tp <= 46 && |tmp[..tp] + From(ws, s, i)| <= 39
    modifies tmp
    ensures tp' <= 39
    ensures tmp[..tp'] + From(ws, s, if stop then 8 else i + 1) == old(tmp[..tp]) + From(ws, s, i)
  {
    tp', stop := tp, false;
    ghost var t := tmp[..tp];
    if s.base != -1 && i >= s.base && i < s.base + s.len {
      if i == s.base {
        FitsRest(t, ":", From(ws, s, i + 1));
        tp' := Append(tmp, tp, ":");
      } else {
        assert "" + From(ws, s, i + 1) == From(ws, s, i + 1);
      }
      return;
    }
    ghost var rest := if Encapsulated(ws, s, i) then Text(Bytes(ws[6..])) + From(ws, s, 8) else Hex(ws[i]) + From(ws, s, i + 1);
    FitsRest(t, Sep(i), rest);
    tp' := Append(tmp, tp, if i != 0 then ":" else "");
    ghost var t1 := tmp[..tp'];
    if Encapsulated(ws, s, i) {
      WordsTail(src);
      FitsRest(t1, Text(src[12..]), From(ws, s, 8));
      var err := Ntop4(src[12..], tmp, tp');
      tp' := tp' + |Text(src[12..])|;
      stop := true;
    } else {
      FitsRest(t1, Hex(ws[i]), From(ws, s, i + 1));
      tp' := Append(tmp, tp', Hex(ws[i]));
    }
  }

  /** inet_ntop4 with the rest of the buffer; it never runs out of space. */
  method Ntop4(src: seq<byte>, tmp: array<char>, tp: nat) returns (err: nat)
    requires |src| == 4 && tmp.Length == 46 && tp + |Text(src)| <= 39
    modifies tmp
    ensures err == 0 && tmp[..tp + |Text(src)|] == old(tmp[..tp]) + Text(src)
  {
    err := Ntop(src, tmp, tp, 46 - tp);
    ghost var t := tmp[..tp + |Text(src)|];
    assert t == t[..tp] + t[tp..];
  }

  /** The text and its zero, in a buffer of 46 bytes. */
  method Format(src: seq<byte>) returns (tmp: array<char>, tp: nat)
    requires |src| == 16
    ensures fresh(tmp) && tmp.Length == 46 && tp <= 40 && tmp[..tp] == Text6(Words(src)) + ['\0']
  {
    var words := new word[8](_ => 0);
    LoadWords(src, words);
    var ws := words[..];
    var best := FindBest(words);
    tmp := new char[46];
    tp := 0;
    var i, stop := 0, false;
    FromStart(ws);
    Text6Fits(ws);
    hide Text6, From, Best;
    assert tmp[..0] + From(ws, best, 0) == From(ws, best, 0);
    while i < 8
      invariant 0 <= i <= 8 && 0 <= tp <= 39 && tmp[..tp] + From(ws, best, i) == Text6(ws)
      modifies tmp
    {
      tp, stop := PrintWord(ws, src, best, i, tmp, tp);
      i := if stop then 8 else i + 1;
    }
    LastPart(ws, best);
    if best.base != -1 && best.base + best.len == 8 {
      tp := Append(tmp, tp, ":");
    } else {
      assert tmp[..tp] + "" == tmp[..tp];
    }
    tp := Append(tmp, tp, ['\0']);
  }

  lemma LastPart(ws: seq<word>, s: Span)
    requires |ws| == 8
    ensures From(ws, s, 8) == if TrailingRun(s) then ":" else ""
  {
  }

  /** inet_ntop6: 0 and the canonical text with its zero, or 1 (UV_ENOSPC) exactly when it does not fit. */
  method Ntop6(src: seq<byte>, dst: array<char>, size: nat) returns (err: nat)
    requires |src| == 16 && size <= dst.Length
    modifies dst
    ensures err == 0 <==> |Text6(Words(src))| < size
    ensures err == 0 ==> dst[..|Text6(Words(src))|] == Text6(Words(src)) && dst[|Text6(Words(src))|] == '\0'
    ensures err != 0 ==> dst[..] == old(dst[..])
  {
    var tmp, tp := Format(src);
    if tp > size {
      return 1;
    }
    Put(dst, 0, tmp[..tp]);
    ghost var d := dst[..];
    assert d[..tp] == Text6(Words(src)) + ['\0'];
    return 0;
  }

  // ---- inet_pton6 ----

  /** The shift at the end of inet_pton6, by hand and in place. */
  method Shift(tmp: array<byte>, colonp: nat, tp: nat)
    requires tmp.Length == 16 && colonp <= tp < 16 && forall k :: tp <= k < 16 ==> tmp[k] == 0
    modifies tmp
    ensures tmp[..] == old(tmp[..colonp]) + seq(16 - tp, _ => 0) + old(tmp[colonp..tp])
  {
    var n := tp - colonp;
    ghost var was, gap := tmp[..], 16 - tp;
    var i := 1;
    while i <= n
      invariant 1 <= i <= n + 1
      invariant forall k :: 0 <= k <= tp - i ==> tmp[k] == was[k]
      invariant forall k :: tp - i < k <= 16 - i ==> tmp[k] == 0
      invariant forall k :: 16 - i < k < 16 ==> tmp[k] == was[k - gap]
    {
      tmp[16 - i] := tmp[tp - i];
      tmp[tp - i] := 0;
      i := i + 1;
    }
    ShiftedIs(was, tmp[..], colonp, tp);
  }

  lemma ShiftedIs(was: seq<byte>, now: seq<byte>, colonp: nat, tp: nat)
    requires |was| == |now| == 16 && colonp <= tp < 16
    requires forall k :: 0 <= k < colonp ==> now[k] == was[k]
    requires forall k :: colonp <= k < colonp + 16 - tp ==> now[k] == 0
    requires forall k :: colonp + 16 - tp <= k < 16 ==> now[k] == was[k - (16 - tp)]
    ensures now == was[..colonp] + seq(16 - tp, _ => 0) + was[colonp..tp]
  {
  }

  /** The two bytes of a group. */
  method PutGroup(tmp: array<byte>, tp: nat, val: nat)
    requires tp + 2 <= tmp.Length
    modifies tmp
    ensures tmp[..] == old(tmp[..tp]) + [val / 256 % 256, val % 256] + old(tmp[tp + 2..])
  {
    tmp[tp] := val / 256 % 256;
    tmp[tp + 1] := val % 256;
  }

  predicate ZeroFrom(tmp: seq<byte>, tp: int) {
    forall k :: 0 <= k < |tmp| && k >= tp ==> tmp[k] == 0
  }

  /** One character of the loop, other than the dot. */
  method ReadChar(src: string, i: nat, tmp: array<byte>, tp: nat, colonp: int, val: nat, seen: nat, curtok: nat)
    returns (err: bool, tp': nat, colonp': int, val': nat, seen': nat, curtok': nat)
    requires i < |src| && curtok <= i && tmp.Length == 16 && tp <= 16 && -1 <= colonp <= tp && ZeroFrom(tmp[..], tp)
    requires src[i] != '.' && seen <= 4
    modifies tmp
    ensures err ==> Scan6(Reader(old(tmp[..tp]), colonp, val, seen, src[curtok..]), src[i..]).None?
    ensures !err ==> tp' <= 16 && -1 <= colonp' <= tp' && seen' <= 4 && curtok' <= i + 1 && ZeroFrom(tmp[..], tp')
    ensures !err ==>
      Scan6(Reader(old(tmp[..tp]), colonp, val, seen, src[curtok..]), src[i..]) ==
      Scan6(Reader(tmp[..tp'], colonp', val', seen', src[curtok'..]), src[i + 1..])
  {
    var ch := src[i];
    ghost var more := src[i + 1..];
    assert src[i..][0] == ch && src[i..][1..] == more;
    err, tp', colonp', val', seen', curtok' := false, tp, colonp, val, seen, curtok;
    if IsXDigit(ch) {
      val', seen' := val * 16 + XValue(ch), seen + 1;
      err := seen' > 4;
    } else if ch == ':' {
      curtok' := i + 1;
      if seen == 0 {
        err := colonp != -1;
        colonp' := tp;
      } else if i + 1 == |src| || tp + 2 > 16 {
        err := true;
      } else {
        PutGroup(tmp, tp, val);
        tp', seen', val' := tp + 2, 0, 0;
        assert tmp[..tp'] == old(tmp[..tp]) + [val / 256 % 256, val % 256];
      }
    } else {
      err := true;
    }
  }

  /** Everything after the loop: the last group, the shift, and the length check. */
  method FinishRead(tmp: array<byte>, tp: nat, colonp: int, val: nat, seen: nat, ghost token: string) returns (err: bool)
    requires tmp.Length == 16 && tp <= 16 && -1 <= colonp <= tp && ZeroFrom(tmp[..], tp)
    modifies tmp
    ensures var r := Finish6(Reader(old(tmp[..tp]), colonp, val, seen, token));
      if err then r.None? else r.Some? && tmp[..] == r.value
  {
    var end := tp;
    ghost var was := tmp[..tp];
    if seen > 0 {
      if tp + 2 > 16 {
        return true;
      }
      PutGroup(tmp, tp, val);
      end := tp + 2;
      assert tmp[..end] == was + [val / 256 % 256, val % 256];
    }
    ghost var out := tmp[..end];
    if colonp != -1 {
      if end == 16 {
        return true;
      }
      Shift(tmp, colonp, end);
      assert tmp[..] == out[..colonp] + seq(16 - |out|, _ => 0) + out[colonp..];
      end := 16;
    }
    if end != 16 {
      return true;
    }
    assert colonp == -1 ==> tmp[..] == out;
    return false;
  }

  /** A dot: the rest, from the start of the number on, is dotted decimal. */
  method ReadDotted(src: string, i: nat, tmp: array<byte>, tp: nat, ghost colonp: int, ghost val: nat, ghost seen: nat, curtok: nat)
    returns (err: bool)
    requires i < |src| && src[i] == '.' && curtok <= i && tmp.Length == 16 && tp <= 16 && ZeroFrom(tmp[..], tp)
    modifies tmp
    ensures var r := Scan6(Reader(old(tmp[..tp]), colonp, val, seen, src[curtok..]), src[i..]);
      if err then r.None? else tp + 4 <= 16 && r == Some(Reader(tmp[..tp + 4], colonp, val, 0, src[curtok..]))
    ensures ZeroFrom(tmp[..], tp + 4)
  {
    assert src[i..][0] == '.';
    if tp + 4 > 16 {
      return true;
    }
    err := Pton(src[curtok..], tmp, tp);
    if !err {
      assert tmp[..tp + 4] == old(tmp[..tp]) + Parse(src[curtok..]).value;
    }
  }

  /** The loop: up to the end of the text, or up to a dotted decimal tail. */
  method ReadGroups(src: string, start: nat, tmp: array<byte>)
    returns (err: bool, tp: nat, colonp: int, val: nat, seen: nat, ghost token: string)
    requires start <= |src| && tmp.Length == 16 && ZeroFrom(tmp[..], 0)
    modifies tmp
    ensures var r := Scan6(Reader([], -1, 0, 0, src[start..]), src[start..]);
      if err then r.None?
      else tp <= 16 && -1 <= colonp <= tp && ZeroFrom(tmp[..], tp) && r == Some(Reader(tmp[..tp], colonp, val, seen, token))
  {
    ghost var first := Reader([], -1, 0, 0, src[start..]);
    assert tmp[..0] == [];
    err, tp, colonp, val, seen, token := false, 0, -1, 0, 0, "";
    var curtok: nat, i: nat := start, start;
    while i < |src|
      invariant curtok <= i <= |src| && tp <= 16 && -1 <= colonp <= tp && seen <= 4 && ZeroFrom(tmp[..], tp)
      invariant Scan6(first, src[start..]) == Scan6(Reader(tmp[..tp], colonp, val, seen, src[curtok..]), src[i..])
    {
      if src[i] == '.' {
        err := ReadDotted(src, i, tmp, tp, colonp, val, seen, curtok);
        token := src[curtok..];
        tp, seen := if err then tp else tp + 4, 0;
        return;
      }
      err, tp, colonp, val, seen, curtok := ReadChar(src, i, tmp, tp, colonp, val, seen, curtok);
      if err {
        return;
      }
      i := i + 1;
    }
    token := src[curtok..];
    assert src[i..] == "";
  }

  /** inet_pton6: dst gets the address, or is left alone. */
  method Pton6(src: string, dst: array<byte>) returns (err: bool)
    requires dst.Length == 16
    modifies dst
    ensures err <==> Parse6(src).None?
    ensures !err ==> dst[..] == Parse6(src).value
    ensures err ==> dst[..] == old(dst[..])
  {
    hide Scan6, Finish6;
    var tmp := new byte[16](_ => 0);
    var start := 0;
    if src != "" && src[0] == ':' {
      if |src| < 2 || src[1] != ':' {
        return true;
      }
      start := 1;
    }
    assert src[0..] == src;
    var tp, colonp, val, seen;
    ghost var token;
    err, tp, colonp, val, seen, token := ReadGroups(src, start, tmp);
    if err {
      return;
    }
    err := FinishRead(tmp, tp, colonp, val, seen, token);
    if !err {
      Copy(tmp, dst, 0);
    }
  }
}
