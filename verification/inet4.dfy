/** inet_ntop4 and inet_pton4 of libuv/src/inet.c: dotted-decimal text. */
module Inet4 {
  import opened Options

  type byte = x: int | 0 <= x < 256

  // ---- numbers as text ----

  const DIGITS := "0123456789abcdef"

  /** "%u" and "%x": no leading zeros. */
  function Numeral(n: nat, base: nat): (s: string)
    requires 2 <= base <= 16
    ensures |s| > 0
    decreases n
  {
    if n < base then [DIGITS[n]] else Numeral(n / base, base) + [DIGITS[n % base]]
  }

  /** Where strchr finds a character in a table of digits. */
  function Find(s: string, ch: char): (k: nat)
    ensures k <= |s| && (k < |s| ==> s[k] == ch) && ch !in s[..k]
  {
    if s == "" then 0 else if s[0] == ch then 0 else 1 + Find(s[1..], ch)
  }

  predicate IsDigit(ch: char) {
    '0' <= ch <= '9'
  }

  function DigitValue(ch: char): nat
    requires IsDigit(ch)
  {
    (ch - '0') as nat
  }

  lemma FindDigit(ch: char)
    ensures var k := Find("0123456789", ch);
      if IsDigit(ch) then k == DigitValue(ch) && k < 10 else k == 10
  {
    var t := "0123456789";
    var k := Find(t, ch);
    if IsDigit(ch) {
      assert t[DigitValue(ch)] == ch;
      assert forall j :: 0 <= j < k ==> t[..k][j] == t[j];
    }
  }

  // ---- printing ----

  /** What "%u.%u.%u.%u" prints. */
  function Text(a: seq<byte>): string
    requires |a| == 4
  {
    Octet(a[0]) + "." + Octet(a[1]) + "." + Octet(a[2]) + "." + Octet(a[3])
  }

  function Octet(n: byte): string {
    Numeral(n, 10)
  }

  lemma OctetShort(n: byte)
    ensures 1 <= |Octet(n)| <= 3 && forall i :: 0 <= i < |Octet(n)| ==> IsDigit(Octet(n)[i])
  {
    if n >= 10 {
      assert Numeral(n / 10, 10) == if n < 100 then [DIGITS[n / 10]] else Numeral(n / 10 / 10, 10) + [DIGITS[n / 10 % 10]];
    }
  }

  lemma TextFits(a: seq<byte>)
    requires |a| == 4
    ensures 7 <= |Text(a)| < 16
  {
    OctetShort(a[0]); OctetShort(a[1]); OctetShort(a[2]); OctetShort(a[3]);
  }

  // ---- reading ----

  /** The loop of inet_pton4: octets finished, the one being read, and whether it has a digit. */
  function Scan(before: seq<byte>, cur: byte, saw: bool, s: string): Option<seq<byte>>
    decreases |s|
  {
    var octets := |before| + if saw then 1 else 0;
    if s == "" then if octets < 4 then None else Some(before + [cur])
    else if IsDigit(s[0]) then
      var nw := cur * 10 + DigitValue(s[0]);
      if (saw && cur == 0) || nw > 255 || (!saw && octets == 4) then None
      else Scan(before, nw, true, s[1..])
    else if s[0] == '.' && saw then
      if octets == 4 then None else Scan(before + [cur], 0, false, s[1..])
    else None
  }

  function Parse(s: string): Option<seq<byte>> {
    Scan([], 0, false, s)
  }

  /** The text read so far. */
  function Printed(before: seq<byte>, cur: byte, saw: bool): string {
    Dotted(before) + if saw then Octet(cur) else ""
  }

  function Dotted(before: seq<byte>): string {
    if before == [] then "" else Dotted(before[..|before| - 1]) + Octet(before[|before| - 1]) + "."
  }

  lemma DottedMore(before: seq<byte>, cur: byte)
    ensures Dotted(before + [cur]) == Dotted(before) + Octet(cur) + "."
  {
    assert (before + [cur])[..|before|] == before;
  }

  lemma DottedText(a: seq<byte>)
    requires |a| == 4
    ensures Text(a) == Dotted(a[..3]) + Octet(a[3])
  {
    DottedThree(a[0], a[1], a[2]);
    assert a[..3] == [a[0], a[1], a[2]];
  }

  lemma DottedThree(x: byte, y: byte, z: byte)
    ensures Dotted([x, y, z]) == Octet(x) + "." + Octet(y) + "." + Octet(z) + "."
  {
    hide Octet;
    DottedMore([], x); DottedMore([x], y); DottedMore([x, y], z);
    assert [] + [x] == [x] && [x] + [y] == [x, y] && [x, y] + [z] == [x, y, z];
    assert "" + Octet(x) == Octet(x);
  }

  lemma DigitText(ch: char)
    requires IsDigit(ch)
    ensures DIGITS[DigitValue(ch)] == ch
  {
  }

  lemma OctetMore(cur: byte, ch: char)
    requires IsDigit(ch) && cur != 0 && cur * 10 + DigitValue(ch) < 256
    ensures Octet(cur * 10 + DigitValue(ch)) == Octet(cur) + [ch]
  {
    var n := cur * 10 + DigitValue(ch);
    assert n / 10 == cur && n % 10 == DigitValue(ch);
    DigitText(ch);
  }

  /** Whatever is accepted is what the printer prints for the result. */
  lemma {:induction false} ScanSound(before: seq<byte>, cur: byte, saw: bool, s: string)
    requires |before| <= 3 && (!saw ==> cur == 0) && Scan(before, cur, saw, s).Some?
    ensures var a := Scan(before, cur, saw, s).value;
      |a| == 4 && Printed(before, cur, saw) + s == Text(a)
    decreases |s|
  {
    hide Text, Printed;
    if s == "" {
      LastPrinted(before, cur);
      assert Printed(before, cur, saw) + s == Printed(before, cur, saw);
    } else if IsDigit(s[0]) {
      var nw := cur * 10 + DigitValue(s[0]);
      ScanSound(before, nw, true, s[1..]);
      DigitPrinted(before, cur, saw, s[0]);
      Shift(Printed(before, cur, saw), s);
    } else {
      ScanSound(before + [cur], 0, false, s[1..]);
      DotPrinted(before, cur);
      Shift(Printed(before, cur, saw), s);
    }
  }

  lemma Shift(p: string, s: string)
    requires s != ""
    ensures (p + [s[0]]) + s[1..] == p + s
  {
  }

  lemma LastPrinted(before: seq<byte>, cur: byte)
    requires |before| == 3
    ensures Printed(before, cur, true) == Text(before + [cur])
  {
    DottedText(before + [cur]);
    assert (before + [cur])[..3] == before;
  }

  lemma DotPrinted(before: seq<byte>, cur: byte)
    ensures Printed(before + [cur], 0, false) == Printed(before, cur, true) + ['.']
  {
    DottedMore(before, cur);
  }

  lemma DigitPrinted(before: seq<byte>, cur: byte, saw: bool, ch: char)
    requires IsDigit(ch) && (saw ==> cur != 0) && (!saw ==> cur == 0) && cur * 10 + DigitValue(ch) < 256
    ensures Printed(before, cur * 10 + DigitValue(ch), true) == Printed(before, cur, saw) + [ch]
  {
    if saw {
      OctetMore(cur, ch);
    } else {
      DigitText(ch);
    }
  }

  /** An octet's text is read as that octet. */
  lemma {:induction false} ScanOctet(before: seq<byte>, n: byte, rest: string)
    requires |before| <= 3
    ensures Scan(before, 0, false, Octet(n) + rest) == Scan(before, n, true, rest)
    decreases n
  {
    if n < 10 {
      assert (Octet(n) + rest)[1..] == rest;
    } else {
      var ch := DIGITS[n % 10];
      assert Octet(n) + rest == Octet(n / 10) + ([ch] + rest);
      ScanOctet(before, n / 10, [ch] + rest);
      assert ([ch] + rest)[1..] == rest;
    }
  }

  lemma {:induction false} ScanText(before: seq<byte>, n: byte, rest: string)
    requires |before| <= 2
    ensures Scan(before, 0, false, Octet(n) + "." + rest) == Scan(before + [n], 0, false, rest)
  {
    assert Octet(n) + "." + rest == Octet(n) + ("." + rest);
    ScanOctet(before, n, "." + rest);
    assert ("." + rest)[1..] == rest;
  }

  lemma ParseText(a: seq<byte>)
    requires |a| == 4
    ensures Parse(Text(a)) == Some(a)
  {
    var t3 := Octet(a[3]);
    var t2 := Octet(a[2]) + "." + t3;
    var t1 := Octet(a[1]) + "." + t2;
    assert Text(a) == Octet(a[0]) + "." + t1;
    ScanText([], a[0], t1);
    ScanText([] + [a[0]], a[1], t2);
    ScanText([] + [a[0]] + [a[1]], a[2], t3);
    var b := [] + [a[0]] + [a[1]] + [a[2]];
    assert t3 == t3 + "";
    ScanOctet(b, a[3], "");
    assert b + [a[3]] == a;
  }

  /** inet_pton4 accepts exactly the strings inet_ntop4 prints, and the two undo each other. */
  lemma ParseExact(s: string, a: seq<byte>)
    ensures Parse(s) == Some(a) <==> |a| == 4 && s == Text(a)
  {
    if Parse(s) == Some(a) {
      ScanSound([], 0, false, s);
      assert Printed([], 0, false) + s == s;
    }
    if |a| == 4 && s == Text(a) {
      ParseText(a);
    }
  }

  // ---- the code ----

  /** Writes text and its terminating zero. */
  method Put(dst: array<char>, at: nat, text: string)
    requires at + |text| <= dst.Length
    modifies dst
    ensures dst[..] == old(dst[..at]) + text + old(dst[at + |text|..])
  {
    var i := 0;
    while i < |text|
      invariant 0 <= i <= |text|
      invariant forall k :: 0 <= k < at ==> dst[k] == old(dst[k])
      invariant forall k :: 0 <= k < i ==> dst[at + k] == text[k]
      invariant forall k :: at + i <= k < dst.Length ==> dst[k] == old(dst[k])
    {
      dst[at + i] := text[i];
      i := i + 1;
    }
    assert dst[..at] == old(dst[..at]) && dst[at..at + |text|] == text && dst[at + |text|..] == old(dst[at + |text|..]);
    assert dst[..] == dst[..at] + dst[at..at + |text|] + dst[at + |text|..];
  }

  /** inet_ntop4 into dst[at..at+size]: 0, or 1 for UV_ENOSPC. */
  method Ntop(src: seq<byte>, dst: array<char>, at: nat, size: nat) returns (err: nat)
    requires |src| == 4 && at + size <= dst.Length
    modifies dst
    ensures err == 0 <==> |Text(src)| < size
    ensures err == 0 ==> dst[at..at + |Text(src)|] == Text(src) && dst[at + |Text(src)|] == '\0'
    ensures dst[..at] == old(dst[..at]) && dst[at + size..] == old(dst[at + size..])
    ensures err != 0 ==> dst[..] == old(dst[..])
  {
    var tmp := Text(src);  // snprintf
    if |tmp| >= size {
      return 1;
    }
    // strncpy pads with zeros up to size
    var padded := tmp + seq(size - |tmp|, _ => '\0');
    Put(dst, at, padded);
    ghost var d := dst[..];
    assert d[..at] == old(dst[..at]) && d[at..at + |tmp|] == tmp && d[at + |tmp|] == '\0';
    assert d[at + size..] == old(dst[at + size..]);
    return 0;
  }

  /** memcpy */
  method Copy(src: array<byte>, dst: array<byte>, at: nat)
    requires at + src.Length <= dst.Length && src != dst
    modifies dst
    ensures dst[..] == old(dst[..at]) + src[..] + old(dst[at + src.Length..])
  {
    var i := 0;
    while i < src.Length
      invariant 0 <= i <= src.Length
      invariant dst[..] == old(dst[..at]) + src[..i] + old(dst[at + i..])
    {
      dst[at + i] := src[i];
      i := i + 1;
    }
  }

  /** The octets, read into a buffer of the function's own. */
  method ReadOctets(src: string) returns (err: bool, tmp: array<byte>)
    ensures fresh(tmp) && tmp.Length == 4
    ensures err <==> Parse(src).None?
    ensures !err ==> tmp[..] == Parse(src).value
  {
    hide Find;
    tmp := new byte[4];
    var tp, octets, saw, i := 0, 0, false, 0;
    tmp[0] := 0;
    while i < |src|
      invariant 0 <= i <= |src| && 0 <= tp <= 3 && octets == tp + (if saw then 1 else 0) && (!saw ==> tmp[tp] == 0)
      invariant Parse(src) == Scan(tmp[..tp], tmp[tp], saw, src[i..])
      modifies tmp
    {
      var ch := src[i];
      ghost var rest, before := src[i..], tmp[..tp];
      assert rest[0] == ch && rest[1..] == src[i + 1..];
      i := i + 1;
      var k := Find("0123456789", ch);
      FindDigit(ch);
      if k < 10 {
        var cur: int := tmp[tp];
        var nw := cur * 10 + k;
        if saw && tmp[tp] == 0 { return true, tmp; }
        if nw > 255 { return true, tmp; }
        tmp[tp] := nw;
        assert tmp[..tp] == before;
        if !saw {
          octets := octets + 1;
          if octets > 4 { return true, tmp; }
          saw := true;
        }
      } else if ch == '.' && saw {
        if octets == 4 { return true, tmp; }
        assert tmp[..tp + 1] == before + [tmp[tp]];
        ghost var next := tmp[..tp + 1];
        tp := tp + 1;
        tmp[tp] := 0;
        assert tmp[..tp] == next;
        saw := false;
      } else {
        return true, tmp;
      }
    }
    assert src[i..] == "";
    if octets < 4 {
      return true, tmp;
    }
    assert tmp[..] == tmp[..tp] + [tmp[tp]];
    return false, tmp;
  }

  /** inet_pton4 into dst[at..at+4], which is written only on success. */
  method Pton(src: string, dst: array<byte>, at: nat) returns (err: bool)
    requires at + 4 <= dst.Length
    modifies dst
    ensures err <==> Parse(src).None?
    ensures !err ==> |Parse(src).value| == 4 && dst[..] == old(dst[..at]) + Parse(src).value + old(dst[at + 4..])
    ensures err ==> dst[..] == old(dst[..])
  {
    var tmp;
    err, tmp := ReadOctets(src);
    if !err {
      Copy(tmp, dst, at);
    }
  }
}
