/** next_power_of_two of libuv/src/unix/core.c: shifts and ors that spread the top bit. */
module PowerOfTwo {

  function Pow2(k: nat): nat {
    if k == 0 then 1 else 2 * Pow2(k - 1)
  }

  /** Bit i. */
  predicate Bit(v: nat, i: nat) {
    if i == 0 then v % 2 == 1 else Bit(v / 2, i - 1)
  }

  /** v | w */
  function Or(v: nat, w: nat): nat {
    if v == 0 then w
    else if w == 0 then v
    else 2 * Or(v / 2, w / 2) + if v % 2 == 1 || w % 2 == 1 then 1 else 0
  }

  /** v >> k */
  function Shr(v: nat, k: nat): nat {
    if k == 0 then v else Shr(v / 2, k - 1)
  }

  function Spread(v: nat, k: nat): nat {
    Or(v, Shr(v, k))
  }

  /** The five rounds. */
  function SpreadAll(v: nat): nat {
    Spread(Spread(Spread(Spread(Spread(v, 1), 2), 4), 8), 16)
  }

  const TWO_32 := 0x1_0000_0000

  /** On unsigned int, which wraps. */
  function NextPowerOfTwo(val: nat): nat
    requires val < TWO_32
  {
    var v := (val + TWO_32 - 1) % TWO_32;
    (SpreadAll(v) + 1) % TWO_32
  }

  // ---- bits ----

  lemma {:induction false} ZeroBit(i: nat)
    ensures !Bit(0, i)
  {
    if i > 0 {
      ZeroBit(i - 1);
    }
  }

  lemma {:induction false} OrBit(v: nat, w: nat, i: nat)
    ensures Bit(Or(v, w), i) <==> Bit(v, i) || Bit(w, i)
    decreases i
  {
    ZeroBit(i);
    if v != 0 && w != 0 && i > 0 {
      OrBit(v / 2, w / 2, i - 1);
      assert Or(v, w) / 2 == Or(v / 2, w / 2);
    }
  }

  lemma {:induction false} ShrBit(v: nat, k: nat, i: nat)
    ensures Bit(Shr(v, k), i) <==> Bit(v, i + k)
    decreases k
  {
    if k > 0 {
      ShrBit(v / 2, k - 1, i);
    }
  }

  /** One of the n bits from i on is set. */
  ghost predicate Near(v: nat, i: nat, n: nat) {
    exists j: nat :: i <= j < i + n && Bit(v, j)
  }

  /** Bit i of w is set when one of the n bits from i on is set in v. */
  ghost predicate Spreads(v: nat, w: nat, n: nat) {
    forall i: nat :: Bit(w, i) <==> Near(v, i, n)
  }

  lemma SpreadBit(w: nat, k: nat, i: nat)
    ensures Bit(Spread(w, k), i) <==> Bit(w, i) || Bit(w, i + k)
  {
    OrBit(w, Shr(w, k), i);
    ShrBit(w, k, i);
  }

  lemma NearSplit(v: nat, i: nat, n: nat)
    ensures Near(v, i, 2 * n) <==> Near(v, i, n) || Near(v, i + n, n)
  {
    if Near(v, i, 2 * n) {
      var j: nat :| i <= j < i + 2 * n && Bit(v, j);
      assert j < i + n || i + n <= j < i + n + n;
    }
    if Near(v, i, n) {
      var j: nat :| i <= j < i + n && Bit(v, j);
      assert i <= j < i + 2 * n;
    }
    if Near(v, i + n, n) {
      var j: nat :| i + n <= j < i + n + n && Bit(v, j);
      assert i <= j < i + 2 * n;
    }
  }

  /** Each round doubles the reach. */
  lemma SpreadMore(v: nat, w: nat, n: nat)
    requires Spreads(v, w, n)
    ensures Spreads(v, Spread(w, n), 2 * n)
  {
    hide Bit, Spread, Near;
    forall i: nat ensures Bit(Spread(w, n), i) <==> Near(v, i, 2 * n) {
      SpreadBit(w, n, i);
      NearSplit(v, i, n);
      assert Bit(w, i) <==> Near(v, i, n);
      assert Bit(w, i + n) <==> Near(v, i + n, n);
    }
  }

  lemma {:induction false} TopBit(v: nat) returns (m: nat)
    requires v > 0
    ensures Pow2(m) <= v < Pow2(m + 1) && Bit(v, m)
    ensures forall j: nat :: j > m ==> !Bit(v, j)
  {
    if v == 1 {
      m := 0;
      forall j: nat | j > 0 ensures !Bit(v, j) {
        ZeroBit(j - 1);
      }
    } else {
      m := TopBit(v / 2);
      forall j: nat | j > m + 1 ensures !Bit(v, j) {
        assert !Bit(v / 2, j - 1);
      }
      m := m + 1;
    }
  }

  /** All bits up to m and no others: one less than the next power. */
  lemma {:induction false} AllOnes(w: nat, m: nat)
    requires forall i: nat :: Bit(w, i) <==> i <= m
    ensures w + 1 == Pow2(m + 1)
    decreases m
  {
    assert Bit(w, 0);
    if m == 0 {
      forall i: nat ensures !Bit(w / 2, i) {
        assert Bit(w, i + 1) <==> i + 1 <= 0;
      }
      NoBits(w / 2);
      assert Pow2(1) == 2;
    } else {
      forall i: nat ensures Bit(w / 2, i) <==> i <= m - 1 {
        assert Bit(w, i + 1) <==> i + 1 <= m;
      }
      AllOnes(w / 2, m - 1);
    }
  }

  lemma {:induction false} NoBits(w: nat)
    requires forall i: nat :: !Bit(w, i)
    ensures w == 0
    decreases w
  {
    assert !Bit(w, 0);
    forall i: nat ensures !Bit(w / 2, i) {
      assert !Bit(w, i + 1);
    }
    if w > 0 {
      NoBits(w / 2);
    }
  }

  lemma {:induction false} PowGrows(a: nat, b: nat)
    ensures a <= b ==> Pow2(a) <= Pow2(b)
    ensures a < b ==> Pow2(a) < Pow2(b)
    decreases b
  {
    if a < b {
      PowGrows(a, b - 1);
      PowPositive(b - 1);
    }
  }

  lemma {:induction false} PowPositive(a: nat)
    ensures Pow2(a) > 0
  {
    if a > 0 {
      PowPositive(a - 1);
    }
  }

  lemma Pow31()
    ensures Pow2(31) == 0x8000_0000 && Pow2(32) == TWO_32
  {
    assert Pow2(8) == 256;
    assert Pow2(16) == 65536;
    assert Pow2(24) == 0x100_0000;
    assert Pow2(31) == 0x8000_0000;
  }

  /** The five rounds reach 32 bits. */
  lemma FiveRounds(v: nat)
    ensures Spreads(v, SpreadAll(v), 32)
  {
    hide Bit, Spread, Spreads;
    Start(v);
    SpreadMore(v, v, 1);
    SpreadMore(v, Spread(v, 1), 2);
    SpreadMore(v, Spread(Spread(v, 1), 2), 4);
    SpreadMore(v, Spread(Spread(Spread(v, 1), 2), 4), 8);
    SpreadMore(v, Spread(Spread(Spread(Spread(v, 1), 2), 4), 8), 16);
  }

  lemma Start(v: nat)
    ensures Spreads(v, v, 1)
  {
    hide Bit;
    forall i: nat ensures Bit(v, i) <==> Near(v, i, 1) {
      assert Bit(v, i) ==> i <= i < i + 1 && Bit(v, i);
    }
  }

  /** A number whose top bit is m < 32 becomes one less than the next power. */
  lemma SpreadTop(v: nat, m: nat)
    requires m < 32 && Bit(v, m) && forall j: nat :: j > m ==> !Bit(v, j)
    ensures SpreadAll(v) + 1 == Pow2(m + 1)
  {
    hide Bit, SpreadAll, Pow2;
    FiveRounds(v);
    var w := SpreadAll(v);
    forall i: nat ensures Bit(w, i) <==> i <= m {
      assert Bit(w, i) <==> Near(v, i, 32);
      assert i <= m ==> i <= m < i + 32 && Bit(v, m);
    }
    AllOnes(w, m);
  }

  lemma SpreadZero()
    ensures SpreadAll(0) == 0
  {
    FiveRounds(0);
    forall i: nat ensures !Bit(SpreadAll(0), i) {
      assert Bit(SpreadAll(0), i) <==> Near(0, i, 32);
      forall j: nat ensures !Bit(0, j) {
        ZeroBit(j);
      }
    }
    NoBits(SpreadAll(0));
  }

  lemma NextIs(val: nat)
    requires val < TWO_32
    ensures var v := if val == 0 then TWO_32 - 1 else val - 1; NextPowerOfTwo(val) == (SpreadAll(v) + 1) % TWO_32
  {
    hide Spread;
  }

  /** The least power of two at or above val, for 1 <= val <= 2^31. */
  lemma NextIsLeast(val: nat) returns (k: nat)
    requires 1 <= val <= 0x8000_0000
    ensures NextPowerOfTwo(val) == Pow2(k) && val <= Pow2(k)
    ensures forall j: nat :: val <= Pow2(j) ==> k <= j
  {
    hide Bit, SpreadAll, NextPowerOfTwo;
    Pow31();
    NextIs(val);
    if val == 1 {
      SpreadZero();
      k := 0;
    } else {
      hide Pow2;
      var m := TopBit(val - 1);
      PowGrows(31, m);
      SpreadTop(val - 1, m);
      k := m + 1;
      PowGrows(m + 1, 31);
      forall j: nat | val <= Pow2(j) ensures k <= j {
        PowGrows(j, m);
      }
    }
  }

  lemma NextBelow(val: nat)
    requires val < TWO_32
    ensures NextPowerOfTwo(val) < TWO_32
  {
    hide SpreadAll;
  }

  /** Outside that range the result has wrapped round to 0, so the range is exact. */
  lemma NextWraps(val: nat)
    requires val < TWO_32
    ensures NextPowerOfTwo(val) == 0 <==> val == 0 || val > 0x8000_0000
  {
    hide Bit, SpreadAll, NextPowerOfTwo, Pow2;
    Pow31();
    if 1 <= val <= 0x8000_0000 {
      var k := NextIsLeast(val);
      PowPositive(k);
    } else {
      NextIs(val);
      var v := if val == 0 then TWO_32 - 1 else val - 1;
      var m := TopBit(v);
      PowGrows(32, m);
      PowGrows(m + 1, 31);
      SpreadTop(v, 31);
    }
  }
}
