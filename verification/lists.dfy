/** Lists as sequences: what QUEUE_REMOVE does to one, and sums over one. */
module Lists {

  predicate Distinct<T(==)>(q: seq<T>) {
    forall i, j :: 0 <= i < j < |q| ==> q[i] != q[j]
  }

  /** The list without the first x, if there is one. */
  function Without<T(==)>(q: seq<T>, x: T): seq<T> {
    if q == [] then [] else if q[0] == x then q[1..] else [q[0]] + Without(q[1..], x)
  }

  lemma {:induction false} WithoutAt<T>(q: seq<T>, x: T) returns (k: nat)
    requires x in q
    ensures k < |q| && q[k] == x && Without(q, x) == q[..k] + q[k + 1..]
  {
    if q[0] == x {
      k := 0;
    } else {
      k := WithoutAt(q[1..], x);
      assert q == [q[0]] + q[1..];
      assert q[1..][..k] == q[1..k + 1] && q[1..][k + 1..] == q[k + 2..];
      assert [q[0]] + q[1..k + 1] == q[..k + 1];
      k := k + 1;
    }
  }

  lemma {:induction false} WithoutNone<T>(q: seq<T>, x: T)
    requires x !in q
    ensures Without(q, x) == q
  {
    if q != [] {
      WithoutNone(q[1..], x);
      assert q == [q[0]] + q[1..];
    }
  }

  lemma {:induction false} WithoutIs<T>(q: seq<T>, x: T)
    requires Distinct(q)
    ensures Distinct(Without(q, x)) && forall y :: y in Without(q, x) <==> y in q && y != x
  {
    if q != [] {
      WithoutIs(q[1..], x);
      assert q == [q[0]] + q[1..];
      assert q[0] !in q[1..];
    }
  }

  lemma WithoutKeeps<T>(q: seq<T>, x: T, y: T)
    requires y != x
    ensures y in q ==> y in Without(q, x)
  {
    if x in q {
      var k := WithoutAt(q, x);
      assert q == q[..k] + [x] + q[k + 1..];
    } else {
      WithoutNone(q, x);
    }
  }

  lemma {:induction false} WithoutShorter<T>(q: seq<T>, x: T)
    ensures |Without(q, x)| <= |q|
  {
    if q != [] && q[0] != x {
      WithoutShorter(q[1..], x);
    }
  }

  function Sum<T>(q: seq<T>, weight: T -> nat): nat {
    if q == [] then 0 else weight(q[0]) + Sum(q[1..], weight)
  }

  lemma {:induction false} SumSet<T>(q: seq<T>, i: nat, x: T, weight: T -> nat)
    requires i < |q|
    ensures Sum(q[i := x], weight) == Sum(q, weight) - weight(q[i]) + weight(x)
  {
    if i > 0 {
      assert q[i := x][1..] == q[1..][i - 1 := x];
      SumSet(q[1..], i - 1, x, weight);
    } else {
      assert q[0 := x][1..] == q[1..];
    }
  }

  lemma {:induction false} SumBelow<T>(q: seq<T>, r: seq<T>, weight: T -> nat)
    requires |r| == |q| && forall k :: 0 <= k < |q| ==> weight(r[k]) <= weight(q[k])
    ensures Sum(r, weight) <= Sum(q, weight)
  {
    if q != [] {
      SumBelow(q[1..], r[1..], weight);
    }
  }
}
