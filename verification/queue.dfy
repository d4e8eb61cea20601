/** libuv/src/queue.h: circular doubly linked lists through nodes embedded in other structures.
    Every macro does to the links what an operation on sequences does to the list. */
module Queue {
  import opened Lists

  /** QUEUE, two pointers. */
  class Node {
    var next: Node?
    var prev: Node?

    constructor ()
    {
      next, prev := null, null;
    }
  }

  /** Nodes linked to each other, both ways. */
  ghost predicate Linked(a: Node, b: Node)
    reads a, b
  {
    a.next == b && b.prev == a
  }

  /** The links from the first node of q to its last. */
  ghost predicate Chain(q: seq<Node>)
    reads q
  {
    forall i :: 0 <= i < |q| - 1 ==> Linked(q[i], q[i + 1])
  }

  /** A list: its head h and its elements s, in order, closed to a ring. */
  ghost predicate List(h: Node, s: seq<Node>)
    reads h, s
  {
    var q := [h] + s;
    Distinct(q) && Chain(q) && Linked(q[|q| - 1], h)
  }

  lemma Ends(h: Node, s: seq<Node>)
    requires List(h, s)
    ensures Distinct(s) && h !in s && (s == [] ==> Linked(h, h))
    ensures s != [] ==> Linked(h, s[0]) && Linked(s[|s| - 1], h)
    ensures forall i :: 0 <= i < |s| - 1 ==> Linked(s[i], s[i + 1])
  {
    var q := [h] + s;
    assert forall i :: 0 <= i < |s| ==> q[i + 1] == s[i];
    if s != [] {
      assert Linked(q[0], q[1]);
    }
    forall i | 0 <= i < |s| - 1 ensures Linked(s[i], s[i + 1]) {
      assert Linked(q[i + 1], q[i + 2]);
    }
  }

  /** The parts of a list have no node in common. */
  lemma Parts(a: seq<Node>, b: seq<Node>)
    requires Distinct(a + b)
    ensures Distinct(a) && Distinct(b) && forall x :: x in a ==> x !in b
  {
    var s := a + b;
    assert forall i :: 0 <= i < |a| ==> s[i] == a[i];
    assert forall i :: 0 <= i < |b| ==> s[|a| + i] == b[i];
  }

  lemma Joined(a: seq<Node>, b: seq<Node>)
    requires Distinct(a) && Distinct(b) && forall x :: x in a ==> x !in b
    ensures Distinct(a + b)
  {
    var s := a + b;
    forall i, j | 0 <= i < j < |s| ensures s[i] != s[j] {
      assert i < |a| <= j ==> s[i] in a && s[j] in b;
    }
  }

  lemma Closed(h: Node, s: seq<Node>)
    requires Distinct(s) && h !in s && (s == [] ==> Linked(h, h))
    requires s != [] ==> Linked(h, s[0]) && Linked(s[|s| - 1], h)
    requires forall i :: 0 <= i < |s| - 1 ==> Linked(s[i], s[i + 1])
    ensures List(h, s)
  {
    var q := [h] + s;
    forall i | 0 <= i < |q| - 1 ensures Linked(q[i], q[i + 1]) {
      if i > 0 {
        assert Linked(s[i - 1], s[i]);
      }
    }
  }

  /** QUEUE_INIT */
  method Init(q: Node)
    modifies q
    ensures List(q, [])
  {
    q.next := q;
    q.prev := q;
  }

  /** QUEUE_EMPTY */
  method Empty(q: Node, ghost s: seq<Node>) returns (b: bool)
    requires List(q, s)
    ensures b <==> s == []
  {
    Ends(q, s);
    b := q == q.next;
  }

  /** QUEUE_HEAD */
  method Head(h: Node, ghost s: seq<Node>) returns (q: Node)
    requires List(h, s) && s != []
    ensures q == s[0]
  {
    Ends(h, s);
    q := h.next;
  }

  /** QUEUE_INSERT_HEAD */
  method InsertHead(h: Node, q: Node, ghost s: seq<Node>)
    requires List(h, s) && q != h && q !in s
    modifies h, q, s
    ensures List(h, [q] + s)
  {
    Ends(h, s);
    Joined([q], s);
    q.next := h.next;
    q.prev := h;
    q.next.prev := q;
    h.next := q;
    Closed(h, [q] + s);
  }

  /** QUEUE_INSERT_TAIL */
  method InsertTail(h: Node, q: Node, ghost s: seq<Node>)
    requires List(h, s) && q != h && q !in s
    modifies h, q, s
    ensures List(h, s + [q])
  {
    Ends(h, s);
    Joined(s, [q]);
    q.next := h;
    q.prev := h.prev;
    q.prev.next := q;
    h.prev := q;
    Closed(h, s + [q]);
  }

  /** QUEUE_REMOVE of the element between a and b; its own links stay as they were. */
  method Remove(q: Node, ghost h: Node, ghost a: seq<Node>, ghost b: seq<Node>)
    requires List(h, a + [q] + b)
    modifies h, a, b
    ensures List(h, a + b) && q.next == old(q.next) && q.prev == old(q.prev)
  {
    ghost var s := a + [q] + b;
    Ends(h, s);
    Parts(a + [q], b);
    Parts(a, [q]);
    Joined(a, b);
    ghost var before, after := if a == [] then h else a[|a| - 1], if b == [] then h else b[0];
    assert s[|a|] == q && (a != [] ==> s[|a| - 1] == before) && (b != [] ==> s[|a| + 1] == after);
    assert Linked(before, q) && Linked(q, after);
    q.prev.next := q.next;
    q.next.prev := q.prev;
    ghost var t := a + b;
    forall i | 0 <= i < |t| - 1 ensures Linked(t[i], t[i + 1]) {
      assert i < |a| - 1 ==> s[i] == t[i] && s[i + 1] == t[i + 1];
      assert i >= |a| ==> s[i + 1] == t[i] && s[i + 2] == t[i + 1];
    }
    Closed(h, t);
  }

  /** What QUEUE_REMOVE leaves is the list without the element. */
  lemma RemoveIsWithout(a: seq<Node>, q: Node, b: seq<Node>)
    requires Distinct(a + [q] + b)
    ensures Without(a + [q] + b, q) == a + b
  {
    var s := a + [q] + b;
    assert s[|a|] == q;
    var k := WithoutAt(s, q);
    assert k == |a|;
    assert s[..|a|] == a && s[|a| + 1..] == b;
  }

  /** QUEUE_REMOVE of a node that is in no list changes nothing. */
  method RemoveAlone(q: Node)
    requires List(q, [])
    modifies q
    ensures List(q, [])
  {
    q.prev.next := q.next;
    q.next.prev := q.prev;
  }

  /** QUEUE_SPLIT: the list from q on goes to n. */
  method Split(h: Node, q: Node, n: Node, ghost a: seq<Node>, ghost b: seq<Node>)
    requires List(h, a + b) && b != [] && q == b[0] && n != h && n !in a + b
    modifies h, n, a, b
    ensures List(h, a) && List(n, b)
  {
    ghost var s := a + b;
    Ends(h, s);
    Parts(a, b);
    ghost var before := if a == [] then h else a[|a| - 1];
    assert s[|a|] == q && (a != [] ==> s[|a| - 1] == before) && s[|s| - 1] == b[|b| - 1];
    assert Linked(before, q) && Linked(b[|b| - 1], h);
    n.prev := h.prev;
    n.prev.next := n;
    n.next := q;
    h.prev := q.prev;
    h.prev.next := h;
    q.prev := n;
    forall i | 0 <= i < |a| - 1 ensures Linked(a[i], a[i + 1]) {
      assert s[i] == a[i] && s[i + 1] == a[i + 1];
    }
    forall i | 0 <= i < |b| - 1 ensures Linked(b[i], b[i + 1]) {
      assert s[|a| + i] == b[i] && s[|a| + i + 1] == b[i + 1];
    }
    Closed(h, a);
    Closed(n, b);
  }

  /** QUEUE_ADD: the elements of n, which may be none, go to the end of h's; n is left as it falls. */
  method Add(h: Node, n: Node, ghost a: seq<Node>, ghost b: seq<Node>)
    requires List(h, a) && List(n, b) && Distinct([h, n] + a + b)
    modifies h, n, a, b
    ensures List(h, a + b)
  {
    Ends(h, a);
    Ends(n, b);
    Parts([h, n] + a, b);
    Parts([h, n], a);
    assert h in [h, n] && n in [h, n] && h in [h, n] + a && n in [h, n] + a;
    assert h != n && h !in a && n !in a && h !in b && n !in b by {
      assert ([h, n] + a + b)[0] == h && ([h, n] + a + b)[1] == n;
    }
    assert forall x :: x in a ==> x in [h, n] + a;
    Joined(a, b);
    h.prev.next := n.next;
    n.next.prev := h.prev;
    h.prev := n.prev;
    h.prev.next := h;
    ghost var t := a + b;
    if a != [] && b != [] {
      assert Linked(a[|a| - 1], b[0]);
    }
    forall i | 0 <= i < |t| - 1 ensures Linked(t[i], t[i + 1]) {
      assert i < |a| - 1 ==> t[i] == a[i] && t[i + 1] == a[i + 1];
      assert i >= |a| ==> t[i] == b[i - |a|] && t[i + 1] == b[i + 1 - |a|];
    }
    Closed(h, t);
  }
}
