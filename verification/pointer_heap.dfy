/** The binary min-heap of libuv/src/heap-inl.h: nodes linked by pointers, kept as
    the complete tree on positions 1..nelts.  `nodes[k - 1]` is the node at position k. */
module PointerHeap {
  import opened Lists

  /** `key` stands for what the comparison reads in the structure around the node. */
  class Node<K> {
    var left: Node?<K>
    var right: Node?<K>
    var parent: Node?<K>
    const key: K

    constructor (key: K)
      ensures this.key == key
    {
      this.key := key;
      left, right, parent := null, null, null;
    }
  }

  type Less<!K> = (K, K) -> bool

  /** The node at a position, counted from 1. */
  function Slot<K>(s: seq<Node<K>>, k: int): Node?<K> {
    if 1 <= k <= |s| then s[k - 1] else null
  }

  ghost function Elems<K>(s: seq<Node<K>>): set<Node<K>> {
    set n | n in s
  }

  /** The links of the node at position `k`. */
  ghost predicate Placed<K>(s: seq<Node<K>>, k: int)
    requires 1 <= k <= |s|
    reads s[k - 1]
  {
    s[k - 1].left == Slot(s, 2 * k) && s[k - 1].right == Slot(s, 2 * k + 1) && s[k - 1].parent == Slot(s, k / 2)
  }

  ghost predicate Linked<K>(s: seq<Node<K>>)
    reads s
  {
    Distinct(s) && forall k :: 1 <= k <= |s| ==> Placed(s, k)
  }

  // ---- order ----

  ghost predicate StrictWeakOrder<K(!new)>(less: Less<K>) {
    && (forall a, b :: less(a, b) ==> !less(b, a))
    && (forall a, b, c :: less(a, c) ==> less(a, b) || less(b, c))
  }

  /** The node at position `k` is not below the node at position `j`. */
  ghost predicate NotLess<K(!new)>(less: Less<K>, s: seq<Node<K>>, k: int, j: int)
    requires 1 <= k <= |s| && 1 <= j <= |s|
  {
    !less(s[k - 1].key, s[j - 1].key)
  }

  ghost predicate Ordered<K(!new)>(less: Less<K>, s: seq<Node<K>>) {
    forall k :: 2 <= k <= |s| ==> NotLess(less, s, k, k / 2)
  }

  ghost predicate UpOk<K(!new)>(less: Less<K>, s: seq<Node<K>>, p: int) 
    requires 1 <= p <= |s|
  {
    && (forall k :: 2 <= k <= |s| && k != p ==> NotLess(less, s, k, k / 2))
    && (forall k :: 2 <= k <= |s| && k / 2 == p && p > 1 ==> NotLess(less, s, k, p / 2))
  }

  ghost predicate Exchanged<K>(s: seq<Node<K>>, r: seq<Node<K>>, p: int)
    requires 2 <= p <= |s|
  {
    && |r| == |s| && r[p - 1] == s[p / 2 - 1] && r[p / 2 - 1] == s[p - 1] && Distinct(r)
    && forall k :: k != p && k != p / 2 ==> Slot(r, k) == Slot(s, k)
  }

  lemma Moved<K>(s: seq<Node<K>>, r: seq<Node<K>>, p: int, k: int)
    requires 2 <= p <= |s| && Exchanged(s, r, p)
    ensures Slot(r, k) == if k == p then Slot(s, p / 2) else if k == p / 2 then Slot(s, p) else Slot(s, k)
  {
  }

  lemma SlotUpdate<K>(s: seq<Node<K>>, p: int, n: Node<K>, k: int)
    requires 1 <= p <= |s|
    ensures Slot(s[p - 1 := n], k) == if k == p then n else Slot(s, k)
  {
  }

  /** The last element in place of another one. */
  lemma Replaced<T>(s: seq<T>, i: nat, x: T)
    requires i < |s|
    ensures multiset(s[i := x]) == multiset(s + [x]) - multiset{s[i]}
  {
    assert multiset(s + [x]) == multiset(s) + multiset{x};
  }

  lemma ElemsReplaced<K>(s: seq<Node<K>>, i: nat, x: Node<K>)
    requires i < |s|
    ensures Elems(s[i := x]) <= Elems(s) + {x}
  {
  }

  function Exchange<T>(s: seq<T>, i: int, j: int): (r: seq<T>)
    requires 1 <= i <= |s| && 1 <= j <= |s|
    ensures |r| == |s|
  {
    s[i - 1 := s[j - 1]][j - 1 := s[i - 1]]
  }

  lemma ExchangeCounts<K>(s: seq<Node<K>>, i: int, j: int)
    requires 1 <= i < j <= |s|
    ensures multiset(Exchange(s, i, j)) == multiset(s)
  {
  }

  lemma SameElems<K>(r: seq<Node<K>>, s: seq<Node<K>>)
    requires multiset(r) == multiset(s)
    ensures Elems(r) == Elems(s)
  {
    assert forall n :: n in r <==> n in multiset(r);
    assert forall n :: n in s <==> n in multiset(s);
  }

  lemma ExchangeIs<K>(s: seq<Node<K>>, p: int)
    requires 2 <= p <= |s| && Distinct(s)
    ensures Exchanged(s, Exchange(s, p / 2, p), p)
    ensures multiset(Exchange(s, p / 2, p)) == multiset(s) && Elems(Exchange(s, p / 2, p)) == Elems(s)
  {
    ExchangeCounts(s, p / 2, p);
    SameElems(Exchange(s, p / 2, p), s);
  }

  /** Moving a node up past a larger parent. */
  lemma UpStep<K(!new)>(less: Less<K>, s: seq<Node<K>>, r: seq<Node<K>>, p: int)
    requires StrictWeakOrder(less) && 2 <= p <= |s| && Exchanged(s, r, p)
    requires UpOk(less, s, p) && !NotLess(less, s, p, p / 2)
    ensures UpOk(less, r, p / 2)
  {
    var q := p / 2;
    forall k | 2 <= k <= |r| && k != q ensures NotLess(less, r, k, k / 2) {
      Moved(s, r, p, k);
      Moved(s, r, p, k / 2);
      assert k != p ==> NotLess(less, s, k, k / 2);
      assert k / 2 == p ==> NotLess(less, s, k, q);
    }
    forall k | 2 <= k <= |r| && k / 2 == q && q > 1 ensures NotLess(less, r, k, q / 2) {
      Moved(s, r, p, k);
      Moved(s, r, p, q / 2);
      assert NotLess(less, s, q, q / 2);
      assert k != p ==> NotLess(less, s, k, q);
    }
  }

  /** Everything is in order except around position `p`, whose node may be too large. */
  ghost predicate DownOk<K(!new)>(less: Less<K>, s: seq<Node<K>>, p: int)
    requires 1 <= p <= |s|
  {
    && (forall k :: 2 <= k <= |s| && k != p && k / 2 != p ==> NotLess(less, s, k, k / 2))
    && (forall k :: 2 <= k <= |s| && k / 2 == p && p > 1 ==> NotLess(less, s, k, p / 2))
  }

  lemma OrderedPrefix<K(!new)>(less: Less<K>, s: seq<Node<K>>, n: Node<K>)
    requires Ordered(less, s + [n])
    ensures Ordered(less, s)
  {
    assert forall k :: 2 <= k <= |s| ==> NotLess(less, s + [n], k, k / 2) ==> NotLess(less, s, k, k / 2);
  }

  /** Another node at position `p`. */
  lemma OrderedExcept<K(!new)>(less: Less<K>, s: seq<Node<K>>, p: int, n: Node<K>)
    requires StrictWeakOrder(less) && Ordered(less, s) && 1 <= p <= |s|
    ensures DownOk(less, s[p - 1 := n], p)
  {
    var r := s[p - 1 := n];
    forall k | 2 <= k <= |s| && k != p && k / 2 != p ensures NotLess(less, r, k, k / 2) {
      assert NotLess(less, s, k, k / 2);
    }
    forall k | 2 <= k <= |s| && k / 2 == p && p > 1 ensures NotLess(less, r, k, p / 2) {
      assert NotLess(less, s, k, p) && NotLess(less, s, p, p / 2);
    }
  }

  /** Moving a node down past its smallest child at position `p`. */
  lemma DownStep<K(!new)>(less: Less<K>, s: seq<Node<K>>, r: seq<Node<K>>, p: int)
    requires StrictWeakOrder(less) && 2 <= p <= |s| && Exchanged(s, r, p)
    requires DownOk(less, s, p / 2) && !NotLess(less, s, p, p / 2)
    requires forall k :: 2 <= k <= |s| && k / 2 == p / 2 ==> NotLess(less, s, k, p)
    ensures DownOk(less, r, p)
  {
    var q := p / 2;
    forall k | 2 <= k <= |r| && k != p && k / 2 != p ensures NotLess(less, r, k, k / 2) {
      Moved(s, r, p, k);
      Moved(s, r, p, k / 2);
      if k == q {
        assert NotLess(less, s, p, q / 2);
      } else if k / 2 == q {
        assert NotLess(less, s, k, p);
      } else {
        assert NotLess(less, s, k, k / 2);
      }
    }
    forall k | 2 <= k <= |r| && k / 2 == p ensures NotLess(less, r, k, q) {
      Moved(s, r, p, k);
      Moved(s, r, p, q);
      assert NotLess(less, s, k, p);
    }
  }

  /** A node not larger than its children is in order, except towards its parent. */
  lemma DownDone<K(!new)>(less: Less<K>, s: seq<Node<K>>, p: int)
    requires 1 <= p <= |s| && DownOk(less, s, p)
    requires forall k :: 2 <= k <= |s| && k / 2 == p ==> NotLess(less, s, k, p)
    ensures UpOk(less, s, p)
  {
  }

  // ---- the way to a position ----

  /** Where `k` steps lead from position `pos`, right for odd and left for even. */
  ghost function Walk(pos: nat, path: nat, k: nat): nat
    decreases k
  {
    if k == 0 then pos else Walk(2 * pos + path % 2, path / 2, k - 1)
  }

  lemma {:induction false} WalkGrows(pos: nat, path: nat, k: nat)
    requires pos > 0
    ensures Walk(pos, path, k) >= pos && (k > 0 ==> Walk(pos, path, k) > pos)
    decreases k
  {
    if k > 0 {
      WalkGrows(2 * pos + path % 2, path / 2, k - 1);
    }
  }

  /** The reversed low bits of `target` are the way from the root to its position.
      The bits fit: `path` stays below the highest bit of `target`. */
  method PathTo(target: nat) returns (path: nat, k: nat)
    requires target >= 1
    ensures Walk(1, path, k) == target && path < target
  {
    path, k := 0, 0;
    var n := target;
    ghost var bit := 1;
    while n >= 2
      invariant n >= 1 && Walk(n, path, k) == target && path < bit && bit * n <= target
      decreases n
    {
      assert (2 * bit) * (n / 2) <= bit * n;
      assert Walk(n / 2, 2 * path + n % 2, k + 1) == Walk(n, path, k);
      path := 2 * path + n % 2;
      k, n, bit := k + 1, n / 2, 2 * bit;
    }
  }

  class Heap<K(!new)> {
    var min: Node?<K>
    var nelts: nat
    const less: Less<K>
    ghost var nodes: seq<Node<K>>

    ghost predicate Wired(s: seq<Node<K>>)
      reads this`min, s
    {
      min == Slot(s, 1) && Linked(s)
    }

    /** A node that may be missing gets a parent. */
    static method SetParent(n: Node?<K>, parent: Node<K>)
      modifies {n}`parent
      ensures n != null ==> n.parent == parent
    {
      if n != null {
        n.parent := parent;
      }
    }

    /** Whatever points to `was` from above points to `now`. */
    method Relink(above: Node?<K>, was: Node<K>, now: Node<K>)
      modifies this`min, above
      ensures above == null ==> min == now
      ensures above != null ==> (
        min == old(min) && above.parent == old(above.parent)
        && if old(above.left) == was then above.left == now && above.right == old(above.right)
           else above.right == now && above.left == old(above.left))
    {
      if above == null {
        min := now;
      } else if above.left == was {
        above.left := now;
      } else {
        above.right := now;
      }
    }

    /** heap_node_swap, field by field. */
    method SwapFields(parent: Node<K>, child: Node<K>, ghost sibling: Node?<K>)
      requires parent != child && child.parent == parent
      requires (parent.left == child && parent.right == sibling) || (parent.left == sibling && parent.right == child)
      requires sibling != child && sibling != parent && child.left != parent && child.right != parent
      requires child.left != child && child.right != child && parent.parent != parent && parent.parent != child
      requires sibling != null ==> sibling != child.left && sibling != child.right && sibling != parent.parent
      requires child.left != null ==> child.left != child.right && child.left != parent.parent
      requires child.right != null ==> child.right != parent.parent
      modifies this`min, parent, child, {sibling, child.left, child.right}`parent, parent.parent
      ensures parent.left == old(child.left) && parent.right == old(child.right) && parent.parent == child
      ensures child.parent == old(parent.parent)
      ensures if old(parent.left) == child then child.left == parent && child.right == sibling
              else child.left == sibling && child.right == parent
      ensures sibling != null ==> sibling.parent == child
      ensures old(child.left) != null ==> old(child.left).parent == parent
      ensures old(child.right) != null ==> old(child.right).parent == parent
      ensures var u := old(parent.parent);
        (u == null ==> min == child) && (u != null ==> (
          min == old(min) && u.parent == old(u.parent)
          && if old(u.left) == parent then u.left == child && u.right == old(u.right)
             else u.right == child && u.left == old(u.left)))
    {
      var other: Node?<K>;
      var l, r, u := parent.left, parent.right, parent.parent;
      parent.left, parent.right, parent.parent := child.left, child.right, child.parent;
      child.left, child.right, child.parent := l, r, u;

      parent.parent := child;
      if child.left == child {
        child.left := parent;
        other := child.right;
      } else {
        child.right := parent;
        other := child.left;
      }
      SetParent(other, child);
      SetParent(parent.left, parent);
      SetParent(parent.right, parent);
      Relink(child.parent, parent, child);
    }

    /** heap_node_swap: the child at position `p` moves up, its parent moves down. */
    method NodeSwap(parent: Node<K>, child: Node<K>, ghost s: seq<Node<K>>, ghost r: seq<Node<K>>, ghost p: int)
      requires 2 <= p <= |s| && Wired(s) && s[p - 1] == child && s[p / 2 - 1] == parent
      requires Exchanged(s, r, p)
      modifies this`min, Elems(s)
      ensures Wired(r)
    {
      ghost var q := p / 2;
      assert Placed(s, p) && Placed(s, q);
      ghost var sibling := Slot(s, if p == 2 * q then p + 1 else p - 1);
      SwapFields(parent, child, sibling);
      forall k | 1 <= k <= |r| ensures Placed(r, k) {
        assert old(Placed(s, k));
        Moved(s, r, p, k);
        Moved(s, r, p, 2 * k);
        Moved(s, r, p, 2 * k + 1);
        Moved(s, r, p, k / 2);
      }
    }

    ghost predicate Valid()
      reads this, nodes
    {
      StrictWeakOrder(less) && nelts == |nodes| && Wired(nodes) && Ordered(less, nodes)
    }

    constructor (less: Less<K>)
      requires StrictWeakOrder(less)
      ensures Valid() && nodes == [] && this.less == less
    {
      min, nelts, nodes := null, 0, [];
      this.less := less;
    }

    /** Follow a path from `min`.  The place reached is `min` itself when `owner` is null,
        else the right or left field of `owner`; `cur` is what is there. */
    method Descend(target: nat, path0: nat, k0: nat) returns (par: Node?<K>, owner: Node?<K>, onRight: bool, cur: Node?<K>)
      requires Wired(nodes) && 1 <= target <= |nodes| + 1 && Walk(1, path0, k0) == target
      ensures cur == Slot(nodes, target) && owner == Slot(nodes, target / 2)
      ensures target > 1 ==> par == owner && onRight == (target % 2 == 1)
      ensures target == 1 ==> par == cur
    {
      var path, k := path0, k0;
      par, owner, onRight, cur := min, null, false, min;
      ghost var pos := 1;
      while k > 0
        invariant pos > 0 && Walk(pos, path, k) == target
        invariant cur == Slot(nodes, pos) && owner == Slot(nodes, pos / 2)
        invariant pos > 1 ==> par == owner && onRight == (pos % 2 == 1)
        invariant pos == 1 ==> par == cur
        decreases k
      {
        WalkGrows(pos, path, k);
        assert Placed(nodes, pos);
        par, owner, onRight := cur, cur, path % 2 == 1;
        cur := if path % 2 == 1 then cur.right else cur.left;
        pos := 2 * pos + path % 2;
        path, k := path / 2, k - 1;
      }
      WalkGrows(pos, path, k);
    }

    /** Store into the place that `Descend` found. */
    method Store(owner: Node?<K>, onRight: bool, n: Node?<K>)
      modifies this`min, owner
      ensures owner == null ==> min == n
      ensures owner != null ==> (
        min == old(min) && owner.parent == old(owner.parent)
        && if onRight then owner.right == n && owner.left == old(owner.left)
           else owner.left == n && owner.right == old(owner.right))
    {
      if owner == null {
        min := n;
      } else if onRight {
        owner.right := n;
      } else {
        owner.left := n;
      }
    }

    /** The new node as a leaf at the first free position. */
    method Append(newnode: Node<K>)
      requires Wired(nodes) && nelts == |nodes| && newnode !in nodes
      modifies this, Elems(nodes), newnode
      ensures nodes == old(nodes) + [newnode] && Wired(nodes) && nelts == |nodes|
    {
      newnode.left, newnode.right, newnode.parent := null, null, null;
      var path, k := PathTo(1 + nelts);
      var par, owner, onRight, cur := Descend(1 + nelts, path, k);
      newnode.parent := par;
      Store(owner, onRight, newnode);
      nelts := nelts + 1;
      nodes := nodes + [newnode];
      forall j | 1 <= j <= |nodes| ensures Placed(nodes, j) {
        if j < |nodes| { assert old(Placed(nodes, j)); }
      }
    }

    /** Swap a node with its parent, in `nodes` too. */
    method SwapUp(parent: Node<K>, child: Node<K>, ghost p: int)
      requires 2 <= p <= |nodes| && Wired(nodes) && nodes[p - 1] == child && nodes[p / 2 - 1] == parent
      modifies this`min, this`nodes, Elems(nodes)
      ensures nodes == Exchange(old(nodes), p / 2, p) && Exchanged(old(nodes), nodes, p) && Wired(nodes)
      ensures nelts == old(nelts)
      ensures multiset(nodes) == multiset(old(nodes)) && Elems(nodes) == Elems(old(nodes))
    {
      ExchangeIs(nodes, p);
      NodeSwap(parent, child, nodes, Exchange(nodes, p / 2, p), p);
      nodes := Exchange(nodes, p / 2, p);
    }

    /** Walk up and swap while the node is smaller than its parent. */
    method SiftUp(node: Node<K>, ghost p0: int)
      requires StrictWeakOrder(less) && Wired(nodes) && 1 <= p0 <= |nodes| && nodes[p0 - 1] == node
      requires UpOk(less, nodes, p0)
      modifies this`min, this`nodes, Elems(nodes)
      ensures Wired(nodes) && Ordered(less, nodes)
      ensures multiset(nodes) == multiset(old(nodes)) && |nodes| == |old(nodes)| && nelts == old(nelts)
      ensures Elems(nodes) == Elems(old(nodes))
    {
      ghost var p := p0;
      assert Placed(nodes, p);
      while node.parent != null && less(node.key, node.parent.key)
        invariant Wired(nodes) && 1 <= p <= |nodes| == |old(nodes)| && nodes[p - 1] == node
        invariant UpOk(less, nodes, p) && multiset(nodes) == multiset(old(nodes))
        invariant node.parent == Slot(nodes, p / 2) && Elems(nodes) == Elems(old(nodes))
        invariant nelts == old(nelts)
        decreases p
      {
        ghost var s := nodes;
        SwapUp(node.parent, node, p);
        UpStep(less, s, nodes, p);
        p := p / 2;
        assert Placed(nodes, p);
      }
      if p > 1 {
        assert NotLess(less, nodes, p, p / 2);
      }
    }

    /** heap_insert */
    method Insert(newnode: Node<K>)
      requires Valid() && newnode !in nodes
      modifies this, Elems(nodes), newnode
      ensures Valid()
      ensures multiset(nodes) == multiset(old(nodes)) + multiset{newnode}
    {
      Append(newnode);
      assert forall k :: 2 <= k < |nodes| ==> NotLess(less, old(nodes), k, k / 2) ==> NotLess(less, nodes, k, k / 2);
      SiftUp(newnode, nelts);
    }

    /** The smallest of a node and its children. */
    method Smallest(child: Node<K>, ghost p: int) returns (smallest: Node<K>, ghost q: int)
      requires StrictWeakOrder(less) && Wired(nodes) && 1 <= p <= |nodes| && nodes[p - 1] == child
      ensures 1 <= q <= |nodes| && nodes[q - 1] == smallest && (q == p || (q / 2 == p && less(smallest.key, child.key)))
      ensures forall k :: 2 <= k <= |nodes| && k / 2 == p ==> NotLess(less, nodes, k, q)
    {
      assert Placed(nodes, p);
      smallest, q := child, p;
      if child.left != null && less(child.left.key, smallest.key) {
        smallest, q := child.left, 2 * p;
      }
      if child.right != null && less(child.right.key, smallest.key) {
        smallest, q := child.right, 2 * p + 1;
      }
      forall k | 2 <= k <= |nodes| && k / 2 == p ensures NotLess(less, nodes, k, q) {
        assert k == 2 * p || k == 2 * p + 1;
      }
    }

    /** Walk down and swap with the smallest child while that is smaller. */
    method SiftDown(child: Node<K>, ghost p0: int) returns (ghost p: int)
      requires StrictWeakOrder(less) && Wired(nodes) && 1 <= p0 <= |nodes| && nodes[p0 - 1] == child
      requires DownOk(less, nodes, p0)
      modifies this`min, this`nodes, Elems(nodes)
      ensures Wired(nodes) && 1 <= p <= |nodes| && nodes[p - 1] == child && UpOk(less, nodes, p)
      ensures multiset(nodes) == multiset(old(nodes)) && |nodes| == |old(nodes)| && nelts == old(nelts)
      ensures Elems(nodes) == Elems(old(nodes))
    {
      p := p0;
      while true
        invariant Wired(nodes) && 1 <= p <= |nodes| == |old(nodes)| && nodes[p - 1] == child
        invariant DownOk(less, nodes, p) && multiset(nodes) == multiset(old(nodes))
        invariant Elems(nodes) == Elems(old(nodes))
        invariant nelts == old(nelts)
        decreases |nodes| - p
      {
        var smallest;
        ghost var q;
        smallest, q := Smallest(child, p);
        if smallest == child {
          DownDone(less, nodes, p);
          return;
        }
        ghost var s := nodes;
        SwapUp(child, smallest, q);
        DownStep(less, s, nodes, q);
        p := q;
      }
    }

    /** Take the node at the last position out of its place. */
    method TakeLast() returns (child: Node<K>)
      requires Wired(nodes) && nelts == |nodes| > 0
      modifies this, Elems(nodes)
      ensures child == old(nodes)[|old(nodes)| - 1] && nodes == old(nodes)[..|old(nodes)| - 1]
      ensures Wired(nodes) && nelts == |nodes|
    {
      var path, k := PathTo(nelts);
      var par, owner, onRight, cur := Descend(nelts, path, k);
      nelts := nelts - 1;
      child := cur;
      Store(owner, onRight, null);
      nodes := nodes[..|nodes| - 1];
      forall j | 1 <= j <= |nodes| ensures Placed(nodes, j) {
        assert old(Placed(nodes, j));
      }
    }

    /** `child` gets the links of `node`, field by field. */
    method TakeFields(node: Node<K>, child: Node<K>)
      requires node != child && node.left != child && node.right != child && node.parent != child
      requires node.left != node && node.right != node && node.parent != node
      requires node.left != null ==> node.left != node.right && node.left != node.parent
      requires node.right != null ==> node.right != node.parent
      modifies this`min, child, {node.left, node.right}`parent, node.parent
      ensures child.left == node.left && child.right == node.right && child.parent == node.parent
      ensures node.left != null ==> node.left.parent == child
      ensures node.right != null ==> node.right.parent == child
      ensures var u := node.parent;
        (u == null ==> min == child) && (u != null ==> (
          min == old(min) && u.parent == old(u.parent)
          && if old(u.left) == node then u.left == child && u.right == old(u.right)
             else u.right == child && u.left == old(u.left)))
    {
      child.left := node.left;
      child.right := node.right;
      child.parent := node.parent;
      SetParent(child.left, child);
      SetParent(child.right, child);
      Relink(node.parent, node, child);
    }

    /** `child`, outside the heap, takes over the place of the node at position `p`. */
    method Replace(node: Node<K>, child: Node<K>, ghost p: int)
      requires Wired(nodes) && 1 <= p <= |nodes| && nodes[p - 1] == node && child !in nodes
      modifies this`min, this`nodes, Elems(nodes), child
      ensures nodes == old(nodes)[p - 1 := child] && Wired(nodes) && nelts == old(nelts)
    {
      ghost var s := nodes;
      assert Placed(s, p);
      assert 1 <= p / 2 ==> Placed(s, p / 2);
      TakeFields(node, child);
      nodes := nodes[p - 1 := child];
      forall j | 1 <= j <= |nodes| ensures Placed(nodes, j) {
        assert old(Placed(nodes, j));
        SlotUpdate(s, p, child, 2 * j);
        SlotUpdate(s, p, child, 2 * j + 1);
        SlotUpdate(s, p, child, j / 2);
      }
    }

    /** heap_remove, once the last node is out: it takes the place of `node` and finds its level. */
    method FillGap(node: Node<K>, child: Node<K>)
      requires Valid() && node in nodes && child !in nodes
      modifies this, Elems(nodes), child
      ensures Valid()
      ensures multiset(nodes) == multiset(old(nodes) + [child]) - multiset{node}
    {
      ghost var i :| 0 <= i < |nodes| && nodes[i] == node;
      OrderedExcept(less, nodes, i + 1, child);
      Replaced(nodes, i, child);
      ElemsReplaced(nodes, i, child);
      hide StrictWeakOrder, DownOk, UpOk, Ordered, NotLess, Linked, Placed, Distinct;
      Replace(node, child, i + 1);
      ghost var q := SiftDown(child, i + 1);
      SiftUp(child, q);
    }

    /** heap_remove; of an empty heap it takes nothing, whatever it is given. */
    method Remove(node: Node?<K>)
      requires Valid() && (nelts > 0 ==> node in nodes)
      modifies this, Elems(nodes)
      ensures Valid()
      ensures multiset(nodes) == if old(nodes) == [] then multiset{} else multiset(old(nodes)) - multiset{node}
    {
      if nelts == 0 {
        return;
      }
      var child := TakeLast();
      assert old(nodes) == nodes + [child];
      OrderedPrefix(less, nodes, child);
      if child == node {
        assert child != min;  // unlinking the last node has already cleared `min`
        return;
      }
      FillGap(node, child);
    }

    /** heap_dequeue, also of an empty heap. */
    method Dequeue()
      requires Valid()
      modifies this, Elems(nodes)
      ensures Valid()
      ensures multiset(nodes) == if old(nodes) == [] then multiset{} else multiset(old(nodes)) - multiset{old(min)}
    {
      Remove(min);
    }

    /** The root is not above any element. */
    lemma {:induction false} MinIsLeast(k: int)
      requires Valid() && 1 <= k <= |nodes|
      ensures min == nodes[0] && !less(nodes[k - 1].key, min.key)
      decreases k
    {
      if k > 1 {
        MinIsLeast(k / 2);
        assert NotLess(less, nodes, k, k / 2);
      }
    }
  }
}
