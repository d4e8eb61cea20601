/** The splay tree of libuv/tree.h: the top-down splay with its scratch node, and insertion,
    removal, lookup and the extremes built on it. */
module SplayTree {
  import opened SplayShape

  ghost predicate Sorted(s: seq<Node>) {
    forall i, j :: 0 <= i < j < |s| ==> s[i].key < s[j].key
  }

  ghost predicate Below(s: seq<Node>, key: int) {
    forall n :: n in s ==> n.key < key
  }

  ghost predicate Above(s: seq<Node>, key: int) {
    forall n :: n in s ==> key < n.key
  }

  /** The top has the key, or is the nearest element on one side of where it would be. */
  ghost predicate Nearest(t: Tree, key: int)
    requires t.T?
  {
    || t.n.key == key
    || (key < t.n.key && Below(InOrder(t.l), key))
    || (t.n.key < key && Above(InOrder(t.r), key))
  }

  lemma SortedParts(a: seq<Node>, n: Node, b: seq<Node>)
    requires Sorted(a + [n] + b)
    ensures Below(a, n.key) && Above(b, n.key) && Sorted(a) && Sorted(b)
  {
    var s := a + [n] + b;
    assert s[|a|] == n;
    forall i | 0 <= i < |a| ensures a[i].key < n.key {
      assert s[i] == a[i];
    }
    forall i | 0 <= i < |b| ensures n.key < b[i].key {
      assert s[|a| + 1 + i] == b[i];
    }
    forall i, j | 0 <= i < j < |a| ensures a[i].key < a[j].key {
      assert s[i] == a[i] && s[j] == a[j];
    }
    forall i, j | 0 <= i < j < |b| ensures b[i].key < b[j].key {
      assert s[|a| + 1 + i] == b[i] && s[|a| + 1 + j] == b[j];
    }
  }

  lemma SortedJoin(a: seq<Node>, n: Node, b: seq<Node>)
    requires Sorted(a) && Sorted(b) && Below(a, n.key) && Above(b, n.key)
    ensures Sorted(a + [n] + b)
  {
  }

  /** A key that is in the tree is brought to the top. */
  lemma FoundAtTop(t: Tree, key: int, x: Node)
    requires t.T? && Sorted(InOrder(t)) && Nearest(t, key) && x in InOrder(t) && x.key == key
    ensures t.n == x
  {
    SortedParts(InOrder(t.l), t.n, InOrder(t.r));
  }

  /** The search: what has been taken off to the left is smaller, to the right larger. */
  ghost predicate Searching(p: Parts, line: seq<Node>, key: int) {
    p.t.T? && Line(p) == line && Below(LineL(p.l), key) && Above(LineR(p.r), key)
  }

  lemma SearchLeft(p: Parts, line: seq<Node>, key: int)
    requires Searching(p, line, key) && Sorted(line) && key < p.t.n.key && p.t.l.T?
    ensures Searching(LinkedLeft(p), line, key)
  {
    LinkedLines(p);
    TopParts(p);
  }

  lemma SearchRight(p: Parts, line: seq<Node>, key: int)
    requires Searching(p, line, key) && Sorted(line) && p.t.n.key < key && p.t.r.T?
    ensures Searching(LinkedRight(p), line, key)
  {
    LinkedLines(p);
    TopParts(p);
  }

  lemma TopParts(p: Parts)
    requires p.t.T? && Sorted(Line(p))
    ensures Below(InOrder(p.t.l), p.t.n.key) && Above(InOrder(p.t.r), p.t.n.key)
  {
    var a, l, n, r, z := LineL(p.l), InOrder(p.t.l), p.t.n, InOrder(p.t.r), LineR(p.r);
    assert Line(p) == (a + l) + [n] + (r + z);
    SortedParts(a + l, n, r + z);
  }

  lemma SearchRotated(p: Parts, line: seq<Node>, key: int)
    requires Searching(p, line, key)
    ensures p.t.l.T? ==> Searching(RotatedRight(p), line, key)
    ensures p.t.r.T? ==> Searching(RotatedLeft(p), line, key)
  {
    RotatedLines(p);
  }

  /** Where the search may end. */
  ghost predicate Ended(p: Parts, key: int)
    requires p.t.T?
  {
    p.t.n.key == key || (key < p.t.n.key && p.t.l.Leaf?) || (p.t.n.key < key && p.t.r.Leaf?)
  }

  lemma EndedNearest(p: Parts, line: seq<Node>, key: int)
    requires Searching(p, line, key) && Ended(p, key)
    ensures Nearest(Assembled(p), key) && InOrder(Assembled(p)) == line
  {
    AssembledLine(p);
    assert p.t.l.Leaf? ==> LineL(p.l) + InOrder(p.t.l) == LineL(p.l);
    assert p.t.r.Leaf? ==> InOrder(p.t.r) + LineR(p.r) == LineR(p.r);
  }

  class Head {
    var root: Node?
    ghost var mem: Mem
    ghost var tree: Tree

    ghost predicate Synced()
      reads this`mem, mem.Keys
    {
      forall n :: n in mem ==> mem[n] == Cell(n.left, n.right)
    }

    ghost predicate Valid()
      reads this, mem.Keys
    {
      Synced() && Linked(mem, tree) && mem.Keys == Elems(tree) && root == Root(tree) && Sorted(InOrder(tree))
    }

    /** The elements in order. */
    ghost function Contents(): seq<Node>
      reads this`tree
    {
      InOrder(tree)
    }

    constructor ()
      ensures Valid() && Contents() == []
    {
      root, mem, tree := null, map[], Leaf;
    }

    method SetLeft(n: Node, v: Node?)
      requires Synced() && n in mem
      modifies n`left, this`mem
      ensures Synced() && mem == SetL(old(mem), n, v) && mem.Keys == old(mem.Keys)
    {
      n.left := v;
      mem := SetL(mem, n, v);
    }

    method SetRight(n: Node, v: Node?)
      requires Synced() && n in mem
      modifies n`right, this`mem
      ensures Synced() && mem == SetR(old(mem), n, v) && mem.Keys == old(mem.Keys)
    {
      n.right := v;
      mem := SetR(mem, n, v);
    }

    /** In the middle of a splay: the parts are in memory and `root` is the top of what is left. */
    ghost predicate Open(p: Parts)
      reads this`root, this`mem, mem.Keys
    {
      Synced() && Holds(mem, p) && root == Root(p.t)
    }

    lemma OpenKids(p: Parts)
      requires Open(p) && p.t.T?
      ensures p.t.n in mem && root == p.t.n && root.left == Root(p.t.l) && root.right == Root(p.t.r)
      ensures p.t.l.T? ==> p.t.l.n in mem && p.t.l.n != root && p.t.l.n.left == Root(p.t.l.l) && p.t.l.n.right == Root(p.t.l.r)
      ensures p.t.r.T? ==> p.t.r.n in mem && p.t.r.n != root && p.t.r.n.left == Root(p.t.r.l) && p.t.r.n.right == Root(p.t.r.r)
    {
      assert p.t.l.T? ==> Linked(mem, p.t.l);
      assert p.t.r.T? ==> Linked(mem, p.t.r);
    }

    static lemma RotatedTop(p: Parts)
      requires p.t.T?
      ensures p.t.l.T? ==> Root(RotatedRight(p).t) == p.t.l.n
      ensures p.t.r.T? ==> Root(RotatedLeft(p).t) == p.t.r.n
    {
    }

    /** SPLAY_ROTATE_RIGHT */
    method RotateRight(tmp: Node, ghost p: Parts)
      requires Open(p) && p.t.T? && p.t.l.T? && tmp == p.t.l.n
      modifies this`root, this`mem, mem.Keys
      ensures Open(RotatedRight(p)) && mem.Keys == old(mem.Keys)
    {
      hide Holds, RotatedRight, LinkedL, LinkedR, SElems, InOrder;
      OpenKids(p);
      RotateRightHolds(mem, p);
      RotatedTop(p);
      SetLeft(root, tmp.right);
      SetRight(tmp, root);
      root := tmp;
    }

    /** SPLAY_ROTATE_LEFT */
    method RotateLeft(tmp: Node, ghost p: Parts)
      requires Open(p) && p.t.T? && p.t.r.T? && tmp == p.t.r.n
      modifies this`root, this`mem, mem.Keys
      ensures Open(RotatedLeft(p)) && mem.Keys == old(mem.Keys)
    {
      hide Holds, RotatedLeft, LinkedL, LinkedR, SElems, InOrder;
      OpenKids(p);
      RotateLeftHolds(mem, p);
      RotatedTop(p);
      SetRight(root, tmp.left);
      SetLeft(tmp, root);
      root := tmp;
    }

    /** SPLAY_LINKLEFT on the end of the right part. */
    method LinkLeft(right: Node, ghost p: Parts) returns (right': Node)
      requires Open(p) && p.t.T? && right == End(p.r, p.scratch)
      modifies this`root, this`mem, mem.Keys
      ensures Open(LinkedLeft(p)) && right' == p.t.n && mem.Keys == old(mem.Keys)
    {
      OpenKids(p);
      LinkLeftHolds(mem, p);
      TopNotEnd(mem, p);
      SetLeft(right, root);
      right' := root;
      root := root.left;
    }

    /** SPLAY_LINKRIGHT on the end of the left part. */
    method LinkRight(left: Node, ghost p: Parts) returns (left': Node)
      requires Open(p) && p.t.T? && left == End(p.l, p.scratch)
      modifies this`root, this`mem, mem.Keys
      ensures Open(LinkedRight(p)) && left' == p.t.n && mem.Keys == old(mem.Keys)
    {
      OpenKids(p);
      LinkRightHolds(mem, p);
      TopNotEnd(mem, p);
      SetRight(left, root);
      left' := root;
      root := root.right;
    }

    /** SPLAY_ASSEMBLE */
    method Assemble(scratch: Node, left: Node, right: Node, ghost p: Parts)
      requires Open(p) && p.t.T? && scratch == p.scratch && left == End(p.l, scratch) && right == End(p.r, scratch)
      modifies this`mem, mem.Keys
      ensures Synced() && Linked(mem, Assembled(p)) && root == Root(Assembled(p)) && mem.Keys == old(mem.Keys)
    {
      OpenKids(p);
      AssembleHolds(mem, p);
      SetRight(left, root.left);
      SetLeft(right, root.right);
      SetLeft(root, scratch.right);
      SetRight(root, scratch.left);
    }

    /** One turn of the loop of SPLAY, for a key that is not at the top. */
    method Descend(key: int, left: Node, right: Node, ghost p: Parts, ghost line: seq<Node>)
      returns (left': Node, right': Node, stop: bool, ghost p': Parts)
      requires Open(p) && Searching(p, line, key) && Sorted(line) && p.t.n.key != key
      requires left == End(p.l, p.scratch) && right == End(p.r, p.scratch)
      modifies this`root, this`mem, mem.Keys
      ensures Open(p') && Searching(p', line, key) && mem.Keys == old(mem.Keys)
      ensures p'.scratch == p.scratch && left' == End(p'.l, p.scratch) && right' == End(p'.r, p.scratch)
      ensures if stop then Ended(p', key) else Size(p'.t) < Size(p.t)
      ensures All(p') == All(p)
    {
      left', right', stop, p' := left, right, false, p;
      OpenKids(p);
      RotatedLines(p);
      SearchRotated(p, line, key);
      if key < root.key {
        var tmp := root.left;
        if tmp == null {
          stop := true;
          return;
        }
        if key < tmp.key {
          RotateRight(tmp, p);
          p' := RotatedRight(p);
          OpenKids(p');
          if root.left == null {
            stop := true;
            return;
          }
        }
        LinkedLines(p');
        SearchLeft(p', line, key);
        right' := LinkLeft(right, p');
        p' := LinkedLeft(p');
      } else {
        var tmp := root.right;
        if tmp == null {
          stop := true;
          return;
        }
        if tmp.key < key {
          RotateLeft(tmp, p);
          p' := RotatedLeft(p);
          OpenKids(p');
          if root.right == null {
            stop := true;
            return;
          }
        }
        LinkedLines(p');
        SearchRight(p', line, key);
        left' := LinkRight(left, p');
        p' := LinkedRight(p');
      }
    }

    /** A scratch node is there while the tree is open, and only then. */
    method Begin() returns (scratch: Node, ghost p: Parts)
      requires Synced() && Linked(mem, tree) && mem.Keys == Elems(tree) && root == Root(tree)
      modifies this`mem
      ensures fresh(scratch) && p == Parts(scratch, Bottom, tree, Bottom) && Open(p)
      ensures mem.Keys == old(mem.Keys) + {scratch} && Line(p) == InOrder(tree) && All(p) == Elems(tree)
    {
      scratch := new Node(0);
      p := Parts(scratch, Bottom, tree, Bottom);
      ghost var m' := mem[scratch := Cell(null, null)];
      assert forall n :: n in Elems(tree) ==> n in mem && n != scratch;
      Frame(mem, m', tree);
      mem := m';
      assert [] + InOrder(tree) + [] == InOrder(tree);
    }

    method Close(scratch: Node, left: Node, right: Node, ghost p: Parts)
      requires Open(p) && p.t.T? && scratch == p.scratch && left == End(p.l, scratch) && right == End(p.r, scratch)
      requires mem.Keys == All(p) + {scratch}
      modifies this`mem, this`tree, mem.Keys
      ensures Synced() && Linked(mem, tree) && mem.Keys == Elems(tree) == All(p) && root == Root(tree)
      ensures tree == Assembled(p) && InOrder(tree) == Line(p)
    {
      Assemble(scratch, left, right, p);
      tree := Assembled(p);
      AssembledLine(p);
      ghost var m' := mem - {scratch};
      Frame(mem, m', tree);
      mem := m';
    }

    /** SPLAY: the in-order sequence stays, and the key, or the nearest element on one side of
        it, comes to the top. */
    method Splay(key: int)
      requires Valid() && root != null
      modifies this, mem.Keys
      ensures Valid() && tree.T? && root == tree.n && Nearest(tree, key)
      ensures Contents() == old(Contents()) && mem.Keys == old(mem.Keys)
    {
      ghost var line, keys := InOrder(tree), mem.Keys;
      var scratch;
      ghost var p;
      scratch, p := Begin();
      var left, right, stop := scratch, scratch, false;
      while root.key != key && !stop
        invariant Open(p) && Searching(p, line, key) && mem.Keys == keys + {scratch} && All(p) == keys
        invariant p.scratch == scratch && left == End(p.l, scratch) && right == End(p.r, scratch)
        invariant stop ==> Ended(p, key)
        decreases if stop then 0 else 1, Size(p.t)
      {
        left, right, stop, p := Descend(key, left, right, p, line);
      }
      EndedNearest(p, line, key);
      Close(scratch, left, right, p);
    }

    /** SPLAY_FIND */
    method Find(key: int) returns (r: Node?)
      requires Valid()
      modifies this, mem.Keys
      ensures Valid() && Contents() == old(Contents()) && mem.Keys == old(mem.Keys)
      ensures r != null ==> r in Contents() && r.key == key
      ensures r == null ==> forall x :: x in Contents() ==> x.key != key
    {
      if root == null {
        return null;
      }
      Splay(key);
      TopInOrder(tree);
      if root.key == key {
        return root;
      }
      forall x | x in InOrder(tree) ensures x.key != key {
        if x.key == key {
          FoundAtTop(tree, key, x);
        }
      }
      return null;
    }

    /** SPLAY_INSERT of a node that is not in the tree: it is added at its place, or the element
        with its key is returned and nothing changes but the shape. */
    method Insert(elm: Node) returns (r: Node?, ghost b: seq<Node>, ghost a: seq<Node>)
      requires Valid()
      modifies this, mem.Keys, elm
      ensures Valid()
      ensures if r == null
        then old(Contents()) == b + a && Contents() == b + [elm] + a && Below(b, elm.key) && Above(a, elm.key)
        else r in old(Contents()) && r.key == elm.key && Contents() == old(Contents())
      ensures mem.Keys == old(mem.Keys) + if r == null then {elm} else {}
    {
      hide Linked, InOrder, Elems, Sorted, Below, Above, Nearest;
      b, a := [], [];
      if root == null {
        NothingThere();
        NoneAround(elm);
        First(elm);
      } else {
        Splay(elm.key);
        RootThere();
        if elm.key < root.key {
          NotThere(elm);
          b, a := HangLeft(elm);
        } else if root.key < elm.key {
          NotThere(elm);
          b, a := HangRight(elm);
        } else {
          return root, [], [];
        }
      }
      root := elm;
      return null, b, a;
    }

    lemma NothingThere()
      requires Valid() && root == null
      ensures mem.Keys == {} && Contents() == []
    {
    }

    lemma RootThere()
      requires Valid() && root != null
      ensures root in mem && root in Contents()
    {
    }

    lemma NoneAround(elm: Node)
      ensures Below([], elm.key) && Above([], elm.key)
    {
    }

    /** A node of the tree is at the top after its key has been splayed. */
    lemma NotThere(elm: Node)
      requires Valid() && root != null && Nearest(tree, elm.key) && root.key != elm.key
      ensures elm !in mem
    {
      ElemsInOrder(tree);
      if elm in mem {
        FoundAtTop(tree, elm.key, elm);
      }
    }

    /** The only node. */
    method First(elm: Node)
      requires Valid() && root == null && elm !in mem
      modifies this`mem, this`tree, elm`left, elm`right
      ensures Synced() && Linked(mem, tree) && mem.Keys == Elems(tree) == {elm} && Root(tree) == elm
      ensures InOrder(tree) == [elm] && Sorted(InOrder(tree)) && old(Contents()) == [] && old(mem.Keys) == {}
    {
      elm.left, elm.right := null, null;
      tree := T(Leaf, elm, Leaf);
      mem := map[elm := Cell(null, null)];
    }

    /** `elm` over the top, which becomes its right child. */
    method HangLeft(elm: Node) returns (ghost b: seq<Node>, ghost a: seq<Node>)
      requires Valid() && root != null && elm !in mem && elm.key < root.key && Nearest(tree, elm.key)
      modifies this`mem, this`tree, elm`left, elm`right, root`left
      ensures Synced() && Linked(mem, tree) && mem.Keys == Elems(tree) && Root(tree) == elm && Sorted(InOrder(tree))
      ensures old(Contents()) == b + a && Contents() == b + [elm] + a && Below(b, elm.key) && Above(a, elm.key)
      ensures mem.Keys == old(mem.Keys) + {elm}
    {
      ghost var t, m := tree, mem;
      b, a := InOrder(t.l), [t.n] + InOrder(t.r);
      InsertLeftHolds(m, t, elm);
      hide Linked, InOrder, Nearest, Sorted, Below, Above;
      elm.left := root.left;
      elm.right := root;
      root.left := null;
      mem := SetL(m, t.n, null)[elm := Cell(Root(t.l), t.n)];
      tree := T(t.l, elm, T(Leaf, t.n, t.r));
    }

    /** `elm` over the top, which becomes its left child. */
    method HangRight(elm: Node) returns (ghost b: seq<Node>, ghost a: seq<Node>)
      requires Valid() && root != null && elm !in mem && root.key < elm.key && Nearest(tree, elm.key)
      modifies this`mem, this`tree, elm`left, elm`right, root`right
      ensures Synced() && Linked(mem, tree) && mem.Keys == Elems(tree) && Root(tree) == elm && Sorted(InOrder(tree))
      ensures old(Contents()) == b + a && Contents() == b + [elm] + a && Below(b, elm.key) && Above(a, elm.key)
      ensures mem.Keys == old(mem.Keys) + {elm}
    {
      ghost var t, m := tree, mem;
      b, a := InOrder(t.l) + [t.n], InOrder(t.r);
      InsertRightHolds(m, t, elm);
      hide Linked, InOrder, Nearest, Sorted, Below, Above;
      elm.right := root.right;
      elm.left := root;
      root.right := null;
      mem := SetR(m, t.n, null)[elm := Cell(t.n, Root(t.r))];
      tree := T(T(t.l, t.n, Leaf), elm, t.r);
    }

    /** The top, which has no left child, is cut off. */
    method CutTop() returns (ghost x: Node, ghost b: seq<Node>, ghost a: seq<Node>)
      requires Valid() && root != null && root.left == null
      modifies this
      ensures Valid() && x == old(root) && b == []
      ensures old(Contents()) == b + [x] + a && Contents() == b + a && mem.Keys == old(mem.Keys) - {x}
    {
      ghost var t := tree;
      x, b, a := t.n, [], InOrder(t.r);
      SortedParts(InOrder(t.l), t.n, InOrder(t.r));
      OnlyRight(mem, t);
      root := root.right;
      tree := t.r;
      mem := Only(mem, Elems(t.r));
      hide Linked, InOrder, Elems, Sorted, Below;
    }

    /** The tree is only its left subtree for a while. */
    method Narrow()
      requires Valid() && root != null && root.left != null
      modifies this
      ensures Valid() && tree == old(tree).l && mem.Keys == Elems(old(tree).l) && root == Root(tree) && root != null
    {
      ghost var t := tree;
      SortedParts(InOrder(t.l), t.n, InOrder(t.r));
      There(mem, t.l);
      ghost var m := Only(mem, Elems(t.l));
      Frame(mem, m, t.l);
      root := root.left;
      tree := t.l;
      mem := m;
    }

    /** The right subtree `r` is hung below the top, which has no right child. */
    method Widen(tmp: Node?, ghost m: Mem, ghost t: Tree)
      requires Valid() && root != null && t.T? && tree.r == Leaf && InOrder(tree) == InOrder(t.l) && mem.Keys == Elems(t.l)
      requires Linked(m, t) && m.Keys == Elems(t) && Sorted(InOrder(t)) && tmp == Root(t.r)
      requires forall n :: n in Elems(t.r) ==> n in m && m[n] == Cell(n.left, n.right)
      modifies this`mem, this`tree, root`right
      ensures Valid() && InOrder(tree) == InOrder(t.l) + InOrder(t.r) && mem.Keys == Elems(t) - {t.n}
    {
      ghost var u, low := tree, mem;
      There(m, t.r);
      SmallerStay(m, t);
      root.right := tmp;
      tree := T(u.l, u.n, t.r);
      mem := map n | n in Elems(t.l) + Elems(t.r) :: if n in Elems(t.l) then SetR(low, u.n, Root(t.r))[n] else m[n];
      JoinHolds(m, t, low, u, mem);
    }

    /** The top is cut off; the largest element of its left subtree takes its place. */
    method CutMiddle(key: int) returns (ghost x: Node, ghost b: seq<Node>, ghost a: seq<Node>)
      requires Valid() && root != null && root.left != null && root.key == key
      modifies this, mem.Keys
      ensures Valid() && x == old(root)
      ensures old(Contents()) == b + [x] + a && Contents() == b + a && mem.Keys == old(mem.Keys) - {x}
    {
      ghost var t, m := tree, mem;
      x, b, a := t.n, InOrder(t.l), InOrder(t.r);
      SortedParts(b, x, a);
      There(m, t.r);
      SmallerStay(m, t);
      var tmp := root.right;
      Narrow();
      hide InOrder, Sorted, Linked, Elems, Below;
      Splay(key);
      NothingRight(tree, key);
      Widen(tmp, m, t);
    }

    /** SPLAY_REMOVE: the element with the key goes, and nothing else. */
    method Remove(elm: Node) returns (r: Node?, ghost x: Node, ghost b: seq<Node>, ghost a: seq<Node>)
      requires Valid()
      modifies this, mem.Keys
      ensures Valid() && (r == null || r == elm)
      ensures r != null ==> x.key == elm.key && old(Contents()) == b + [x] + a && Contents() == b + a
      ensures r == null ==> Contents() == old(Contents()) && forall y :: y in Contents() ==> y.key != elm.key
      ensures mem.Keys == old(mem.Keys) - if r == null then {} else {x}
    {
      x, b, a := elm, [], [];
      if root == null {
        return null, x, b, a;
      }
      var key := elm.key;
      Splay(key);
      if key == root.key {
        if root.left == null {
          x, b, a := CutTop();
        } else {
          x, b, a := CutMiddle(key);
        }
        return elm, x, b, a;
      }
      forall y | y in InOrder(tree) ensures y.key != key {
        if y.key == key {
          FoundAtTop(tree, key, y);
        }
      }
      return null, x, b, a;
    }

    /** One turn of the loop of SPLAY_MINMAX, towards the smallest element. */
    method DescendMin(right: Node, ghost p: Parts) returns (right': Node, stop: bool, ghost p': Parts)
      requires Open(p) && p.t.T? && p.l == Bottom && right == End(p.r, p.scratch)
      modifies this`root, this`mem, mem.Keys
      ensures Open(p') && p'.t.T? && p'.l == Bottom && mem.Keys == old(mem.Keys)
      ensures p'.scratch == p.scratch && right' == End(p'.r, p.scratch) && Line(p') == Line(p) && All(p') == All(p)
      ensures if stop then p'.t.l == Leaf else Size(p'.t) < Size(p.t)
    {
      right', stop, p' := right, false, p;
      OpenKids(p);
      var tmp := root.left;
      if tmp == null {
        stop := true;
        return;
      }
      RotatedLines(p);
      RotateRight(tmp, p);
      p' := RotatedRight(p);
      OpenKids(p');
      if root.left == null {
        stop := true;
        return;
      }
      LinkedLines(p');
      right' := LinkLeft(right, p');
      p' := LinkedLeft(p');
    }

    /** ... and towards the largest. */
    method DescendMax(left: Node, ghost p: Parts) returns (left': Node, stop: bool, ghost p': Parts)
      requires Open(p) && p.t.T? && p.r == Bottom && left == End(p.l, p.scratch)
      modifies this`root, this`mem, mem.Keys
      ensures Open(p') && p'.t.T? && p'.r == Bottom && mem.Keys == old(mem.Keys)
      ensures p'.scratch == p.scratch && left' == End(p'.l, p.scratch) && Line(p') == Line(p) && All(p') == All(p)
      ensures if stop then p'.t.r == Leaf else Size(p'.t) < Size(p.t)
    {
      left', stop, p' := left, false, p;
      OpenKids(p);
      var tmp := root.right;
      if tmp == null {
        stop := true;
        return;
      }
      RotatedLines(p);
      RotateLeft(tmp, p);
      p' := RotatedLeft(p);
      OpenKids(p');
      if root.right == null {
        stop := true;
        return;
      }
      LinkedLines(p');
      left' := LinkRight(left, p');
      p' := LinkedRight(p');
    }

    /** SPLAY_MINMAX: the smallest (comp < 0) or largest element comes to the top. With comp == 0
        the loop of the original never ends. */
    method MinMax(comp: int)
      requires Valid() && root != null && comp != 0
      modifies this, mem.Keys
      ensures Valid() && Contents() == old(Contents()) && mem.Keys == old(mem.Keys) && Contents() != []
      ensures root == if comp < 0 then Contents()[0] else Contents()[|Contents()| - 1]
    {
      hide Line, InOrder, LineL, LineR, Elems, SElems, Sorted, Linked, Assembled, All;
      ghost var line, keys := InOrder(tree), mem.Keys;
      var scratch;
      ghost var p;
      scratch, p := Begin();
      var left, right, stop := scratch, scratch, false;
      while !stop
        invariant Open(p) && p.t.T? && Line(p) == line && mem.Keys == keys + {scratch} && All(p) == keys
        invariant p.scratch == scratch && left == End(p.l, scratch) && right == End(p.r, scratch)
        invariant if comp < 0 then p.l == Bottom && (stop ==> p.t.l == Leaf) else p.r == Bottom && (stop ==> p.t.r == Leaf)
        decreases if stop then 0 else 1, Size(p.t)
      {
        if comp < 0 {
          right, stop, p := DescendMin(right, p);
        } else {
          left, stop, p := DescendMax(left, p);
        }
      }
      EndsFirst(p, comp < 0);
      Close(scratch, left, right, p);
    }
  }

  /** With nothing left over on one side, the top is at that end. */
  lemma EndsFirst(p: Parts, least: bool)
    requires p.t.T? && if least then p.l == Bottom && p.t.l == Leaf else p.r == Bottom && p.t.r == Leaf
    ensures var s := Line(p); s != [] && p.t.n == if least then s[0] else s[|s| - 1]
  {
    var t, s := InOrder(p.t), Line(p);
    assert t == InOrder(p.t.l) + [p.t.n] + InOrder(p.t.r);
    if least {
      assert t[0] == p.t.n && s[0] == t[0];
    } else {
      assert t[|t| - 1] == p.t.n && s == LineL(p.l) + t;
    }
  }

  ghost function Only(m: Mem, keys: set<Node>): Mem {
    map n | n in m && n in keys :: m[n]
  }

  lemma OnlyRight(m: Mem, t: Tree)
    requires Linked(m, t) && t.T? && t.l == Leaf && m.Keys == Elems(t)
    ensures var n := Only(m, Elems(t.r)); Linked(n, t.r) && n.Keys == Elems(t.r) == m.Keys - {t.n}
    ensures InOrder(t) == [] + [t.n] + InOrder(t.r) && [] + InOrder(t.r) == InOrder(t.r)
  {
    There(m, t.r);
    Frame(m, Only(m, Elems(t.r)), t.r);
    ElemsOf(Leaf, t.n, t.r);
  }

  /** Splayed for a larger key, a tree has its maximum at the top. */
  lemma NothingRight(u: Tree, key: int)
    requires u.T? && Nearest(u, key) && Below(InOrder(u), key)
    ensures u.r == Leaf
  {
    TopInOrder(u);
    RightInside(u);
    NoneBetween(InOrder(u.r), key);
    EmptyLine(u.r);
  }

  lemma RightInside(u: Tree)
    requires u.T?
    ensures forall n :: n in InOrder(u.r) ==> n in InOrder(u)
  {
  }

  lemma NoneBetween(s: seq<Node>, key: int)
    requires Below(s, key) && Above(s, key)
    ensures s == []
  {
    if s != [] {
      FirstIn(s);
    }
  }

  lemma FirstIn(s: seq<Node>)
    requires s != []
    ensures s[0] in s
  {
  }

  lemma EmptyLine(t: Tree)
    requires InOrder(t) == []
    ensures t == Leaf
  {
  }

  lemma SmallerStay(m: Mem, t: Tree)
    requires Linked(m, t) && t.T?
    ensures Elems(t.l) !! Elems(t.r) && t.n !in Elems(t.l) + Elems(t.r)
  {
  }

  lemma JoinHolds(m: Mem, t: Tree, low: Mem, u: Tree, now: Mem)
    requires Linked(m, t) && t.T? && m.Keys == Elems(t) && Sorted(InOrder(t))
    requires Linked(low, u) && u.T? && u.r == Leaf && low.Keys == Elems(u) == Elems(t.l) && InOrder(u) == InOrder(t.l)
    requires now.Keys == Elems(t.l) + Elems(t.r) && u.n in low
    requires forall n :: n in Elems(t.l) ==> now[n] == SetR(low, u.n, Root(t.r))[n]
    requires forall n :: n in Elems(t.r) ==> n in m && now[n] == m[n]
    ensures Linked(now, T(u.l, u.n, t.r)) && now.Keys == Elems(T(u.l, u.n, t.r)) == Elems(t) - {t.n}
    ensures InOrder(T(u.l, u.n, t.r)) == InOrder(t.l) + InOrder(t.r) && Sorted(InOrder(T(u.l, u.n, t.r)))
  {
    hide *;
    SmallerStay(m, t);
    JoinElems(t, u);
    RightLinked(m, t);
    JoinLine(t, u);
    JoinLinked(m, low, u, t.r, now);
  }

  lemma JoinElems(t: Tree, u: Tree)
    requires t.T? && u.T? && u.r == Leaf && Elems(u) == Elems(t.l) && t.n !in Elems(t.l) + Elems(t.r)
    ensures Elems(T(u.l, u.n, t.r)) == Elems(t.l) + Elems(t.r) == Elems(t) - {t.n}
  {
    ElemsOf(u.l, u.n, Leaf);
    ElemsOf(u.l, u.n, t.r);
    ElemsOf(t.l, t.n, t.r);
  }

  lemma RightLinked(m: Mem, t: Tree)
    requires Linked(m, t) && t.T?
    ensures Linked(m, t.r)
  {
  }

  lemma JoinLine(t: Tree, u: Tree)
    requires t.T? && u.T? && u.r == Leaf && InOrder(u) == InOrder(t.l) && Sorted(InOrder(t))
    ensures InOrder(T(u.l, u.n, t.r)) == InOrder(t.l) + InOrder(t.r) && Sorted(InOrder(T(u.l, u.n, t.r)))
  {
    LineOf(u.l, u.n, Leaf);
    LineOf(u.l, u.n, t.r);
    LineOf(t.l, t.n, t.r);
    hide Sorted, InOrder;
    SortedDrop(InOrder(t.l), t.n, InOrder(t.r));
    assert InOrder(u.l) + [u.n] + [] == InOrder(u.l) + [u.n];
  }

  lemma LineOf(l: Tree, n: Node, r: Tree)
    ensures InOrder(T(l, n, r)) == InOrder(l) + [n] + InOrder(r) && InOrder(Leaf) == []
  {
  }

  lemma JoinLinked(m: Mem, low: Mem, u: Tree, r: Tree, now: Mem)
    requires Linked(m, r) && Linked(low, u) && u.T? && u.r == Leaf && Elems(u) !! Elems(r) && u.n in low
    requires now.Keys == Elems(u) + Elems(r)
    requires forall n :: n in Elems(u) ==> n in low && now[n] == SetR(low, u.n, Root(r))[n]
    requires forall n :: n in Elems(r) ==> n in m && now[n] == m[n]
    ensures Linked(now, T(u.l, u.n, r))
  {
    There(low, u.l);
    Frame(low, now, u.l);
    Frame(m, now, r);
    assert u.n in Elems(u) && now[u.n] == Cell(Root(u.l), Root(r));
  }

  lemma SortedDrop(a: seq<Node>, n: Node, b: seq<Node>)
    requires Sorted(a + [n] + b)
    ensures Sorted(a + b)
  {
    var s, t := a + [n] + b, a + b;
    forall i, j | 0 <= i < j < |t| ensures t[i].key < t[j].key {
      assert t[i] == s[if i < |a| then i else i + 1] && t[j] == s[if j < |a| then j else j + 1];
    }
  }

  lemma TopInOrder(t: Tree)
    requires t.T?
    ensures t.n in InOrder(t)
  {
  }

  lemma InsertLeftHolds(m: Mem, t: Tree, elm: Node)
    requires Linked(m, t) && t.T? && m.Keys == Elems(t) && elm !in m
    requires Sorted(InOrder(t)) && elm.key < t.n.key && Nearest(t, elm.key)
    ensures t.n in m && m[t.n] == Cell(Root(t.l), Root(t.r)) && Elems(T(t.l, elm, T(Leaf, t.n, t.r))) == Elems(t) + {elm}
    ensures Linked(SetL(m, t.n, null)[elm := Cell(Root(t.l), t.n)], T(t.l, elm, T(Leaf, t.n, t.r)))
    ensures InOrder(T(t.l, elm, T(Leaf, t.n, t.r))) == InOrder(t.l) + [elm] + ([t.n] + InOrder(t.r))
    ensures InOrder(t) == InOrder(t.l) + ([t.n] + InOrder(t.r)) && Sorted(InOrder(t.l) + [elm] + ([t.n] + InOrder(t.r)))
    ensures Below(InOrder(t.l), elm.key) && Above([t.n] + InOrder(t.r), elm.key)
  {
    InsertLine(t, elm);
    LeftLine(t, elm);
    LeftLinked(m, t, elm);
    ElemsOf(Leaf, t.n, t.r);
    ElemsOf(t.l, elm, T(Leaf, t.n, t.r));
    ElemsOf(t.l, t.n, t.r);
    hide *;
  }

  lemma LeftLine(t: Tree, elm: Node)
    requires t.T?
    ensures InOrder(T(t.l, elm, T(Leaf, t.n, t.r))) == InOrder(t.l) + [elm] + ([t.n] + InOrder(t.r))
    ensures InOrder(t) == InOrder(t.l) + ([t.n] + InOrder(t.r))
  {
    LineOf(Leaf, t.n, t.r);
    LineOf(t.l, elm, T(Leaf, t.n, t.r));
    LineOf(t.l, t.n, t.r);
    hide InOrder;
    Regroup(InOrder(t.l), [t.n], InOrder(t.r));
  }

  lemma Regroup(a: seq<Node>, b: seq<Node>, c: seq<Node>)
    ensures a + b + c == a + (b + c) && [] + b + c == b + c
  {
  }

  lemma LeftLinked(m: Mem, t: Tree, elm: Node)
    requires Linked(m, t) && t.T? && m.Keys == Elems(t) && elm !in m
    ensures t.n in m && m[t.n] == Cell(Root(t.l), Root(t.r))
    ensures Linked(SetL(m, t.n, null)[elm := Cell(Root(t.l), t.n)], T(t.l, elm, T(Leaf, t.n, t.r)))
  {
    var m' := SetL(m, t.n, null)[elm := Cell(Root(t.l), t.n)];
    There(m, t.l);
    There(m, t.r);
    Frame(m, m', t.l);
    Frame(m, m', t.r);
  }

  lemma ElemsOf(l: Tree, n: Node, r: Tree)
    ensures Elems(T(l, n, r)) == Elems(l) + {n} + Elems(r) && Elems(Leaf) == {}
  {
  }

  lemma InsertLine(t: Tree, elm: Node)
    requires t.T? && Sorted(InOrder(t)) && Nearest(t, elm.key) && t.n.key != elm.key
    ensures elm.key < t.n.key ==>
      Sorted(InOrder(t.l) + [elm] + ([t.n] + InOrder(t.r)))
      && Below(InOrder(t.l), elm.key) && Above([t.n] + InOrder(t.r), elm.key)
    ensures t.n.key < elm.key ==>
      Sorted((InOrder(t.l) + [t.n]) + [elm] + InOrder(t.r))
      && Below(InOrder(t.l) + [t.n], elm.key) && Above(InOrder(t.r), elm.key)
  {
    var a, b := InOrder(t.l), InOrder(t.r);
    SortedParts(a, t.n, b);
    assert [] + [t.n] + b == [t.n] + b && a + [t.n] + [] == a + [t.n];
    hide Sorted, InOrder;
    if elm.key < t.n.key {
      EmptySorted();
      SortedJoin([], t.n, b);
      SortedJoin(a, elm, [t.n] + b);
    } else {
      EmptySorted();
      SortedJoin(a, t.n, []);
      SortedJoin(a + [t.n], elm, b);
    }
  }

  lemma EmptySorted()
    ensures Sorted([])
  {
  }

  lemma InsertRightHolds(m: Mem, t: Tree, elm: Node)
    requires Linked(m, t) && t.T? && m.Keys == Elems(t) && elm !in m
    requires Sorted(InOrder(t)) && t.n.key < elm.key && Nearest(t, elm.key)
    ensures t.n in m && m[t.n] == Cell(Root(t.l), Root(t.r)) && Elems(T(T(t.l, t.n, Leaf), elm, t.r)) == Elems(t) + {elm}
    ensures Linked(SetR(m, t.n, null)[elm := Cell(t.n, Root(t.r))], T(T(t.l, t.n, Leaf), elm, t.r))
    ensures InOrder(T(T(t.l, t.n, Leaf), elm, t.r)) == (InOrder(t.l) + [t.n]) + [elm] + InOrder(t.r)
    ensures InOrder(t) == (InOrder(t.l) + [t.n]) + InOrder(t.r) && Sorted((InOrder(t.l) + [t.n]) + [elm] + InOrder(t.r))
    ensures Below(InOrder(t.l) + [t.n], elm.key) && Above(InOrder(t.r), elm.key)
  {
    InsertLine(t, elm);
    RightLine(t, elm);
    RightLinkedAbove(m, t, elm);
    ElemsOf(t.l, t.n, Leaf);
    ElemsOf(T(t.l, t.n, Leaf), elm, t.r);
    ElemsOf(t.l, t.n, t.r);
    hide *;
  }

  lemma RightLine(t: Tree, elm: Node)
    requires t.T?
    ensures InOrder(T(T(t.l, t.n, Leaf), elm, t.r)) == (InOrder(t.l) + [t.n]) + [elm] + InOrder(t.r)
    ensures InOrder(t) == (InOrder(t.l) + [t.n]) + InOrder(t.r)
  {
    LineOf(t.l, t.n, Leaf);
    LineOf(T(t.l, t.n, Leaf), elm, t.r);
    LineOf(t.l, t.n, t.r);
    hide InOrder;
    assert InOrder(t.l) + [t.n] + [] == InOrder(t.l) + [t.n];
  }

  lemma RightLinkedAbove(m: Mem, t: Tree, elm: Node)
    requires Linked(m, t) && t.T? && m.Keys == Elems(t) && elm !in m
    ensures t.n in m && m[t.n] == Cell(Root(t.l), Root(t.r))
    ensures Linked(SetR(m, t.n, null)[elm := Cell(t.n, Root(t.r))], T(T(t.l, t.n, Leaf), elm, t.r))
  {
    var m' := SetR(m, t.n, null)[elm := Cell(t.n, Root(t.r))];
    There(m, t.l);
    There(m, t.r);
    Frame(m, m', t.l);
    Frame(m, m', t.r);
  }
}
