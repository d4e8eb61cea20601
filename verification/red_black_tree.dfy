/** The pointer red-black tree of libuv/tree.h: rotations, insertion and removal
    with their colour fix-ups, lookups and the in-order walk. */
module RedBlackTree {
  import opened PowerOfTwo
  import opened RedBlackShape

  class Head {
    var root: Node?
    ghost var mem: Mem
    ghost var tree: Tree

    /** `mem` records the fields of the nodes it covers. */
    ghost predicate Synced()
      reads this`mem, mem.Keys
    {
      forall n :: n in mem ==> mem[n] == Cell(n.left, n.right, n.parent, n.red)
    }

    ghost function Now(): State
      reads this`root, this`mem
    {
      State(mem, root)
    }

    /** What a node of a linked tree says about itself and its children. */
    lemma Kids(t: Tree, p: Node?)
      requires Synced() && Linked(mem, t, p) && t.T?
      ensures t.n in mem && t.n.left == Root(t.l) && t.n.right == Root(t.r) && t.n.red == t.red && t.n.parent == p
      ensures t.l.T? ==> t.l.n in mem && t.l.n.red == t.l.red
      ensures t.r.T? ==> t.r.n in mem && t.r.n.red == t.r.red
    {
    }

    // Field assignments, recorded in `mem`.

    method SetLeft(n: Node, v: Node?)
      requires Synced() && n in mem
      modifies n`left, this`mem
      ensures Synced() && mem == SetL(old(mem), n, v) && mem.Keys == old(mem.Keys)
    {
      n.left := v;
      mem := SetL(mem, n, v);
    }

    method SetRight(n: Node, v: Node?)
      requires Synced() && n in mem
      modifies n`right, this`mem
      ensures Synced() && mem == SetR(old(mem), n, v) && mem.Keys == old(mem.Keys)
    {
      n.right := v;
      mem := SetR(mem, n, v);
    }

    method SetParent(n: Node, v: Node?)
      requires Synced() && n in mem
      modifies n`parent, this`mem
      ensures Synced() && mem == SetP(old(mem), n, v) && mem.Keys == old(mem.Keys)
    {
      n.parent := v;
      mem := SetP(mem, n, v);
    }

    method SetRed(n: Node, v: bool)
      requires Synced() && n in mem
      modifies n`red, this`mem
      ensures Synced() && mem == SetC(old(mem), n, v) && mem.Keys == old(mem.Keys)
    {
      n.red := v;
      mem := SetC(mem, n, v);
    }

    // A child, if there is one, and its parent point to each other.

    method LinkLeft(n: Node, child: Node?)
      requires Synced() && n in mem && (child != null ==> child in mem)
      modifies this`mem, n`left, if child == null then {} else {child}`parent
      ensures Synced() && mem == LinkL(old(mem), n, child) && mem.Keys == old(mem.Keys)
    {
      SetLeft(n, child);
      if child != null {
        SetParent(child, n);
      }
    }

    method LinkRight(n: Node, child: Node?)
      requires Synced() && n in mem && (child != null ==> child in mem)
      modifies this`mem, n`right, if child == null then {} else {child}`parent
      ensures Synced() && mem == LinkR(old(mem), n, child) && mem.Keys == old(mem.Keys)
    {
      SetRight(n, child);
      if child != null {
        SetParent(child, n);
      }
    }

    /** Make the parent of `was`, or the head, point to `now` instead. */
    method Replace(parent: Node?, was: Node, now: Node?)
      requires Synced() && (parent != null ==> parent in mem)
      modifies this`root, this`mem, parent
      ensures Synced() && Now() == Relink(old(Now()), parent, was, now) && mem.Keys == old(mem.Keys)
    {
      if parent != null {
        if was == parent.left {
          SetLeft(parent, now);
        } else {
          SetRight(parent, now);
        }
      } else {
        root := now;
      }
    }

    /** `y` goes where `x` is. */
    method TakePlace(x: Node, y: Node)
      requires Synced() && x in mem && y in mem && x != y
      requires x.parent != null ==> x.parent in mem
      modifies this`root, this`mem, y`parent, x.parent
      ensures Synced() && Now() == RedBlackShape.TakePlace(old(Now()), x, y) && mem.Keys == old(mem.Keys)
    {
      SetParent(y, x.parent);
      Replace(x.parent, x, y);
    }

    /** RB_ROTATE_LEFT */
    method RotateLeft(elm: Node) returns (tmp: Node)
      requires Synced() && elm in mem && elm.right != null && elm.right in mem && elm.right != elm
      requires elm.parent != null ==> elm.parent in mem
      requires elm.right.left != null ==> elm.right.left in mem && elm.right.left != elm
      modifies this`root, this`mem, mem.Keys
      ensures Synced() && mem.Keys == old(mem.Keys)
      ensures tmp == old(elm.right)
      ensures Now() == RotL(old(Now()), elm)
    {
      tmp := elm.right;
      LinkRight(elm, tmp.left);
      TakePlace(elm, tmp);
      LinkLeft(tmp, elm);
    }

    /** RB_ROTATE_RIGHT */
    method RotateRight(elm: Node) returns (tmp: Node)
      requires Synced() && elm in mem && elm.left != null && elm.left in mem && elm.left != elm
      requires elm.parent != null ==> elm.parent in mem
      requires elm.left.right != null ==> elm.left.right in mem && elm.left.right != elm
      modifies this`root, this`mem, mem.Keys
      ensures Synced() && mem.Keys == old(mem.Keys)
      ensures tmp == old(elm.left)
      ensures Now() == RotR(old(Now()), elm)
    {
      tmp := elm.left;
      LinkLeft(elm, tmp.right);
      TakePlace(elm, tmp);
      LinkRight(tmp, elm);
    }

    // The same, at a focus of the tree.

    method TurnLeft(elm: Node, ghost c: Ctx, ghost t: Tree) returns (tmp: Node, ghost u: Tree)
      requires Synced() && At(Now(), c, t) && t.T? && t.n == elm && t.r.T?
      modifies this`root, this`mem, mem.Keys
      ensures Synced() && mem.Keys == old(mem.Keys) && At(Now(), c, u)
      ensures u == T(T(t.l, elm, t.red, t.r.l), t.r.n, t.r.red, t.r.r) && tmp == u.n
      ensures InOrder(u) == InOrder(t)
    {
      assert Linked(mem, t.r, elm) && Linked(mem, t.r.l, t.r.n);
      RotateLeftAt(Now(), c, t);
      LineTurn(t.l, elm, t.red, t.r.l, t.r.n, t.r.red, t.r.r);
      tmp := RotateLeft(elm);
      u := T(T(t.l, elm, t.red, t.r.l), t.r.n, t.r.red, t.r.r);
    }

    method TurnRight(elm: Node, ghost c: Ctx, ghost t: Tree) returns (tmp: Node, ghost u: Tree)
      requires Synced() && At(Now(), c, t) && t.T? && t.n == elm && t.l.T?
      modifies this`root, this`mem, mem.Keys
      ensures Synced() && mem.Keys == old(mem.Keys) && At(Now(), c, u)
      ensures u == T(t.l.l, t.l.n, t.l.red, T(t.l.r, elm, t.red, t.r)) && tmp == u.n
      ensures InOrder(u) == InOrder(t)
    {
      assert Linked(mem, t.l, elm) && Linked(mem, t.l.r, t.l.n);
      RotateRightAt(Now(), c, t);
      LineTurn(t.l.l, t.l.n, t.l.red, t.l.r, elm, t.red, t.r);
      tmp := RotateRight(elm);
      u := T(t.l.l, t.l.n, t.l.red, T(t.l.r, elm, t.red, t.r));
    }

    /** The red node at the focus may have a red parent; all else is in order. */
    ghost predicate Raised(c: Ctx, t: Tree, k: nat)
      reads this`root, this`mem
    {
      At(Now(), c, t) && t.T? && t.red && Balanced(t, k) && Fits(c, k)
    }

    /** Recolour a node and its two children: the children black, the node red. */
    method Flip(l: Node, r: Node, n: Node, ghost c: Ctx, ghost t: Tree) returns (ghost u: Tree)
      requires Synced() && At(Now(), c, t) && t.T? && t.l.T? && t.r.T?
      requires l == t.l.n && r == t.r.n && n == t.n
      modifies this`root, this`mem, mem.Keys
      ensures Synced() && mem.Keys == old(mem.Keys) && At(Now(), c, u)
      ensures u == T(t.l.(red := false), n, true, t.r.(red := false)) && InOrder(u) == InOrder(t)
    {
      u := t;
      PaintRight(Now(), c, u, false);
      SetRed(r, false);
      u := u.(r := u.r.(red := false));
      PaintLeft(Now(), c, u, false);
      SetRed(l, false);
      u := u.(l := u.l.(red := false));
      Paint(Now(), c, u, true);
      SetRed(n, true);
      u := u.(red := true);
    }

    /** RB_SET_BLACKRED(par, gpar), then a right rotation at `gpar`. */
    method LiftLeft(par: Node, gpar: Node, ghost c: Ctx, ghost t: Tree) returns (ghost u: Tree)
      requires Synced() && At(Now(), c, t) && t.T? && t.l.T? && par == t.l.n && gpar == t.n
      modifies this`root, this`mem, mem.Keys
      ensures Synced() && mem.Keys == old(mem.Keys) && At(Now(), c, u)
      ensures u == T(t.l.l, par, false, T(t.l.r, gpar, true, t.r)) && InOrder(u) == InOrder(t)
    {
      PaintLeft(Now(), c, t, false);
      SetRed(par, false);
      u := t.(l := t.l.(red := false));
      Paint(Now(), c, u, true);
      SetRed(gpar, true);
      u := u.(red := true);
      var tmp;
      tmp, u := TurnRight(gpar, c, u);
    }

    /** RB_SET_BLACKRED(par, gpar), then a left rotation at `gpar`. */
    method LiftRight(par: Node, gpar: Node, ghost c: Ctx, ghost t: Tree) returns (ghost u: Tree)
      requires Synced() && At(Now(), c, t) && t.T? && t.r.T? && par == t.r.n && gpar == t.n
      modifies this`root, this`mem, mem.Keys
      ensures Synced() && mem.Keys == old(mem.Keys) && At(Now(), c, u)
      ensures u == T(T(t.l, gpar, true, t.r.l), par, false, t.r.r) && InOrder(u) == InOrder(t)
    {
      PaintRight(Now(), c, t, false);
      SetRed(par, false);
      u := t.(r := t.r.(red := false));
      Paint(Now(), c, u, true);
      SetRed(gpar, true);
      u := u.(red := true);
      var tmp;
      tmp, u := TurnLeft(gpar, c, u);
    }

    /** One turn of RB_INSERT_COLOR below a left child `par` of `gpar`. */
    method InsertColorLeft(elm: Node, par: Node, gpar: Node, ghost c: Ctx, ghost t: Tree, ghost k: nat)
      returns (next: Node, ghost c2: Ctx, ghost t2: Tree, ghost k2: nat)
      requires Synced() && Raised(c, t, k) && t.n == elm
      requires !c.Top? && c.red && c.n == par && c.up.InL? && c.up.n == gpar
      modifies this`root, this`mem, mem.Keys
      ensures Synced() && mem.Keys == old(mem.Keys)
      ensures Raised(c2, t2, k2) && t2.n == next && Depth(c2) < Depth(c)
      ensures Line(c2, t2) == Line(c, t)
    {
      LineUp(c, t);
      LineUp(c.up, Climb(c, t));
      AtUp(Now(), c, t);
      AtUp(Now(), c.up, Climb(c, t));
      FitsRed(c, k);
      var tmp := gpar.right;
      assert tmp == Root(c.up.r) && (tmp != null ==> mem[tmp].red == c.up.r.red);
      if tmp != null && tmp.red {
        FlipBalanced(c, t, k);
        next, c2, k2 := gpar, c.up.up, k + 1;
        t2 := Flip(par, tmp, gpar, c.up.up, Climb(c.up, Climb(c, t)));
      } else {
        next, c2, t2 := InsertTurnLeft(elm, par, gpar, c, t, k);
        k2 := k;
      }
    }

    method InsertTurnLeft(elm: Node, par: Node, gpar: Node, ghost c: Ctx, ghost t: Tree, ghost k: nat)
      returns (next: Node, ghost c2: Ctx, ghost t2: Tree)
      requires Synced() && Raised(c, t, k) && t.n == elm
      requires !c.Top? && c.red && c.n == par && c.up.InL? && c.up.n == gpar && !IsRed(c.up.r)
      modifies this`root, this`mem, mem.Keys
      ensures Synced() && mem.Keys == old(mem.Keys)
      ensures Raised(c2, t2, k) && t2.n == next && Depth(c2) < Depth(c)
      ensures Line(c2, t2) == Line(c, t)
    {
      ghost var up, p := c.up.up, Climb(c, t);
      LineUp(c, t);
      LineUp(c.up, p);
      AtUp(Now(), c, t);
      FitsRed(c, k);
      var e, q := elm, par;
      if par.right == elm {
        var tmp;
        tmp, p := TurnLeft(par, c.up, p);
        e, q := par, elm;
      }
      AtUp(Now(), c.up, p);
      ghost var g := LiftLeft(q, gpar, up, Climb(c.up, p));
      next, c2, t2 := e, InL(q, false, g.r, up), g.l;
      LineUp(c2, t2);
      AtUp(Now(), c2, t2);
    }

    /** One turn of RB_INSERT_COLOR below a right child `par` of `gpar`. */
    method InsertColorRight(elm: Node, par: Node, gpar: Node, ghost c: Ctx, ghost t: Tree, ghost k: nat)
      returns (next: Node, ghost c2: Ctx, ghost t2: Tree, ghost k2: nat)
      requires Synced() && Raised(c, t, k) && t.n == elm
      requires !c.Top? && c.red && c.n == par && c.up.InR? && c.up.n == gpar
      modifies this`root, this`mem, mem.Keys
      ensures Synced() && mem.Keys == old(mem.Keys)
      ensures Raised(c2, t2, k2) && t2.n == next && Depth(c2) < Depth(c)
      ensures Line(c2, t2) == Line(c, t)
    {
      LineUp(c, t);
      LineUp(c.up, Climb(c, t));
      AtUp(Now(), c, t);
      AtUp(Now(), c.up, Climb(c, t));
      FitsRed(c, k);
      var tmp := gpar.left;
      assert tmp == Root(c.up.l) && (tmp != null ==> mem[tmp].red == c.up.l.red);
      if tmp != null && tmp.red {
        FlipBalanced(c, t, k);
        next, c2, k2 := gpar, c.up.up, k + 1;
        t2 := Flip(tmp, par, gpar, c.up.up, Climb(c.up, Climb(c, t)));
      } else {
        next, c2, t2 := InsertTurnRight(elm, par, gpar, c, t, k);
        k2 := k;
      }
    }

    method InsertTurnRight(elm: Node, par: Node, gpar: Node, ghost c: Ctx, ghost t: Tree, ghost k: nat)
      returns (next: Node, ghost c2: Ctx, ghost t2: Tree)
      requires Synced() && Raised(c, t, k) && t.n == elm
      requires !c.Top? && c.red && c.n == par && c.up.InR? && c.up.n == gpar && !IsRed(c.up.l)
      modifies this`root, this`mem, mem.Keys
      ensures Synced() && mem.Keys == old(mem.Keys)
      ensures Raised(c2, t2, k) && t2.n == next && Depth(c2) < Depth(c)
      ensures Line(c2, t2) == Line(c, t)
    {
      ghost var up, p := c.up.up, Climb(c, t);
      LineUp(c, t);
      LineUp(c.up, p);
      AtUp(Now(), c, t);
      FitsRed(c, k);
      var e, q := elm, par;
      if par.left == elm {
        var tmp;
        tmp, p := TurnRight(par, c.up, p);
        e, q := par, elm;
      }
      AtUp(Now(), c.up, p);
      ghost var g := LiftRight(q, gpar, up, Climb(c.up, p));
      next, c2, t2 := e, InR(g.l, q, false, up), g.r;
      LineUp(c2, t2);
      AtUp(Now(), c2, t2);
    }

    /** RB_INSERT_COLOR */
    method InsertColor(e: Node, ghost c0: Ctx, ghost t0: Tree, ghost k0: nat) returns (ghost u: Tree)
      requires Synced() && Raised(c0, t0, k0) && t0.n == e
      modifies this`root, this`mem, mem.Keys
      ensures Synced() && mem.Keys == old(mem.Keys)
      ensures At(Now(), Top, u) && RedBlack(u) && InOrder(u) == Line(c0, t0)
    {
      var elm := e;
      ghost var c, t, k := c0, t0, k0;
      while elm.parent != null && elm.parent.red
        invariant Synced() && mem.Keys == old(mem.Keys)
        invariant Raised(c, t, k) && t.n == elm && Line(c, t) == Line(c0, t0)
        decreases Depth(c)
      {
        var par := elm.parent;
        FitsRed(c, k);
        AtUp(Now(), c, t);
        AtUp(Now(), c.up, Climb(c, t));
        var gpar := par.parent;
        if par == gpar.left {
          elm, c, t, k := InsertColorLeft(elm, par, gpar, c, t, k);
        } else {
          elm, c, t, k := InsertColorRight(elm, par, gpar, c, t, k);
        }
      }
      u := BlackenRoot(root, c, t, k);
    }

    /** The last assignment of both fix-ups, when it is made to the root. */
    method BlackenRoot(elm: Node?, ghost c: Ctx, ghost t: Tree, ghost k: nat) returns (ghost u: Tree)
      requires Synced() && At(Now(), c, t) && elm == root && Fits(c, k)
      requires if c.Top? then Loose(t, k) else Balanced(t, k) && !(IsRed(t) && CIsRed(c))
      modifies this`mem, mem.Keys
      ensures Synced() && mem.Keys == old(mem.Keys)
      ensures At(Now(), Top, u) && RedBlack(u) && InOrder(u) == Line(c, t)
    {
      u := Plug(c, t);
      Zip(Now(), c, t);
      PlugLine(c, t);
      if !c.Top? {
        PlugBalanced(c, t, k);
      } else if IsRed(t) {
        assert Balanced(t.(red := false), k + 1);
      }
      if elm != null {
        Paint(Now(), Top, u, false);
        SetRed(elm, false);
        u := u.(red := false);
      }
    }

    /** The whole structure: linked as `tree`, which is red-black and in key order. */
    ghost predicate Valid()
      reads this, mem.Keys
    {
      && Synced() && At(Now(), Top, tree) && mem.Keys == Elems(tree)
      && RedBlack(tree) && Sorted(Contents())
    }

    ghost function Contents(): seq<Node>
      reads this
    {
      InOrder(tree)
    }

    constructor ()
      ensures Valid() && Contents() == []
    {
      root, mem, tree := null, map[], Leaf;
      assert Balanced(Leaf, 0);
    }

    /** The descent of RB_INSERT: a node with the same key, or the place for a new leaf. */
    method FindPlace(key: int) returns (found: Node?, par: Node?, below: bool, ghost c: Ctx, ghost t: Tree)
      requires Valid()
      ensures At(Now(), c, t) && Plug(c, t) == tree && Line(c, t) == Contents() && Between(c, key)
      ensures found != null ==> found == Root(t) && found.key == key && found in Contents()
      ensures found == null ==> t == Leaf && par == Above(c) && below == c.InL?
    {
      var tmp := root;
      par, below, c, t := null, false, Top, tree;
      while tmp != null
        invariant At(Now(), c, t) && tmp == Root(t) && par == Above(c) && below == c.InL?
        invariant Plug(c, t) == tree && Line(c, t) == Contents() && Between(c, key)
        decreases t
      {
        par := tmp;
        AtUp(Now(), InL(par, t.red, t.r, c), t.l);
        AtUp(Now(), InR(t.l, par, t.red, c), t.r);
        LineUp(InL(par, t.red, t.r, c), t.l);
        LineUp(InR(t.l, par, t.red, c), t.r);
        Descend(c, t, key);
        if key < par.key {
          tmp, below := tmp.left, true;
          c, t := InL(par, t.red, t.r, c), t.l;
        } else if par.key < key {
          tmp, below := tmp.right, false;
          c, t := InR(t.l, par, t.red, c), t.r;
        } else {
          assert Line(c, t)[|Before(c)| + |InOrder(t.l)|] == tmp;
          return tmp, par, below, c, t;
        }
      }
      found := null;
    }

    /** RB_SET */
    method Set(elm: Node, par: Node?)
      requires Synced() && elm !in mem
      modifies this`mem, elm
      ensures Synced() && mem == old(mem)[elm := Cell(null, null, par, true)]
    {
      elm.parent, elm.left, elm.right, elm.red := par, null, null, true;
      mem := mem[elm := Cell(null, null, par, true)];
    }

    /** RB_SET and the link from the parent. */
    method LinkLeaf(elm: Node, par: Node?, below: bool, ghost c: Ctx)
      requires Synced() && At(Now(), c, Leaf) && elm !in mem && par == Above(c) && below == c.InL?
      requires CElems(c) <= mem.Keys
      modifies this`root, this`mem, mem.Keys, elm
      ensures Synced() && mem.Keys == old(mem.Keys) + {elm}
      ensures At(Now(), c, T(Leaf, elm, true, Leaf))
    {
      AttachAt(Now(), c, elm);
      Set(elm, par);
      if par != null {
        if below {
          SetLeft(par, elm);
        } else {
          SetRight(par, elm);
        }
      } else {
        root := elm;
      }
    }

    /** RB_INSERT from RB_SET on: a new leaf at its place. */
    method InsertLeaf(elm: Node, par: Node?, below: bool, ghost c: Ctx)
      requires Valid() && elm !in mem && At(Now(), c, Leaf) && Plug(c, Leaf) == tree && Between(c, elm.key)
      requires par == Above(c) && below == c.InL? && Contents() == Before(c) + After(c)
      modifies this, mem.Keys, elm
      ensures Valid() && Contents() == Before(c) + [elm] + After(c)
    {
      hide Linked, CLinked, InOrder, CElems, Before, After, Between;
      ghost var k := FitsHere(c);
      PlugLine(c, Leaf);
      LinkLeaf(elm, par, below, c);
      ghost var w := InsertColor(elm, c, T(Leaf, elm, true, Leaf), k);
      Inserted(c, elm, w);
      Install(w, Before(c) + [elm] + After(c));
    }

    /** RB_INSERT: a node with the same key, which may be `elm` itself, or a new leaf. */
    method Insert(elm: Node) returns (found: Node?, ghost b: seq<Node>, ghost a: seq<Node>)
      requires Valid()
      modifies this, mem.Keys, elm
      ensures Valid()
      ensures found != null ==>
        && Now() == old(Now()) && tree == old(tree) && found in Contents() && found.key == elm.key
      ensures found == null ==>
        && (forall n :: n in old(Contents()) ==> n.key != elm.key)
        && old(Contents()) == b + a && Contents() == b + [elm] + a
    {
      hide Balanced, RedBlack, Linked, CLinked, Plug;
      var par, below;
      ghost var c, t;
      found, par, below, c, t := FindPlace(elm.key);
      b, a := Before(c), After(c);
      if found != null {
        return;
      }
      assert Contents() == b + a;
      assert elm !in mem by {
        InOrderElems(tree);
      }
      InsertLeaf(elm, par, below, c);
    }

    ghost method FitsHere(c: Ctx) returns (k: nat)
      requires RedBlack(Plug(c, Leaf))
      ensures k == 0 && Fits(c, 0)
    {
      var K: nat :| Balanced(Plug(c, Leaf), K);
      k := UnplugBalanced(c, Leaf, K);
    }

    /** The focus is one black node short of what its surroundings want. */
    ghost predicate Short(c: Ctx, t: Tree, k: nat)
      reads this`root, this`mem
    {
      At(Now(), c, t) && Loose(t, k) && Fits(c, k + 1)
    }

    /** First part of a turn of RB_REMOVE_COLOR: get a black sibling. */
    method BlackSiblingLeft(par: Node, ghost c: Ctx, ghost t: Tree, ghost k: nat)
      returns (tmp: Node, ghost c2: Ctx)
      requires Synced() && Short(c, t, k) && c.InL? && par == c.n
      modifies this`root, this`mem, mem.Keys
      ensures Synced() && mem.Keys == old(mem.Keys)
      ensures Short(c2, t, k) && c2.InL? && c2.n == par && c2.r.T? && c2.r.n == tmp && !c2.r.red
      ensures Line(c2, t) == Line(c, t) && (c2 == c || c2.red)
    {
      ShortSibling(c, k);
      c2 := c;
      tmp := par.right;
      assert mem[tmp].red == c.r.red;
      if tmp.red {
        ShortTurnL(par, c.r, c.up, k);
        AtUp(Now(), c, t);
        ghost var g := LiftRight(tmp, par, c.up, Climb(c, t));
        ghost var c1 := InL(tmp, false, c.r.r, c.up);
        c2 := InL(par, true, c.r.l, c1);
        LineUp(c, t);
        LineUp(c2, t);
        LineUp(c1, g.l);
        AtUp(Now(), c1, g.l);
        AtUp(Now(), c2, t);
        tmp := par.right;
        ShortSibling(c2, k);
      }
    }

    /** Second part: the red child of the sibling has to be the far one. */
    method FarNephewLeft(par: Node, sibling: Node, ghost c: Ctx, ghost t: Tree, ghost k: nat)
      returns (tmp: Node, ghost c2: Ctx)
      requires Synced() && Short(c, t, k) && c.InL? && c.n == par
      requires c.r.T? && c.r.n == sibling && !c.r.red && (IsRed(c.r.l) || IsRed(c.r.r))
      modifies this`root, this`mem, mem.Keys
      ensures Synced() && mem.Keys == old(mem.Keys)
      ensures Short(c2, t, k) && c2.InL? && c2.n == par && c2.up == c.up && c2.red == c.red
      ensures c2.r.T? && c2.r.n == tmp && !c2.r.red && IsRed(c2.r.r)
      ensures InOrder(c2.r) == InOrder(c.r)
    {
      tmp := sibling;
      c2 := c;
      ghost var side := InR(t, par, c.red, c.up);
      AtUp(Now(), c, t);
      AtUp(Now(), side, c.r);
      Kids(c.r, par);
      if tmp.right == null || !tmp.right.red {
        ShortNephewL(par, c.red, c.r, c.up, k);
        ghost var w := LiftLeft(tmp.left, tmp, side, c.r);
        c2 := InL(par, c.red, w, c.up);
        AtUp(Now(), side, w);
        AtUp(Now(), c2, t);
        tmp := par.right;
      }
    }

    /** The turn of RB_REMOVE_COLOR that ends its loop: the sibling has a red child. */
    method RemoveEndLeft(par: Node, sibling: Node, ghost c: Ctx, ghost t: Tree, ghost k: nat)
      returns (ghost u: Tree, ghost j: nat)
      requires Synced() && Short(c, t, k) && !IsRed(t) && c.InL? && c.n == par
      requires c.r.T? && c.r.n == sibling && !c.r.red && (IsRed(c.r.l) || IsRed(c.r.r))
      modifies this`root, this`mem, mem.Keys
      ensures Synced() && mem.Keys == old(mem.Keys)
      ensures At(Now(), c.up, u) && Balanced(u, j) && Fits(c.up, j) && !(IsRed(u) && CIsRed(c.up))
      ensures Line(c.up, u) == Line(c, t)
    {
      var tmp;
      ghost var c1;
      LineUp(c, t);
      tmp, c1 := FarNephewLeft(par, sibling, c, t, k);
      ShortEndL(par, c1.red, c1.r, c1.up, t, k);
      AtUp(Now(), c1, t);
      u := SettleLeft(par, tmp, c1.up, Climb(c1, t));
      j := if c.red then k + 1 else k + 2;
    }

    /** The sibling takes the parent's colour, parent and far nephew turn black; rotate. */
    method SettleLeft(par: Node, tmp: Node, ghost c: Ctx, ghost t: Tree) returns (ghost u: Tree)
      requires Synced() && At(Now(), c, t) && t.T? && t.r.T? && t.n == par && t.r.n == tmp && t.r.r.T?
      modifies this`root, this`mem, mem.Keys
      ensures Synced() && mem.Keys == old(mem.Keys) && At(Now(), c, u)
      ensures u == T(T(t.l, par, false, t.r.l), tmp, t.red, t.r.r.(red := false)) && InOrder(u) == InOrder(t)
    {
      PaintRight(Now(), c, t, t.red);
      SetRed(tmp, par.red);
      u := t.(r := t.r.(red := t.red));
      Paint(Now(), c, u, false);
      SetRed(par, false);
      u := u.(red := false);
      PaintFarRight(Now(), c, u, false);
      Kids(u.r, par);
      if tmp.right != null {
        SetRed(tmp.right, false);
      }
      u := u.(r := u.r.(r := u.r.r.(red := false)));
      assert InOrder(u.r.r) == InOrder(t.r.r) && InOrder(u.r) == InOrder(t.r);
      var e;
      e, u := TurnLeft(par, c, u);
    }

    /** A black sibling without red children turns red; the shortage moves up. */
    method RemoveRaise(tmp: Node, ghost c: Ctx, ghost t: Tree, ghost k: nat) returns (ghost t2: Tree, ghost j: nat)
      requires Synced() && Short(c, t, k) && !IsRed(t) && !c.Top? && Side(c).T? && Side(c).n == tmp
      requires !Side(c).red && !IsRed(Side(c).l) && !IsRed(Side(c).r)
      modifies this`mem, mem.Keys
      ensures Synced() && mem.Keys == old(mem.Keys)
      ensures t2.T? && t2.n == c.n && t2.red == c.red && Short(c.up, t2, j) && Line(c.up, t2) == Line(c, t)
    {
      ghost var w := Side(c);
      ShortUp(c, t, k);
      AtUp(Now(), c, t);
      LineUp(c, t);
      if c.InL? {
        PaintRight(Now(), c.up, Climb(c, t), true);
      } else {
        PaintLeft(Now(), c.up, Climb(c, t), true);
      }
      SetRed(tmp, true);
      t2 := if c.InL? then T(t, c.n, c.red, w.(red := true)) else T(w.(red := true), c.n, c.red, t);
      j := if c.red then k else k + 1;
      assert InOrder(w.(red := true)) == InOrder(w);
    }

    /** One turn of RB_REMOVE_COLOR with `elm` a left child; `done` is its `break`. */
    method RemoveColorLeft(elm: Node?, parent: Node, ghost c: Ctx, ghost t: Tree, ghost k: nat)
      returns (done: bool, elm2: Node?, par2: Node?, ghost c2: Ctx, ghost t2: Tree, ghost k2: nat)
      requires Synced() && Short(c, t, k) && !IsRed(t) && c.InL? && elm == Root(t) && parent == c.n
      modifies this`root, this`mem, mem.Keys
      ensures Synced() && mem.Keys == old(mem.Keys) && Line(c2, t2) == Line(c, t)
      ensures !done ==>
        && Short(c2, t2, k2) && elm2 == Root(t2) && par2 == Above(c2) && (IsRed(t2) || Depth(c2) < Depth(c))
      ensures done ==>
        elm2 == root && At(Now(), c2, t2) && Balanced(t2, k2) && Fits(c2, k2) && !(IsRed(t2) && CIsRed(c2))
    {
      var tmp;
      ghost var c1;
      tmp, c1 := BlackSiblingLeft(parent, c, t, k);
      AtUp(Now(), c1, t);
      Kids(c1.r, parent);
      c2 := c1.up;
      if (tmp.left == null || !tmp.left.red) && (tmp.right == null || !tmp.right.red) {
        t2, k2 := RemoveRaise(tmp, c1, t, k);
        done, elm2, par2 := false, parent, parent.parent;
      } else {
        t2, k2 := RemoveEndLeft(parent, tmp, c1, t, k);
        done, elm2, par2 := true, root, null;
      }
    }

    /** First part of a turn of RB_REMOVE_COLOR: get a black sibling. */
    method BlackSiblingRight(par: Node, ghost c: Ctx, ghost t: Tree, ghost k: nat)
      returns (tmp: Node, ghost c2: Ctx)
      requires Synced() && Short(c, t, k) && c.InR? && par == c.n
      modifies this`root, this`mem, mem.Keys
      ensures Synced() && mem.Keys == old(mem.Keys)
      ensures Short(c2, t, k) && c2.InR? && c2.n == par && c2.l.T? && c2.l.n == tmp && !c2.l.red
      ensures Line(c2, t) == Line(c, t) && (c2 == c || c2.red)
    {
      ShortSibling(c, k);
      c2 := c;
      tmp := par.left;
      assert mem[tmp].red == c.l.red;
      if tmp.red {
        ShortTurnR(par, c.l, c.up, k);
        AtUp(Now(), c, t);
        ghost var g := LiftLeft(tmp, par, c.up, Climb(c, t));
        ghost var c1 := InR(c.l.l, tmp, false, c.up);
        c2 := InR(c.l.r, par, true, c1);
        LineUp(c, t);
        LineUp(c2, t);
        LineUp(c1, g.r);
        AtUp(Now(), c1, g.r);
        AtUp(Now(), c2, t);
        tmp := par.left;
        ShortSibling(c2, k);
      }
    }

    /** Second part: the red child of the sibling has to be the far one. */
    method FarNephewRight(par: Node, sibling: Node, ghost c: Ctx, ghost t: Tree, ghost k: nat)
      returns (tmp: Node, ghost c2: Ctx)
      requires Synced() && Short(c, t, k) && c.InR? && c.n == par
      requires c.l.T? && c.l.n == sibling && !c.l.red && (IsRed(c.l.r) || IsRed(c.l.l))
      modifies this`root, this`mem, mem.Keys
      ensures Synced() && mem.Keys == old(mem.Keys)
      ensures Short(c2, t, k) && c2.InR? && c2.n == par && c2.up == c.up && c2.red == c.red
      ensures c2.l.T? && c2.l.n == tmp && !c2.l.red && IsRed(c2.l.l)
      ensures InOrder(c2.l) == InOrder(c.l)
    {
      tmp := sibling;
      c2 := c;
      ghost var side := InL(par, c.red, t, c.up);
      AtUp(Now(), c, t);
      AtUp(Now(), side, c.l);
      Kids(c.l, par);
      if tmp.left == null || !tmp.left.red {
        ShortNephewR(par, c.red, c.l, c.up, k);
        ghost var w := LiftRight(tmp.right, tmp, side, c.l);
        c2 := InR(w, par, c.red, c.up);
        AtUp(Now(), side, w);
        AtUp(Now(), c2, t);
        tmp := par.left;
      }
    }

    /** The turn of RB_REMOVE_COLOR that ends its loop: the sibling has a red child. */
    method RemoveEndRight(par: Node, sibling: Node, ghost c: Ctx, ghost t: Tree, ghost k: nat)
      returns (ghost u: Tree, ghost j: nat)
      requires Synced() && Short(c, t, k) && !IsRed(t) && c.InR? && c.n == par
      requires c.l.T? && c.l.n == sibling && !c.l.red && (IsRed(c.l.r) || IsRed(c.l.l))
      modifies this`root, this`mem, mem.Keys
      ensures Synced() && mem.Keys == old(mem.Keys)
      ensures At(Now(), c.up, u) && Balanced(u, j) && Fits(c.up, j) && !(IsRed(u) && CIsRed(c.up))
      ensures Line(c.up, u) == Line(c, t)
    {
      var tmp;
      ghost var c1;
      LineUp(c, t);
      tmp, c1 := FarNephewRight(par, sibling, c, t, k);
      ShortEndR(par, c1.red, c1.l, c1.up, t, k);
      AtUp(Now(), c1, t);
      u := SettleRight(par, tmp, c1.up, Climb(c1, t));
      j := if c.red then k + 1 else k + 2;
    }

    /** The sibling takes the parent's colour, parent and far nephew turn black; rotate. */
    method SettleRight(par: Node, tmp: Node, ghost c: Ctx, ghost t: Tree) returns (ghost u: Tree)
      requires Synced() && At(Now(), c, t) && t.T? && t.l.T? && t.n == par && t.l.n == tmp && t.l.l.T?
      modifies this`root, this`mem, mem.Keys
      ensures Synced() && mem.Keys == old(mem.Keys) && At(Now(), c, u)
      ensures u == T(t.l.l.(red := false), tmp, t.red, T(t.l.r, par, false, t.r)) && InOrder(u) == InOrder(t)
    {
      PaintLeft(Now(), c, t, t.red);
      SetRed(tmp, par.red);
      u := t.(l := t.l.(red := t.red));
      Paint(Now(), c, u, false);
      SetRed(par, false);
      u := u.(red := false);
      PaintFarLeft(Now(), c, u, false);
      Kids(u.l, par);
      if tmp.left != null {
        SetRed(tmp.left, false);
      }
      u := u.(l := u.l.(l := u.l.l.(red := false)));
      assert InOrder(u.l.l) == InOrder(t.l.l) && InOrder(u.l) == InOrder(t.l);
      var e;
      e, u := TurnRight(par, c, u);
    }

    /** One turn of RB_REMOVE_COLOR with `elm` a right child; `done` is its `break`. */
    method RemoveColorRight(elm: Node?, parent: Node, ghost c: Ctx, ghost t: Tree, ghost k: nat)
      returns (done: bool, elm2: Node?, par2: Node?, ghost c2: Ctx, ghost t2: Tree, ghost k2: nat)
      requires Synced() && Short(c, t, k) && !IsRed(t) && c.InR? && elm == Root(t) && parent == c.n
      modifies this`root, this`mem, mem.Keys
      ensures Synced() && mem.Keys == old(mem.Keys) && Line(c2, t2) == Line(c, t)
      ensures !done ==>
        && Short(c2, t2, k2) && elm2 == Root(t2) && par2 == Above(c2) && (IsRed(t2) || Depth(c2) < Depth(c))
      ensures done ==>
        elm2 == root && At(Now(), c2, t2) && Balanced(t2, k2) && Fits(c2, k2) && !(IsRed(t2) && CIsRed(c2))
    {
      var tmp;
      ghost var c1;
      tmp, c1 := BlackSiblingRight(parent, c, t, k);
      AtUp(Now(), c1, t);
      Kids(c1.l, parent);
      c2 := c1.up;
      if (tmp.right == null || !tmp.right.red) && (tmp.left == null || !tmp.left.red) {
        t2, k2 := RemoveRaise(tmp, c1, t, k);
        done, elm2, par2 := false, parent, parent.parent;
      } else {
        t2, k2 := RemoveEndRight(parent, tmp, c1, t, k);
        done, elm2, par2 := true, root, null;
      }
    }

    /** The loop of RB_REMOVE_COLOR, before and after its `break`. */
    ghost predicate Fixing(done: bool, elm: Node?, parent: Node?, c: Ctx, t: Tree, k: nat)
      reads this`root, this`mem
    {
      if done then
        elm == root && At(Now(), c, t) && Balanced(t, k) && Fits(c, k) && !(IsRed(t) && CIsRed(c))
      else
        Short(c, t, k) && elm == Root(t) && parent == Above(c)
    }

    /** RB_REMOVE_COLOR */
    method RemoveColor(par: Node?, e: Node?, ghost c0: Ctx, ghost t0: Tree, ghost k0: nat) returns (ghost u: Tree)
      requires Synced() && Short(c0, t0, k0) && e == Root(t0) && par == Above(c0)
      modifies this`root, this`mem, mem.Keys
      ensures Synced() && mem.Keys == old(mem.Keys)
      ensures At(Now(), Top, u) && RedBlack(u) && InOrder(u) == Line(c0, t0)
    {
      hide InOrder, Before, After;
      var parent, elm, done := par, e, false;
      ghost var c, t, k := c0, t0, k0;
      while !done && (elm == null || !elm.red) && elm != root
        invariant Synced() && mem.Keys == old(mem.Keys) && Line(c, t) == Line(c0, t0)
        invariant Fixing(done, elm, parent, c, t, k)
        decreases !done, if IsRed(t) then 0 else Depth(c) + 1
      {
        if parent.left == elm {
          done, elm, parent, c, t, k := RemoveColorLeft(elm, parent, c, t, k);
        } else {
          done, elm, parent, c, t, k := RemoveColorRight(elm, parent, c, t, k);
        }
      }
      if done {
        u := BlackenRoot(elm, c, t, k);
      } else {
        RootAbove(Now(), c, elm);
        u := Blacken(elm, c, t, k);
      }
    }

    /** The last assignment of RB_REMOVE_COLOR when its loop did not break. */
    method Blacken(elm: Node?, ghost c: Ctx, ghost t: Tree, ghost k: nat) returns (ghost u: Tree)
      requires Synced() && Short(c, t, k) && elm == Root(t) && (IsRed(t) || c.Top?)
      modifies this`mem, mem.Keys
      ensures Synced() && mem.Keys == old(mem.Keys)
      ensures At(Now(), Top, u) && RedBlack(u) && InOrder(u) == Line(c, t)
    {
      ghost var v, j := t, k;
      if elm != null {
        Paint(Now(), c, t, false);
        v, j := t.(red := false), if t.red then k + 1 else k;
        SetRed(elm, false);
      }
      assert Balanced(v, j);
      u := Plug(c, v);
      Zip(Now(), c, v);
      PlugBalanced(c, v, j);
      PlugLine(c, v);
      assert InOrder(v) == InOrder(t);
    }

    /** A node with at most one child is cut out. */
    method CutOut(elm: Node, child: Node?, ghost c: Ctx, ghost t: Tree, ghost u: Tree)
      returns (parent: Node?, red: bool)
      requires Synced() && At(Now(), c, t) && t.T? && t.n == elm && child == Root(u)
      requires (u == t.l && t.r == Leaf) || (u == t.r && t.l == Leaf)
      modifies this`root, this`mem, mem.Keys
      ensures Synced() && mem.Keys == old(mem.Keys) && At(Now(), c, u)
      ensures parent == Above(c) && red == t.red && elm !in Elems(u) + CElems(c)
    {
      hide InOrder, Before, After, Balanced;
      CutAt(Now(), c, t, u);
      Kids(t, Above(c));
      parent, red := elm.parent, elm.red;
      if child != null {
        SetParent(child, parent);
      }
      Replace(parent, elm, child);
    }

    method CopyFields(elm: Node, x: Node)
      requires Synced() && elm in mem && x in mem
      modifies this`mem, elm
      ensures Synced() && mem == old(mem)[elm := old(mem)[x]] && mem.Keys == old(mem.Keys)
    {
      elm.left, elm.right, elm.parent, elm.red := x.left, x.right, x.parent, x.red;
      mem := mem[elm := mem[x]];
    }

    method StandIn(x: Node, elm: Node)
      requires Synced() && elm in mem && x in mem && x != elm && x.parent != x
      requires x.parent != null ==> x.parent in mem
      modifies this`root, this`mem, elm, x.parent
      ensures Synced() && mem.Keys == old(mem.Keys) && mem[x] == old(mem[x])
      ensures Now() == Relink(State(old(mem)[elm := old(mem)[x]], old(root)), old(x.parent), x, elm)
    {
      CopyFields(elm, x);
      Replace(x.parent, x, elm);
    }

    method TakeFields(x: Node, elm: Node)
      requires Synced() && elm in mem && x in mem && x != elm && x.parent != x
      requires x.parent != null ==> x.parent in mem
      requires x.left != null && x.left in mem && (x.right != null ==> x.right in mem && x.right != x) && x.left != x
      modifies this`root, this`mem, mem.Keys
      ensures Synced() && mem.Keys == old(mem.Keys)
      ensures Now() == Substitute(old(Now()), x, elm)
    {
      StandIn(x, elm);
      SetParent(x.left, elm);
      if x.right != null {
        SetParent(x.right, elm);
      }
    }

    /** `elm`, outside the tree, takes the place and the fields of `x`. */
    method TakeOver(x: Node, elm: Node, ghost c: Ctx, ghost t: Tree)
      requires Synced() && At(Now(), c, t) && t.T? && t.n == x && t.l.T?
      requires elm in mem && elm !in Elems(t) + CElems(c)
      modifies this`root, this`mem, mem.Keys
      ensures Synced() && mem.Keys == old(mem.Keys) && At(Now(), c, T(t.l, elm, t.red, t.r))
    {
      SubstituteAt(Now(), c, t, elm);
      Kids(t, Above(c));
      assert Above(c) != x;
      TakeFields(x, elm);
    }

    /** The leftmost node of the right subtree. */
    method Successor(x: Node, ghost c: Ctx, ghost t0: Tree) returns (elm: Node, ghost d: Ctx, ghost t: Tree)
      requires Synced() && At(Now(), c, t0) && t0.T? && t0.n == x && t0.r.T?
      ensures At(Now(), Onto(d, InR(t0.l, x, t0.red, c)), t) && t.T? && t.n == elm && t.l == Leaf
      ensures Plug(d, t) == t0.r && Before(d) == []
    {
      ghost var cx := InR(t0.l, x, t0.red, c);
      AtUp(Now(), cx, t0.r);
      Kids(t0, Above(c));
      elm := x.right;
      d, t := Top, t0.r;
      while elm.left != null
        invariant At(Now(), Onto(d, cx), t) && t.T? && t.n == elm
        invariant Plug(d, t) == t0.r && Before(d) == []
        decreases t
      {
        Kids(t, Above(Onto(d, cx)));
        AtUp(Now(), InL(elm, t.red, t.r, Onto(d, cx)), t.l);
        d, t := InL(elm, t.red, t.r, d), t.l;
        elm := elm.left;
      }
      Kids(t, Above(Onto(d, cx)));
    }

    /** RB_REMOVE of a node with two children: its successor is cut out and takes its place. */
    method RemoveTwo(x: Node, ghost c0: Ctx, ghost t0: Tree)
      returns (child: Node?, parent: Node?, red: bool, ghost d: Ctx, ghost e: Node, ghost u: Tree)
      requires Synced() && At(Now(), c0, t0) && t0.T? && t0.n == x && t0.l.T? && t0.r.T?
      modifies this`root, this`mem, mem.Keys
      ensures Synced() && mem.Keys == old(mem.Keys)
      ensures t0.r == Plug(d, T(Leaf, e, red, u)) && Before(d) == []
      ensures At(Now(), Onto(d, InR(t0.l, e, t0.red, c0)), u)
      ensures child == Root(u) && parent == Above(Onto(d, InR(t0.l, e, t0.red, c0)))
    {
      hide Linked, CLinked, InOrder;
      ghost var cx := InR(t0.l, x, t0.red, c0);
      var elm;
      ghost var t;
      elm, d, t := Successor(x, c0, t0);
      Kids(t, Above(Onto(d, cx)));
      u := t.r;
      child, e := elm.right, elm;
      parent, red := CutOut(elm, child, Onto(d, cx), t, u);
      if parent == x {
        parent := elm;
      }
      AtOnto(Now(), d, cx, u);
      AtUp(Now(), cx, Plug(d, u));
      ghost var v := T(t0.l, x, t0.red, Plug(d, u));
      OntoElems(d, cx, u);
      TakeOver(x, elm, c0, v);
      AtUp(Now(), InR(t0.l, elm, t0.red, c0), Plug(d, u));
      AtOnto(Now(), d, InR(t0.l, elm, t0.red, c0), u);
    }

    /** RB_REMOVE, up to `color`: `x` is unlinked. */
    method Unlink(x: Node, ghost c0: Ctx, ghost t0: Tree)
      returns (child: Node?, parent: Node?, red: bool, ghost c: Ctx, ghost u: Tree, ghost k: nat)
      requires Synced() && At(Now(), c0, t0) && t0.T? && t0.n == x && RedBlack(Plug(c0, t0))
      modifies this`root, this`mem, mem.Keys
      ensures Synced() && mem.Keys == old(mem.Keys)
      ensures At(Now(), c, u) && child == Root(u) && parent == Above(c)
      ensures Balanced(u, k) && if red then Fits(c, k) && !IsRed(u) else Fits(c, k + 1)
      ensures Line(c, u) == (Before(c0) + InOrder(t0.l)) + (InOrder(t0.r) + After(c0))
    {
      Kids(t0, Above(c0));
      CutLine(c0, t0);
      if x.left == null || x.right == null {
        child := if x.left == null then x.right else x.left;
        c, u := c0, if t0.l == Leaf then t0.r else t0.l;
        k := CutBalanced(c, t0, u);
        parent, red := CutOut(x, child, c, t0, u);
      } else {
        ghost var d, e;
        child, parent, red, d, e, u := RemoveTwo(x, c0, t0);
        c := Onto(d, InR(t0.l, e, t0.red, c0));
        SuccessorLine(c0, t0, d, e, red, u);
        k := CutSuccessorBalanced(c0, t0, d, e, red, u);
      }
    }

    /** RB_REMOVE, from `color` on. */
    method Recolor(child: Node?, parent: Node?, red: bool, ghost c: Ctx, ghost u: Tree, ghost k: nat)
      returns (ghost w: Tree)
      requires Synced() && At(Now(), c, u) && child == Root(u) && parent == Above(c)
      requires Balanced(u, k) && if red then Fits(c, k) && !IsRed(u) else Fits(c, k + 1)
      modifies this`root, this`mem, mem.Keys
      ensures Synced() && mem.Keys == old(mem.Keys)
      ensures At(Now(), Top, w) && RedBlack(w) && InOrder(w) == Line(c, u) && Elems(w) == ElemsOf(Line(c, u))
    {
      if !red {
        w := RemoveColor(parent, child, c, u, k);
      } else {
        w := Plug(c, u);
        Zip(Now(), c, u);
        PlugBalanced(c, u, k);
        PlugLine(c, u);
      }
      InOrderElems(w);
    }

    /** RB_REMOVE */
    method Remove(x: Node) returns (removed: Node, ghost b: seq<Node>, ghost a: seq<Node>)
      requires Valid() && x in mem
      modifies this, mem.Keys
      ensures Valid() && removed == x
      ensures old(Contents()) == b + [x] + a && Contents() == b + a
    {
      ghost var f := FocusOn(Top, tree, x);
      ghost var c0, t0 := f.0, f.1;
      b, a := Before(c0) + InOrder(t0.l), InOrder(t0.r) + After(c0);
      Zip(Now(), c0, t0);
      PlugLine(c0, t0);
      CutLine(c0, t0);
      assert Contents() == b + [x] + a;
      SortedRemove(b, x, a);
      InOrderElems(tree);
      ElemsWithout(b, x, a);
      var child, parent, red;
      ghost var c, u, k;
      child, parent, red, c, u, k := Unlink(x, c0, t0);
      ghost var w := Recolor(child, parent, red, c, u, k);
      ForgetAt(Now(), w, x);
      Forget(x);
      Install(w, b + a);
      removed := x;
    }

    /** The tree that the nodes form now. */
    ghost method Install(w: Tree, s: seq<Node>)
      requires Synced() && At(Now(), Top, w) && mem.Keys == Elems(w)
      requires RedBlack(w) && InOrder(w) == s && Sorted(s)
      modifies this`tree
      ensures Valid() && tree == w && Contents() == s
    {
      tree := w;
    }

    ghost method Forget(x: Node)
      requires Synced()
      modifies this`mem
      ensures Synced() && mem == old(mem) - {x} && mem.Keys == old(mem.Keys) - {x}
    {
      mem := mem - {x};
    }

    /** RB_FIND */
    method Find(key: int) returns (found: Node?)
      requires Valid()
      ensures found != null ==> found in Contents() && found.key == key
      ensures found == null ==> forall n :: n in Contents() ==> n.key != key
    {
      found := root;
      ghost var c, t := Top, tree;
      while found != null
        invariant At(Now(), c, t) && found == Root(t)
        invariant Line(c, t) == Contents() && Between(c, key)
        decreases t
      {
        Descend(c, t, key);
        AtUp(Now(), InL(found, t.red, t.r, c), t.l);
        AtUp(Now(), InR(t.l, found, t.red, c), t.r);
        LineUp(InL(found, t.red, t.r, c), t.l);
        LineUp(InR(t.l, found, t.red, c), t.r);
        if key < found.key {
          c, t := InL(found, t.red, t.r, c), t.l;
          found := found.left;
        } else if found.key < key {
          c, t := InR(t.l, found, t.red, c), t.r;
          found := found.right;
        } else {
          assert Line(c, t)[|Before(c)| + |InOrder(t.l)|] == found;
          return;
        }
      }
    }

    /** RB_NFIND: the first element whose key is not below `key`; `at` elements are below. */
    method NFind(key: int) returns (res: Node?, ghost at: nat)
      requires Valid()
      ensures at <= |Contents()|
      ensures forall i :: 0 <= i < |Contents()| ==> (Contents()[i].key < key <==> i < at)
      ensures res == if at < |Contents()| then Contents()[at] else null
    {
      var tmp := root;
      res := null;
      ghost var c, t := Top, tree;
      while tmp != null
        invariant At(Now(), c, t) && tmp == Root(t) && res == First(After(c))
        invariant Line(c, t) == Contents() && Between(c, key)
        decreases t
      {
        Descend(c, t, key);
        AtUp(Now(), InL(tmp, t.red, t.r, c), t.l);
        AtUp(Now(), InR(t.l, tmp, t.red, c), t.r);
        LineUp(InL(tmp, t.red, t.r, c), t.l);
        LineUp(InR(t.l, tmp, t.red, c), t.r);
        if key < tmp.key {
          res := tmp;
          c, t := InL(tmp, t.red, t.r, c), t.l;
          tmp := tmp.left;
        } else if tmp.key < key {
          c, t := InR(t.l, tmp, t.red, c), t.r;
          tmp := tmp.right;
        } else {
          at := |Before(c)| + |InOrder(t.l)|;
          Split(Contents(), at, key);
          return tmp, at;
        }
      }
      at := |Before(c)|;
      SplitAt(c, Contents(), key);
    }

    lemma SplitAt(c: Ctx, s: seq<Node>, key: int)
      requires Line(c, Leaf) == s && Between(c, key)
      ensures s == Before(c) + After(c)
      ensures forall i :: 0 <= i < |s| ==> (s[i].key < key <==> i < |Before(c)|)
    {
      assert forall i :: 0 <= i < |Before(c)| ==> s[i] in Before(c);
      assert forall i :: |Before(c)| <= i < |s| ==> s[i] in After(c);
    }

    lemma Split(s: seq<Node>, at: nat, key: int)
      requires Sorted(s) && at < |s| && s[at].key == key
      ensures forall i :: 0 <= i < |s| ==> (s[i].key < key <==> i < at)
    {
    }

    /** RB_MINMAX for the minimum. */
    method Min() returns (parent: Node?)
      requires Valid()
      ensures parent == First(Contents())
    {
      var tmp := root;
      parent := null;
      ghost var c, t := Top, tree;
      while tmp != null
        invariant At(Now(), c, t) && tmp == Root(t) && parent == Above(c) && !c.InR?
        invariant InOrder(t) + After(c) == Contents()
        decreases t
      {
        AtUp(Now(), InL(tmp, t.red, t.r, c), t.l);
        parent := tmp;
        tmp := tmp.left;
        c, t := InL(parent, t.red, t.r, c), t.l;
      }
    }

    /** RB_MINMAX for the maximum. */
    method Max() returns (parent: Node?)
      requires Valid()
      ensures parent == Last(Contents())
    {
      var tmp := root;
      parent := null;
      ghost var c, t := Top, tree;
      while tmp != null
        invariant At(Now(), c, t) && tmp == Root(t) && parent == Above(c) && !c.InL?
        invariant Before(c) + InOrder(t) == Contents()
        decreases t
      {
        AtUp(Now(), InR(t.l, tmp, t.red, c), t.r);
        parent := tmp;
        tmp := tmp.right;
        c, t := InR(t.l, parent, t.red, c), t.r;
      }
    }

    /** The focus at the `i`-th element. */
    lemma Focus(x: Node, i: nat) returns (c: Ctx, t: Tree)
      requires Valid() && i < |Contents()| && Contents()[i] == x
      ensures At(Now(), c, t) && t.T? && t.n == x && InOrder(t.r) + After(c) == Contents()[i + 1..]
      ensures Before(c) + InOrder(t.l) == Contents()[..i]
    {
      InOrderElems(tree);
      c, t := FocusOn(Top, tree, x).0, FocusOn(Top, tree, x).1;
      Zip(Now(), c, t);
      PlugLine(c, t);
      CutLine(c, t);
      hide InOrder, Before, After;
      SplitAtIndex(Contents(), i, Before(c) + InOrder(t.l), x, InOrder(t.r) + After(c));
    }

    lemma SplitAtIndex(s: seq<Node>, i: nat, a: seq<Node>, x: Node, b: seq<Node>)
      requires Sorted(s) && i < |s| && s[i] == x && s == a + [x] + b
      ensures a == s[..i] && b == s[i + 1..]
    {
      assert s[|a|] == x;
      assert i == |a|;
    }

    /** Down the left links from a node. */
    method Leftmost(x: Node, ghost c0: Ctx, ghost t0: Tree) returns (elm: Node)
      requires Synced() && At(Now(), c0, t0) && t0.T? && t0.n == x
      ensures elm == First(InOrder(t0))
    {
      elm := x;
      ghost var c, t := c0, t0;
      Kids(t, Above(c));
      while elm.left != null
        invariant At(Now(), c, t) && t.T? && t.n == elm && elm.left == Root(t.l)
        invariant First(InOrder(t)) == First(InOrder(t0))
        decreases t
      {
        AtUp(Now(), InL(elm, t.red, t.r, c), t.l);
        FirstLeft(t);
        c, t := InL(elm, t.red, t.r, c), t.l;
        elm := elm.left;
        Kids(t, Above(c));
      }
    }

    /** RB_NEXT: the element after the `i`-th. */
    method Next(x: Node, ghost i: nat) returns (elm: Node?)
      requires Valid() && i < |Contents()| && Contents()[i] == x
      ensures elm == if i + 1 < |Contents()| then Contents()[i + 1] else null
    {
      ghost var c, t := Focus(x, i);
      Kids(t, Above(c));
      if x.right != null {
        elm := Leftmost(x.right, InR(t.l, x, t.red, c), t.r);
      } else {
        elm := x;
        if elm.parent != null && elm == elm.parent.left {
          AtUp(Now(), c, t);
          elm := elm.parent;
        } else {
          while elm.parent != null && elm == elm.parent.right
            invariant At(Now(), c, t) && t.T? && t.n == elm && After(c) == Contents()[i + 1..]
            decreases c
          {
            AtUp(Now(), c, t);
            elm := elm.parent;
            c, t := c.up, Climb(c, t);
          }
          if elm.parent != null {
            AtUp(Now(), c, t);
          }
          elm := elm.parent;
        }
      }
    }

    /** Down the right links from a node. */
    method Rightmost(x: Node, ghost c0: Ctx, ghost t0: Tree) returns (elm: Node)
      requires Synced() && At(Now(), c0, t0) && t0.T? && t0.n == x
      ensures elm == Last(InOrder(t0))
    {
      elm := x;
      ghost var c, t := c0, t0;
      Kids(t, Above(c));
      while elm.right != null
        invariant At(Now(), c, t) && t.T? && t.n == elm && elm.right == Root(t.r)
        invariant Last(InOrder(t)) == Last(InOrder(t0))
        decreases t
      {
        AtUp(Now(), InR(t.l, elm, t.red, c), t.r);
        LastRight(t);
        c, t := InR(t.l, elm, t.red, c), t.r;
        elm := elm.right;
        Kids(t, Above(c));
      }
    }

    /** Up to the first parent on the left. */
    method UpLeft(x: Node, ghost c0: Ctx, ghost t0: Tree) returns (elm: Node?)
      requires Synced() && At(Now(), c0, t0) && t0.T? && t0.n == x
      ensures elm == Last(Before(c0))
    {
      elm := x;
      ghost var c, t := c0, t0;
      while elm.parent != null && elm == elm.parent.left
        invariant At(Now(), c, t) && t.T? && t.n == elm && Before(c) == Before(c0)
        decreases c
      {
        AtUp(Now(), c, t);
        elm := elm.parent;
        c, t := c.up, Climb(c, t);
      }
      if elm.parent != null {
        AtUp(Now(), c, t);
      }
      elm := elm.parent;
    }

    /** RB_PREV: the element before the `i`-th. */
    method Prev(x: Node, ghost i: nat) returns (elm: Node?)
      requires Valid() && i < |Contents()| && Contents()[i] == x
      ensures elm == if i > 0 then Contents()[i - 1] else null
    {
      ghost var c, t := Focus(x, i);
      Kids(t, Above(c));
      LastBefore(Before(c), InOrder(t.l), Contents(), i);
      hide Balanced, RedBlack, Fits, Elems, CElems, Sorted;
      if x.left != null {
        elm := Rightmost(x.left, InL(x, t.red, t.r, c), t.l);
      } else {
        elm := x;
        if elm.parent != null && elm == elm.parent.right {
          AtUp(Now(), c, t);
          elm := elm.parent;
        } else {
          elm := UpLeft(x, c, t);
        }
      }
    }

    static lemma LastBefore(b: seq<Node>, l: seq<Node>, s: seq<Node>, i: nat)
      requires i <= |s| && b + l == s[..i]
      ensures (if i > 0 then s[i - 1] else null) == if l != [] then Last(l) else Last(b)
    {
    }

    /** RB_FOREACH: from the minimum, every element once and in order. */
    method Walk() returns (s: seq<Node>)
      requires Valid()
      ensures s == Contents() && Sorted(s)
    {
      s := [];
      var x := Min();
      while x != null
        invariant |s| <= |Contents()| && s == Contents()[..|s|]
        invariant x == if |s| < |Contents()| then Contents()[|s|] else null
        decreases |Contents()| - |s|
      {
        var y := Next(x, |s|);
        s := s + [x];
        x := y;
      }
    }

    /** Every valid tree is at most 2 lg (n + 1) high. */
    lemma HeightOfTree()
      requires Valid()
      ensures Pow2(Height(tree)) <= (|Contents()| + 1) * (|Contents()| + 1)
    {
      HeightBound(tree);
      SizeIsLength(tree);
    }
  }
}
