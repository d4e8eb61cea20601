/** Values that describe a red-black tree of linked nodes: the tree below a node
    and the context above it.  The pointer code in `RedBlackTree` works on nodes;
    these values say what the nodes are linked into, and the lemmas here speak of
    order, colours and height only. */
module RedBlackShape {
  import opened PowerOfTwo

  /** The four intrusive fields, and a key that stands for what `cmp` compares. */
  class Node {
    var left: Node?
    var right: Node?
    var parent: Node?
    var red: bool
    const key: int

    constructor (key: int)
      ensures this.key == key
    {
      this.key := key;
      left, right, parent, red := null, null, null, false;
    }
  }

  datatype Tree = Leaf | T(l: Tree, n: Node, red: bool, r: Tree)

  /** What surrounds a subtree: the node whose left (right) child it is, that
      node's other subtree, and so on up to the root. */
  datatype Ctx = Top
               | InL(n: Node, red: bool, r: Tree, up: Ctx)
               | InR(l: Tree, n: Node, red: bool, up: Ctx)

  function Root(t: Tree): Node? {
    if t.T? then t.n else null
  }

  function Above(c: Ctx): Node? {
    if c.Top? then null else c.n
  }

  function IsRed(t: Tree): bool {
    t.T? && t.red
  }

  /** The root of the whole tree has to be black, so `Top` counts as red. */
  function CIsRed(c: Ctx): bool {
    c.Top? || c.red
  }

  ghost function Elems(t: Tree): set<Node> {
    match t
    case Leaf => {}
    case T(l, n, _, r) => Elems(l) + {n} + Elems(r)
  }

  ghost function CElems(c: Ctx): set<Node> {
    match c
    case Top => {}
    case InL(n, _, r, up) => {n} + Elems(r) + CElems(up)
    case InR(l, n, _, up) => {n} + Elems(l) + CElems(up)
  }

  ghost function InOrder(t: Tree): seq<Node> {
    match t
    case Leaf => []
    case T(l, n, _, r) => InOrder(l) + [n] + InOrder(r)
  }

  ghost function Before(c: Ctx): seq<Node> {
    match c
    case Top => []
    case InL(_, _, _, up) => Before(up)
    case InR(l, n, _, up) => Before(up) + InOrder(l) + [n]
  }

  ghost function After(c: Ctx): seq<Node> {
    match c
    case Top => []
    case InL(n, _, r, up) => [n] + InOrder(r) + After(up)
    case InR(_, _, _, up) => After(up)
  }

  /** The in-order sequence of the whole tree, seen from a focus. */
  ghost function Line(c: Ctx, t: Tree): seq<Node> {
    Before(c) + InOrder(t) + After(c)
  }

  ghost function Plug(c: Ctx, t: Tree): Tree
    decreases c
  {
    match c
    case Top => t
    case InL(n, red, r, up) => Plug(up, T(t, n, red, r))
    case InR(l, n, red, up) => Plug(up, T(l, n, red, t))
  }

  ghost function Depth(c: Ctx): nat {
    match c
    case Top => 0
    case InL(_, _, _, up) => 1 + Depth(up)
    case InR(_, _, _, up) => 1 + Depth(up)
  }

  // ---- memory ----

  /** The four intrusive fields of a node. */
  datatype Cell = Cell(left: Node?, right: Node?, parent: Node?, red: bool)

  type Mem = map<Node, Cell>

  datatype State = State(mem: Mem, root: Node?)

  /** `t` is what the nodes are linked into below `parent`; no node occurs twice. */
  ghost predicate Linked(m: Mem, t: Tree, parent: Node?) {
    match t
    case Leaf => true
    case T(l, n, red, r) =>
      && n in m && m[n] == Cell(Root(l), Root(r), parent, red)
      && n !in Elems(l) && n !in Elems(r) && Elems(l) !! Elems(r)
      && Linked(m, l, n) && Linked(m, r, n)
  }

  ghost predicate CLinked(s: State, c: Ctx, hole: Node?)
    decreases c
  {
    match c
    case Top => s.root == hole
    case InL(n, red, r, up) =>
      && n in s.mem && s.mem[n] == Cell(hole, Root(r), Above(up), red)
      && n !in Elems(r) && n !in CElems(up) && Elems(r) !! CElems(up)
      && Linked(s.mem, r, n) && CLinked(s, up, n)
    case InR(l, n, red, up) =>
      && n in s.mem && s.mem[n] == Cell(Root(l), hole, Above(up), red)
      && n !in Elems(l) && n !in CElems(up) && Elems(l) !! CElems(up)
      && Linked(s.mem, l, n) && CLinked(s, up, n)
  }

  /** The memory holds the tree `Plug(c, t)`, looked at from the root of `t`. */
  ghost predicate At(s: State, c: Ctx, t: Tree) {
    CLinked(s, c, Root(t)) && Linked(s.mem, t, Above(c)) && Elems(t) !! CElems(c)
  }

  ghost predicate Agree(m: Mem, w: Mem, s: set<Node>) {
    forall n :: n in s && n in m ==> n in w && w[n] == m[n]
  }

  lemma {:induction false} LinkedFrame(m: Mem, w: Mem, t: Tree, p: Node?)
    requires Linked(m, t, p) && Agree(m, w, Elems(t))
    ensures Linked(w, t, p)
  {
    if t.T? {
      LinkedFrame(m, w, t.l, t.n);
      LinkedFrame(m, w, t.r, t.n);
    }
  }

  lemma {:induction false} CLinkedFrame(s: State, w: State, c: Ctx, hole: Node?)
    requires CLinked(s, c, hole) && s.root == w.root && Agree(s.mem, w.mem, CElems(c))
    ensures CLinked(w, c, hole)
    decreases c
  {
    match c
    case Top =>
    case InL(n, _, r, up) => LinkedFrame(s.mem, w.mem, r, n); CLinkedFrame(s, w, up, n);
    case InR(l, n, _, up) => LinkedFrame(s.mem, w.mem, l, n); CLinkedFrame(s, w, up, n);
  }

  /** The subtree of the node above the focus. */
  ghost function Climb(c: Ctx, t: Tree): Tree
    requires !c.Top?
  {
    if c.InL? then T(t, c.n, c.red, c.r) else T(c.l, c.n, c.red, t)
  }

  ghost function Side(c: Ctx): Tree
    requires !c.Top?
  {
    if c.InL? then c.r else c.l
  }

  lemma AtUp(s: State, c: Ctx, t: Tree)
    requires !c.Top?
    ensures At(s, c, t) <==> At(s, c.up, Climb(c, t))
  {
  }

  /** Moving the focus to the root of the tree, and back. */
  lemma {:induction false} Zip(s: State, c: Ctx, t: Tree)
    ensures At(s, c, t) <==> At(s, Top, Plug(c, t))
    decreases c
  {
    match c
    case Top =>
    case InL(n, red, r, up) => Zip(s, up, T(t, n, red, r));
    case InR(l, n, red, up) => Zip(s, up, T(l, n, red, t));
  }

  /** Below the root of the tree, the focus is not the root. */
  lemma {:induction false} RootAbove(s: State, c: Ctx, hole: Node?)
    requires CLinked(s, c, hole)
    ensures if c.Top? then s.root == hole else s.root in CElems(c)
    decreases c
  {
    if !c.Top? {
      RootAbove(s, c.up, c.n);
    }
  }

  // Field assignments on memories.

  function SetL(m: Mem, n: Node?, v: Node?): Mem {
    if n != null && n in m then m[n := m[n].(left := v)] else m
  }

  function SetR(m: Mem, n: Node?, v: Node?): Mem {
    if n != null && n in m then m[n := m[n].(right := v)] else m
  }

  function SetP(m: Mem, n: Node?, v: Node?): Mem {
    if n != null && n in m then m[n := m[n].(parent := v)] else m
  }

  function SetC(m: Mem, n: Node?, red: bool): Mem {
    if n != null && n in m then m[n := m[n].(red := red)] else m
  }

  /** Child and parent pointing to each other. */
  function LinkL(m: Mem, n: Node?, child: Node?): Mem {
    SetP(SetL(m, n, child), child, n)
  }

  function LinkR(m: Mem, n: Node?, child: Node?): Mem {
    SetP(SetR(m, n, child), child, n)
  }

  /** A subtree that got a new parent, and nothing else. */
  lemma Adopted(m: Mem, w: Mem, t: Tree, p: Node?, q: Node?)
    requires Linked(m, t, p)
    requires forall n :: n in Elems(t) && n in m ==> n in w && w[n] == if n == Root(t) then m[n].(parent := q) else m[n]
    ensures Linked(w, t, q)
  {
    if t.T? {
      LinkedFrame(m, w, t.l, t.n);
      LinkedFrame(m, w, t.r, t.n);
    }
  }

  function Get(m: Mem, n: Node?): Cell {
    if n != null && n in m then m[n] else Cell(null, null, null, false)
  }

  /** Make the parent of `was`, or the head, point to `now` instead. */
  function Relink(s: State, parent: Node?, was: Node?, now: Node?): State {
    if parent == null then s.(root := now)
    else if Get(s.mem, parent).left == was then s.(mem := SetL(s.mem, parent, now))
    else s.(mem := SetR(s.mem, parent, now))
  }

  /** `y` goes where `x` is. */
  function TakePlace(s: State, x: Node, y: Node?): State {
    var p := Get(s.mem, x).parent;
    Relink(s.(mem := SetP(s.mem, y, p)), p, x, y)
  }

  lemma RelinkAt(s: State, c: Ctx, was: Node, now: Node?)
    requires CLinked(s, c, was) && was !in CElems(c)
    ensures var w := Relink(s, Above(c), was, now);
      CLinked(w, c, now) && forall n :: n in s.mem && n != Above(c) ==> n in w.mem && w.mem[n] == s.mem[n]
  {
    var w := Relink(s, Above(c), was, now);
    if !c.Top? {
      LinkedFrame(s.mem, w.mem, if c.InL? then c.r else c.l, c.n);
      CLinkedFrame(s, w, c.up, c.n);
    }
  }

  /** RB_ROTATE_LEFT, assignment by assignment. */
  function RotL(s: State, x: Node): State {
    var y := Get(s.mem, x).right;
    var w := TakePlace(s.(mem := LinkR(s.mem, x, Get(s.mem, y).left)), x, y);
    w.(mem := LinkL(w.mem, y, x))
  }

  /** What a rotation at `x` with right child `y` does to each node. */
  lemma RotLCells(s: State, x: Node, y: Node)
    requires x in s.mem && y in s.mem && x != y && s.mem[x].right == y && s.mem[y].parent == x
    requires s.mem[x].parent != y && s.mem[x].parent != x && s.mem[x].left != x
    requires var b, p := s.mem[y].left, s.mem[x].parent; b != x && b != y && (b != null ==> b != p)
    ensures var u, b, p := RotL(s, x), s.mem[y].left, s.mem[x].parent;
      && x in u.mem && u.mem[x] == s.mem[x].(right := b, parent := y)
      && y in u.mem && u.mem[y] == s.mem[y].(left := x, parent := p)
      && (b != null && b in s.mem ==> b in u.mem && u.mem[b] == s.mem[b].(parent := x))
      && (forall n :: n in s.mem && n != x && n != y && n != b && n != p ==> n in u.mem && u.mem[n] == s.mem[n])
      && var w := Relink(s, p, x, y); w.root == u.root && (p != null && p in s.mem ==> p in u.mem && u.mem[p] == w.mem[p])
  {
  }

  lemma RotLContext(s: State, c: Ctx, t: Tree)
    requires At(s, c, t) && t.T? && t.r.T?
    ensures CLinked(RotL(s, t.n), c, t.r.n)
  {
    assert Linked(s.mem, t.r, t.n);
    assert Elems(t) == Elems(t.l) + {t.n} + (Elems(t.r.l) + {t.r.n} + Elems(t.r.r));
    RotLCells(s, t.n, t.r.n);
    RelinkAt(s, c, t.n, t.r.n);
    CLinkedFrame(Relink(s, Above(c), t.n, t.r.n), RotL(s, t.n), c, t.r.n);
  }

  lemma RotLOuter(s: State, c: Ctx, t: Tree)
    requires At(s, c, t) && t.T? && t.r.T?
    ensures var m := RotL(s, t.n).mem; Linked(m, t.l, t.n) && Linked(m, t.r.r, t.r.n)
  {
    var m, x, y := RotL(s, t.n).mem, t.n, t.r.n;
    assert Linked(s.mem, t.r, x);
    assert Elems(t) == Elems(t.l) + {x} + (Elems(t.r.l) + {y} + Elems(t.r.r));
    RotLCells(s, x, y);
    assert Above(c) !in Elems(t);
    LinkedFrame(s.mem, m, t.l, x);
    LinkedFrame(s.mem, m, t.r.r, y);
  }

  lemma RotLInner(s: State, c: Ctx, t: Tree)
    requires At(s, c, t) && t.T? && t.r.T?
    ensures var m := RotL(s, t.n).mem; Linked(m, t.r.l, t.n)
  {
    var m, x, y := RotL(s, t.n).mem, t.n, t.r.n;
    assert Linked(s.mem, t.r, x);
    assert Elems(t) == Elems(t.l) + {x} + (Elems(t.r.l) + {y} + Elems(t.r.r));
    RotLCells(s, x, y);
    assert Above(c) !in Elems(t);
    Adopted(s.mem, m, t.r.l, y, x);
  }

  lemma RotateLeftAt(s: State, c: Ctx, t: Tree)
    requires At(s, c, t) && t.T? && t.r.T?
    ensures At(RotL(s, t.n), c, T(T(t.l, t.n, t.red, t.r.l), t.r.n, t.r.red, t.r.r))
    ensures Elems(T(T(t.l, t.n, t.red, t.r.l), t.r.n, t.r.red, t.r.r)) == Elems(t)
  {
    hide RotL, Balanced;
    var x, y, a, b, d := t.n, t.r.n, t.l, t.r.l, t.r.r;
    RotLContext(s, c, t);
    RotLOuter(s, c, t);
    RotLInner(s, c, t);
    assert Linked(s.mem, t.r, x);
    assert Elems(t) == Elems(a) + {x} + (Elems(b) + {y} + Elems(d));
    RotLCells(s, x, y);
    assert Elems(T(a, x, t.red, b)) == Elems(a) + {x} + Elems(b);
    assert Linked(RotL(s, x).mem, T(a, x, t.red, b), y);
  }

  /** RB_ROTATE_RIGHT, assignment by assignment. */
  function RotR(s: State, x: Node): State {
    var y := Get(s.mem, x).left;
    var w := TakePlace(s.(mem := LinkL(s.mem, x, Get(s.mem, y).right)), x, y);
    w.(mem := LinkR(w.mem, y, x))
  }

  /** What a rotation at `x` with left child `y` does to each node. */
  lemma RotRCells(s: State, x: Node, y: Node)
    requires x in s.mem && y in s.mem && x != y && s.mem[x].left == y && s.mem[y].parent == x
    requires s.mem[x].parent != y && s.mem[x].parent != x && s.mem[x].right != x
    requires var b, p := s.mem[y].right, s.mem[x].parent; b != x && b != y && (b != null ==> b != p)
    ensures var u, b, p := RotR(s, x), s.mem[y].right, s.mem[x].parent;
      && x in u.mem && u.mem[x] == s.mem[x].(left := b, parent := y)
      && y in u.mem && u.mem[y] == s.mem[y].(right := x, parent := p)
      && (b != null && b in s.mem ==> b in u.mem && u.mem[b] == s.mem[b].(parent := x))
      && (forall n :: n in s.mem && n != x && n != y && n != b && n != p ==> n in u.mem && u.mem[n] == s.mem[n])
      && var w := Relink(s, p, x, y); w.root == u.root && (p != null && p in s.mem ==> p in u.mem && u.mem[p] == w.mem[p])
  {
  }

  lemma RotRContext(s: State, c: Ctx, t: Tree)
    requires At(s, c, t) && t.T? && t.l.T?
    ensures CLinked(RotR(s, t.n), c, t.l.n)
  {
    assert Linked(s.mem, t.l, t.n);
    assert Elems(t) == (Elems(t.l.l) + {t.l.n} + Elems(t.l.r)) + {t.n} + Elems(t.r);
    RotRCells(s, t.n, t.l.n);
    RelinkAt(s, c, t.n, t.l.n);
    CLinkedFrame(Relink(s, Above(c), t.n, t.l.n), RotR(s, t.n), c, t.l.n);
  }

  lemma RotROuter(s: State, c: Ctx, t: Tree)
    requires At(s, c, t) && t.T? && t.l.T?
    ensures var m := RotR(s, t.n).mem; Linked(m, t.r, t.n) && Linked(m, t.l.l, t.l.n)
  {
    var m, x, y := RotR(s, t.n).mem, t.n, t.l.n;
    assert Linked(s.mem, t.l, x);
    assert Elems(t) == (Elems(t.l.l) + {y} + Elems(t.l.r)) + {x} + Elems(t.r);
    RotRCells(s, x, y);
    assert Above(c) !in Elems(t);
    LinkedFrame(s.mem, m, t.r, x);
    LinkedFrame(s.mem, m, t.l.l, y);
  }

  lemma RotRInner(s: State, c: Ctx, t: Tree)
    requires At(s, c, t) && t.T? && t.l.T?
    ensures var m := RotR(s, t.n).mem; Linked(m, t.l.r, t.n)
  {
    var m, x, y := RotR(s, t.n).mem, t.n, t.l.n;
    assert Linked(s.mem, t.l, x);
    assert Elems(t) == (Elems(t.l.l) + {y} + Elems(t.l.r)) + {x} + Elems(t.r);
    RotRCells(s, x, y);
    assert Above(c) !in Elems(t);
    Adopted(s.mem, m, t.l.r, y, x);
  }

  lemma RotateRightAt(s: State, c: Ctx, t: Tree)
    requires At(s, c, t) && t.T? && t.l.T?
    ensures At(RotR(s, t.n), c, T(t.l.l, t.l.n, t.l.red, T(t.l.r, t.n, t.red, t.r)))
    ensures Elems(T(t.l.l, t.l.n, t.l.red, T(t.l.r, t.n, t.red, t.r))) == Elems(t)
  {
    hide RotR, Balanced;
    var x, y, a, b, d := t.n, t.l.n, t.l.l, t.l.r, t.r;
    RotRContext(s, c, t);
    RotROuter(s, c, t);
    RotRInner(s, c, t);
    assert Linked(s.mem, t.l, x);
    assert Elems(t) == (Elems(a) + {y} + Elems(b)) + {x} + Elems(d);
    RotRCells(s, x, y);
    assert Elems(T(b, x, t.red, d)) == Elems(b) + {x} + Elems(d);
    assert Linked(RotR(s, x).mem, T(b, x, t.red, d), y);
  }

  /** RB_SET and the link from the parent: a new leaf in an empty place. */
  function Attach(s: State, parent: Node?, onLeft: bool, elm: Node): State {
    var m := s.mem[elm := Cell(null, null, parent, true)];
    if parent == null then State(m, elm)
    else if onLeft then s.(mem := SetL(m, parent, elm)) else s.(mem := SetR(m, parent, elm))
  }

  lemma AttachAt(s: State, c: Ctx, elm: Node)
    requires At(s, c, Leaf) && elm !in s.mem && elm !in CElems(c)
    ensures At(Attach(s, Above(c), c.InL?, elm), c, T(Leaf, elm, true, Leaf))
  {
    var w := Attach(s, Above(c), c.InL?, elm);
    if !c.Top? {
      LinkedFrame(s.mem, w.mem, Side(c), c.n);
      CLinkedFrame(s, w, c.up, c.n);
    }
  }

  /** A node with at most one child is cut out: the child takes its place. */
  function Cut(s: State, x: Node, child: Node?): State {
    var p := Get(s.mem, x).parent;
    Relink(s.(mem := SetP(s.mem, child, p)), p, x, child)
  }

  lemma CutAt(s: State, c: Ctx, t: Tree, u: Tree)
    requires At(s, c, t) && t.T? && ((u == t.l && t.r == Leaf) || (u == t.r && t.l == Leaf))
    ensures At(Cut(s, t.n, Root(u)), c, u) && t.n !in Elems(u) + CElems(c)
  {
    var v := s.(mem := SetP(s.mem, Root(u), Above(c)));
    var w := Relink(v, Above(c), t.n, Root(u));
    CLinkedFrame(s, v, c, t.n);
    RelinkAt(v, c, t.n, Root(u));
    Adopted(s.mem, w.mem, u, t.n, Above(c));
  }

  /** A node outside the tree takes over all the fields of `x`. */
  function Substitute(s: State, x: Node, e: Node): State {
    var cell := Get(s.mem, x);
    var w := Relink(s.(mem := s.mem[e := cell]), cell.parent, x, e);
    w.(mem := SetP(SetP(w.mem, cell.left, e), cell.right, e))
  }

  lemma SubstituteContext(s: State, c: Ctx, t: Tree, e: Node)
    requires At(s, c, t) && t.T? && e !in Elems(t) + CElems(c)
    ensures CLinked(Substitute(s, t.n, e), c, e)
  {
    var v := s.(mem := s.mem[e := s.mem[t.n]]);
    var w := Relink(v, Above(c), t.n, e);
    CLinkedFrame(s, v, c, t.n);
    RelinkAt(v, c, t.n, e);
    CLinkedFrame(w, Substitute(s, t.n, e), c, e);
  }

  lemma SubstituteCells(s: State, x: Node, e: Node)
    requires x in s.mem && e != x
    requires var k := s.mem[x]; k.left != e && k.right != e && k.parent != e && k.left != x && k.right != x
    requires var k := s.mem[x]; (k.left != null ==> k.left != k.right && k.left != k.parent)
    requires var k := s.mem[x]; (k.right != null ==> k.right != k.parent)
    ensures var u, k := Substitute(s, x, e), s.mem[x];
      && e in u.mem && u.mem[e] == k
      && (k.left != null && k.left in s.mem ==> k.left in u.mem && u.mem[k.left] == s.mem[k.left].(parent := e))
      && (k.right != null && k.right in s.mem ==> k.right in u.mem && u.mem[k.right] == s.mem[k.right].(parent := e))
      && (forall n :: n in s.mem && n != e && n != k.left && n != k.right && n != k.parent ==>
            n in u.mem && u.mem[n] == s.mem[n])
  {
  }

  lemma SubstituteAt(s: State, c: Ctx, t: Tree, e: Node)
    requires At(s, c, t) && t.T? && e !in Elems(t) + CElems(c)
    ensures At(Substitute(s, t.n, e), c, T(t.l, e, t.red, t.r))
  {
    var u := Substitute(s, t.n, e);
    SubstituteContext(s, c, t, e);
    SubstituteCells(s, t.n, e);
    Adopted(s.mem, u.mem, t.l, t.n, e);
    Adopted(s.mem, u.mem, t.r, t.n, e);
  }

  /** The memory may forget a node outside the tree. */
  lemma ForgetAt(s: State, t: Tree, x: Node)
    requires At(s, Top, t) && x !in Elems(t)
    ensures At(s.(mem := s.mem - {x}), Top, t)
  {
    LinkedFrame(s.mem, s.mem - {x}, t, null);
  }

  // A context stacked on another.

  ghost function Onto(d: Ctx, c: Ctx): Ctx {
    match d
    case Top => c
    case InL(n, red, r, up) => InL(n, red, r, Onto(up, c))
    case InR(l, n, red, up) => InR(l, n, red, Onto(up, c))
  }

  lemma {:induction false} AtOnto(s: State, d: Ctx, c: Ctx, t: Tree)
    ensures At(s, Onto(d, c), t) <==> At(s, c, Plug(d, t))
    ensures Plug(Onto(d, c), t) == Plug(c, Plug(d, t))
    decreases d
  {
    if !d.Top? {
      AtUp(s, Onto(d, c), t);
      AtOnto(s, d.up, c, Climb(d, t));
    }
  }

  // ---- colours ----

  lemma Paint(s: State, c: Ctx, t: Tree, red: bool)
    requires At(s, c, t) && t.T?
    ensures t.n in s.mem && At(s.(mem := SetC(s.mem, t.n, red)), c, t.(red := red))
    ensures Elems(t.(red := red)) == Elems(t)
  {
    var w := s.(mem := SetC(s.mem, t.n, red));
    LinkedFrame(s.mem, w.mem, t.l, t.n);
    LinkedFrame(s.mem, w.mem, t.r, t.n);
    CLinkedFrame(s, w, c, t.n);
  }

  lemma PaintLeft(s: State, c: Ctx, t: Tree, red: bool)
    requires At(s, c, t) && t.T? && t.l.T?
    ensures t.l.n in s.mem && At(s.(mem := SetC(s.mem, t.l.n, red)), c, t.(l := t.l.(red := red)))
  {
    Paint(s, InL(t.n, t.red, t.r, c), t.l, red);
  }

  lemma PaintRight(s: State, c: Ctx, t: Tree, red: bool)
    requires At(s, c, t) && t.T? && t.r.T?
    ensures t.r.n in s.mem && At(s.(mem := SetC(s.mem, t.r.n, red)), c, t.(r := t.r.(red := red)))
  {
    Paint(s, InR(t.l, t.n, t.red, c), t.r, red);
  }

  lemma PaintFarRight(s: State, c: Ctx, t: Tree, red: bool)
    requires At(s, c, t) && t.T? && t.r.T? && t.r.r.T?
    ensures t.r.r.n in s.mem
    ensures At(s.(mem := SetC(s.mem, t.r.r.n, red)), c, t.(r := t.r.(r := t.r.r.(red := red))))
  {
    AtUp(s, InR(t.l, t.n, t.red, c), t.r);
    PaintRight(s, InR(t.l, t.n, t.red, c), t.r, red);
    var w := s.(mem := SetC(s.mem, t.r.r.n, red));
    AtUp(w, InR(t.l, t.n, t.red, c), t.r.(r := t.r.r.(red := red)));
  }

  lemma PaintFarLeft(s: State, c: Ctx, t: Tree, red: bool)
    requires At(s, c, t) && t.T? && t.l.T? && t.l.l.T?
    ensures t.l.l.n in s.mem
    ensures At(s.(mem := SetC(s.mem, t.l.l.n, red)), c, t.(l := t.l.(l := t.l.l.(red := red))))
  {
    AtUp(s, InL(t.n, t.red, t.r, c), t.l);
    PaintLeft(s, InL(t.n, t.red, t.r, c), t.l, red);
    var w := s.(mem := SetC(s.mem, t.l.l.n, red));
    AtUp(w, InL(t.n, t.red, t.r, c), t.l.(l := t.l.l.(red := red)));
  }

  lemma FirstLeft(t: Tree)
    requires t.T? && t.l.T?
    ensures First(InOrder(t)) == First(InOrder(t.l)) != null
  {
    assert InOrder(t.l) == InOrder(t.l.l) + [t.l.n] + InOrder(t.l.r);
  }

  ghost function First(s: seq<Node>): Node? {
    if s == [] then null else s[0]
  }

  lemma LastRight(t: Tree)
    requires t.T? && t.r.T?
    ensures Last(InOrder(t)) == Last(InOrder(t.r)) != null
  {
    assert InOrder(t.r) == InOrder(t.r.l) + [t.r.n] + InOrder(t.r.r);
  }

  ghost function Last(s: seq<Node>): Node? {
    if s == [] then null else s[|s| - 1]
  }

  ghost predicate Sorted(s: seq<Node>) {
    forall i, j :: 0 <= i < j < |s| ==> s[i].key < s[j].key
  }

  lemma SortedAround(b: seq<Node>, x: Node, a: seq<Node>)
    requires Sorted(b + [x] + a)
    ensures (forall n :: n in b ==> n.key < x.key) && (forall n :: n in a ==> x.key < n.key)
  {
    var s := b + [x] + a;
    assert s[|b|] == x;
    assert forall i :: 0 <= i < |b| ==> b[i] == s[i];
    assert forall i :: 0 <= i < |a| ==> a[i] == s[|b| + 1 + i];
  }

  lemma SortedInsert(b: seq<Node>, x: Node, a: seq<Node>)
    requires Sorted(b + a)
    requires (forall n :: n in b ==> n.key < x.key) && (forall n :: n in a ==> x.key < n.key)
    ensures Sorted(b + [x] + a)
  {
    var s, u := b + a, b + [x] + a;
    forall i, j | 0 <= i < j < |u| ensures u[i].key < u[j].key {
      if i < |b| < j {
        assert s[i] == b[i] && s[j - 1] == a[j - |b| - 1];
      } else if j < |b| {
        assert s[i] == b[i] && s[j] == b[j];
      } else if |b| < i {
        assert s[i - 1] == a[i - |b| - 1] && s[j - 1] == a[j - |b| - 1];
      }
    }
  }

  /** Keys before the focus are smaller than `key`, keys after it are larger. */
  ghost predicate Between(c: Ctx, key: int) {
    (forall n :: n in Before(c) ==> n.key < key) && (forall n :: n in After(c) ==> key < n.key)
  }

  /** One step down towards `key`. */
  lemma Descend(c: Ctx, t: Tree, key: int)
    requires Sorted(Line(c, t)) && Between(c, key) && t.T?
    ensures key < t.n.key ==> Between(InL(t.n, t.red, t.r, c), key)
    ensures t.n.key < key ==> Between(InR(t.l, t.n, t.red, c), key)
  {
    assert Line(c, t) == (Before(c) + InOrder(t.l)) + [t.n] + (InOrder(t.r) + After(c));
    SortedAround(Before(c) + InOrder(t.l), t.n, InOrder(t.r) + After(c));
  }

  /** Black height `k`, and no red node with a red parent. */
  ghost predicate Balanced(t: Tree, k: nat) {
    match t
    case Leaf => k == 0
    case T(l, _, red, r) =>
      if red then !IsRed(l) && !IsRed(r) && Balanced(l, k) && Balanced(r, k)
      else k > 0 && Balanced(l, k - 1) && Balanced(r, k - 1)
  }

  /** Black height `k`, except that a red root may have red children. */
  ghost predicate Loose(t: Tree, k: nat) {
    if IsRed(t) then Balanced(t.l, k) && Balanced(t.r, k) else Balanced(t, k)
  }

  /** A context that becomes a balanced tree when its hole is filled with a
      balanced tree of black height `k` with a black root. */
  ghost predicate Fits(c: Ctx, k: nat) {
    match c
    case Top => true
    case InL(_, red, r, up) =>
      Balanced(r, k) && if red then !IsRed(r) && !CIsRed(up) && Fits(up, k) else Fits(up, k + 1)
    case InR(l, _, red, up) =>
      Balanced(l, k) && if red then !IsRed(l) && !CIsRed(up) && Fits(up, k) else Fits(up, k + 1)
  }

  /** The red-black invariant of a whole tree. */
  ghost predicate RedBlack(t: Tree) {
    !IsRed(t) && exists k: nat :: Balanced(t, k)
  }

  /** Moving the focus up and rotating do not change the sequence. */
  lemma LineUp(c: Ctx, t: Tree)
    requires !c.Top?
    ensures Line(c, t) == Line(c.up, Climb(c, t))
  {
  }

  lemma LineTurn(a: Tree, x: Node, xRed: bool, b: Tree, y: Node, yRed: bool, d: Tree)
    ensures InOrder(T(a, x, xRed, T(b, y, yRed, d))) == InOrder(T(T(a, x, xRed, b), y, yRed, d))
  {
    assert InOrder(T(b, y, yRed, d)) == InOrder(b) + [y] + InOrder(d);
    assert InOrder(T(a, x, xRed, b)) == InOrder(a) + [x] + InOrder(b);
  }

  lemma {:induction false} PlugLine(c: Ctx, t: Tree)
    ensures InOrder(Plug(c, t)) == Line(c, t)
    ensures Elems(Plug(c, t)) == Elems(t) + CElems(c)
    decreases c
  {
    hide Line, Before, After, InOrder;
    if c.Top? {
      TopLine(t);
    } else {
      PlugLine(c.up, Climb(c, t));
      LineUp(c, t);
    }
  }

  lemma TopLine(t: Tree)
    ensures Line(Top, t) == InOrder(t)
  {
  }

  lemma FitsRed(c: Ctx, k: nat)
    requires Fits(c, k) && !c.Top? && c.red
    ensures !c.up.Top? && !c.up.red && Fits(c.up.up, k + 1)
    ensures Balanced(Side(c), k) && !IsRed(Side(c)) && Balanced(Side(c.up), k)
  {
  }

  /** Recolouring below a red uncle moves the red node two levels up. */
  lemma FlipBalanced(c: Ctx, t: Tree, k: nat)
    requires Balanced(t, k) && Fits(c, k) && !c.Top? && c.red && !c.up.Top? && IsRed(Side(c.up))
    ensures var g := Climb(c.up, Climb(c, t));
      g.l.T? && g.r.T? && Balanced(T(g.l.(red := false), g.n, true, g.r.(red := false)), k + 1)
  {
    FitsRed(c, k);
  }

  // Deletion: the focus has black height `k` where the context wants `k + 1`.

  /** A sibling exists; it is black below a red parent. */
  lemma ShortSibling(c: Ctx, k: nat)
    requires Fits(c, k + 1) && !c.Top?
    ensures Side(c).T? && (IsRed(Side(c)) ==> !c.red && Side(c).l.T? && Side(c).r.T?)
    ensures Fits(c.up, if c.red then k + 1 else k + 2)
  {
    var w := Side(c);
    if IsRed(w) {
      assert Balanced(w.l, k + 1) && Balanced(w.r, k + 1);
    }
  }

  /** After the rotation that gives the focus a black sibling. */
  lemma ShortTurnL(n: Node, w: Tree, up: Ctx, k: nat)
    requires Fits(InL(n, false, w, up), k + 1) && IsRed(w)
    ensures Fits(InL(n, true, w.l, InL(w.n, false, w.r, up)), k + 1) && !IsRed(w.l)
  {
  }

  lemma ShortTurnR(n: Node, w: Tree, up: Ctx, k: nat)
    requires Fits(InR(w, n, false, up), k + 1) && IsRed(w)
    ensures Fits(InR(w.r, n, true, InR(w.l, w.n, false, up)), k + 1) && !IsRed(w.r)
  {
  }

  /** A black sibling without red children turns red, and the shortage moves up. */
  lemma ShortUp(c: Ctx, t: Tree, k: nat)
    requires Fits(c, k + 1) && !c.Top? && Balanced(t, k)
    requires var w := Side(c); !IsRed(w) && !IsRed(w.l) && !IsRed(w.r)
    ensures var w, j := Side(c).(red := true), if c.red then k else k + 1;
      Loose(if c.InL? then T(t, c.n, c.red, w) else T(w, c.n, c.red, t), j) && Fits(c.up, j + 1)
  {
  }

  /** A red far nephew ends the shortage. */
  lemma ShortEndL(n: Node, red: bool, w: Tree, up: Ctx, t: Tree, k: nat)
    requires Fits(InL(n, red, w, up), k + 1) && Balanced(t, k) && !IsRed(w) && IsRed(w.r)
    ensures var u, j := T(T(t, n, false, w.l), w.n, red, w.r.(red := false)), if red then k + 1 else k + 2;
      Balanced(u, j) && Fits(up, j) && !(red && CIsRed(up))
  {
    assert Balanced(w.l, k) && Balanced(w.r, k);
    assert Balanced(w.r.(red := false), k + 1);
  }

  lemma ShortEndR(n: Node, red: bool, w: Tree, up: Ctx, t: Tree, k: nat)
    requires Fits(InR(w, n, red, up), k + 1) && Balanced(t, k) && !IsRed(w) && IsRed(w.l)
    ensures var u, j := T(w.l.(red := false), w.n, red, T(w.r, n, false, t)), if red then k + 1 else k + 2;
      Balanced(u, j) && Fits(up, j) && !(red && CIsRed(up))
  {
    assert Balanced(w.l, k) && Balanced(w.r, k);
    assert Balanced(w.l.(red := false), k + 1);
  }

  /** The rotation that makes a red near nephew into a far one. */
  lemma ShortNephewL(n: Node, red: bool, w: Tree, up: Ctx, k: nat)
    requires Fits(InL(n, red, w, up), k + 1) && !IsRed(w) && IsRed(w.l) && !IsRed(w.r)
    ensures Fits(InL(n, red, T(w.l.l, w.l.n, false, T(w.l.r, w.n, true, w.r)), up), k + 1)
  {
    assert Balanced(w.l, k) && Balanced(w.r, k);
    assert Balanced(w.l.l, k) && Balanced(w.l.r, k);
  }

  lemma ShortNephewR(n: Node, red: bool, w: Tree, up: Ctx, k: nat)
    requires Fits(InR(w, n, red, up), k + 1) && !IsRed(w) && IsRed(w.r) && !IsRed(w.l)
    ensures Fits(InR(T(T(w.l, w.n, true, w.r.l), w.r.n, false, w.r.r), n, red, up), k + 1)
  {
    assert Balanced(w.l, k) && Balanced(w.r, k);
    assert Balanced(w.r.l, k) && Balanced(w.r.r, k);
  }

  /** What is left at the place of a node with at most one child. */
  lemma CutBalanced(c: Ctx, t: Tree, u: Tree) returns (k: nat)
    requires RedBlack(Plug(c, t)) && t.T? && ((u == t.l && t.r == Leaf) || (u == t.r && t.l == Leaf))
    ensures Balanced(u, k) && if t.red then Fits(c, k) && !IsRed(u) else Fits(c, k + 1)
  {
    var K: nat :| Balanced(Plug(c, t), K);
    var j := UnplugBalanced(c, t, K);
    k := if t.red then j else j - 1;
  }

  /** Balance does not depend on which node carries a colour. */
  lemma {:induction false} FitsRename(d: Ctx, l: Tree, x: Node, e: Node, red: bool, c: Ctx, k: nat)
    requires Fits(Onto(d, InR(l, x, red, c)), k)
    ensures Fits(Onto(d, InR(l, e, red, c)), k)
    ensures CIsRed(Onto(d, InR(l, e, red, c))) == CIsRed(Onto(d, InR(l, x, red, c)))
    decreases d
  {
    if !d.Top? {
      FitsRename(d.up, l, x, e, red, c, if d.red then k else k + 1);
    }
  }

  /** The same, when the in-order successor `e` of `x` is cut out and takes the place of `x`. */
  lemma CutSuccessorBalanced(c: Ctx, t: Tree, d: Ctx, e: Node, red: bool, u: Tree) returns (k: nat)
    requires t.T? && RedBlack(Plug(c, t)) && t.r == Plug(d, T(Leaf, e, red, u))
    ensures var w := Onto(d, InR(t.l, e, t.red, c));
      Balanced(u, k) && if red then Fits(w, k) && !IsRed(u) else Fits(w, k + 1)
  {
    var v := T(Leaf, e, red, u);
    AtOnto(State(map[], null), d, InR(t.l, t.n, t.red, c), v);
    k := CutBalanced(Onto(d, InR(t.l, t.n, t.red, c)), v, u);
    FitsRename(d, t.l, t.n, e, t.red, c, if red then k else k + 1);
  }

  lemma {:induction false} PlugBalanced(c: Ctx, t: Tree, k: nat)
    requires Balanced(t, k) && Fits(c, k) && !(IsRed(t) && CIsRed(c))
    ensures RedBlack(Plug(c, t))
    decreases c
  {
    match c
    case Top =>
    case InL(n, red, r, up) =>
      PlugBalanced(up, T(t, n, red, r), if red then k else k + 1);
    case InR(l, n, red, up) =>
      PlugBalanced(up, T(l, n, red, t), if red then k else k + 1);
  }

  /** The converse: a balanced tree seen from a focus. */
  lemma {:induction false} UnplugBalanced(c: Ctx, t: Tree, K: nat) returns (k: nat)
    requires Balanced(Plug(c, t), K) && !IsRed(Plug(c, t))
    ensures Balanced(t, k) && Fits(c, k) && !(IsRed(t) && CIsRed(c))
    decreases c
  {
    match c
    case Top => k := K;
    case InL(n, red, r, up) =>
      var j := UnplugBalanced(up, T(t, n, red, r), K);
      k := if red then j else j - 1;
    case InR(l, n, red, up) =>
      var j := UnplugBalanced(up, T(l, n, red, t), K);
      k := if red then j else j - 1;
  }

  /** Every node of a tree has a focus. */
  ghost function FocusOn(c: Ctx, t: Tree, x: Node): (f: (Ctx, Tree))
    requires x in Elems(t)
    ensures f.1.T? && f.1.n == x && Plug(f.0, f.1) == Plug(c, t)
    decreases t
  {
    if x == t.n then (c, t)
    else if x in Elems(t.l) then FocusOn(InL(t.n, t.red, t.r, c), t.l, x)
    else FocusOn(InR(t.l, t.n, t.red, c), t.r, x)
  }

  ghost function ElemsOf(s: seq<Node>): set<Node> {
    set n | n in s
  }

  lemma {:induction false} InOrderElems(t: Tree)
    ensures ElemsOf(InOrder(t)) == Elems(t)
  {
    if t.T? {
      InOrderElems(t.l);
      InOrderElems(t.r);
      assert forall n :: n in InOrder(t) <==> n in InOrder(t.l) || n == t.n || n in InOrder(t.r);
    }
  }

  /** A tree in the order of a focus has the nodes of that focus. */
  lemma LineElems(c: Ctx, t: Tree, u: Tree)
    requires InOrder(u) == Line(c, t)
    ensures Elems(u) == Elems(t) + CElems(c)
  {
    InOrderElems(u);
    InOrderElems(Plug(c, t));
    PlugLine(c, t);
  }

  lemma Inserted(c: Ctx, x: Node, u: Tree)
    requires InOrder(u) == Line(c, T(Leaf, x, true, Leaf)) && Between(c, x.key) && Sorted(Before(c) + After(c))
    ensures Elems(u) == CElems(c) + {x} && Sorted(InOrder(u))
    ensures InOrder(u) == Before(c) + [x] + After(c)
    ensures forall n :: n in Before(c) + After(c) ==> n.key != x.key
  {
    var t := T(Leaf, x, true, Leaf);
    LineElems(c, t, u);
    assert InOrder(t) == [x] && Elems(t) == {x};
    SortedInsert(Before(c), x, After(c));
  }

  lemma {:induction false} OntoElems(d: Ctx, c: Ctx, t: Tree)
    ensures Elems(t) + CElems(Onto(d, c)) == Elems(Plug(d, t)) + CElems(c)
    ensures d.Top? || (d.n in Elems(Plug(d, t)) && Above(Onto(d, c)) == d.n)
    decreases d
  {
    if !d.Top? {
      OntoElems(d.up, c, Climb(d, t));
    }
    PlugLine(d, t);
  }

  lemma {:induction false} LineOnto(d: Ctx, c: Ctx)
    ensures Before(Onto(d, c)) == Before(c) + Before(d) && After(Onto(d, c)) == After(d) + After(c)
    decreases d
  {
    if !d.Top? {
      LineOnto(d.up, c);
    }
  }

  lemma FirstOfLine(d: Ctx, e: Node, red: bool, u: Tree, r: Tree)
    requires r == Plug(d, T(Leaf, e, red, u)) && Before(d) == []
    ensures InOrder(r) == [e] + InOrder(u) + After(d)
  {
    PlugLine(d, T(Leaf, e, red, u));
    assert InOrder(T(Leaf, e, red, u)) == [e] + InOrder(u);
    assert [] + ([e] + InOrder(u)) == [e] + InOrder(u);
  }

  lemma LineBelow(d: Ctx, ce: Ctx, u: Tree)
    ensures Line(Onto(d, ce), u) == (Before(ce) + Before(d)) + InOrder(u) + (After(d) + After(ce))
  {
    hide Onto, Before, After, InOrder;
    LineOnto(d, ce);
  }

  /** The order after the in-order successor has taken the place of a node. */
  lemma SuccessorLine(c: Ctx, t: Tree, d: Ctx, e: Node, red: bool, u: Tree)
    requires t.T? && t.r == Plug(d, T(Leaf, e, red, u)) && Before(d) == []
    ensures InOrder(t.r) == [e] + InOrder(u) + After(d)
    ensures Line(Onto(d, InR(t.l, e, t.red, c)), u) == (Before(c) + InOrder(t.l)) + (InOrder(t.r) + After(c))
  {
    FirstOfLine(d, e, red, u, t.r);
    var ce := InR(t.l, e, t.red, c);
    LineBelow(d, ce, u);
    assert Before(ce) == (Before(c) + InOrder(t.l)) + [e] && After(ce) == After(c);
    hide *;
    Regroup(Before(c) + InOrder(t.l), [e], InOrder(u), After(d), After(c));
  }

  lemma Regroup(a: seq<Node>, e: seq<Node>, u: seq<Node>, b: seq<Node>, z: seq<Node>)
    ensures ((a + e) + []) + u + (b + z) == a + ((e + u + b) + z)
  {
  }

  /** The order after a node with at most one child has been cut out. */
  lemma CutLine(c: Ctx, t: Tree)
    requires t.T?
    ensures Line(c, t) == (Before(c) + InOrder(t.l)) + [t.n] + (InOrder(t.r) + After(c))
    ensures t.l == Leaf ==> Line(c, t.r) == (Before(c) + InOrder(t.l)) + (InOrder(t.r) + After(c))
    ensures t.r == Leaf ==> Line(c, t.l) == (Before(c) + InOrder(t.l)) + (InOrder(t.r) + After(c))
  {
    hide Before, After;
    var b, l, n, r, a := Before(c), InOrder(t.l), [t.n], InOrder(t.r), After(c);
    assert b + (l + n + r) + a == (b + l) + n + (r + a);
    assert b + l + (r + a) == (b + l) + (r + a);
  }

  lemma SortedRemove(b: seq<Node>, x: Node, a: seq<Node>)
    requires Sorted(b + [x] + a)
    ensures Sorted(b + a) && x !in b && x !in a
  {
    var s, w := b + [x] + a, b + a;
    SortedAround(b, x, a);
    assert forall i :: 0 <= i < |w| ==> w[i] == s[if i < |b| then i else i + 1];
  }

  lemma ElemsWithout(b: seq<Node>, x: Node, a: seq<Node>)
    requires x !in b && x !in a
    ensures ElemsOf(b + a) == ElemsOf(b + [x] + a) - {x}
  {
    assert ElemsOf(b + [x] + a) == ElemsOf(b) + {x} + ElemsOf(a);
    assert ElemsOf(b + a) == ElemsOf(b) + ElemsOf(a);
  }

  // ---- height ----

  ghost function Height(t: Tree): nat {
    match t
    case Leaf => 0
    case T(l, _, _, r) => 1 + if Height(l) < Height(r) then Height(r) else Height(l)
  }

  ghost function Size(t: Tree): nat {
    match t
    case Leaf => 0
    case T(l, _, _, r) => Size(l) + 1 + Size(r)
  }

  lemma {:induction false} Pow2Add(a: nat, b: nat)
    ensures Pow2(a + b) == Pow2(a) * Pow2(b)
  {
    if a > 0 { Pow2Add(a - 1, b); }
  }

  lemma {:induction false} Pow2Monotone(a: nat, b: nat)
    requires a <= b
    ensures 0 < Pow2(a) <= Pow2(b)
    decreases b
  {
    if a < b {
      Pow2Monotone(a, b - 1);
    } else if a > 0 {
      Pow2Monotone(a - 1, b - 1);
    }
  }

  lemma {:induction false} BlackHeightBounds(t: Tree, k: nat)
    requires Balanced(t, k)
    ensures Pow2(k) <= Size(t) + 1
    ensures Height(t) <= 2 * k + (if IsRed(t) then 1 else 0)
  {
    if t.T? {
      var j := if t.red then k else k - 1;
      BlackHeightBounds(t.l, j);
      BlackHeightBounds(t.r, j);
    }
  }

  /** Height at most 2 lg (n + 1), without logarithms. */
  lemma HeightBound(t: Tree)
    requires RedBlack(t)
    ensures Pow2(Height(t)) <= (Size(t) + 1) * (Size(t) + 1)
  {
    var k: nat :| Balanced(t, k);
    BlackHeightBounds(t, k);
    Pow2Monotone(Height(t), 2 * k);
    assert 2 * k == k + k;
    Pow2Add(k, k);
    SquareMonotone(Pow2(k), Size(t) + 1);
  }

  lemma SquareMonotone(p: nat, n: nat)
    requires p <= n
    ensures p * p <= n * n
  {
    assert n * n == p * p + (n - p) * (n + p);
  }

  lemma {:induction false} SizeIsLength(t: Tree)
    ensures Size(t) == |InOrder(t)|
  {
    if t.T? {
      SizeIsLength(t.l);
      SizeIsLength(t.r);
    }
  }
}
