/** Values that describe a splay tree while it is being taken apart and put together. */
module SplayShape {

  /** The two intrusive fields, and a key that stands for what `cmp` compares. */
  class Node {
    var left: Node?
    var right: Node?
    const key: int

    constructor (key: int)
      ensures this.key == key && left == null && right == null
    {
      this.key := key;
      left, right := null, null;
    }
  }

  datatype Tree = Leaf | T(l: Tree, n: Node, r: Tree)

  function Root(t: Tree): Node? {
    if t.T? then t.n else null
  }

  ghost function Elems(t: Tree): set<Node> {
    match t
    case Leaf => {}
    case T(l, n, r) => Elems(l) + {n} + Elems(r)
  }

  ghost function InOrder(t: Tree): seq<Node> {
    match t
    case Leaf => []
    case T(l, n, r) => InOrder(l) + [n] + InOrder(r)
  }

  ghost function Size(t: Tree): nat {
    match t
    case Leaf => 0
    case T(l, n, r) => Size(l) + 1 + Size(r)
  }

  lemma {:induction false} ElemsInOrder(t: Tree)
    ensures forall n :: n in InOrder(t) <==> n in Elems(t)
  {
    if t.T? {
      ElemsInOrder(t.l);
      ElemsInOrder(t.r);
    }
  }

  // ---- memory ----

  datatype Cell = Cell(left: Node?, right: Node?)

  type Mem = map<Node, Cell>

  function SetL(m: Mem, n: Node, v: Node?): Mem
    requires n in m
  {
    m[n := m[n].(left := v)]
  }

  function SetR(m: Mem, n: Node, v: Node?): Mem
    requires n in m
  {
    m[n := m[n].(right := v)]
  }

  function Lf(m: Mem, n: Node): Node? {
    if n in m then m[n].left else null
  }

  function Rt(m: Mem, n: Node): Node? {
    if n in m then m[n].right else null
  }

  /** `t` is what the nodes are linked into; no node occurs twice. */
  ghost predicate Linked(m: Mem, t: Tree) {
    match t
    case Leaf => true
    case T(l, n, r) =>
      && n in m && m[n] == Cell(Root(l), Root(r))
      && n !in Elems(l) && n !in Elems(r) && Elems(l) !! Elems(r)
      && Linked(m, l) && Linked(m, r)
  }

  lemma {:induction false} Frame(m: Mem, m': Mem, t: Tree)
    requires Linked(m, t) && forall n :: n in Elems(t) ==> n in m' && Lf(m', n) == Lf(m, n) && Rt(m', n) == Rt(m, n)
    ensures Linked(m', t)
  {
    if t.T? {
      Frame(m, m', t.l);
      Frame(m, m', t.r);
    }
  }

  // ---- the parts built up while going down ----

  /** Nodes taken off the tree on the way down, the last one first, each with the subtree it
      keeps; they hang below a scratch node. */
  datatype Spine = Bottom | Link(up: Spine, n: Node, t: Tree)

  ghost function SElems(s: Spine): set<Node> {
    match s
    case Bottom => {}
    case Link(up, n, t) => SElems(up) + {n} + Elems(t)
  }

  function End(s: Spine, scratch: Node): Node {
    if s.Link? then s.n else scratch
  }

  ghost predicate EndsAt(m: Mem, s: Spine, scratch: Node) {
    End(s, scratch) in m
  }

  // ---- the left part, built downwards: each node hangs to the right of the one before ----

  /** What is linked below `left` when its last right link is not set yet. */
  ghost predicate LinkedL(m: Mem, s: Spine, scratch: Node) {
    match s
    case Bottom => scratch in m
    case Link(up, n, t) =>
      && n in m && m[n].left == Root(t) && EndsAt(m, up, scratch) && m[End(up, scratch)].right == n
      && n !in Elems(t) && n !in SElems(up) && Elems(t) !! SElems(up)
      && Linked(m, t) && LinkedL(m, up, scratch)
  }

  /** The finished left part, with `x` below its last node. */
  ghost function CloseL(s: Spine, x: Tree): Tree
    decreases s
  {
    match s
    case Bottom => x
    case Link(up, n, t) => CloseL(up, T(t, n, x))
  }

  /** Its elements in order. */
  ghost function LineL(s: Spine): seq<Node> {
    match s
    case Bottom => []
    case Link(up, n, t) => LineL(up) + InOrder(t) + [n]
  }

  lemma {:induction false} ClosingL(s: Spine, x: Tree)
    ensures InOrder(CloseL(s, x)) == LineL(s) + InOrder(x)
    ensures Elems(CloseL(s, x)) == SElems(s) + Elems(x)
    decreases s
  {
    if s.Link? {
      ClosingL(s.up, T(s.t, s.n, x));
      var a, b, n, z := LineL(s.up), InOrder(s.t), [s.n], InOrder(x);
      assert a + (b + n + z) == (a + b + n) + z;
    }
  }

  lemma {:induction false} FrameL(m: Mem, m': Mem, s: Spine, scratch: Node)
    requires LinkedL(m, s, scratch) && scratch !in SElems(s) && scratch in m'
    requires forall n :: n in SElems(s) ==> n in m' && Lf(m', n) == Lf(m, n)
    requires forall n :: n in SElems(s) && n != End(s, scratch) ==> Rt(m', n) == Rt(m, n)
    requires s.Link? ==> Rt(m', scratch) == Rt(m, scratch)
    ensures LinkedL(m', s, scratch)
    decreases s
  {
    if s.Link? {
      assert s.n !in SElems(s.up);
      LinkedTreesL(m, m', s, scratch);
      FrameL(m, m', s.up, scratch);
    }
  }

  lemma LinkedTreesL(m: Mem, m': Mem, s: Spine, scratch: Node)
    requires s.Link? && LinkedL(m, s, scratch)
    requires forall n :: n in SElems(s) ==> n in m' && Lf(m', n) == Lf(m, n)
    requires forall n :: n in SElems(s) && n != s.n ==> Rt(m', n) == Rt(m, n)
    ensures Linked(m', s.t)
  {
    Frame(m, m', s.t);
  }

  /** Setting the last right link finishes the left part. */
  lemma {:induction false} ClosedL(m: Mem, s: Spine, x: Tree, scratch: Node)
    requires LinkedL(m, s, scratch) && Linked(m, x) && Rt(m, End(s, scratch)) == Root(x)
    requires SElems(s) !! Elems(x) && scratch !in SElems(s) + Elems(x)
    ensures Linked(m, CloseL(s, x)) && Rt(m, scratch) == Root(CloseL(s, x))
    decreases s
  {
    if s.Link? {
      ClosedL(m, s.up, T(s.t, s.n, x), scratch);
    }
  }

  // ---- the right part, built downwards: each node hangs to the left of the one before ----

  /** What is linked below `right` when its last left link is not set yet. */
  ghost predicate LinkedR(m: Mem, s: Spine, scratch: Node) {
    match s
    case Bottom => scratch in m
    case Link(up, n, t) =>
      && n in m && m[n].right == Root(t) && EndsAt(m, up, scratch) && m[End(up, scratch)].left == n
      && n !in Elems(t) && n !in SElems(up) && Elems(t) !! SElems(up)
      && Linked(m, t) && LinkedR(m, up, scratch)
  }

  /** The finished right part, with `x` below its last node. */
  ghost function CloseR(s: Spine, x: Tree): Tree
    decreases s
  {
    match s
    case Bottom => x
    case Link(up, n, t) => CloseR(up, T(x, n, t))
  }

  /** Its elements in order. */
  ghost function LineR(s: Spine): seq<Node> {
    match s
    case Bottom => []
    case Link(up, n, t) => [n] + InOrder(t) + LineR(up)
  }

  lemma {:induction false} ClosingR(s: Spine, x: Tree)
    ensures InOrder(CloseR(s, x)) == InOrder(x) + LineR(s)
    ensures Elems(CloseR(s, x)) == SElems(s) + Elems(x)
    decreases s
  {
    if s.Link? {
      ClosingR(s.up, T(x, s.n, s.t));
      var a, b, n, z := InOrder(x), InOrder(s.t), [s.n], LineR(s.up);
      assert (a + n + b) + z == a + (n + b + z);
    }
  }

  lemma {:induction false} FrameR(m: Mem, m': Mem, s: Spine, scratch: Node)
    requires LinkedR(m, s, scratch) && scratch !in SElems(s) && scratch in m'
    requires forall n :: n in SElems(s) ==> n in m' && Rt(m', n) == Rt(m, n)
    requires forall n :: n in SElems(s) && n != End(s, scratch) ==> Lf(m', n) == Lf(m, n)
    requires s.Link? ==> Lf(m', scratch) == Lf(m, scratch)
    ensures LinkedR(m', s, scratch)
    decreases s
  {
    if s.Link? {
      assert s.n !in SElems(s.up);
      LinkedTreesR(m, m', s, scratch);
      FrameR(m, m', s.up, scratch);
    }
  }

  lemma LinkedTreesR(m: Mem, m': Mem, s: Spine, scratch: Node)
    requires s.Link? && LinkedR(m, s, scratch)
    requires forall n :: n in SElems(s) ==> n in m' && Rt(m', n) == Rt(m, n)
    requires forall n :: n in SElems(s) && n != s.n ==> Lf(m', n) == Lf(m, n)
    ensures Linked(m', s.t)
  {
    Frame(m, m', s.t);
  }

  /** Setting the last left link finishes the right part. */
  lemma {:induction false} ClosedR(m: Mem, s: Spine, x: Tree, scratch: Node)
    requires LinkedR(m, s, scratch) && Linked(m, x) && Lf(m, End(s, scratch)) == Root(x)
    requires SElems(s) !! Elems(x) && scratch !in SElems(s) + Elems(x)
    ensures Linked(m, CloseR(s, x)) && Lf(m, scratch) == Root(CloseR(s, x))
    decreases s
  {
    if s.Link? {
      ClosedR(m, s.up, T(x, s.n, s.t), scratch);
    }
  }

  // ---- a tree taken apart ----

  /** The left part, the tree left over, the right part, and the scratch node. */
  datatype Parts = Parts(scratch: Node, l: Spine, t: Tree, r: Spine)

  ghost predicate Apart(p: Parts) {
    && SElems(p.l) !! Elems(p.t) && SElems(p.l) !! SElems(p.r) && Elems(p.t) !! SElems(p.r)
    && p.scratch !in SElems(p.l) && p.scratch !in Elems(p.t) && p.scratch !in SElems(p.r)
  }

  ghost predicate Holds(m: Mem, p: Parts) {
    LinkedL(m, p.l, p.scratch) && Linked(m, p.t) && LinkedR(m, p.r, p.scratch) && Apart(p)
  }

  ghost function Line(p: Parts): seq<Node> {
    LineL(p.l) + InOrder(p.t) + LineR(p.r)
  }

  ghost function All(p: Parts): set<Node> {
    SElems(p.l) + Elems(p.t) + SElems(p.r)
  }

  /** SPLAY_ROTATE_RIGHT: the left child comes to the top. */
  ghost function RotatedRight(p: Parts): Parts
    requires p.t.T? && p.t.l.T?
  {
    p.(t := T(p.t.l.l, p.t.l.n, T(p.t.l.r, p.t.n, p.t.r)))
  }

  ghost function RotatedLeft(p: Parts): Parts
    requires p.t.T? && p.t.r.T?
  {
    p.(t := T(T(p.t.l, p.t.n, p.t.r.l), p.t.r.n, p.t.r.r))
  }

  /** SPLAY_LINKLEFT: the top and what is right of it join the right part. */
  ghost function LinkedLeft(p: Parts): Parts
    requires p.t.T?
  {
    p.(t := p.t.l, r := Link(p.r, p.t.n, p.t.r))
  }

  ghost function LinkedRight(p: Parts): Parts
    requires p.t.T?
  {
    p.(t := p.t.r, l := Link(p.l, p.t.n, p.t.l))
  }

  ghost function Assembled(p: Parts): Tree
    requires p.t.T?
  {
    T(CloseL(p.l, p.t.l), p.t.n, CloseR(p.r, p.t.r))
  }

  lemma TurnedRight(t: Tree)
    requires t.T? && t.l.T?
    ensures var u := T(t.l.l, t.l.n, T(t.l.r, t.n, t.r)); InOrder(u) == InOrder(t) && Elems(u) == Elems(t)
  {
    var x, y, a, b, c := [t.l.n], [t.n], InOrder(t.l.l), InOrder(t.l.r), InOrder(t.r);
    assert InOrder(t) == (a + x + b) + y + c;
    assert a + x + (b + y + c) == (a + x + b) + y + c;
  }

  lemma TurnedLeft(t: Tree)
    requires t.T? && t.r.T?
    ensures var u := T(T(t.l, t.n, t.r.l), t.r.n, t.r.r); InOrder(u) == InOrder(t) && Elems(u) == Elems(t)
  {
    var x, y, a, b, c := [t.n], [t.r.n], InOrder(t.l), InOrder(t.r.l), InOrder(t.r.r);
    assert InOrder(t) == a + x + (b + y + c);
    assert (a + x + b) + y + c == a + x + (b + y + c);
  }

  lemma RotatedLines(p: Parts)
    requires p.t.T?
    ensures p.t.l.T? ==> Line(RotatedRight(p)) == Line(p) && All(RotatedRight(p)) == All(p)
    ensures p.t.r.T? ==> Line(RotatedLeft(p)) == Line(p) && All(RotatedLeft(p)) == All(p)
  {
    hide InOrder, Elems, LineL, LineR, SElems;
    if p.t.l.T? {
      TurnedRight(p.t);
    }
    if p.t.r.T? {
      TurnedLeft(p.t);
    }
  }

  lemma LinkedLines(p: Parts)
    requires p.t.T?
    ensures Line(LinkedLeft(p)) == Line(p) && All(LinkedLeft(p)) == All(p)
    ensures Line(LinkedRight(p)) == Line(p) && All(LinkedRight(p)) == All(p)
  {
    var a, l, n, r, z := LineL(p.l), InOrder(p.t.l), [p.t.n], InOrder(p.t.r), LineR(p.r);
    assert a + l + (n + r + z) == a + (l + n + r) + z;
    assert (a + l + n) + r + z == a + (l + n + r) + z;
  }

  lemma AssembledLine(p: Parts)
    requires p.t.T?
    ensures InOrder(Assembled(p)) == Line(p) && Elems(Assembled(p)) == All(p)
    ensures InOrder(Assembled(p).l) == LineL(p.l) + InOrder(p.t.l)
    ensures InOrder(Assembled(p).r) == InOrder(p.t.r) + LineR(p.r)
  {
    hide CloseL, CloseR, LineL, LineR, SElems;
    ClosingL(p.l, p.t.l);
    ClosingR(p.r, p.t.r);
    var a, l, n, r, z := LineL(p.l), InOrder(p.t.l), [p.t.n], InOrder(p.t.r), LineR(p.r);
    assert (a + l) + n + (r + z) == a + (l + n + r) + z;
  }

  /** Parts whose nodes are not touched stay as they are. */
  lemma KeepsParts(m: Mem, m': Mem, p: Parts)
    requires LinkedL(m, p.l, p.scratch) && LinkedR(m, p.r, p.scratch) && p.scratch !in SElems(p.l) + SElems(p.r)
    requires forall n :: n in SElems(p.l) + SElems(p.r) + {p.scratch} ==> n in m' && Lf(m', n) == Lf(m, n) && Rt(m', n) == Rt(m, n)
    ensures LinkedL(m', p.l, p.scratch) && LinkedR(m', p.r, p.scratch)
  {
    FrameL(m, m', p.l, p.scratch);
    FrameR(m, m', p.r, p.scratch);
  }

  lemma ScratchThere(m: Mem, p: Parts)
    requires Holds(m, p)
    ensures p.scratch in m && End(p.l, p.scratch) in m && End(p.r, p.scratch) in m
    ensures forall n :: n in All(p) ==> n in m
  {
    ThereL(m, p.l, p.scratch);
    ThereR(m, p.r, p.scratch);
    There(m, p.t);
  }

  lemma {:induction false} There(m: Mem, t: Tree)
    requires Linked(m, t)
    ensures forall n :: n in Elems(t) ==> n in m
  {
    if t.T? {
      There(m, t.l);
      There(m, t.r);
    }
  }

  lemma {:induction false} ThereL(m: Mem, s: Spine, scratch: Node)
    requires LinkedL(m, s, scratch)
    ensures scratch in m && forall n :: n in SElems(s) ==> n in m
  {
    if s.Link? {
      ThereL(m, s.up, scratch);
      There(m, s.t);
    }
  }

  lemma {:induction false} ThereR(m: Mem, s: Spine, scratch: Node)
    requires LinkedR(m, s, scratch)
    ensures scratch in m && forall n :: n in SElems(s) ==> n in m
  {
    if s.Link? {
      ThereR(m, s.up, scratch);
      There(m, s.t);
    }
  }

  lemma RotateRightHolds(m: Mem, p: Parts)
    requires Holds(m, p) && p.t.T? && p.t.l.T?
    ensures p.t.n in m && p.t.l.n in m && Holds(SetR(SetL(m, p.t.n, Root(p.t.l.r)), p.t.l.n, p.t.n), RotatedRight(p))
  {
    ScratchThere(m, p);
    var m' := SetR(SetL(m, p.t.n, Root(p.t.l.r)), p.t.l.n, p.t.n);
    KeepsParts(m, m', p);
    assert Linked(m, p.t.l);
    Frame(m, m', p.t.l.l);
    Frame(m, m', p.t.l.r);
    Frame(m, m', p.t.r);
  }

  lemma RotateLeftHolds(m: Mem, p: Parts)
    requires Holds(m, p) && p.t.T? && p.t.r.T?
    ensures p.t.n in m && p.t.r.n in m && Holds(SetL(SetR(m, p.t.n, Root(p.t.r.l)), p.t.r.n, p.t.n), RotatedLeft(p))
  {
    ScratchThere(m, p);
    var m' := SetL(SetR(m, p.t.n, Root(p.t.r.l)), p.t.r.n, p.t.n);
    KeepsParts(m, m', p);
    assert Linked(m, p.t.r);
    Frame(m, m', p.t.l);
    Frame(m, m', p.t.r.l);
    Frame(m, m', p.t.r.r);
  }

  lemma LinkLeftHolds(m: Mem, p: Parts)
    requires Holds(m, p) && p.t.T?
    ensures End(p.r, p.scratch) in m && Holds(SetL(m, End(p.r, p.scratch), p.t.n), LinkedLeft(p))
  {
    ScratchThere(m, p);
    var m' := SetL(m, End(p.r, p.scratch), p.t.n);
    FrameL(m, m', p.l, p.scratch);
    FrameR(m, m', p.r, p.scratch);
    Frame(m, m', p.t.l);
    Frame(m, m', p.t.r);
  }

  lemma LinkRightHolds(m: Mem, p: Parts)
    requires Holds(m, p) && p.t.T?
    ensures End(p.l, p.scratch) in m && Holds(SetR(m, End(p.l, p.scratch), p.t.n), LinkedRight(p))
  {
    ScratchThere(m, p);
    var m' := SetR(m, End(p.l, p.scratch), p.t.n);
    FrameL(m, m', p.l, p.scratch);
    FrameR(m, m', p.r, p.scratch);
    Frame(m, m', p.t.l);
    Frame(m, m', p.t.r);
  }

  /** The four assignments of SPLAY_ASSEMBLE. */
  function Joined(m: Mem, top: Node, scratch: Node, left: Node, right: Node): Mem
    requires top in m && scratch in m && left in m && right in m
  {
    var m1 := SetR(m, left, m[top].left);
    var m2 := SetL(m1, right, m1[top].right);
    var m3 := SetL(m2, top, m2[scratch].right);
    SetR(m3, top, m3[scratch].left)
  }

  /** After its first two, both parts are finished below the scratch node. */
  lemma Finished(m: Mem, p: Parts) returns (m2: Mem)
    requires Holds(m, p) && p.t.T?
    ensures p.t.n in m && p.scratch in m && End(p.l, p.scratch) in m && End(p.r, p.scratch) in m
    ensures m2 == SetL(SetR(m, End(p.l, p.scratch), Root(p.t.l)), End(p.r, p.scratch), Root(p.t.r))
    ensures Linked(m2, CloseL(p.l, p.t.l)) && Rt(m2, p.scratch) == Root(CloseL(p.l, p.t.l))
    ensures Linked(m2, CloseR(p.r, p.t.r)) && Lf(m2, p.scratch) == Root(CloseR(p.r, p.t.r))
  {
    ScratchThere(m, p);
    m2 := SetL(SetR(m, End(p.l, p.scratch), Root(p.t.l)), End(p.r, p.scratch), Root(p.t.r));
    FrameL(m, m2, p.l, p.scratch);
    FrameR(m, m2, p.r, p.scratch);
    Frame(m, m2, p.t.l);
    Frame(m, m2, p.t.r);
    ClosedL(m2, p.l, p.t.l, p.scratch);
    ClosedR(m2, p.r, p.t.r, p.scratch);
  }

  lemma AssembleHolds(m: Mem, p: Parts)
    requires Holds(m, p) && p.t.T?
    ensures p.t.n in m && p.scratch in m && End(p.l, p.scratch) in m && End(p.r, p.scratch) in m
    ensures Linked(Joined(m, p.t.n, p.scratch, End(p.l, p.scratch), End(p.r, p.scratch)), Assembled(p))
  {
    var m2 := Finished(m, p);
    assert m[p.t.n] == Cell(Root(p.t.l), Root(p.t.r));
    ClosingL(p.l, p.t.l);
    ClosingR(p.r, p.t.r);
    TopNotEnd(m, p);
    hide LinkedL, LinkedR, CloseL, CloseR, SElems, Elems, Holds;
    var m4 := Joined(m, p.t.n, p.scratch, End(p.l, p.scratch), End(p.r, p.scratch));
    assert m4 == m2[p.t.n := Cell(m2[p.scratch].right, m2[p.scratch].left)];
    TopLast(m2, m4, p.t.n, CloseL(p.l, p.t.l), CloseR(p.r, p.t.r));
  }

  lemma TopLast(m: Mem, m': Mem, top: Node, l: Tree, r: Tree)
    requires Linked(m, l) && Linked(m, r) && top !in Elems(l) && top !in Elems(r) && Elems(l) !! Elems(r)
    requires m' == m[top := Cell(Root(l), Root(r))]
    ensures Linked(m', T(l, top, r))
  {
    There(m, l);
    There(m, r);
    Frame(m, m', l);
    Frame(m, m', r);
  }

  lemma TopNotEnd(m: Mem, p: Parts)
    requires Holds(m, p) && p.t.T?
    ensures p.t.n != p.scratch && p.t.n != End(p.l, p.scratch) && p.t.n != End(p.r, p.scratch)
    ensures p.t.n !in SElems(p.l) + Elems(p.t.l) && p.t.n !in SElems(p.r) + Elems(p.t.r)
    ensures SElems(p.l) + Elems(p.t.l) !! SElems(p.r) + Elems(p.t.r)
  {
  }
}
