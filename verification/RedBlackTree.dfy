/** Red-black trees as values, and the two fix-up algorithms of IntrusiveSet on a tree with a focus.

    A tree in which one subtree is in focus is a subtree together with the path from it up to the root.
 */
module RedBlackTree {

  /** A node, or null. */
  type Ref = nat
  const NULL: Ref := 0

  datatype Colour = Red | Black
  datatype Side = Left | Right {
    function Other(): Side {
      if Left? then Right else Left
    }
  }

  datatype Tree = Leaf | Node(colour: Colour, left: Tree, id: Ref, right: Tree) {
    function Root(): Ref {
      if Leaf? then NULL else id
    }
    predicate IsRed() {
      Node? && colour.Red?
    }
    function Kid(side: Side): Tree
      requires Node?
    {
      if side.Left? then left else right
    }
    function Blackened(): Tree {
      if Leaf? then Leaf else this.(colour := Black)
    }
  }

  /** The node `id` with subtree `t` on side `side` and `sibling` on the other. */
  function Join(side: Side, colour: Colour, t: Tree, id: Ref, sibling: Tree): Tree {
    if side.Left? then Node(colour, t, id, sibling) else Node(colour, sibling, id, t)
  }

  /** The way up from the focus, which is the `side` child of `id`. */
  datatype Path = Top | Below(side: Side, colour: Colour, id: Ref, sibling: Tree, up: Path) {
    function Parent(): Ref {
      if Top? then NULL else id
    }
    function Length(): nat {
      if Top? then 0 else 1 + up.Length()
    }
  }

  function Plug(p: Path, t: Tree): Tree
    decreases p
  {
    match p
    case Top => t
    case Below(side, c, id, sibling, up) => Plug(up, Join(side, c, t, id, sibling))
  }

  // ----- what is in a tree, in order

  function InOrder(t: Tree): seq<Ref> {
    match t
    case Leaf => []
    case Node(_, l, id, r) => InOrder(l) + [id] + InOrder(r)
  }

  function Before(p: Path): seq<Ref> {
    match p
    case Top => []
    case Below(side, _, id, sibling, up) =>
      if side.Left? then Before(up) else Before(up) + InOrder(sibling) + [id]
  }

  function After(p: Path): seq<Ref> {
    match p
    case Top => []
    case Below(side, _, id, sibling, up) =>
      if side.Right? then After(up) else [id] + InOrder(sibling) + After(up)
  }

  lemma InOrderOfJoin(side: Side, c: Colour, t: Tree, id: Ref, sibling: Tree)
    ensures InOrder(Join(side, c, t, id, sibling)) ==
      if side.Left? then InOrder(t) + [id] + InOrder(sibling) else InOrder(sibling) + [id] + InOrder(t)
  {}

  lemma Regroup(a: seq<Ref>, b: seq<Ref>, c: seq<Ref>, d: seq<Ref>, e: seq<Ref>)
    ensures (a + b + c) + d + e == a + (b + c + d) + e
    ensures a + (b + c + d) + e == a + b + (c + d + e)
  {}

  lemma {:induction false} InOrderOfPlug(p: Path, t: Tree)
    ensures InOrder(Plug(p, t)) == Before(p) + InOrder(t) + After(p)
    decreases p
  {
    hide InOrder, Join;
    match p
    case Top => assert [] + InOrder(t) + [] == InOrder(t);
    case Below(side, c, id, sibling, up) =>
      InOrderOfPlug(up, Join(side, c, t, id, sibling));
      InOrderOfJoin(side, c, t, id, sibling);
      if side.Left? {
        Regroup(Before(up), InOrder(t), [id], InOrder(sibling), After(up));
      } else {
        Regroup(Before(up), InOrder(sibling), [id], InOrder(t), After(up));
      }
  }

  lemma PlugSameOrder(p: Path, t: Tree, t': Tree)
    requires InOrder(t) == InOrder(t')
    ensures InOrder(Plug(p, t)) == InOrder(Plug(p, t'))
  {
    InOrderOfPlug(p, t);
    InOrderOfPlug(p, t');
  }

  // ----- the red-black rules

  function Weight(c: Colour): nat {
    if c.Black? then 1 else 0
  }

  function ColourOf(t: Tree): Colour {
    if t.IsRed() then Red else Black
  }

  /** No red node has a red child, and every way down passes `height` black nodes. */
  predicate Balanced(t: Tree, height: nat) {
    match t
    case Leaf => height == 0
    case Node(c, l, _, r) =>
      Weight(c) <= height && (c.Red? ==> !l.IsRed() && !r.IsRed()) &&
      Balanced(l, height - Weight(c)) && Balanced(r, height - Weight(c))
  }

  /** The rules hold on the way up from a subtree of `height` whose root has colour `c`. */
  predicate Surrounds(p: Path, height: nat, c: Colour) {
    match p
    case Top => true
    case Below(_, pc, _, sibling, up) =>
      Balanced(sibling, height) && (pc.Red? ==> c.Black? && !sibling.IsRed()) && Surrounds(up, height + Weight(pc), pc)
  }

  ghost predicate IsRedBlack(t: Tree) {
    !t.IsRed() && exists height :: Balanced(t, height)
  }

  lemma {:induction false} PlugBalanced(p: Path, t: Tree, height: nat) returns (total: nat)
    requires Balanced(t, height) && Surrounds(p, height, ColourOf(t))
    ensures Balanced(Plug(p, t), total)
    decreases p
  {
    match p
    case Top => total := height;
    case Below(side, c, id, sibling, up) =>
      total := PlugBalanced(up, Join(side, c, t, id, sibling), height + Weight(c));
  }

  lemma {:induction false} BalancedUnplug(p: Path, t: Tree, total: nat) returns (height: nat)
    requires Balanced(Plug(p, t), total)
    ensures Balanced(t, height) && Surrounds(p, height, ColourOf(t))
    decreases p
  {
    match p
    case Top => height := total;
    case Below(side, c, id, sibling, up) =>
      height := BalancedUnplug(up, Join(side, c, t, id, sibling), total);
      height := height - Weight(c);
  }

  /** A way up that suits a red root also suits a black one. */
  lemma SurroundsBlack(p: Path, height: nat, c: Colour)
    requires Surrounds(p, height, c)
    ensures Surrounds(p, height, Black)
  {}

  lemma BlackenedIsRedBlack(t: Tree, height: nat)
    requires Balanced(t, height)
    ensures IsRedBlack(t.Blackened())
  {
    var total := if t.IsRed() then height + 1 else height;
    assert Balanced(t.Blackened(), total);
  }

  lemma InOrderBlackened(t: Tree)
    ensures InOrder(t.Blackened()) == InOrder(t)
  {}

  // ----- insertion

  /** The subtree at the grandparent of the focus. */
  function Grandparent(p: Path, t: Tree): Tree
    requires p.Below? && p.up.Below?
  {
    Join(p.up.side, p.up.colour, Join(p.side, p.colour, t, p.id, p.sibling), p.up.id, p.up.sibling)
  }

  /** A red uncle: the colours of the grandparent and of its children are exchanged. */
  function Recoloured(p: Path, t: Tree): Tree
    requires p.Below? && p.up.Below?
  {
    Join(p.up.side, Red, Join(p.side, Black, t, p.id, p.sibling), p.up.id, p.up.sibling.Blackened())
  }

  /** No red uncle, and the focus is on the same side of its parent as the parent is of the grandparent. */
  function RotatedOuter(p: Path, t: Tree): Tree
    requires p.Below? && p.up.Below?
  {
    Join(p.side, Black, t, p.id, Join(p.side, Red, p.sibling, p.up.id, p.up.sibling))
  }

  /** No red uncle, and the focus is an inner grandchild. */
  function RotatedInner(p: Path, t: Tree): Tree
    requires p.Below? && p.up.Below? && t.Node?
  {
    var side := p.up.side;
    Join(side, Black, Join(side, Red, p.sibling, p.id, t.Kid(side)), t.id,
      Join(side, Red, t.Kid(side.Other()), p.up.id, p.up.sibling))
  }

  /** The loop of insert: `t`, in focus, has a red root; its parent may be red as well. */
  function InsertFix(p: Path, t: Tree): Tree
    requires t.Node?
    decreases p
  {
    if p.Top? || p.colour.Black? || p.up.Top? then Plug(p, t)
    else if p.up.sibling.IsRed() then InsertFix(p.up.up, Recoloured(p, t))
    else if p.side == p.up.side then Plug(p.up.up, RotatedOuter(p, t))
    else Plug(p.up.up, RotatedInner(p, t))
  }

  lemma RecolouredOrder(p: Path, t: Tree)
    requires p.Below? && p.up.Below?
    ensures InOrder(Recoloured(p, t)) == InOrder(Grandparent(p, t))
  {}

  /** A rotation does not change the order. */
  lemma RotationOrder(c: Colour, c': Colour, d: Colour, d': Colour, l: Tree, x: Ref, m: Tree, y: Ref, r: Tree)
    ensures InOrder(Node(c, Node(c', l, x, m), y, r)) == InOrder(Node(d, l, x, Node(d', m, y, r)))
  {
    InOrderOfNode(Node(c, Node(c', l, x, m), y, r));
    InOrderOfNode(Node(c', l, x, m));
    InOrderOfNode(Node(d, l, x, Node(d', m, y, r)));
    InOrderOfNode(Node(d', m, y, r));
  }

  /** Neither does a double rotation: `y` comes from below `x`, or from below `z`, to the top. */
  lemma DoubleRotationOrder(c: Colour, c': Colour, c'': Colour, d: Colour, d': Colour, d'': Colour, k: Tree, x: Ref,
      l: Tree, y: Ref, m: Tree, z: Ref, r: Tree)
    ensures InOrder(Node(c, Node(c', k, x, Node(c'', l, y, m)), z, r)) ==
      InOrder(Node(d, Node(d', k, x, l), y, Node(d'', m, z, r)))
    ensures InOrder(Node(c, k, x, Node(c', Node(c'', l, y, m), z, r))) ==
      InOrder(Node(d, Node(d', k, x, l), y, Node(d'', m, z, r)))
  {
    hide InOrder;
    var inner, outer := Node(d', k, x, l), Node(d'', m, z, r);
    RotationOrder(d, d', c', c'', k, x, l, y, m);
    SameOrder(c, Node(c', k, x, Node(c'', l, y, m)), Node(d, inner, y, m), z, r);
    RotationOrder(c, d, d, d'', inner, y, m, z, r);
    RotationOrder(c', c'', d, d'', l, y, m, z, r);
    SameOrderRight(c, k, x, Node(c', Node(c'', l, y, m), z, r), Node(d, l, y, outer));
    RotationOrder(d, d', c, d, k, x, l, y, outer);
  }

  lemma SameOrder(c: Colour, l: Tree, l': Tree, x: Ref, r: Tree)
    requires InOrder(l) == InOrder(l')
    ensures InOrder(Node(c, l, x, r)) == InOrder(Node(c, l', x, r))
  {}

  lemma SameOrderRight(c: Colour, l: Tree, x: Ref, r: Tree, r': Tree)
    requires InOrder(r) == InOrder(r')
    ensures InOrder(Node(c, l, x, r)) == InOrder(Node(c, l, x, r'))
  {}

  lemma RotatedOrder(p: Path, t: Tree)
    requires p.Below? && p.up.Below?
    ensures p.side == p.up.side ==> InOrder(RotatedOuter(p, t)) == InOrder(Grandparent(p, t))
    ensures p.side != p.up.side && t.Node? ==> InOrder(RotatedInner(p, t)) == InOrder(Grandparent(p, t))
  {
    hide InOrder;
    var g := p.up;
    if p.side == g.side {
      if p.side.Left? {
        RotationOrder(g.colour, p.colour, Black, Red, t, p.id, p.sibling, g.id, g.sibling);
      } else {
        RotationOrder(Black, Red, g.colour, p.colour, g.sibling, g.id, p.sibling, p.id, t);
      }
    } else if t.Node? {
      if g.side.Left? {
        DoubleRotationOrder(g.colour, p.colour, t.colour, Black, Red, Red, p.sibling, p.id, t.left, t.id, t.right,
          g.id, g.sibling);
      } else {
        DoubleRotationOrder(g.colour, p.colour, t.colour, Black, Red, Red, g.sibling, g.id, t.left, t.id, t.right,
          p.id, p.sibling);
      }
    }
  }

  lemma InOrderOfNode(t: Tree)
    requires t.Node?
    ensures InOrder(t) == InOrder(t.left) + [t.id] + InOrder(t.right)
  {}

  lemma {:induction false} InsertFixKeepsOrder(p: Path, t: Tree)
    requires t.Node?
    ensures InOrder(InsertFix(p, t)) == InOrder(Plug(p, t))
    decreases p
  {
    hide InOrder, Join, Recoloured, RotatedInner, RotatedOuter;
    if p.Top? || p.colour.Black? || p.up.Top? {
    } else {
      var up := p.up.up;
      assert Plug(p, t) == Plug(up, Grandparent(p, t));
      RecolouredOrder(p, t);
      RotatedOrder(p, t);
      if p.up.sibling.IsRed() {
        assert Recoloured(p, t).Node? by { RecolouredNode(p, t); }
        PlugSameOrder(up, Recoloured(p, t), Grandparent(p, t));
        InsertFixKeepsOrder(up, Recoloured(p, t));
      } else if p.side == p.up.side {
        PlugSameOrder(up, RotatedOuter(p, t), Grandparent(p, t));
      } else {
        PlugSameOrder(up, RotatedInner(p, t), Grandparent(p, t));
      }
    }
  }

  lemma RecolouredNode(p: Path, t: Tree)
    requires p.Below? && p.up.Below?
    ensures Recoloured(p, t).IsRed()
  {}

  /** The root is not red. */
  predicate TopIsBlack(p: Path) {
    match p
    case Top => true
    case Below(_, c, _, _, up) => if up.Top? then c.Black? else TopIsBlack(up)
  }

  lemma {:induction false} BlackRoot(p: Path, t: Tree)
    requires !Plug(p, t).IsRed()
    ensures TopIsBlack(p)
    decreases p
  {
    match p
    case Top =>
    case Below(side, c, id, sibling, up) => BlackRoot(up, Join(side, c, t, id, sibling));
  }

  /** The only rule that may be broken is that the parent of a red `t` is red; the loop of insert repairs it. */
  lemma {:induction false} InsertFixBalanced(p: Path, t: Tree, height: nat) returns (total: nat)
    requires t.IsRed() && Balanced(t, height) && Surrounds(p, height, Black) && TopIsBlack(p)
    ensures Balanced(InsertFix(p, t), total)
    decreases p
  {
    hide Plug;
    if p.Top? || p.colour.Black? || p.up.Top? {
      total := PlugBalanced(p, t, height);
    } else {
      var g := p.up;
      SurroundsBlack(g.up, height + 1, g.colour);
      if g.sibling.IsRed() {
        assert Balanced(g.sibling.Blackened(), height + 1);
        total := InsertFixBalanced(g.up, Recoloured(p, t), height + 1);
      } else if p.side == g.side {
        total := PlugBalanced(g.up, RotatedOuter(p, t), height + 1);
      } else {
        total := PlugBalanced(g.up, RotatedInner(p, t), height + 1);
      }
    }
  }

  // ----- erasure

  /** The loop of erase, whose guard is that the focus has a parent: `t` is one black node short. */
  function EraseFix(p: Path, t: Tree, height: nat): Tree
    requires Balanced(t, height) && Surrounds(p, height + 1, Black)
    decreases if p.Below? && p.colour.Black? then 1 + p.Length() else 0
  {
    if p.Top? then t
    else
      var sibling := p.sibling;
      if sibling.colour.Black? && (sibling.left.IsRed() || sibling.right.IsRed()) then
        Plug(p.up, Borrowed(p, t))
      else if sibling.colour.Black? then
        if p.colour.Red? then Plug(p.up, Paled(p, t))
        else
          SurroundsBlack(p.up, height + 2, p.colour);
          EraseFix(p.up, Paled(p, t), height + 1)
      else EraseFix(Lowered(p), t, height)
  }

  /** A black sibling with a red child: a rotation, or two, brings a black node over to the side of the focus. The left
      nephew is taken when it is red. */
  function Borrowed(p: Path, t: Tree): Tree
    requires p.Below? && p.sibling.Node? && (p.sibling.left.IsRed() || p.sibling.right.IsRed())
  {
    var s := p.sibling;
    if p.side.Right? then
      if s.left.IsRed() then Node(p.colour, s.left.Blackened(), s.id, Node(Black, s.right, p.id, t))
      else Node(p.colour, Node(Black, s.left, s.id, s.right.left), s.right.id, Node(Black, s.right.right, p.id, t))
    else
      if s.left.IsRed()
        then Node(p.colour, Node(Black, t, p.id, s.left.left), s.left.id, Node(Black, s.left.right, s.id, s.right))
      else Node(p.colour, Node(Black, t, p.id, s.left), s.id, s.right.Blackened())
  }

  /** A black sibling without red children becomes red. */
  function Paled(p: Path, t: Tree): Tree
    requires p.Below? && p.sibling.Node?
  {
    Join(p.side, Black, t, p.id, p.sibling.(colour := Red))
  }

  /** A red sibling: it is rotated over the parent, which becomes red. */
  function Lowered(p: Path): Path
    requires p.Below? && p.sibling.Node?
  {
    Below(p.side, Red, p.id, p.sibling.Kid(p.side),
      Below(p.side, Black, p.sibling.id, p.sibling.Kid(p.side.Other()), p.up))
  }

  /** What erase started from, at the level of the parent of the focus. */
  function ParentTree(p: Path, t: Tree): Tree
    requires p.Below?
  {
    Join(p.side, p.colour, t, p.id, p.sibling)
  }

  lemma BorrowedOrder(p: Path, t: Tree)
    requires p.Below? && p.sibling.Node? && (p.sibling.left.IsRed() || p.sibling.right.IsRed())
    ensures InOrder(Borrowed(p, t)) == InOrder(ParentTree(p, t))
  {
    hide InOrder;
    var s := p.sibling;
    if p.side.Right? {
      if s.left.IsRed() {
        RotationOrder(p.colour, s.colour, p.colour, Black, s.left, s.id, s.right, p.id, t);
        InOrderBlackened(s.left);
        SameOrder(p.colour, s.left, s.left.Blackened(), s.id, Node(Black, s.right, p.id, t));
      } else {
        var n := s.right;
        DoubleRotationOrder(p.colour, s.colour, n.colour, p.colour, Black, Black, s.left, s.id, n.left, n.id,
          n.right, p.id, t);
      }
    } else {
      if s.left.IsRed() {
        var n := s.left;
        DoubleRotationOrder(p.colour, s.colour, n.colour, p.colour, Black, Black, t, p.id, n.left, n.id, n.right,
          s.id, s.right);
      } else {
        RotationOrder(p.colour, Black, p.colour, s.colour, t, p.id, s.left, s.id, s.right);
        InOrderBlackened(s.right);
        SameOrderRight(p.colour, Node(Black, t, p.id, s.left), s.id, s.right, s.right.Blackened());
      }
    }
  }

  lemma EraseStepOrder(p: Path, t: Tree)
    requires p.Below? && p.sibling.Node?
    ensures InOrder(Paled(p, t)) == InOrder(ParentTree(p, t))
    ensures InOrder(ParentTree(Lowered(p).up, ParentTree(Lowered(p), t))) == InOrder(ParentTree(p, t))
  {
    var s := p.sibling;
    assert InOrder(Paled(p, t)) == InOrder(ParentTree(p, t));
    hide InOrder;
    if p.side.Left? {
      RotationOrder(Black, Red, p.colour, s.colour, t, p.id, s.left, s.id, s.right);
    } else {
      RotationOrder(p.colour, s.colour, Black, Red, s.left, s.id, s.right, p.id, t);
    }
  }

  lemma {:induction false} EraseFixKeepsOrder(p: Path, t: Tree, height: nat)
    requires Balanced(t, height) && Surrounds(p, height + 1, Black)
    ensures InOrder(EraseFix(p, t, height)) == InOrder(Plug(p, t))
    decreases if p.Below? && p.colour.Black? then 1 + p.Length() else 0
  {
    hide InOrder, Join, Borrowed, Paled;
    if p.Below? {
      EraseStepOrder(p, t);
      assert Plug(p, t) == Plug(p.up, ParentTree(p, t));
      var sibling := p.sibling;
      if sibling.colour.Black? && (sibling.left.IsRed() || sibling.right.IsRed()) {
        BorrowedOrder(p, t);
        PlugSameOrder(p.up, Borrowed(p, t), ParentTree(p, t));
      } else if sibling.colour.Black? {
        PlugSameOrder(p.up, Paled(p, t), ParentTree(p, t));
        if p.colour.Black? {
          assert Balanced(Paled(p, t), height + 1) by { PaledBalanced(p, t, height); }
          SurroundsBlack(p.up, height + 2, p.colour);
          EraseFixKeepsOrder(p.up, Paled(p, t), height + 1);
        }
      } else {
        EraseFixKeepsOrder(Lowered(p), t, height);
        var q := Lowered(p);
        assert Plug(q, t) == Plug(p.up, ParentTree(q.up, ParentTree(q, t)));
        PlugSameOrder(p.up, ParentTree(q.up, ParentTree(q, t)), ParentTree(p, t));
      }
    }
  }

  lemma PaledBalanced(p: Path, t: Tree, height: nat)
    requires p.Below? && Balanced(t, height) && Balanced(p.sibling, height + 1)
    requires p.sibling.colour.Black? && !p.sibling.left.IsRed() && !p.sibling.right.IsRed()
    ensures Balanced(Paled(p, t), height + 1)
  {}

  lemma BorrowedBalanced(p: Path, t: Tree, height: nat)
    requires p.Below? && Balanced(t, height) && Balanced(p.sibling, height + 1)
    requires p.sibling.colour.Black? && (p.sibling.left.IsRed() || p.sibling.right.IsRed())
    ensures Balanced(Borrowed(p, t), height + 1 + Weight(p.colour)) && ColourOf(Borrowed(p, t)) == p.colour
  {
    var s := p.sibling;
    assert Balanced(s.left, height) && Balanced(s.right, height);
    var nephew := if s.left.IsRed() then s.left else s.right;
    assert Balanced(nephew.left, height) && Balanced(nephew.right, height) && Balanced(nephew.Blackened(), height + 1);
    if p.side.Right? {
      if s.left.IsRed() {
        assert Balanced(Node(Black, s.right, p.id, t), height + 1);
      } else {
        assert Balanced(Node(Black, s.left, s.id, nephew.left), height + 1);
        assert Balanced(Node(Black, nephew.right, p.id, t), height + 1);
      }
    } else {
      if s.left.IsRed() {
        assert Balanced(Node(Black, t, p.id, nephew.left), height + 1);
        assert Balanced(Node(Black, nephew.right, s.id, s.right), height + 1);
      } else {
        assert Balanced(Node(Black, t, p.id, s.left), height + 1);
      }
    }
  }

  /** Whatever the colour of the root of `t`: it may be red, in which case nothing was missing but a recolouring. */
  lemma {:induction false} EraseFixBalanced(p: Path, t: Tree, height: nat) returns (total: nat)
    requires Balanced(t, height) && Surrounds(p, height + 1, Black)
    ensures Balanced(EraseFix(p, t, height), total)
    decreases if p.Below? && p.colour.Black? then 1 + p.Length() else 0
  {
    hide Plug;
    if p.Top? {
      total := height;
    } else {
      var sibling := p.sibling;
      if sibling.colour.Black? && (sibling.left.IsRed() || sibling.right.IsRed()) {
        BorrowedBalanced(p, t, height);
        total := PlugBalanced(p.up, Borrowed(p, t), height + 1 + Weight(p.colour));
      } else if sibling.colour.Black? {
        PaledBalanced(p, t, height);
        SurroundsBlack(p.up, height + 1 + Weight(p.colour), p.colour);
        if p.colour.Red? {
          total := PlugBalanced(p.up, Paled(p, t), height + 1);
        } else {
          total := EraseFixBalanced(p.up, Paled(p, t), height + 1);
        }
      } else {
        total := EraseFixBalanced(Lowered(p), t, height);
      }
    }
  }

  // ----- taking a node out

  /** The tree after a node has been taken out: `focus` stands at `path`, one black node `short` or not. */
  datatype Hole = Hole(path: Path, focus: Tree, short: bool)

  /** The first node of `t`, in focus, when `t` stands at `p`. */
  function Leftmost(t: Tree, p: Path): (r: (Path, Tree))
    requires t.Node?
    ensures r.1.Node? && r.1.left.Leaf?
    decreases t
  {
    if t.left.Leaf? then (p, t) else Leftmost(t.left, Below(Left, t.colour, t.id, t.right, p))
  }

  function First(t: Tree): Ref
    requires t.Node?
  {
    if t.left.Leaf? then t.id else First(t.left)
  }

  function WithColour(t: Tree, c: Colour): Tree {
    if t.Leaf? then Leaf else t.(colour := c)
  }

  /** remove_from_tree and the first part of erase: the node in focus is replaced by its only child, or by its
      successor. When the successor is its right child, the colour of what is below that successor is not looked at. */
  function Remove(p: Path, t: Tree): Hole
    requires t.Node?
  {
    if t.left.Leaf? && t.right.Leaf? then Hole(p, Leaf, p.Below? && t.colour.Black?)
    else if t.left.Leaf? then Hole(p, WithColour(t.right, t.colour), !t.right.IsRed() && t.colour.Black?)
    else if t.right.Leaf? then Hole(p, WithColour(t.left, t.colour), !t.left.IsRed() && t.colour.Black?)
    else
      var (q, s) := Leftmost(t.right, Below(Right, t.colour, First(t.right), t.left, p));
      if t.right.left.Leaf? then Hole(q, s.right, s.colour.Black?)
      else if s.colour.Black? && !s.right.IsRed() then Hole(q, s.right, true)
      else Hole(q, WithColour(s.right, s.colour), false)
  }

  lemma {:induction false} LeftmostIsFirst(t: Tree, p: Path)
    requires t.Node?
    ensures var (q, s) := Leftmost(t, p);
      s.Node? && s.left.Leaf? && s.id == First(t) && Plug(q, s) == Plug(p, t) && Before(q) == Before(p)
    decreases t
  {
    if !t.left.Leaf? {
      LeftmostIsFirst(t.left, Below(Left, t.colour, t.id, t.right, p));
    }
  }

  lemma {:induction false} LeftmostBalanced(t: Tree, p: Path, height: nat) returns (h: nat)
    requires t.Node? && Balanced(t, height) && Surrounds(p, height, ColourOf(t))
    ensures var (q, s) := Leftmost(t, p); Balanced(s, h) && Surrounds(q, h, ColourOf(s))
    decreases t
  {
    if t.left.Leaf? {
      h := height;
    } else {
      h := LeftmostBalanced(t.left, Below(Left, t.colour, t.id, t.right, p), height - Weight(t.colour));
    }
  }

  /** Taking a node out takes exactly that node out of the order. */
  lemma RemoveOrder(p: Path, t: Tree)
    requires t.Node?
    ensures var h := Remove(p, t);
      InOrder(Plug(h.path, h.focus)) == Before(p) + InOrder(t.left) + InOrder(t.right) + After(p)
  {
    hide Plug, InOrder, Before, After;
    var h := Remove(p, t);
    InOrderOfPlug(h.path, h.focus);
    assert InOrder(Leaf) == [] by { InOrderOfLeaf(); }
    if t.left.Leaf? || t.right.Leaf? {
      WithColourOrder(t.right, t.colour);
      WithColourOrder(t.left, t.colour);
    } else {
      var b := Below(Right, t.colour, First(t.right), t.left, p);
      var (q, s) := Leftmost(t.right, b);
      LeftmostIsFirst(t.right, b);
      InOrderOfPlug(q, s);
      InOrderOfPlug(b, t.right);
      InOrderOfNode(s);
      WithColourOrder(s.right, s.colour);
      BeforeAfterRight(t.colour, First(t.right), t.left, p);
      MoveUp(Before(p), InOrder(t.left), s.id, InOrder(s.right), After(q), InOrder(t.right), After(p));
    }
  }

  lemma MoveUp(a: seq<Ref>, b: seq<Ref>, id: Ref, r: seq<Ref>, e: seq<Ref>, r': seq<Ref>, e': seq<Ref>)
    requires (a + b + [id]) + ([] + [id] + r) + e == (a + b + [id]) + r' + e'
    ensures (a + b + [id]) + r + e == a + b + r' + e'
  {
    var x := a + b + [id];
    assert (x + ([] + [id] + r) + e)[|x|..] == [id] + r + e;
    assert (x + r' + e')[|x|..] == r' + e';
    assert x + r + e == a + b + ([id] + r + e);
    assert a + b + r' + e' == a + b + (r' + e');
  }

  lemma InOrderOfLeaf()
    ensures InOrder(Leaf) == []
  {}

  lemma WithColourOrder(t: Tree, c: Colour)
    ensures InOrder(WithColour(t, c)) == InOrder(t)
  {}

  lemma BeforeAfterRight(c: Colour, id: Ref, sibling: Tree, up: Path)
    ensures Before(Below(Right, c, id, sibling, up)) == Before(up) + InOrder(sibling) + [id]
    ensures After(Below(Right, c, id, sibling, up)) == After(up)
  {}

  lemma RemoveBalanced(p: Path, t: Tree, height: nat) returns (h: nat)
    requires t.Node? && Balanced(t, height) && Surrounds(p, height, ColourOf(t))
    ensures var r := Remove(p, t); Balanced(r.focus, h)
    ensures var r := Remove(p, t); r.short ==> Surrounds(r.path, h + 1, Black)
    ensures var r := Remove(p, t); !r.short ==> Surrounds(r.path, h, ColourOf(r.focus))
  {
    var r := Remove(p, t);
    SurroundsBlack(p, height, ColourOf(t));
    if t.left.Leaf? && t.right.Leaf? {
      h := 0;
    } else if t.left.Leaf? || t.right.Leaf? {
      var child := if t.left.Leaf? then t.right else t.left;
      assert child.IsRed() && Balanced(WithColour(child, Black), 1);
      h := 1;
    } else {
      var b := Below(Right, t.colour, First(t.right), t.left, p);
      LeftmostIsFirst(t.right, b);
      var h' := LeftmostBalanced(t.right, b, height - Weight(t.colour));
      var (q, s) := Leftmost(t.right, b);
      SurroundsBlack(q, h', ColourOf(s));
      h := if r.short then 0 else h';
    }
  }

  /** The whole of erase, and what remains of the height that the fix-up starts from. */
  ghost function Erase(p: Path, t: Tree, h: nat): Tree
    requires t.Node? && Balanced(Remove(p, t).focus, h)
    requires Remove(p, t).short ==> Surrounds(Remove(p, t).path, h + 1, Black)
  {
    var r := Remove(p, t);
    (if r.short then EraseFix(r.path, r.focus, h) else Plug(r.path, r.focus)).Blackened()
  }

  /** Erasing any node of a red-black tree gives a red-black tree, whose order is the old one without that node. */
  lemma EraseIsRedBlack(p: Path, t: Tree) returns (h: nat)
    requires t.Node? && IsRedBlack(Plug(p, t))
    ensures var r := Remove(p, t); Balanced(r.focus, h) && (r.short ==> Surrounds(r.path, h + 1, Black))
    ensures IsRedBlack(Erase(p, t, h))
    ensures InOrder(Erase(p, t, h)) == Before(p) + InOrder(t.left) + InOrder(t.right) + After(p)
  {
    hide Plug, InOrder, Remove, Balanced, Surrounds, EraseFix;
    var total :| Balanced(Plug(p, t), total);
    var height := BalancedUnplug(p, t, total);
    h := RemoveBalanced(p, t, height);
    RemoveOrder(p, t);
    var r := Remove(p, t);
    if r.short {
      EraseFixKeepsOrder(r.path, r.focus, h);
      var e := EraseFix(r.path, r.focus, h);
      var n := EraseFixBalanced(r.path, r.focus, h);
      BlackenedIsRedBlack(e, n);
      InOrderBlackened(e);
    } else {
      var n := PlugBalanced(r.path, r.focus, h);
      BlackenedIsRedBlack(Plug(r.path, r.focus), n);
      InOrderBlackened(Plug(r.path, r.focus));
    }
  }

  /** The whole of insert, at the leaf `p`. */
  function Insert(p: Path, id: Ref): Tree {
    InsertFix(p, Node(Red, Leaf, id, Leaf)).Blackened()
  }

  /** Inserting at any leaf of a red-black tree gives a red-black tree, whose order has the new node at that place. */
  lemma InsertIsRedBlack(p: Path, id: Ref)
    requires IsRedBlack(Plug(p, Leaf))
    ensures IsRedBlack(Insert(p, id))
    ensures InOrder(Insert(p, id)) == Before(p) + [id] + After(p)
  {
    var t := Node(Red, Leaf, id, Leaf);
    var total :| Balanced(Plug(p, Leaf), total);
    var height := BalancedUnplug(p, Leaf, total);
    BlackRoot(p, Leaf);
    var n := InsertFixBalanced(p, t, height);
    BlackenedIsRedBlack(InsertFix(p, t), n);
    InsertFixKeepsOrder(p, t);
    InOrderOfPlug(p, t);
    InOrderBlackened(InsertFix(p, t));
    assert InOrder(t) == [id];
  }

  // ----- the check that the class offers for its own tests

  /** The black nodes on the way down that goes left where it can. */
  function BlackLevels(t: Tree): nat {
    if t.Leaf? then 0 else Weight(t.colour) + BlackLevels(if t.left.Leaf? then t.right else t.left)
  }

  /** invariant_holds_for_each_path */
  predicate HoldsForEachPath(t: Tree, mustBeBlack: bool, levels: int)
    requires t.Node?
    decreases t
  {
    if mustBeBlack && t.colour.Red? then false
    else
      var rest := if t.colour.Black? then levels - 1 else levels;
      if t.left.Leaf? && t.right.Leaf? then rest == 0
      else
        ((t.left.Leaf? && rest == 0) || (t.left.Node? && HoldsForEachPath(t.left, t.colour.Red?, rest))) &&
        ((t.right.Leaf? && rest == 0) || (t.right.Node? && HoldsForEachPath(t.right, t.colour.Red?, rest)))
  }

  predicate InvariantHolds(t: Tree) {
    t.Leaf? || HoldsForEachPath(t, true, BlackLevels(t))
  }

  lemma {:induction false} EachPathIsBalanced(t: Tree, mustBeBlack: bool, levels: int)
    requires t.Node?
    ensures HoldsForEachPath(t, mustBeBlack, levels) <==>
      levels >= 0 && Balanced(t, levels) && !(mustBeBlack && t.IsRed())
    decreases t
  {
    var rest := if t.colour.Black? then levels - 1 else levels;
    if t.left.Node? { EachPathIsBalanced(t.left, t.colour.Red?, rest); }
    if t.right.Node? { EachPathIsBalanced(t.right, t.colour.Red?, rest); }
    if rest >= 0 {
      assert t.left.Leaf? ==> (Balanced(t.left, rest) <==> rest == 0);
      assert t.right.Leaf? ==> (Balanced(t.right, rest) <==> rest == 0);
      assert Weight(t.colour) == levels - rest;
      assert Balanced(t, levels) <==>
        (t.colour.Red? ==> !t.left.IsRed() && !t.right.IsRed()) && Balanced(t.left, rest) && Balanced(t.right, rest);
    }
  }

  lemma {:induction false} BalancedLevels(t: Tree, height: nat)
    requires Balanced(t, height)
    ensures BlackLevels(t) == height
    decreases t
  {
    if t.Node? {
      BalancedLevels(if t.left.Leaf? then t.right else t.left, height - Weight(t.colour));
    }
  }

  /** The check accepts exactly the red-black trees. */
  lemma InvariantIsExact(t: Tree)
    ensures InvariantHolds(t) <==> IsRedBlack(t)
  {
    if t.Node? {
      EachPathIsBalanced(t, true, BlackLevels(t));
      if IsRedBlack(t) {
        var height :| Balanced(t, height);
        BalancedLevels(t, height);
      }
    } else {
      assert Balanced(t, 0);
    }
  }
}
