/** Trees as they are stored: parent, left and right links and a colour in every node, and a root. Every change of
    links made by IntrusiveBinarySearchTree and IntrusiveSet is shown to turn the stored form of one tree into the
    stored form of another.
 */
module TreeLinks {
  import opened RedBlackTree

  /** The link fields of all nodes. A node that has never been in a tree has null links and is red. */
  datatype Links = Links(left: map<Ref, Ref>, right: map<Ref, Ref>, parent: map<Ref, Ref>, colour: map<Ref,
    Colour>, root: Ref)

  function Kid(s: Links, side: Side, id: Ref): Ref {
    if side.Left? then At(s.left, id) else At(s.right, id)
  }
  function Parent(s: Links, id: Ref): Ref {
    At(s.parent, id)
  }
  function ColourAt(s: Links, id: Ref): Colour {
    if id in s.colour then s.colour[id] else Red
  }

  function SetKid(s: Links, side: Side, id: Ref, kid: Ref): Links {
    if side.Left? then s.(left := s.left[id := kid]) else s.(right := s.right[id := kid])
  }
  function SetParent(s: Links, id: Ref, up: Ref): Links {
    s.(parent := s.parent[id := up])
  }
  function SetColour(s: Links, id: Ref, c: Colour): Links {
    s.(colour := s.colour[id := c])
  }
  /** parent_child_reference(*up, child) = kid */
  function SetChild(s: Links, up: Ref, child: Ref, kid: Ref): Links {
    SetKid(s, if Kid(s, Left, up) == child then Left else Right, up, kid)
  }
  /** What the parent `up` of `child`, or the root, refers to becomes `kid`. */
  function Replace(s: Links, up: Ref, child: Ref, kid: Ref): Links {
    if up != NULL then SetChild(s, up, child, kid) else s.(root := kid)
  }

  lemma SetKidEffect(s: Links, side: Side, id: Ref, kid: Ref)
    ensures var s' := SetKid(s, side, id, kid);
      s'.root == s.root &&
      (forall d, i :: Kid(s', d, i) == if d == side && i == id then kid else Kid(s, d, i)) &&
      (forall i :: Parent(s', i) == Parent(s, i)) && (forall i :: ColourAt(s', i) == ColourAt(s, i))
  {}

  lemma SetParentEffect(s: Links, id: Ref, up: Ref)
    ensures var s' := SetParent(s, id, up);
      s'.root == s.root &&
      (forall d, i :: Kid(s', d, i) == Kid(s, d, i)) &&
      (forall i :: Parent(s', i) == if i == id then up else Parent(s, i)) &&
        (forall i :: ColourAt(s', i) == ColourAt(s, i))
  {}

  lemma SetColourEffect(s: Links, id: Ref, c: Colour)
    ensures var s' := SetColour(s, id, c);
      s'.root == s.root &&
      (forall d, i :: Kid(s', d, i) == Kid(s, d, i)) &&
      (forall i :: Parent(s', i) == Parent(s, i)) &&
        (forall i :: ColourAt(s', i) == if i == id then c else ColourAt(s, i))
  {}

  lemma ReplaceEffect(s: Links, up: Ref, child: Ref, kid: Ref)
    ensures var s' := Replace(s, up, child, kid);
      var side := if Kid(s, Left, up) == child then Left else Right;
      s'.root == (if up == NULL then kid else s.root) &&
      (forall d, i :: Kid(s', d, i) == if up != NULL && d == side && i == up then kid else Kid(s, d, i)) &&
      (forall i :: Parent(s', i) == Parent(s, i)) && (forall i :: ColourAt(s', i) == ColourAt(s, i))
  {
    SetKidEffect(s, if Kid(s, Left, up) == child then Left else Right, up, kid);
  }

  function At(m: map<Ref, Ref>, id: Ref): Ref {
    if id in m then m[id] else NULL
  }

  function Ids(t: Tree): set<Ref> {
    if t.Leaf? then {} else Ids(t.left) + {t.id} + Ids(t.right)
  }

  function PathIds(p: Path): set<Ref> {
    if p.Top? then {} else {p.id} + Ids(p.sibling) + PathIds(p.up)
  }

  /** No node occurs twice. */
  predicate Apart(t: Tree) {
    t.Node? ==>
      t.id != NULL && t.id !in Ids(t.left) && t.id !in Ids(t.right) && Ids(t.left) !! Ids(t.right) && Apart(t.left) &&
        Apart(t.right)
  }

  predicate PathApart(p: Path) {
    p.Below? ==>
      p.id != NULL && p.id !in Ids(p.sibling) && p.id !in PathIds(p.up) && Ids(p.sibling) !! PathIds(p.up) &&
        Apart(p.sibling) && PathApart(p.up)
  }

  predicate StoresTree(s: Links, t: Tree, parent: Ref) {
    t.Node? ==>
      Kid(s, Left, t.id) == t.left.Root() && Kid(s, Right, t.id) == t.right.Root() && Parent(s, t.id) == parent &&
        ColourAt(s, t.id) == t.colour &&
      StoresTree(s, t.left, t.id) && StoresTree(s, t.right, t.id)
  }

  predicate StoresPath(s: Links, p: Path, focus: Ref) {
    if p.Top? then s.root == focus
    else
      Kid(s, p.side, p.id) == focus && Kid(s, p.side.Other(), p.id) == p.sibling.Root() &&
        Parent(s, p.id) == p.up.Parent() &&
      ColourAt(s, p.id) == p.colour && StoresTree(s, p.sibling, p.id) && StoresPath(s, p.up, p.id)
  }

  /** `s` is the stored form of the tree with `t` in focus at `p`. */
  predicate Stores(s: Links, p: Path, t: Tree) {
    Apart(t) && PathApart(p) && Ids(t) !! PathIds(p) && StoresTree(s, t, p.Parent()) && StoresPath(s, p, t.Root())
  }

  /** Join, one level at a time. */
  lemma JoinApart(side: Side, c: Colour, t: Tree, id: Ref, sibling: Tree)
    ensures var j := Join(side, c, t, id, sibling);
      j.Node? && j.Root() == id && Ids(j) == Ids(t) + {id} + Ids(sibling) &&
      (Apart(j) <==>
        id != NULL && id !in Ids(t) && id !in Ids(sibling) && Ids(t) !! Ids(sibling) && Apart(t) && Apart(sibling))
  {}

  lemma JoinStored(s: Links, side: Side, c: Colour, t: Tree, id: Ref, sibling: Tree, parent: Ref)
    ensures StoresTree(s, Join(side, c, t, id, sibling), parent) <==>
      Kid(s, side, id) == t.Root() && Kid(s, side.Other(), id) == sibling.Root() && Parent(s, id) == parent &&
        ColourAt(s, id) == c &&
      StoresTree(s, t, id) && StoresTree(s, sibling, id)
  {}

  ghost predicate Same(s: Links, s': Links, ids: set<Ref>) {
    forall id :: id in ids ==>
      Kid(s', Left, id) == Kid(s, Left, id) && Kid(s', Right, id) == Kid(s, Right, id) &&
        Parent(s', id) == Parent(s, id) && ColourAt(s', id) == ColourAt(s, id)
  }

  lemma {:induction false} NullApart(t: Tree)
    requires Apart(t)
    ensures NULL !in Ids(t) && (t.Node? ==> t.id in Ids(t)) && (t.Root() != NULL ==> t.Root() in Ids(t))
    decreases t
  {
    if t.Node? {
      NullApart(t.left);
      NullApart(t.right);
    }
  }

  lemma {:induction false} NullPathApart(p: Path)
    requires PathApart(p)
    ensures NULL !in PathIds(p)
    decreases p
  {
    if p.Below? {
      NullApart(p.sibling);
      NullPathApart(p.up);
    }
  }

  lemma {:induction false} SameTree(s: Links, s': Links, t: Tree, parent: Ref)
    requires StoresTree(s, t, parent) && Same(s, s', Ids(t))
    ensures StoresTree(s', t, parent)
    decreases t
  {
    if t.Node? {
      SameTree(s, s', t.left, t.id);
      SameTree(s, s', t.right, t.id);
    }
  }

  lemma {:induction false} SamePath(s: Links, s': Links, p: Path, focus: Ref)
    requires StoresPath(s, p, focus) && Same(s, s', PathIds(p)) && s'.root == s.root
    ensures StoresPath(s', p, focus)
    decreases p
  {
    if p.Below? {
      SameTree(s, s', p.sibling, p.id);
      SamePath(s, s', p.up, p.id);
    }
  }

  /** The root of `t` gets another parent. */
  lemma Reparented(s: Links, s': Links, t: Tree, before: Ref, parent: Ref)
    requires StoresTree(s, t, before) && Apart(t)
    requires t.Node? ==> Same(s, s', Ids(t) - {t.id}) && Parent(s', t.id) == parent
    requires t.Node? ==>
      Kid(s', Left, t.id) == Kid(s, Left, t.id) && Kid(s', Right, t.id) == Kid(s, Right, t.id) &&
      ColourAt(s', t.id) == ColourAt(s, t.id)
    ensures StoresTree(s', t, parent)
  {
    if t.Node? {
      SameTree(s, s', t.left, t.id);
      SameTree(s, s', t.right, t.id);
    }
  }

  /** The slot at the lower end of the path refers to another node. */
  lemma Refocused(s: Links, s': Links, p: Path, focus: Ref, focus': Ref)
    requires StoresPath(s, p, focus) && PathApart(p)
    requires p.Top? ==> s'.root == focus'
    requires p.Below? ==> s'.root == s.root && Same(s, s', PathIds(p) - {p.id}) && Kid(s', p.side, p.id) == focus'
    requires p.Below? ==> Kid(s', p.side.Other(), p.id) == Kid(s, p.side.Other(), p.id)
    requires p.Below? ==> Parent(s', p.id) == Parent(s, p.id) && ColourAt(s', p.id) == ColourAt(s, p.id)
    ensures StoresPath(s', p, focus')
  {
    if p.Below? {
      SameTree(s, s', p.sibling, p.id);
      SamePath(s, s', p.up, p.id);
    }
  }

  /** Moving the focus changes nothing. */
  lemma FocusUp(s: Links, p: Path, t: Tree)
    requires p.Below?
    ensures Stores(s, p, t) <==> Stores(s, p.up, Join(p.side, p.colour, t, p.id, p.sibling))
  {
    hide Kid, Parent, ColourAt, StoresTree, Apart, Ids, Join;
    JoinApart(p.side, p.colour, t, p.id, p.sibling);
    JoinStored(s, p.side, p.colour, t, p.id, p.sibling, p.up.Parent());
  }

  lemma FocusAcross(s: Links, p: Path, t: Tree)
    requires p.Below?
    ensures Stores(s, p, t) <==> Stores(s, Below(p.side.Other(), p.colour, p.id, t, p.up), p.sibling)
  {
    hide Stores, StoresTree, StoresPath, Apart, PathApart, Ids, PathIds;
    var q := Below(p.side.Other(), p.colour, p.id, t, p.up);
    FocusUp(s, p, t);
    FocusUp(s, q, p.sibling);
    assert Join(p.side, p.colour, t, p.id, p.sibling) == Join(q.side, q.colour, p.sibling, q.id, t);
  }

  lemma RecolourFocus(s: Links, p: Path, t: Tree, c: Colour)
    requires t.Node? && Stores(s, p, t)
    ensures Stores(SetColour(s, t.id, c), p, t.(colour := c))
  {
    hide Kid, Parent, ColourAt, SetColour;
    var s' := SetColour(s, t.id, c);
    SetColourEffect(s, t.id, c);
    SameTree(s, s', t.left, t.id);
    SameTree(s, s', t.right, t.id);
    SamePath(s, s', p, t.id);
  }

  /** left_rotate (`side` is Left) and right_rotate: `top` moves down to that side. */
  function Rotate(s: Links, side: Side, top: Ref): Links {
    var up := Kid(s, side.Other(), top);
    var s1 := SetKid(s, side.Other(), top, Kid(s, side, up));
    var s2 := SetKid(s1, side, up, top);
    var s3 := SetParent(s2, up, Parent(s2, top));
    var s4 := SetParent(s3, top, up);
    var s5 := if Kid(s4, side.Other(), top) != NULL then SetParent(s4, Kid(s4, side.Other(), top), top) else s4;
    Replace(s5, Parent(s5, up), top, up)
  }

  /** All links after a rotation, in terms of the links before. */
  ghost predicate Rotated(s: Links, s': Links, side: Side, top: Ref, up: Ref, inner: Ref, parent: Ref) {
    var place := if Kid(s, Left, parent) == top then Left else Right;
    s'.root == (if parent == NULL then up else s.root) &&
    (forall d, i :: Kid(s', d, i) ==
      if i == top && d == side.Other() then inner
      else if i == up && d == side then top
      else if i == parent && i != NULL && d == place then up
      else Kid(s, d, i)) &&
    (forall i :: Parent(s', i) ==
      if i == inner && i != NULL then top else if i == top then up else if i == up then parent else Parent(s, i)) &&
    (forall i :: ColourAt(s', i) == ColourAt(s, i))
  }

  lemma RotateEffect(s: Links, side: Side, top: Ref, up: Ref, inner: Ref, parent: Ref)
    requires up == Kid(s, side.Other(), top) && inner == Kid(s, side, up) && parent == Parent(s, top)
    requires top != up && top != inner && up != inner && parent != top && parent != up && top != NULL && up != NULL
    ensures Rotated(s, Rotate(s, side, top), side, top, up, inner, parent)
  {
    hide Kid, Parent, ColourAt, SetKid, SetParent, Replace;
    var s1 := SetKid(s, side.Other(), top, inner);
    SetKidEffect(s, side.Other(), top, inner);
    var s2 := SetKid(s1, side, up, top);
    SetKidEffect(s1, side, up, top);
    var s3 := SetParent(s2, up, parent);
    SetParentEffect(s2, up, parent);
    var s4 := SetParent(s3, top, up);
    SetParentEffect(s3, top, up);
    var s5 := if inner != NULL then SetParent(s4, inner, top) else s4;
    SetParentEffect(s4, inner, top);
    ReplaceEffect(s5, parent, top, up);
  }

  lemma RotatedApart(side: Side, c: Colour, a: Tree, x: Ref, c': Colour, b: Tree, y: Ref, d: Tree)
    requires Apart(Join(side, c, a, x, Join(side, c', b, y, d)))
    ensures var t, t' := Join(side, c, a, x, Join(side, c', b, y, d)), Join(side, c', Join(side, c, a, x, b), y, d);
      Apart(t') && Ids(t') == Ids(t) && t.Root() == x && t'.Root() == y && {x, y} <= Ids(t) && NULL !in Ids(t) &&
      x != y && x != b.Root() && y != b.Root() && (b.Root() == NULL || b.Root() in Ids(t)) &&
      Apart(a) && Apart(b) && Apart(d) && {x, y} !! Ids(a) && {x, y} !! Ids(b) && {x, y} !! Ids(d) &&
      Ids(a) !! Ids(b) && Ids(a) !! Ids(d) && Ids(b) !! Ids(d) && Ids(a) + Ids(b) + Ids(d) <= Ids(t) &&
        NULL !in Ids(b) &&
      (b.Node? ==> b.id in Ids(b))
  {
    hide Join, Apart, Ids;
    JoinApart(side, c', b, y, d);
    JoinApart(side, c, a, x, Join(side, c', b, y, d));
    NullApart(a); NullApart(b); NullApart(d);
    JoinApart(side, c, a, x, b);
    JoinApart(side, c', Join(side, c, a, x, b), y, d);
  }

  lemma RotatedTree(s: Links, s': Links, side: Side, c: Colour, a: Tree, x: Ref, c': Colour, b: Tree, y: Ref, d: Tree,
      parent: Ref)
    requires StoresTree(s, Join(side, c, a, x, Join(side, c', b, y, d)), parent)
    requires Apart(Join(side, c, a, x, Join(side, c', b, y, d))) &&
      parent !in Ids(Join(side, c, a, x, Join(side, c', b, y, d)))
    requires Rotated(s, s', side, x, y, b.Root(), parent)
    ensures StoresTree(s', Join(side, c', Join(side, c, a, x, b), y, d), parent)
  {
    hide Kid, Parent, ColourAt, Join, StoresTree, Apart, Ids;
    RotatedApart(side, c, a, x, c', b, y, d);
    JoinStored(s, side, c', b, y, d, x);
    JoinStored(s, side, c, a, x, Join(side, c', b, y, d), parent);
    SameTree(s, s', a, x);
    SameTree(s, s', d, y);
    Reparented(s, s', b, y, x);
    JoinApart(side, c, a, x, b);
    JoinStored(s', side, c, a, x, b, y);
    JoinStored(s', side, c', Join(side, c, a, x, b), y, d, parent);
  }

  lemma RotatedPath(s: Links, s': Links, side: Side, p: Path, x: Ref, y: Ref, inner: Ref)
    requires StoresPath(s, p, x) && PathApart(p) && x != NULL
    requires x !in PathIds(p) && y !in PathIds(p) && inner !in PathIds(p)
    requires Rotated(s, s', side, x, y, inner, p.Parent())
    ensures StoresPath(s', p, y)
  {
    hide Kid, Parent, ColourAt, StoresPath, PathIds, PathApart;
    NullPathApart(p);
    if p.Below? {
      PathHead(p);
      WhichSide(s, p, x);
      assert p.id != NULL;
    }
    Refocused(s, s', p, x, y);
  }

  lemma RotateStores(s: Links, side: Side, p: Path, c: Colour, a: Tree, x: Ref, c': Colour, b: Tree, y: Ref, d: Tree)
    requires Stores(s, p, Join(side, c, a, x, Join(side, c', b, y, d)))
    ensures Stores(Rotate(s, side, x), p, Join(side, c', Join(side, c, a, x, b), y, d))
  {
    hide Kid, Parent, ColourAt, Rotate, Join, StoresTree, StoresPath, Apart, PathApart, Ids, PathIds, Rotated;
    RotatedApart(side, c, a, x, c', b, y, d);
    JoinStored(s, side, c', b, y, d, x);
    JoinStored(s, side, c, a, x, Join(side, c', b, y, d), p.Parent());
    JoinApart(side, c', b, y, d);
    NullPathApart(p);
    if p.Below? { PathHead(p); }
    RotateEffect(s, side, x, y, b.Root(), p.Parent());
    RotatedTree(s, Rotate(s, side, x), side, c, a, x, c', b, y, d, p.Parent());
    RotatedPath(s, Rotate(s, side, x), side, p, x, y, b.Root());
  }

  lemma PathHead(p: Path)
    requires p.Below?
    ensures p.id in PathIds(p)
  {}

  lemma WhichSide(s: Links, p: Path, focus: Ref)
    requires p.Below? && StoresPath(s, p, focus) && focus != NULL && focus !in PathIds(p) && PathApart(p)
    ensures Kid(s, Left, p.id) == focus <==> p.side.Left?
  {
    NullApart(p.sibling);
  }
}
