/** remove_from_tree on stored trees. */
module TreeRemoval {
  import opened RedBlackTree
  import opened TreeLinks
  import opened TreeSurgery

  /** A node that is taken out is left without links. */
  function Cleared(s: Links, v: Ref): Links {
    SetKid(SetKid(SetParent(s, v, NULL), Left, v, NULL), Right, v, NULL)
  }

  lemma ClearedStores(s: Links, p: Path, t: Tree, v: Ref)
    requires Stores(s, p, t) && v !in Ids(t) && v !in PathIds(p)
    ensures Stores(Cleared(s, v), p, t)
  {
    hide Kid, Parent, ColourAt, SetKid, SetParent, StoresTree, StoresPath, Apart, PathApart, Ids, PathIds;
    var s1 := SetParent(s, v, NULL);
    SetParentEffect(s, v, NULL);
    var s2 := SetKid(s1, Left, v, NULL);
    SetKidEffect(s1, Left, v, NULL);
    SetKidEffect(s2, Right, v, NULL);
    SameTree(s, Cleared(s, v), t, p.Parent());
    SamePath(s, Cleared(s, v), p, t.Root());
  }

  /** The node `v` in focus gives its place to `kid`, or to nothing. */
  function PutKid(s: Links, v: Ref, kid: Ref): Links {
    var s1 := if kid != NULL then SetParent(s, kid, Parent(s, v)) else s;
    Replace(s1, Parent(s, v), v, kid)
  }

  lemma PutKidStores(s: Links, p: Path, t: Tree, side: Side)
    requires t.Node? && Stores(s, p, t) && t.Kid(side.Other()).Leaf?
    ensures Stores(PutKid(s, t.id, t.Kid(side).Root()), p, t.Kid(side))
  {
    hide Kid, Parent, ColourAt, SetKid, SetParent, Replace, StoresPath, PathApart, PathIds;
    var kid, v := t.Kid(side), t.id;
    var k := kid.Root();
    NullApart(kid);
    NullPathApart(p);
    assert p.Below? ==> p.id in PathIds(p) && (Kid(s, Left, p.id) == v <==> p.side.Left?) by {
      if p.Below? { PathHead(p); WhichSide(s, p, v); }
    }
    var s1 := if k != NULL then SetParent(s, k, p.Parent()) else s;
    SetParentEffect(s, k, p.Parent());
    ReplaceEffect(s1, p.Parent(), v, k);
    var s' := PutKid(s, v, k);
    Reparented(s, s', kid, v, p.Parent());
    Refocused(s, s', p, v, k);
  }

  /** The node `y` takes the place of `x`, above `l` and `r`. */
  ghost predicate TakenOver(s: Links, s': Links, p: Path, x: Ref, y: Ref, l: Tree, r: Tree) {
    s'.root == (if p.Top? then y else s.root) &&
    (forall d, i | i != x :: Kid(s', d, i) ==
      if i == y then (if d.Left? then l.Root() else r.Root())
        else if p.Below? && i == p.id && d == p.side then y else Kid(s, d, i)) &&
    (forall i | i != x :: Parent(s', i) ==
      if i == y then p.Parent() else if i != NULL && (i == l.Root() || i == r.Root()) then y else Parent(s, i)) &&
    (forall i :: ColourAt(s', i) == ColourAt(s, i))
  }

  lemma TakenOverStores(s: Links, s': Links, p: Path, x: Ref, y: Ref, l: Tree, pl: Ref, r: Tree, pr: Ref)
    requires StoresPath(s, p, x) && PathApart(p) && x !in PathIds(p) && y !in PathIds(p) && y != NULL && x != y
    requires Apart(l) && Apart(r) && Ids(l) !! Ids(r) && Ids(l) !! PathIds(p) && Ids(r) !! PathIds(p)
    requires x !in Ids(l) && x !in Ids(r) && y !in Ids(l) && y !in Ids(r)
    requires StoresTree(s, l, pl) && StoresTree(s, r, pr)
    requires TakenOver(s, s', p, x, y, l, r)
    ensures Stores(s', p, Node(ColourAt(s, y), l, y, r))
  {
    hide Kid, Parent, ColourAt, StoresPath, PathApart, PathIds, Apart, Ids, StoresTree;
    NullApart(l);
    NullApart(r);
    NullPathApart(p);
    if p.Below? { PathHead(p); }
    var c := ColourAt(s, y);
    Reparented(s, s', l, pl, y);
    Reparented(s, s', r, pr, y);
    Refocused(s, s', p, x, y);
    JoinApart(Left, c, l, y, r);
    JoinStored(s', Left, c, l, y, r, p.Parent());
    assert Join(Left, c, l, y, r) == Node(c, l, y, r);
  }

  /** The successor is taken out of the right subtree, and gets that subtree as its own. */
  function Detach(s: Links, v: Ref, succ: Ref): Links {
    var q := Parent(s, succ);
    var s1 := if Kid(s, Right, succ) != NULL then SetParent(s, Kid(s, Right, succ), q) else s;
    var s2 := SetKid(s1, Left, q, Kid(s1, Right, succ));
    var s3 := SetKid(s2, Right, succ, Kid(s2, Right, v));
    SetParent(s3, Kid(s3, Right, succ), succ)
  }

  /** The successor gets the parent and the left subtree of the node that is taken out. */
  function TakeOver(s: Links, v: Ref, succ: Ref): Links {
    var s1 := SetParent(s, succ, Parent(s, v));
    var s2 := SetKid(s1, Left, succ, Kid(s1, Left, v));
    var s3 := SetParent(s2, Kid(s2, Left, succ), succ);
    Replace(s3, Parent(s3, succ), v, succ)
  }

  /** remove_from_tree, as far as the links of the tree are concerned; `succ` is the next node in order. */
  function RemoveLinks(s: Links, v: Ref, succ: Ref): Links {
    var s1 :=
      if Kid(s, Left, v) == NULL && Kid(s, Right, v) == NULL then Replace(s, Parent(s, v), v, NULL)
      else if Kid(s, Left, v) == NULL then PutKid(s, v, Kid(s, Right, v))
      else if Kid(s, Right, v) == NULL then PutKid(s, v, Kid(s, Left, v))
      else TakeOver(if succ != Kid(s, Right, v) then Detach(s, v, succ) else s, v, succ);
    Cleared(s1, v)
  }

  lemma TakeOverEffect(s: Links, p: Path, x: Ref, y: Ref, l: Tree, r: Tree)
    requires Parent(s, x) == p.Parent() && Kid(s, Left, x) == l.Root() && Kid(s, Right, y) == r.Root()
    requires r.Node? ==> Parent(s, r.id) == y
    requires l.Node? && l.id != NULL && l.id != y && l.id != x && l.Root() != p.Parent() && x != y && y != NULL &&
      p.Parent() != y
    requires p.Below? ==> p.id != NULL && p.id != x && (Kid(s, Left, p.id) == x <==> p.side.Left?)
    requires r.Root() != y
    ensures TakenOver(s, TakeOver(s, x, y), p, x, y, l, r)
  {
    hide Kid, Parent, ColourAt, SetKid, SetParent, Replace;
    var s1 := SetParent(s, y, p.Parent());
    SetParentEffect(s, y, p.Parent());
    var s2 := SetKid(s1, Left, y, l.id);
    SetKidEffect(s1, Left, y, l.id);
    var s3 := SetParent(s2, l.id, y);
    SetParentEffect(s2, l.id, y);
    ReplaceEffect(s3, p.Parent(), x, y);
  }

  /** `t` with `g` in the place of its first node. */
  function Fill(t: Tree, g: Tree): Tree
    requires t.Node?
    decreases t
  {
    if t.left.Leaf? then g else Node(t.colour, Fill(t.left, g), t.id, t.right)
  }

  /** What is left of a tree without its first node. */
  function DropFirst(t: Tree): Tree
    requires t.Node?
  {
    Fill(t, Leftmost(t, Top).1.right)
  }

  lemma {:induction false} LeftmostFocus(s: Links, t: Tree, p: Path, g: Tree)
    requires t.Node?
    ensures var (q, f) := Leftmost(t, p);
      (Stores(s, q, f) <==> Stores(s, p, t)) && (Stores(s, q, g) <==> Stores(s, p, Fill(t, g)))
    decreases t
  {
    hide Stores;
    if !t.left.Leaf? {
      var below := Below(Left, t.colour, t.id, t.right, p);
      LeftmostFocus(s, t.left, below, g);
      FocusUp(s, below, t.left);
      FocusUp(s, below, Fill(t.left, g));
    }
  }

  lemma {:induction false} DropFirstIds(t: Tree)
    requires t.Node? && Apart(t)
    ensures Apart(DropFirst(t)) && First(t) in Ids(t) && Ids(DropFirst(t)) == Ids(t) - {First(t)}
    decreases t
  {
    if t.left.Leaf? {
      NullApart(t);
    } else {
      LeftmostAnywhere(t.left, Below(Left, t.colour, t.id, t.right, Top), Top);
      DropFirstIds(t.left);
    }
  }

  /** What takes the place of `t`, before any colour is changed. */
  function Successor(t: Tree): Tree
    requires t.Node?
  {
    if t.left.Leaf? then t.right else if t.right.Leaf? then t.left
    else Node(Leftmost(t.right, Top).1.colour, t.left, First(t.right), DropFirst(t.right))
  }

  lemma {:induction false} LeftmostAnywhere(t: Tree, p: Path, p': Path)
    requires t.Node?
    ensures Leftmost(t, p).1 == Leftmost(t, p').1
    decreases t
  {
    if !t.left.Leaf? {
      LeftmostAnywhere(t.left, Below(Left, t.colour, t.id, t.right, p), Below(Left, t.colour, t.id, t.right, p'));
    }
  }

  lemma TakeOverDirect(s: Links, p: Path, t: Tree)
    requires t.Node? && t.left.Node? && t.right.Node? && t.right.left.Leaf? && Stores(s, p, t)
    ensures Stores(TakeOver(s, t.id, t.right.id), p, Node(t.right.colour, t.left, t.right.id, t.right.right))
  {
    hide Kid, Parent, ColourAt, TakeOver, StoresPath, PathApart, PathIds;
    var x, y, l, r := t.id, t.right.id, t.left, t.right.right;
    assert StoresTree(s, t.right, x) && Apart(t.right);
    assert Ids(t.right) == {y} + Ids(r);
    assert StoresTree(s, r, y);
    NullApart(l);
    NullApart(r);
    NullPathApart(p);
    assert p.Below? ==> p.id in PathIds(p) && (Kid(s, Left, p.id) == x <==> p.side.Left?) by {
      if p.Below? { PathHead(p); WhichSide(s, p, x); }
    }
    TakeOverEffect(s, p, x, y, l, r);
    TakenOverStores(s, TakeOver(s, x, y), p, x, y, l, x, r, y);
  }

  /** After the successor has been detached, it is ready to take over. */
  lemma TakeOverFromAfar(s: Links, p: Path, c: Colour, l: Tree, x: Ref, r: Tree, y: Ref)
    requires Stores(s, p, Node(c, l, x, r)) && l.Node? && r.Node?
    requires y !in Ids(Node(c, l, x, r)) && y !in PathIds(p) && y != NULL
    ensures var s1 := SetKid(s, Right, y, r.id);
      Stores(TakeOver(SetParent(s1, r.id, y), x, y), p, Node(ColourAt(s, y), l, y, r))
  {
    hide Kid, Parent, ColourAt, SetKid, SetParent, TakeOver, StoresPath, PathApart, PathIds;
    NullApart(l);
    NullApart(r);
    NullPathApart(p);
    assert p.Below? ==> p.id in PathIds(p) && (Kid(s, Left, p.id) == x <==> p.side.Left?) by {
      if p.Below? { PathHead(p); WhichSide(s, p, x); }
    }
    var s1 := SetKid(s, Right, y, r.id);
    SetKidEffect(s, Right, y, r.id);
    var s2 := SetParent(s1, r.id, y);
    SetParentEffect(s1, r.id, y);
    SameTree(s, s2, l, x);
    Reparented(s, s2, r, x, y);
    SamePath(s, s2, p, x);
    TakeOverEffect(s2, p, x, y, l, r);
    TakenOverStores(s2, TakeOver(s2, x, y), p, x, y, l, x, r, y);
  }

  lemma DetachIsPutKid(s: Links, q: Path, f: Tree, v: Ref)
    requires f.Node? && Stores(s, q, f) && q.Below? && q.side.Left? && f.left.Leaf?
    ensures var s2 := PutKid(s, f.id, f.right.Root());
      var s3 := SetKid(s2, Right, f.id, Kid(s2, Right, v));
      Detach(s, v, f.id) == SetParent(s3, Kid(s3, Right, f.id), f.id)
  {
    NullPathApart(q);
    PathHead(q);
  }

  lemma TakeOverDetached(s: Links, p: Path, t: Tree)
    requires t.Node? && t.left.Node? && t.right.Node? && !t.right.left.Leaf? && Stores(s, p, t)
    ensures Stores(TakeOver(Detach(s, t.id, First(t.right)), t.id, First(t.right)), p, Successor(t))
  {
    hide Stores, TakeOver, Detach, PutKid, SetKid, SetParent, Kid, Parent, ColourAt, Apart, Ids, PathIds,
      StoresTree, StoresPath;
    var x, l, r := t.id, t.left, t.right;
    var b := Below(Right, t.colour, x, l, p);
    var (q, f) := Leftmost(r, b);
    var y := f.id;
    FocusUp(s, b, r);
    LeftmostFocus(s, r, b, f);
    LeftmostIsFirst(r, b);
    LeftmostAnywhere(r, b, Top);
    assert q.Below? && q.side.Left? by { LeftmostBelow(r, b); }
    PutKidStores(s, q, f, Right);
    var s2 := PutKid(s, y, f.right.Root());
    LeftmostFocus(s2, r, b, f.right);
    FocusUp(s2, b, DropFirst(r));
    var rest := Node(t.colour, l, x, DropFirst(r));
    assert Stores(s2, p, rest);
    DetachIsPutKid(s, q, f, x);
    assert Kid(s2, Right, x) == r.id && ColourAt(s2, y) == f.colour && y != NULL && y !in Ids(rest) &&
      y !in PathIds(p) by {
      StoredRoot(s2, p, rest);
      StoredColour(s, q, f);
      PutKidColours(s, y, f.right.Root());
      RemovedApart(s, p, t);
    }
    TakeOverFromAfar(s2, p, t.colour, l, x, DropFirst(r), y);
    SetKidEffect(s2, Right, y, r.id);
  }

  lemma {:induction false} LeftmostBelow(t: Tree, p: Path)
    requires t.Node? && t.left.Node?
    ensures Leftmost(t, p).0.Below? && Leftmost(t, p).0.side.Left?
    decreases t
  {
    if t.left.left.Node? {
      LeftmostBelow(t.left, Below(Left, t.colour, t.id, t.right, p));
    }
  }

  lemma StoredRoot(s: Links, p: Path, t: Tree)
    requires t.Node? && Stores(s, p, t)
    ensures Kid(s, Left, t.id) == t.left.Root() && Kid(s, Right, t.id) == t.right.Root() &&
      Parent(s, t.id) == p.Parent()
    ensures t.id != NULL
  {}

  lemma PutKidColours(s: Links, v: Ref, kid: Ref)
    ensures PutKid(s, v, kid).colour == s.colour
    ensures forall i :: ColourAt(PutKid(s, v, kid), i) == ColourAt(s, i)
  {}

  lemma RemovedApart(s: Links, p: Path, t: Tree)
    requires t.Node? && t.right.Node? && Stores(s, p, t)
    ensures var y := First(t.right);
      y != NULL && y !in PathIds(p) && y !in Ids(Node(t.colour, t.left, t.id, DropFirst(t.right)))
  {
    DropFirstIds(t.right);
    NullApart(t);
    assert First(t.right) in Ids(t.right);
    assert Ids(t) == Ids(t.left) + {t.id} + Ids(t.right);
  }

  /** remove_from_tree leaves the stored form of the tree in which the node has been replaced. */
  lemma RemoveLinksStores(s: Links, p: Path, t: Tree, succ: Ref)
    requires t.Node? && Stores(s, p, t)
    requires t.left.Node? && t.right.Node? ==> succ == First(t.right)
    ensures Stores(RemoveLinks(s, t.id, succ), p, Successor(t))
  {
    hide Stores, TakeOver, Detach, PutKid, SetKid, SetParent, Kid, Parent, ColourAt, Replace, Cleared;
    StoredRoot(s, p, t);
    var v := t.id;
    SuccessorApart(s, p, t);
    if t.left.Leaf? && t.right.Leaf? {
      PutKidStores(s, p, t, Left);
      assert PutKid(s, v, NULL) == Replace(s, Parent(s, v), v, NULL) by { PutNothing(s, v); }
      ClearedStores(PutKid(s, v, NULL), p, Leaf, v);
    } else if t.left.Leaf? {
      PutKidStores(s, p, t, Right);
      ClearedStores(PutKid(s, v, t.right.id), p, t.right, v);
    } else if t.right.Leaf? {
      PutKidStores(s, p, t, Left);
      ClearedStores(PutKid(s, v, t.left.id), p, t.left, v);
    } else if t.right.left.Leaf? {
      TakeOverDirect(s, p, t);
      ClearedStores(TakeOver(s, v, succ), p, Successor(t), v);
    } else {
      assert succ != t.right.id by { FirstIsNotRoot(s, p, t); }
      TakeOverDetached(s, p, t);
      ClearedStores(TakeOver(Detach(s, v, succ), v, succ), p, Successor(t), v);
    }
  }

  lemma PutNothing(s: Links, v: Ref)
    ensures PutKid(s, v, NULL) == Replace(s, Parent(s, v), v, NULL)
  {}

  lemma FirstIsNotRoot(s: Links, p: Path, t: Tree)
    requires t.Node? && t.right.Node? && t.right.left.Node? && Stores(s, p, t)
    ensures First(t.right) != t.right.id
  {
    assert Apart(t.right);
    DropFirstIds(t.right.left);
  }

  lemma SuccessorApart(s: Links, p: Path, t: Tree)
    requires t.Node? && Stores(s, p, t)
    ensures t.id !in Ids(Successor(t)) && t.id !in PathIds(p)
    ensures t.left.Root() != NULL <==> t.left.Node?
    ensures t.right.Root() != NULL <==> t.right.Node?
  {
    NullApart(t.left);
    NullApart(t.right);
    if t.right.Node? {
      DropFirstIds(t.right);
    }
  }
}
