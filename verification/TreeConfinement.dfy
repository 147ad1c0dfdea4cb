/** Nodes that are not in the tree have null links, and no operation touches them. */
module TreeConfinement {
  import opened RedBlackTree
  import opened TreeLinks
  import opened TreeSurgery
  import opened TreeRemoval

  predicate Inside(id: Ref, ids: set<Ref>) {
    id == NULL || id in ids
  }

  ghost predicate Confined(s: Links, ids: set<Ref>) {
    (forall d, i | i in ids :: Inside(Kid(s, d, i), ids)) && (forall i | i in ids :: Inside(Parent(s, i), ids)) &&
    (forall d, i :: !Inside(i, ids) ==> Kid(s, d, i) == NULL) && (forall i :: !Inside(i, ids) ==> Parent(s, i) == NULL)
  }

  lemma SetKidConfined(s: Links, side: Side, id: Ref, kid: Ref, ids: set<Ref>)
    requires Confined(s, ids) && Inside(id, ids) && Inside(kid, ids)
    ensures Confined(SetKid(s, side, id, kid), ids)
  {
    hide Kid, Parent, SetKid, Inside;
    SetKidEffect(s, side, id, kid);
  }

  lemma SetParentConfined(s: Links, id: Ref, up: Ref, ids: set<Ref>)
    requires Confined(s, ids) && Inside(id, ids) && Inside(up, ids)
    ensures Confined(SetParent(s, id, up), ids)
  {
    hide Kid, Parent, SetParent, Inside;
    SetParentEffect(s, id, up);
  }

  lemma SetColourConfined(s: Links, id: Ref, c: Colour, ids: set<Ref>)
    requires Confined(s, ids)
    ensures Confined(SetColour(s, id, c), ids)
  {
    hide Kid, Parent, SetColour, Inside;
    SetColourEffect(s, id, c);
  }

  lemma ReplaceConfined(s: Links, up: Ref, child: Ref, kid: Ref, ids: set<Ref>)
    requires Confined(s, ids) && Inside(up, ids) && Inside(kid, ids)
    ensures Confined(Replace(s, up, child, kid), ids)
  {
    hide Kid, Parent, Replace, Inside;
    ReplaceEffect(s, up, child, kid);
  }

  lemma RotateConfined(s: Links, side: Side, top: Ref, ids: set<Ref>)
    requires Confined(s, ids) && top in ids && Kid(s, side.Other(), top) != NULL
    ensures Confined(Rotate(s, side, top), ids)
  {
    hide Kid, Parent, SetKid, SetParent, Replace;
    var up := Kid(s, side.Other(), top);
    assert up in ids;
    var s1 := SetKid(s, side.Other(), top, Kid(s, side, up));
    SetKidConfined(s, side.Other(), top, Kid(s, side, up), ids);
    var s2 := SetKid(s1, side, up, top);
    SetKidConfined(s1, side, up, top, ids);
    var s3 := SetParent(s2, up, Parent(s2, top));
    SetParentConfined(s2, up, Parent(s2, top), ids);
    var s4 := SetParent(s3, top, up);
    SetParentConfined(s3, top, up, ids);
    var inner := Kid(s4, side.Other(), top);
    SetParentConfined(s4, inner, top, ids);
    var s5 := if inner != NULL then SetParent(s4, inner, top) else s4;
    ReplaceConfined(s5, Parent(s5, up), top, up, ids);
  }

  lemma PutKidConfined(s: Links, v: Ref, kid: Ref, ids: set<Ref>)
    requires Confined(s, ids) && v in ids && Inside(kid, ids)
    ensures Confined(PutKid(s, v, kid), ids)
  {
    hide Kid, Parent, SetParent, Replace, Inside;
    SetParentConfined(s, kid, Parent(s, v), ids);
    var s1 := if kid != NULL then SetParent(s, kid, Parent(s, v)) else s;
    ReplaceConfined(s1, Parent(s, v), v, kid, ids);
  }

  lemma DetachConfined(s: Links, v: Ref, succ: Ref, ids: set<Ref>)
    requires Confined(s, ids) && v in ids && succ in ids
    ensures Confined(Detach(s, v, succ), ids)
  {
    hide Kid, Parent, SetKid, SetParent;
    var q, r := Parent(s, succ), Kid(s, Right, succ);
    SetParentConfined(s, r, q, ids);
    var s1 := if r != NULL then SetParent(s, r, q) else s;
    var s2 := SetKid(s1, Left, q, Kid(s1, Right, succ));
    SetKidConfined(s1, Left, q, Kid(s1, Right, succ), ids);
    var s3 := SetKid(s2, Right, succ, Kid(s2, Right, v));
    SetKidConfined(s2, Right, succ, Kid(s2, Right, v), ids);
    SetParentConfined(s3, Kid(s3, Right, succ), succ, ids);
  }

  lemma TakeOverConfined(s: Links, v: Ref, succ: Ref, ids: set<Ref>)
    requires Confined(s, ids) && v in ids && succ in ids
    ensures Confined(TakeOver(s, v, succ), ids)
  {
    hide Kid, Parent, SetKid, SetParent, Replace;
    var s1 := SetParent(s, succ, Parent(s, v));
    SetParentConfined(s, succ, Parent(s, v), ids);
    var s2 := SetKid(s1, Left, succ, Kid(s1, Left, v));
    SetKidConfined(s1, Left, succ, Kid(s1, Left, v), ids);
    var s3 := SetParent(s2, Kid(s2, Left, succ), succ);
    SetParentConfined(s2, Kid(s2, Left, succ), succ, ids);
    ReplaceConfined(s3, Parent(s3, succ), v, succ, ids);
  }

  lemma ClearedConfined(s: Links, v: Ref, ids: set<Ref>)
    requires Confined(s, ids) && v in ids
    ensures Confined(Cleared(s, v), ids)
    ensures Kid(Cleared(s, v), Left, v) == NULL && Kid(Cleared(s, v), Right, v) == NULL &&
      Parent(Cleared(s, v), v) == NULL
  {
    hide Kid, Parent, SetKid, SetParent;
    assert Inside(NULL, ids) by { NullInside(ids); }
    var s1 := SetParent(s, v, NULL);
    SetParentConfined(s, v, NULL, ids);
    SetParentEffect(s, v, NULL);
    var s2 := SetKid(s1, Left, v, NULL);
    SetKidConfined(s1, Left, v, NULL, ids);
    SetKidEffect(s1, Left, v, NULL);
    SetKidConfined(s2, Right, v, NULL, ids);
    SetKidEffect(s2, Right, v, NULL);
  }

  lemma NullInside(ids: set<Ref>)
    ensures Inside(NULL, ids)
  {}

  lemma RemoveLinksConfined(s: Links, v: Ref, succ: Ref, ids: set<Ref>)
    requires Confined(s, ids) && v in ids && (Kid(s, Left, v) != NULL && Kid(s, Right, v) != NULL ==> succ in ids)
    ensures var s' := RemoveLinks(s, v, succ);
      Confined(s', ids) && Kid(s', Left, v) == NULL && Kid(s', Right, v) == NULL && Parent(s', v) == NULL
  {
    hide Kid, Parent, PutKid, TakeOver, Detach, Cleared, Replace, Inside, Confined;
    assert Inside(NULL, ids) by { NullInside(ids); }
    assert Inside(Parent(s, v), ids) && Inside(Kid(s, Left, v), ids) &&
      Inside(Kid(s, Right, v), ids) by { LinksInside(s, v, ids); }
    if Kid(s, Left, v) == NULL && Kid(s, Right, v) == NULL {
      ReplaceConfined(s, Parent(s, v), v, NULL, ids);
      ClearedConfined(Replace(s, Parent(s, v), v, NULL), v, ids);
    } else if Kid(s, Left, v) == NULL {
      PutKidConfined(s, v, Kid(s, Right, v), ids);
      ClearedConfined(PutKid(s, v, Kid(s, Right, v)), v, ids);
    } else if Kid(s, Right, v) == NULL {
      PutKidConfined(s, v, Kid(s, Left, v), ids);
      ClearedConfined(PutKid(s, v, Kid(s, Left, v)), v, ids);
    } else {
      DetachConfined(s, v, succ, ids);
      var s1 := if succ != Kid(s, Right, v) then Detach(s, v, succ) else s;
      TakeOverConfined(s1, v, succ, ids);
      ClearedConfined(TakeOver(s1, v, succ), v, ids);
    }
  }

  lemma LinksInside(s: Links, v: Ref, ids: set<Ref>)
    requires Confined(s, ids) && v in ids
    ensures Inside(Parent(s, v), ids) && Inside(Kid(s, Left, v), ids) && Inside(Kid(s, Right, v), ids)
  {}

  lemma GrowConfined(s: Links, ids: set<Ref>, v: Ref)
    requires Confined(s, ids) && v != NULL
    ensures Confined(s, ids + {v})
  {
    hide Kid, Parent;
    forall d, i ensures Inside(Kid(s, d, i), ids + {v}) || i == NULL {
      assert i in ids ==> Inside(Kid(s, d, i), ids);
    }
    forall i ensures Inside(Parent(s, i), ids + {v}) || i == NULL {
      assert i in ids ==> Inside(Parent(s, i), ids);
    }
  }

  /** All links of the nodes of a stored tree lead to nodes of that tree. */
  lemma {:induction false} TreeInside(s: Links, t: Tree, parent: Ref, ids: set<Ref>, d: Side, i: Ref)
    requires StoresTree(s, t, parent) && Ids(t) <= ids && Inside(parent, ids) && i in Ids(t)
    ensures Inside(Kid(s, d, i), ids) && Inside(Parent(s, i), ids)
    decreases t
  {
    if i == t.id {
      assert t.left.Node? ==> t.left.id in Ids(t.left);
      assert t.right.Node? ==> t.right.id in Ids(t.right);
    } else if i in Ids(t.left) {
      TreeInside(s, t.left, t.id, ids, d, i);
    } else {
      TreeInside(s, t.right, t.id, ids, d, i);
    }
  }

  /** A node that has been taken out is no longer referred to. */
  lemma ShrinkConfined(s: Links, t: Tree, ids: set<Ref>, v: Ref)
    requires Confined(s, ids) && StoresTree(s, t, NULL) && Ids(t) == ids - {v} && v != NULL && Apart(t)
    requires Kid(s, Left, v) == NULL && Kid(s, Right, v) == NULL && Parent(s, v) == NULL
    ensures Confined(s, ids - {v})
  {
    hide Kid, Parent, StoresTree, Ids;
    forall d, i | i != NULL ensures Inside(Kid(s, d, i), ids - {v}) &&
      (!Inside(i, ids - {v}) ==> Kid(s, d, i) == NULL) {
      ShrinkAt(s, t, ids, v, d, i);
    }
    forall i | i != NULL ensures Inside(Parent(s, i), ids - {v}) && (!Inside(i, ids - {v}) ==> Parent(s, i) == NULL) {
      ShrinkAt(s, t, ids, v, Left, i);
    }
    assert NULL !in Ids(t) by { NullApart(t); }
  }

  lemma ShrinkAt(s: Links, t: Tree, ids: set<Ref>, v: Ref, d: Side, i: Ref)
    requires i != NULL
    requires Confined(s, ids) && StoresTree(s, t, NULL) && Ids(t) == ids - {v} && v != NULL
    requires Kid(s, Left, v) == NULL && Kid(s, Right, v) == NULL && Parent(s, v) == NULL
    ensures Inside(Kid(s, d, i), ids - {v}) && (!Inside(i, ids - {v}) ==> Kid(s, d, i) == NULL)
    ensures Inside(Parent(s, i), ids - {v}) && (!Inside(i, ids - {v}) ==> Parent(s, i) == NULL)
  {
    hide Kid, Parent, StoresTree, Ids;
    if i in Ids(t) {
      TreeInside(s, t, NULL, ids - {v}, d, i);
    } else if i == v {
      assert d == Left || d == Right;
    }
  }

  // ----- the steps of insert and erase

  lemma OuterStepConfined(s: Links, p: Path, t: Tree, ids: set<Ref>)
    requires p.Below? && p.up.Below? && p.side == p.up.side && Stores(s, p, t) && Confined(s, ids) && p.up.id in ids
    ensures Confined(OuterStep(s, p.side, p.id, p.up.id), ids)
  {
    hide Kid, Parent, SetColour, Rotate, Confined;
    assert Kid(s, p.side, p.up.id) == p.id && p.id != NULL by { StoredPath(s, p, t); }
    var s1 := SetColour(s, p.id, Black);
    SetColourConfined(s, p.id, Black, ids);
    SetColourEffect(s, p.id, Black);
    SetColourConfined(s1, p.up.id, Red, ids);
    SetColourEffect(s1, p.up.id, Red);
    RotateConfined(SetColour(s1, p.up.id, Red), p.side.Other(), p.up.id, ids);
  }

  lemma StoredPath(s: Links, p: Path, t: Tree)
    requires p.Below? && Stores(s, p, t)
    ensures Kid(s, p.side, p.id) == t.Root() && p.id != NULL && (p.up.Below? ==> Kid(s, p.up.side, p.up.id) == p.id)
    ensures t.Node? ==> t.id != NULL
  {
    NullApart(t);
    assert StoresPath(s, p.up, p.id);
  }

  lemma InnerStepConfined(s: Links, p: Path, t: Tree, ids: set<Ref>)
    requires p.Below? && p.up.Below? && p.side != p.up.side && t.Node? && Stores(s, p, t) &&
      Confined(s, ids) && p.id in ids
    ensures Confined(Rotate(s, p.up.side, p.id), ids)
  {
    hide Kid, Parent, Rotate, Confined;
    StoredPath(s, p, t);
    RotateConfined(s, p.up.side, p.id, ids);
  }

  lemma RecolourStepConfined(s: Links, a: Ref, b: Ref, c: Ref, ids: set<Ref>)
    requires Confined(s, ids)
    ensures Confined(RecolourStep(s, a, b, c), ids)
  {
    hide Confined, SetColour;
    SetColourConfined(s, a, Black, ids);
    SetColourConfined(SetColour(s, a, Black), b, Black, ids);
    SetColourConfined(SetColour(SetColour(s, a, Black), b, Black), c, Red, ids);
  }

  lemma SingleStepConfined(s: Links, p: Path, t: Tree, nephew: Ref, ids: set<Ref>)
    requires p.Below? && p.sibling.Node? && Stores(s, p, t) && Confined(s, ids) && p.id in ids
    ensures Confined(SingleStep(s, p.side, p.id, p.sibling.id, nephew), ids)
  {
    hide Kid, Parent, ColourAt, SetColour, Rotate, Confined;
    StoredSibling(s, p, t);
    var s0 := SetColour(s, nephew, Black);
    SetColourConfined(s, nephew, Black, ids);
    SetColourEffect(s, nephew, Black);
    RotateConfined(s0, p.side, p.id, ids);
    var s1 := Rotate(s0, p.side, p.id);
    SetColourConfined(s1, p.sibling.id, ColourAt(s1, p.id), ids);
    SetColourConfined(SetColour(s1, p.sibling.id, ColourAt(s1, p.id)), p.id, Black, ids);
  }

  lemma DoubleStepConfined(s: Links, p: Path, t: Tree, ids: set<Ref>)
    requires p.Below? && p.sibling.Node? && p.sibling.Kid(p.side).IsRed() && Stores(s, p, t)
    requires Confined(s, ids) && p.id in ids && p.sibling.id in ids
    ensures Confined(DoubleStep(s, p.side, p.id, p.sibling.id, p.sibling.Kid(p.side).id), ids)
  {
    hide Kid, Parent, ColourAt, SetColour, Rotate, Confined, Stores;
    var b, n, side := p.sibling, p.sibling.Kid(p.side).id, p.side;
    StoredSibling(s, p, t);
    DoubleStepStores(s, p, t);
    var s1 := SetColour(s, n, Black);
    SetColourConfined(s, n, Black, ids);
    SetColourEffect(s, n, Black);
    var s2 := SetColour(s1, n, ColourAt(s1, p.id));
    SetColourConfined(s1, n, ColourAt(s1, p.id), ids);
    SetColourEffect(s1, n, ColourAt(s1, p.id));
    var s3 := SetColour(s2, p.id, Black);
    SetColourConfined(s2, p.id, Black, ids);
    SetColourEffect(s2, p.id, Black);
    SetColourConfined(s3, b.id, Black, ids);
    SetColourEffect(s3, b.id, Black);
    RotateConfined(SetColour(s3, b.id, Black), side.Other(), b.id, ids);
    RotateConfined(HalfDoubleStep(s, side, p.id, b.id, n), side, p.id, ids);
  }

  lemma LowerStepConfined(s: Links, p: Path, t: Tree, ids: set<Ref>)
    requires p.Below? && p.sibling.Node? && Stores(s, p, t) && Confined(s, ids) && p.id in ids
    ensures Confined(LowerStep(s, p.side, p.id, p.sibling.id), ids)
  {
    hide Kid, Parent, SetColour, Rotate, Confined;
    StoredSibling(s, p, t);
    var s1 := SetColour(s, p.sibling.id, Black);
    SetColourConfined(s, p.sibling.id, Black, ids);
    SetColourEffect(s, p.sibling.id, Black);
    SetColourConfined(s1, p.id, Red, ids);
    SetColourEffect(s1, p.id, Red);
    RotateConfined(SetColour(s1, p.id, Red), p.side, p.id, ids);
  }
}
