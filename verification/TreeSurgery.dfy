/** The steps of insert and erase on stored trees. */
module TreeSurgery {
  import opened RedBlackTree
  import opened TreeLinks

  // ----- insert

  /** A red uncle. */
  function RecolourStep(s: Links, parent: Ref, uncle: Ref, grandparent: Ref): Links {
    SetColour(SetColour(SetColour(s, parent, Black), uncle, Black), grandparent, Red)
  }

  lemma RecolourStepStores(s: Links, p: Path, t: Tree)
    requires p.Below? && p.up.Below? && p.up.sibling.Node? && Stores(s, p, t)
    ensures Stores(RecolourStep(s, p.id, p.up.sibling.id, p.up.id), p.up.up, Recoloured(p, t))
  {
    hide Stores, SetColour;
    var g := p.up;
    var uncle := g.sibling;
    FocusUp(s, p, t);
    var parent := Join(p.side, p.colour, t, p.id, p.sibling);
    RecolourFocus(s, g, parent, Black);
    var s1 := SetColour(s, p.id, Black);
    var parent' := parent.(colour := Black);
    FocusAcross(s1, g, parent');
    var across := Below(g.side.Other(), g.colour, g.id, parent', g.up);
    RecolourFocus(s1, across, uncle, Black);
    var s2 := SetColour(s1, uncle.id, Black);
    FocusUp(s2, across, uncle.Blackened());
    RecolourFocus(s2, g.up, Join(across.side, g.colour, uncle.Blackened(), g.id, parent'), Red);
  }

  /** Parent black, grandparent red, and a rotation of the grandparent away from the focus. */
  function OuterStep(s: Links, side: Side, parent: Ref, grandparent: Ref): Links {
    Rotate(SetColour(SetColour(s, parent, Black), grandparent, Red), side.Other(), grandparent)
  }

  lemma OuterStepStores(s: Links, p: Path, t: Tree)
    requires p.Below? && p.up.Below? && p.side == p.up.side && Stores(s, p, t)
    ensures Stores(OuterStep(s, p.side, p.id, p.up.id), p.up.up, RotatedOuter(p, t))
  {
    hide Stores, SetColour, Rotate;
    var g, side := p.up, p.side;
    FocusUp(s, p, t);
    var parent := Join(side, p.colour, t, p.id, p.sibling);
    RecolourFocus(s, g, parent, Black);
    var s1 := SetColour(s, p.id, Black);
    FocusUp(s1, g, parent.(colour := Black));
    var top := Join(side, g.colour, parent.(colour := Black), g.id, g.sibling);
    RecolourFocus(s1, g.up, top, Red);
    var s2 := SetColour(s1, g.id, Red);
    assert top.(colour := Red) ==
      Join(side.Other(), Red, g.sibling, g.id, Join(side.Other(), Black, p.sibling, p.id, t));
    RotateStores(s2, side.Other(), g.up, Red, g.sibling, g.id, Black, p.sibling, p.id, t);
  }

  /** The focus moves down by a rotation of its parent: the inner grandchild becomes an outer one. */
  lemma InnerStepStores(s: Links, p: Path, t: Tree)
    requires p.Below? && p.up.Below? && p.side != p.up.side && t.Node? && Stores(s, p, t)
    ensures var side := p.up.side;
      var p', t' := Below(side, t.colour, t.id, t.Kid(side.Other()), p.up),
        Join(side, p.colour, p.sibling, p.id, t.Kid(side));
      Stores(Rotate(s, side, p.id), p', t') && (p.colour.Red? ==> RotatedOuter(p', t') == RotatedInner(p, t))
  {
    hide Stores, Rotate;
    var side := p.up.side;
    FocusUp(s, p, t);
    assert Join(p.side, p.colour, t, p.id, p.sibling) ==
      Join(side, p.colour, p.sibling, p.id, Join(side, t.colour, t.Kid(side), t.id, t.Kid(side.Other())));
    RotateStores(s, side, p.up, p.colour, p.sibling, p.id, t.colour, t.Kid(side), t.id, t.Kid(side.Other()));
    FocusUp(Rotate(s, side, p.id), Below(side, t.colour, t.id, t.Kid(side.Other()), p.up),
      Join(side, p.colour, p.sibling, p.id, t.Kid(side)));
  }

  // ----- erase

  /** The parent tree of the focus, rotated towards the focus. */
  lemma RotateParent(s: Links, p: Path, t: Tree)
    requires p.Below? && p.sibling.Node? && Stores(s, p, t)
    ensures var b := p.sibling;
      Stores(Rotate(s, p.side, p.id), p.up,
        Join(p.side, b.colour, Join(p.side, p.colour, t, p.id, b.Kid(p.side)), b.id, b.Kid(p.side.Other())))
  {
    hide Stores, Rotate;
    var b := p.sibling;
    FocusUp(s, p, t);
    assert b == Join(p.side, b.colour, b.Kid(p.side), b.id, b.Kid(p.side.Other()));
    RotateStores(s, p.side, p.up, p.colour, t, p.id, b.colour, b.Kid(p.side), b.id, b.Kid(p.side.Other()));
  }

  /** Recolour the sibling of the focus. */
  lemma RecolourSibling(s: Links, p: Path, t: Tree, c: Colour)
    requires p.Below? && p.sibling.Node? && Stores(s, p, t)
    ensures Stores(SetColour(s, p.sibling.id, c), p.(sibling := p.sibling.(colour := c)), t)
  {
    hide Stores, SetColour;
    FocusAcross(s, p, t);
    RecolourFocus(s, Below(p.side.Other(), p.colour, p.id, t, p.up), p.sibling, c);
    FocusAcross(SetColour(s, p.sibling.id, c), p.(sibling := p.sibling.(colour := c)), t);
  }

  /** Recolour the parent of the focus. */
  lemma RecolourParent(s: Links, p: Path, t: Tree, c: Colour)
    requires p.Below? && Stores(s, p, t)
    ensures Stores(SetColour(s, p.id, c), p.(colour := c), t)
  {
    hide Stores, SetColour;
    FocusUp(s, p, t);
    RecolourFocus(s, p.up, Join(p.side, p.colour, t, p.id, p.sibling), c);
    FocusUp(SetColour(s, p.id, c), p.(colour := c), t);
  }

  /** Recolour a nephew of the focus. */
  lemma RecolourNephew(s: Links, p: Path, t: Tree, side: Side, c: Colour)
    requires p.Below? && p.sibling.Node? && p.sibling.Kid(side).Node? && Stores(s, p, t)
    ensures var b := p.sibling;
      Stores(SetColour(s, b.Kid(side).id, c),
        p.(sibling := Join(side, b.colour, b.Kid(side).(colour := c), b.id, b.Kid(side.Other()))), t)
  {
    hide Stores, SetColour;
    var b := p.sibling;
    var n := b.Kid(side);
    var s' := SetColour(s, n.id, c);
    FocusAcross(s, p, t);
    var q := Below(p.side.Other(), p.colour, p.id, t, p.up);
    var r := Below(side, b.colour, b.id, b.Kid(side.Other()), q);
    FocusUp(s, r, n);
    assert b == Join(side, b.colour, n, b.id, b.Kid(side.Other()));
    RecolourFocus(s, r, n, c);
    FocusUp(s', r, n.(colour := c));
    FocusAcross(s', p.(sibling := Join(side, b.colour, n.(colour := c), b.id, b.Kid(side.Other()))), t);
  }

  /** Black sibling whose outer child is red and gets chosen: one rotation. */
  function SingleStep(s: Links, side: Side, parent: Ref, sibling: Ref, nephew: Ref): Links {
    var s1 := Rotate(SetColour(s, nephew, Black), side, parent);
    SetColour(SetColour(s1, sibling, ColourAt(s1, parent)), parent, Black)
  }

  lemma SingleStepStores(s: Links, p: Path, t: Tree)
    requires p.Below? && p.sibling.Node? && p.sibling.Kid(p.side.Other()).IsRed() && Stores(s, p, t)
    ensures var b := p.sibling;
      var n := b.Kid(p.side.Other());
      Stores(SingleStep(s, p.side, p.id, b.id, n.id), p.up,
        Join(p.side, p.colour, Join(p.side, Black, t, p.id, b.Kid(p.side)), b.id, n.Blackened()))
  {
    hide Stores, SetColour, Rotate;
    var b, side := p.sibling, p.side;
    var n := b.Kid(side.Other());
    RecolourNephew(s, p, t, side.Other(), Black);
    var s0 := SetColour(s, n.id, Black);
    var b' := Join(side, b.colour, b.Kid(side), b.id, n.Blackened());
    RotateParent(s0, p.(sibling := b'), t);
    var s1 := Rotate(s0, side, p.id);
    var inner := Join(side, p.colour, t, p.id, b.Kid(side));
    assert ColourAt(s1, p.id) == p.colour by {
      var q := Below(side, b.colour, b.id, n.Blackened(), p.up);
      FocusUp(s1, q, inner);
      StoredColour(s1, q, inner);
    }
    RecolourFocus(s1, p.up, Join(side, b.colour, inner, b.id, n.Blackened()), p.colour);
    var s2 := SetColour(s1, b.id, p.colour);
    var q' := Below(side, p.colour, b.id, n.Blackened(), p.up);
    FocusUp(s2, q', inner);
    RecolourFocus(s2, q', inner, Black);
    FocusUp(SetColour(s2, p.id, Black), q', inner.(colour := Black));
  }

  lemma StoredSibling(s: Links, p: Path, t: Tree)
    requires p.Below? && p.sibling.Node? && Stores(s, p, t)
    ensures Kid(s, p.side.Other(), p.id) == p.sibling.id && p.sibling.id != NULL && p.id != NULL
    ensures forall d :: Kid(s, d, p.sibling.id) == p.sibling.Kid(d).Root() &&
              (p.sibling.Kid(d).Node? ==> p.sibling.Kid(d).id != NULL)
  {
    NullApart(p.sibling);
    NullApart(p.sibling.left);
    NullApart(p.sibling.right);
  }

  lemma StoredColour(s: Links, p: Path, t: Tree)
    requires t.Node? && Stores(s, p, t)
    ensures ColourAt(s, t.id) == t.colour
  {}

  /** Black sibling whose inner child is chosen: two rotations. */
  function DoubleStep(s: Links, side: Side, parent: Ref, sibling: Ref, nephew: Ref): Links {
    Rotate(HalfDoubleStep(s, side, parent, sibling, nephew), side, parent)
  }

  function HalfDoubleStep(s: Links, side: Side, parent: Ref, sibling: Ref, nephew: Ref): Links {
    var s1 := SetColour(s, nephew, Black);
    var s2 := SetColour(SetColour(SetColour(s1, nephew, ColourAt(s1, parent)), parent, Black), sibling, Black);
    Rotate(s2, side.Other(), sibling)
  }

  lemma DoubleStepStores(s: Links, p: Path, t: Tree)
    requires p.Below? && p.sibling.Node? && p.sibling.Kid(p.side).IsRed() && Stores(s, p, t)
    ensures var b, side := p.sibling, p.side;
      var n := b.Kid(side);
      Stores(DoubleStep(s, side, p.id, b.id, n.id), p.up,
        Join(side, p.colour, Join(side, Black, t, p.id, n.Kid(side)), n.id,
          Join(side, Black, n.Kid(side.Other()), b.id, b.Kid(side.Other()))))
    ensures Kid(HalfDoubleStep(s, p.side, p.id, p.sibling.id, p.sibling.Kid(p.side).id), p.side.Other(), p.id) != NULL
  {
    hide Stores, SetColour, Rotate;
    var b, side := p.sibling, p.side;
    var n := b.Kid(side);
    var other := side.Other();
    RecolourNephew(s, p, t, side, Black);
    var s1 := SetColour(s, n.id, Black);
    var p1 := p.(sibling := Join(side, b.colour, n.Blackened(), b.id, b.Kid(other)));
    assert ColourAt(s1, p.id) == p.colour by {
      FocusUp(s1, p1, t);
      StoredColour(s1, p.up, Join(side, p.colour, t, p.id, p1.sibling));
    }
    RecolourNephew(s1, p1, t, side, p.colour);
    var n' := n.(colour := p.colour);
    var p2 := p.(sibling := Join(side, b.colour, n', b.id, b.Kid(other)));
    var s2 := SetColour(s1, n.id, p.colour);
    RecolourParent(s2, p2, t, Black);
    var s3 := SetColour(s2, p.id, Black);
    var p3 := p2.(colour := Black);
    RecolourSibling(s3, p3, t, Black);
    var s4 := SetColour(s3, b.id, Black);
    var b' := Join(side, Black, n', b.id, b.Kid(other));
    var p4 := p3.(sibling := b');
    FocusAcross(s4, p4, t);
    var q := Below(other, Black, p.id, t, p.up);
    assert b' == Join(other, Black, b.Kid(other), b.id, Join(other, p.colour, n.Kid(other), n.id, n.Kid(side)));
    RotateStores(s4, other, q, Black, b.Kid(other), b.id, p.colour, n.Kid(other), n.id, n.Kid(side));
    var s5 := Rotate(s4, other, b.id);
    var b'' := Join(other, p.colour, Join(other, Black, b.Kid(other), b.id, n.Kid(other)), n.id, n.Kid(side));
    var p5 := p4.(sibling := b'');
    FocusAcross(s5, p5, t);
    StoredSibling(s5, p5, t);
    RotateParent(s5, p5, t);
  }

  /** Black sibling without red children. */
  lemma PaledStores(s: Links, p: Path, t: Tree)
    requires p.Below? && p.sibling.Node? && Stores(s, p, t)
    ensures var s1 := SetColour(s, p.sibling.id, Red);
      Stores(s1, p.(sibling := p.sibling.(colour := Red)), t) &&
      Stores(SetColour(s1, p.id, Black), p.up, Paled(p, t)) &&
      (p.colour.Black? ==> Stores(s1, p.up, Paled(p, t)))
  {
    hide Stores, SetColour;
    RecolourSibling(s, p, t, Red);
    var s1 := SetColour(s, p.sibling.id, Red);
    var p1 := p.(sibling := p.sibling.(colour := Red));
    RecolourParent(s1, p1, t, Black);
    FocusUp(SetColour(s1, p.id, Black), p1.(colour := Black), t);
    FocusUp(s1, p1, t);
  }

  /** Red sibling. */
  function LowerStep(s: Links, side: Side, parent: Ref, sibling: Ref): Links {
    Rotate(SetColour(SetColour(s, sibling, Black), parent, Red), side, parent)
  }

  lemma LowerStepStores(s: Links, p: Path, t: Tree)
    requires p.Below? && p.sibling.Node? && Stores(s, p, t)
    ensures Stores(LowerStep(s, p.side, p.id, p.sibling.id), Lowered(p), t)
  {
    hide Stores, SetColour, Rotate;
    RecolourSibling(s, p, t, Black);
    var s1 := SetColour(s, p.sibling.id, Black);
    var p1 := p.(sibling := p.sibling.(colour := Black));
    RecolourParent(s1, p1, t, Red);
    var s2 := SetColour(s1, p.id, Red);
    RotateParent(s2, p1.(colour := Red), t);
    var s3 := Rotate(s2, p.side, p.id);
    var q := Lowered(p);
    FocusUp(s3, q, t);
    FocusUp(s3, q.up, Join(p.side, Red, t, p.id, q.sibling));
  }
}
