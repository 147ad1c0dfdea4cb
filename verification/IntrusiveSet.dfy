/** The class infra::IntrusiveSet on top of infra::IntrusiveBinarySearchTree: links, colours and the in-order thread are
    updated in place. Nodes are named by numbers; `key` gives the values that Compare looks at.
 */
module IntrusiveSet {
  import opened RedBlackTree
  import opened TreeLinks
  import opened TreeSurgery
  import opened TreeRemoval
  import opened TreeThread
  import opened TreeConfinement

  // ----- focus on any node of a whole tree

  lemma {:induction false} FocusTop(s: Links, p: Path, t: Tree)
    ensures Stores(s, p, t) <==> Stores(s, Top, Plug(p, t))
    decreases p
  {
    hide Stores, Join;
    if p.Below? {
      FocusUp(s, p, t);
      FocusTop(s, p.up, Join(p.side, p.colour, t, p.id, p.sibling));
    }
  }

  lemma {:induction false} FindFocus(p: Path, t: Tree, v: Ref) returns (q: Path, f: Tree)
    requires v in Ids(t)
    ensures f.Node? && f.id == v && Plug(q, f) == Plug(p, t)
    decreases t
  {
    if v == t.id {
      q, f := p, t;
    } else if v in Ids(t.left) {
      q, f := FindFocus(Below(Left, t.colour, t.id, t.right, p), t.left, v);
    } else {
      q, f := FindFocus(Below(Right, t.colour, t.id, t.left, p), t.right, v);
    }
  }

  // ----- searching the place of a new key

  /** The key `x` belongs between what is before and what is after the focus; before it also come equal keys. */
  ghost predicate Brackets(p: Path, key: map<Ref, int>, x: int) {
    AllBelow(Before(p), key, x) && AllAbove(After(p), key, x)
  }

  ghost predicate AllBelow(s: seq<Ref>, key: map<Ref, int>, x: int) {
    forall i :: 0 <= i < |s| ==> s[i] in key && key[s[i]] <= x
  }

  ghost predicate AllAbove(s: seq<Ref>, key: map<Ref, int>, x: int) {
    forall i :: 0 <= i < |s| ==> s[i] in key && x < key[s[i]]
  }

  lemma {:induction false} BracketsDown(p: Path, t: Tree, key: map<Ref, int>, x: int, side: Side)
    requires t.Node? && Sorted(InOrder(Plug(p, t)), key) && Brackets(p, key, x)
    requires t.id in key && (if side.Left? then x < key[t.id] else key[t.id] <= x)
    ensures Brackets(Below(side, t.colour, t.id, t.Kid(side.Other()), p), key, x)
  {
    hide Plug, Sorted, AllBelow, AllAbove, InOrder, Before, After;
    var q := Below(side, t.colour, t.id, t.Kid(side.Other()), p);
    InOrderOfPlug(p, t);
    InOrderOfNode(t);
    Sides(p, t, side);
    var b, l, r, a := Before(p), InOrder(t.left), InOrder(t.right), After(p);
    Around(b, l, t.id, r, a, key, x);
  }

  /** What is before and after a child of the focus. */
  lemma Sides(p: Path, t: Tree, side: Side)
    requires t.Node?
    ensures var q := Below(side, t.colour, t.id, t.Kid(side.Other()), p);
      if side.Left? then Before(q) == Before(p) && After(q) == [t.id] + InOrder(t.right) + After(p)
      else Before(q) == Before(p) + InOrder(t.left) + [t.id] && After(q) == After(p)
  {}

  lemma Around(b: seq<Ref>, l: seq<Ref>, id: Ref, r: seq<Ref>, a: seq<Ref>, key: map<Ref, int>, x: int)
    requires Sorted(b + (l + [id] + r) + a, key)
    ensures id in key && (x < key[id] ==> AllAbove([id] + r + a, key, x)) &&
      (key[id] <= x ==> AllBelow(b + l + [id], key, x))
  {
    hide Sorted, AllAbove, AllBelow;
    var order, k := b + (l + [id] + r) + a, |b| + |l|;
    assert order[k] == id && order[k..] == [id] + r + a && order[..k + 1] == b + l + [id];
    SortedAround(order, key, k, x);
  }

  lemma SortedAround(order: seq<Ref>, key: map<Ref, int>, k: nat, x: int)
    requires Sorted(order, key) && k < |order|
    ensures order[k] in key && (x < key[order[k]] ==> AllAbove(order[k..], key, x))
    ensures key[order[k]] <= x ==> AllBelow(order[..k + 1], key, x)
  {}

  // ----- attaching a leaf

  function AttachLinks(s: Links, side: Side, current: Ref, v: Ref): Links {
    SetParent(SetKid(s, side, current, v), v, current)
  }

  lemma AttachStores(s: Links, p: Path, v: Ref)
    requires p.Below? && Stores(s, p, Leaf)
    requires v != NULL && v !in PathIds(p) && Kid(s, Left, v) == NULL && Kid(s, Right, v) == NULL
    ensures Stores(AttachLinks(s, p.side, p.id, v), p, Node(ColourAt(s, v), Leaf, v, Leaf))
  {
    hide Kid, Parent, ColourAt, SetKid, SetParent, StoresPath, PathApart, PathIds;
    PathHead(p);
    var s1 := SetKid(s, p.side, p.id, v);
    SetKidEffect(s, p.side, p.id, v);
    SetParentEffect(s1, v, p.id);
    var s', t := AttachLinks(s, p.side, p.id, v), Node(ColourAt(s, v), Leaf, v, Leaf);
    Refocused(s, s', p, NULL, v);
    assert Ids(t) == {v};
    assert StoresTree(s', Leaf, v);
    assert StoresTree(s', t, p.id);
  }

  lemma AttachRootStores(s: Links, v: Ref)
    requires Stores(s, Top, Leaf) && v != NULL && Kid(s, Left, v) == NULL && Kid(s, Right, v) == NULL &&
      Parent(s, v) == NULL
    ensures Stores(s.(root := v), Top, Node(ColourAt(s, v), Leaf, v, Leaf))
  {}

  /** The colours after erase has passed them on: that of the replacement to the node `at` in its old place, that of
      the removed node to the replacement. */
  function ColoursPassed(s: Links, value: Ref, slot: Slot, at: Ref): Links {
    if slot.replacement == NULL then s
    else
      var t := if slot.owner != NULL && at != NULL then SetColour(s, at, ColourAt(s, slot.replacement)) else s;
      SetColour(t, slot.replacement, ColourAt(t, value))
  }

  class Set {
    const key: map<Ref, int>
    var left: map<Ref, Ref>
    var right: map<Ref, Ref>
    var parent: map<Ref, Ref>
    var colour: map<Ref, Colour>
    var previous: map<Ref, Ref>
    var next: map<Ref, Ref>
    var numberOfNodes: nat
    var rootNode: Ref
    var frontNode: Ref
    var backNode: Ref
    ghost var tree: Tree

    ghost function TheLinks(): Links
      reads this
    {
      Links(left, right, parent, colour, rootNode)
    }

    ghost function TheThread(): Thread
      reads this
    {
      Thread(previous, next, frontNode, backNode)
    }

    /** The elements, in order. */
    ghost function Order(): seq<Ref>
      reads this
    {
      InOrder(tree)
    }

    ghost predicate Valid()
      reads this
    {
      Stores(TheLinks(), Top, tree) && IsRedBlack(tree) && Threads(TheThread(), Order()) && Sorted(Order(), key) &&
      numberOfNodes == |Order()| && Confined(TheLinks(), Ids(tree)) && ThreadConfined(TheThread(), Order())
    }

    constructor (key: map<Ref, int>)
      ensures this.key == key && Valid() && Order() == []
    {
      this.key := key;
      left, right, parent, colour, previous, next := map[], map[], map[], map[], map[], map[];
      numberOfNodes, rootNode, frontNode, backNode := 0, NULL, NULL, NULL;
      tree := Leaf;
      new;
      assert Balanced(tree, 0);
    }

    method LeftRotate(top: Ref)
      modifies this`left, this`right, this`parent, this`rootNode
      ensures TheLinks() == Rotate(old(TheLinks()), Left, top)
    {
      var r := At(right, top);
      right := right[top := At(left, r)];
      left := left[r := top];
      parent := parent[r := At(parent, top)];
      parent := parent[top := r];
      if At(right, top) != NULL {
        parent := parent[At(right, top) := top];
      }
      SetParentChild(At(parent, r), top, r);
    }

    method RightRotate(top: Ref)
      modifies this`left, this`right, this`parent, this`rootNode
      ensures TheLinks() == Rotate(old(TheLinks()), Right, top)
    {
      var l := At(left, top);
      left := left[top := At(right, l)];
      right := right[l := top];
      parent := parent[l := At(parent, top)];
      parent := parent[top := l];
      if At(left, top) != NULL {
        parent := parent[At(left, top) := top];
      }
      SetParentChild(At(parent, l), top, l);
    }

    method SetParentChild(up: Ref, child: Ref, kid: Ref)
      modifies this`left, this`right, this`rootNode
      ensures TheLinks() == Replace(old(TheLinks()), up, child, kid)
    {
      if up != NULL {
        if At(left, up) == child {
          left := left[up := kid];
        } else {
          right := right[up := kid];
        }
      } else {
        rootNode := kid;
      }
    }

    method RotateTo(side: Side, top: Ref)
      modifies this`left, this`right, this`parent, this`rootNode
      ensures TheLinks() == Rotate(old(TheLinks()), side, top)
    {
      if side.Left? {
        LeftRotate(top);
      } else {
        RightRotate(top);
      }
    }

    /** The search in insert_in_tree: a key that is equal to that of a node goes to its right. */
    method FindPlace(value: Ref) returns (current: Ref, side: Side, ghost p: Path)
      requires Stores(TheLinks(), Top, tree) && Sorted(Order(), key) && rootNode != NULL && value in key
      ensures Stores(TheLinks(), p, Leaf) && Plug(p, Leaf) == tree && Brackets(p, key, key[value])
      ensures p.Below? && p.id == current && p.side == side
    {
      hide Stores, Plug, InOrder, Kid, Sorted, Brackets;
      ghost var t := tree;
      p := Top;
      assert tree != Leaf by { NonEmptyTree(TheLinks(), tree); }
      PlugTop(tree);
      TopBrackets(key, key[value]);
      var found := false;
      current, side := rootNode, Left;
      assert t.id == rootNode by { TopIsRoot(TheLinks(), tree); }
      while !found
        invariant Stores(TheLinks(), p, t) && Plug(p, t) == tree && Brackets(p, key, key[value])
        invariant !found ==> t.Node? && t.id == current
        invariant found ==> t.Leaf? && p.Below? && p.id == current && p.side == side
        decreases !found, t
      {
        assert current in key by { InTree(p, t); }
        side := if key[value] < key[current] then Left else Right;
        BracketsDown(p, t, key, key[value], side);
        ghost var q := Below(side, t.colour, t.id, t.Kid(side.Other()), p);
        assert Plug(q, t.Kid(side)) == Plug(p, t) by { PlugDown(p, t, side); }
        FocusUp(TheLinks(), q, t.Kid(side));
        assert Join(side, t.colour, t.Kid(side), t.id, t.Kid(side.Other())) == t;
        var kid := if side.Left? then At(left, current) else At(right, current);
        assert kid == t.Kid(side).Root() && (kid == NULL <==> t.Kid(side).Leaf?) by {
          StoredKid(TheLinks(), p, t, side);
          KidField(side, current);
        }
        p, t := q, t.Kid(side);
        if kid != NULL {
          current := kid;
        } else {
          found := true;
        }
      }
    }

    /** insert_in_tree: `p` is the place that was found, behind all that is not greater. */
    method InsertInTree(value: Ref) returns (ghost p: Path)
      requires Valid() && value != NULL && value in key && value !in Order()
      modifies this`left, this`right, this`parent, this`previous, this`next, this`numberOfNodes, this`rootNode,
        this`frontNode, this`backNode
      ensures Plug(p, Leaf) == tree && Brackets(p, key, key[value])
      ensures Stores(TheLinks(), p, Node(ColourAt(TheLinks(), value), Leaf, value, Leaf))
      ensures Threads(TheThread(), Before(p) + [value] + After(p)) && Sorted(Before(p) + [value] + After(p), key)
      ensures numberOfNodes == |Before(p) + [value] + After(p)|
      ensures value !in Ids(tree) && Confined(TheLinks(), Ids(tree) + {value}) &&
        ThreadConfined(TheThread(), Before(p) + [value] + After(p))
    {
      hide Stores, Threads, Attach, Plug, InOrder, IsRedBlack, Kid, Parent, ColourAt, Before, After, AttachLinks, Ids,
        PathIds, Confined, ThreadConfined,
        Inserted, Sorted, Brackets;
      assert value !in Ids(tree) by { OrderIds(tree); }
      GrowConfined(TheLinks(), Ids(tree), value);
      numberOfNodes := numberOfNodes + 1;
      p := Top;
      if rootNode == NULL {
        assert tree == Leaf by { EmptyTree(TheLinks(), tree); }
        PlugTop(Leaf);
        TopBrackets(key, key[value]);
        InOrderOfLeaf();
        assert Kid(TheLinks(), Left, value) == NULL && Kid(TheLinks(), Right, value) == NULL &&
          Parent(TheLinks(), value) == NULL by {
          LooseLinks(TheLinks(), Ids(tree), value);
        }
        AttachRootStores(TheLinks(), value);
        RootConfined(TheLinks(), value, Ids(tree) + {value});
        assert At(previous, value) == NULL && At(next, value) == NULL by { LooseThread(TheThread(), Order(), value); }
        FirstThreadConfined(TheThread(), value);
        RootKeepsColours(TheLinks(), value);
        ThreadOne(previous, next, value);
        SortedOne(value, key);
        rootNode := value;
        frontNode := value;
        backNode := value;
      } else {
        var current, side;
        current, side, p := FindPlace(value);
        assert value !in PathIds(p) by { NotYetIn(p, value); }
        assert current in Ids(tree) by { PathInTree(p); }
        InOrderOfPlug(p, Leaf);
        assert InOrder(Leaf) == [] by { InOrderOfLeaf(); }
        var before, after := Before(p), After(p);
        assert Order() == before + after;
        ghost var k := if side.Left? then |before| else |before| - 1;
        assert k < |Order()| && Order()[k] == current by { Neighbour(p); }
        assert Inserted(Order(), |before|, value) == before + [value] +
          after by { InsertedMiddle(before, value, after); }
        AttachThreads(TheThread(), side, k, Order(), value);
        AttachConfined(TheThread(), side, k, Order(), value);
        assert Sorted(before + [value] + after, key) by { SortedByBrackets(p, key, value); }
        assert Kid(TheLinks(), Left, value) == NULL &&
          Kid(TheLinks(), Right, value) == NULL by { LooseLinks(TheLinks(), Ids(tree), value); }
        AttachStores(TheLinks(), p, value);
        AttachLinksConfined(TheLinks(), side, current, value, Ids(tree) + {value});
        assert At(previous, current) != value && At(next, current) != value && current != NULL by {
          ThreadAt(TheThread(), Order(), k);
          ItemIsIn(Order(), k - 1);
          ItemIsIn(Order(), k + 1);
        }
        assert ColourAt(AttachLinks(TheLinks(), side, current, value), value) == ColourAt(TheLinks(), value) by {
          AttachKeepsColours(TheLinks(), side, current, value);
        }
        Hang(side, current, value);
      }
    }

    /** The new node becomes a child of `current` and its neighbour in order. */
    method Hang(side: Side, current: Ref, value: Ref)
      requires current != value && current != NULL && value != NULL
      requires At(previous, current) != value && At(next, current) != value
      modifies this`left, this`right, this`parent, this`previous, this`next, this`frontNode, this`backNode
      ensures TheLinks() == AttachLinks(old(TheLinks()), side, current, value)
      ensures TheThread() == Attach(old(TheThread()), side, current, value)
    {
      if side.Left? {
        left := left[current := value];
        parent := parent[value := current];
        next := next[value := current];
        previous := previous[value := At(previous, current)];
        previous := previous[current := value];
        if At(previous, value) != NULL {
          next := next[At(previous, value) := value];
        } else {
          frontNode := value;
        }
      } else {
        right := right[current := value];
        parent := parent[value := current];
        previous := previous[value := current];
        next := next[value := At(next, current)];
        next := next[current := value];
        if At(next, value) != NULL {
          previous := previous[At(next, value) := value];
        } else {
          backNode := value;
        }
      }
    }

    /** IntrusiveSet::insert. The set gains exactly the new element, behind all that are not greater and before all
        that are. */
    method Insert(value: Ref) returns (ghost k: nat)
      requires Valid() && value != NULL && value in key && value !in Order()
      modifies this
      ensures Valid()
      ensures k <= |old(Order())| && Order() == Inserted(old(Order()), k, value)
      ensures AllBelow(old(Order())[..k], key, key[value]) && AllAbove(old(Order())[k..], key, key[value])
    {
      hide Stores, Threads, Plug, InOrder, IsRedBlack, Kid, Parent, ColourAt, Before, After, InsertFix, TopIsBlack,
        Confined, ThreadConfined, Ids,
        Inserted, Sorted, AllBelow, AllAbove;
      ghost var ids := Ids(tree) + {value};
      ghost var p := InsertInTree(value);
      ghost var before, after := Before(p), After(p);
      assert Order() == before + after by { InOrderOfPlug(p, Leaf); InOrderOfLeaf(); }
      k := |before|;
      assert Order()[..k] == before && Order()[k..] == after;
      InsertedMiddle(before, value, after);
      ghost var t := Node(ColourAt(TheLinks(), value), Leaf, value, Leaf);
      RecolourFocus(TheLinks(), p, t, Red);
      SetColourConfined(TheLinks(), value, Red, ids);
      colour := colour[value := Red];
      t := Node(Red, Leaf, value, Leaf);
      InsertIsRedBlack(p, value);
      assert SameIds(ids, InsertFix(p, t)) &&
        SameIds(ids, InsertFix(p, t).Blackened()) by { InsertedIds(tree, p, value); }
      assert TopIsBlack(p) by { NotRed(tree); BlackRoot(p, Leaf); }
      ghost var fixed := RestoreColours(value, p, t, ids);
      assert TheLinks().root == fixed.Root() by { TopIsRoot(TheLinks(), fixed); }
      assert fixed.Node? by { FixedNode(p, t); }
      RecolourFocus(TheLinks(), Top, fixed, Black);
      SetColourConfined(TheLinks(), rootNode, Black, ids);
      colour := colour[rootNode := Black];
      tree := fixed.Blackened();
      assert Ids(tree) == ids by { AllIds(ids, tree); }
    }

    /** The loop of insert. */
    method RestoreColours(value: Ref, ghost path: Path, ghost focus: Tree, ghost ids: set<Ref>)
        returns (ghost fixed: Tree)
      requires focus.IsRed() && focus.id == value && Stores(TheLinks(), path, focus) && TopIsBlack(path)
      modifies this`left, this`right, this`parent, this`rootNode, this`colour
      requires Confined(TheLinks(), ids) && SameIds(ids, InsertFix(path, focus))
      ensures fixed == InsertFix(path, focus) && Stores(TheLinks(), Top, fixed) && Confined(TheLinks(), ids)
    {
      hide Stores, Plug, Kid, Parent, ColourAt, SetColour, Rotate, Recoloured, RotatedInner, RotatedOuter,
        Confined, SameIds;
      var node := value;
      ghost var p, t := path, focus;
      AboutFocus(p, t);
      while node != rootNode && (if At(parent, node) in colour then colour[At(parent, node)] else Red).Red?
        invariant t.IsRed() && t.id == node && Stores(TheLinks(), p, t) && TopIsBlack(p) && Confined(TheLinks(), ids)
        invariant InsertFix(p, t) == InsertFix(path, focus)
        invariant (node == rootNode <==> p.Top?) && At(parent, node) == p.Parent()
        invariant p.Below? ==> (if At(parent, node) in colour then colour[At(parent, node)] else Red) == p.colour
        decreases p.Length()
      {
        assert p.Below? && p.up.Below?;
        node, p, t := RestoreOnce(node, p, t, ids);
        AboutFocus(p, t);
      }
      fixed := Plug(p, t);
      FocusTop(TheLinks(), p, t);
    }

    lemma AboutFocus(p: Path, t: Tree)
      requires t.Node? && Stores(TheLinks(), p, t)
      ensures (t.id == rootNode <==> p.Top?) && At(parent, t.id) == p.Parent() && t.id != NULL &&
        (p.Parent() == NULL <==> p.Top?)
      ensures p.Below? ==> (if p.id in colour then colour[p.id] else Red) == p.colour
      ensures p.Below? ==> At(left, p.id) == (if p.side.Left? then t.id else p.sibling.Root())
      ensures p.Below? ==> At(right, p.id) == (if p.side.Right? then t.id else p.sibling.Root())
      ensures p.Below? ==> (At(left, p.id) == t.id <==> p.side.Left?) && (At(right, p.id) == t.id <==> p.side.Right?)
      ensures p.Below? ==> At(parent, p.id) == p.up.Parent()
      ensures p.Below? ==> (p.sibling.Root() == NULL <==> p.sibling.Leaf?)
      ensures p.Below? && p.sibling.Node? ==>
        (if p.sibling.id in colour then colour[p.sibling.id] else Red) == p.sibling.colour
      ensures At(left, t.id) == t.left.Root() && At(right, t.id) == t.right.Root()
    {
      RootFocus(TheLinks(), p, t);
      if p.Below? {
        NullApart(t);
        WhichSide(TheLinks(), p, t.id);
        NullApart(p.sibling);
      }
    }

    /** One round of the loop of insert. */
    method RestoreOnce(node: Ref, ghost p: Path, ghost t: Tree, ghost ids: set<Ref>)
        returns (node': Ref, ghost p': Path, ghost t': Tree)
      requires t.IsRed() && t.id == node && Stores(TheLinks(), p, t) && TopIsBlack(p)
      requires p.Below? && p.colour.Red? && p.up.Below? && Confined(TheLinks(), ids) && SameIds(ids, InsertFix(p, t))
      modifies this`left, this`right, this`parent, this`rootNode, this`colour
      ensures t'.IsRed() && t'.id == node' && Stores(TheLinks(), p', t') && TopIsBlack(p')
      ensures InsertFix(p', t') == InsertFix(p, t) && p'.Length() < p.Length() && Confined(TheLinks(), ids)
    {
      hide Stores, Kid, Parent, ColourAt, SetColour, Rotate, Confined, SameIds;
      assert p.id in ids && p.up.id in ids by { FocusIds(ids, p, t); }
      ghost var g := p.up;
      AboutFocus(p, t);
      FocusUp(TheLinks(), p, t);
      AboutFocus(g, Join(p.side, p.colour, t, p.id, p.sibling));
      var up := At(parent, node);
      var top := At(parent, up);
      var side := if up == At(left, top) then Left else Right;
      var uncle := if side.Left? then At(right, top) else At(left, top);
      assert side == g.side && up == p.id && top == g.id && uncle == g.sibling.Root();
      if uncle != NULL && (if uncle in colour then colour[uncle] else Red).Red? {
        RecolourStepStores(TheLinks(), p, t);
        RecolourStepConfined(TheLinks(), up, uncle, top, ids);
        colour := colour[up := Black];
        colour := colour[uncle := Black];
        colour := colour[top := Red];
        assert TheLinks() == RecolourStep(old(TheLinks()), up, uncle,
          top) by { ThreeColours(old(TheLinks()), up, uncle, top); }
        node', p', t' := top, g.up, Recoloured(p, t);
      } else {
        node', p', t' := node, p, t;
        ghost var goal := InsertFix(p, t);
        if node == (if side.Left? then At(right, up) else At(left, up)) {
          assert p.side != g.side;
          InnerStepStores(TheLinks(), p, t);
          InnerStepConfined(TheLinks(), p, t, ids);
          RotateTo(side, up);
          node' := up;
          p' := Below(side, t.colour, t.id, t.Kid(side.Other()), p.up);
          t' := Join(side, p.colour, p.sibling, p.id, t.Kid(side));
        }
        node', p', t' := LiftParent(node', side, p', t', ids);
      }
    }

    method LiftParent(node: Ref, side: Side, ghost p: Path, ghost t: Tree, ghost ids: set<Ref>)
        returns (node': Ref, ghost p': Path, ghost t': Tree)
      requires t.IsRed() && t.id == node && Stores(TheLinks(), p, t) && p.Below? && p.up.Below? &&
        p.side == p.up.side == side
      requires TopIsBlack(p.up.up) && Confined(TheLinks(), ids) && p.up.id in ids
      modifies this`left, this`right, this`parent, this`rootNode, this`colour
      ensures t' == t && node' == node &&
        p' == Below(side, Black, p.id, Join(side, Red, p.sibling, p.up.id, p.up.sibling), p.up.up)
      ensures Stores(TheLinks(), p', t')
      ensures Plug(p', t') == Plug(p.up.up, RotatedOuter(p, t)) && TopIsBlack(p') && Confined(TheLinks(), ids)
    {
      hide Stores, Kid, Parent, ColourAt, SetColour, Rotate, Confined;
      OuterStepConfined(TheLinks(), p, t, ids);
      AboutFocus(p, t);
      FocusUp(TheLinks(), p, t);
      AboutFocus(p.up, Join(p.side, p.colour, t, p.id, p.sibling));
      var up := At(parent, node);
      var top := At(parent, up);
      OuterStepStores(TheLinks(), p, t);
      colour := colour[up := Black];
      colour := colour[top := Red];
      assert TheLinks() == SetColour(SetColour(old(TheLinks()), up, Black), top,
        Red) by { TwoColours(old(TheLinks()), up, top); }
      RotateTo(side.Other(), top);
      node', t' := node, t;
      p' := Below(side, Black, p.id, Join(side, Red, p.sibling, p.up.id, p.up.sibling), p.up.up);
      FocusUp(TheLinks(), p', t');
    }

    /** remove_from_tree. Returns the node that replaces the removed one, the parent it had before, and the slot in
        which it was: the `side` link of `owner`. */
    method RemoveFromTree(value: Ref, ghost p: Path, ghost t: Tree) returns (slot: Slot)
      requires t.Node? && t.id == value && Plug(p, t) == tree && Stores(TheLinks(), p, t)
      requires Threads(TheThread(), Order()) && numberOfNodes == |Order()| && Confined(TheLinks(), Ids(tree)) &&
        ThreadConfined(TheThread(), Order())
      modifies this`left, this`right, this`parent, this`previous, this`next, this`numberOfNodes, this`rootNode,
        this`frontNode, this`backNode
      ensures Stores(TheLinks(), p, Successor(t)) && At(left, value) == At(right, value) == NULL && value != NULL
      ensures Position(p, t) < |Order()| && Threads(TheThread(), Removed(Order(), Position(p, t))) &&
        numberOfNodes == |Order()| - 1
      ensures ThreadConfined(TheThread(), Removed(Order(), Position(p, t))) && Confined(TheLinks(), Ids(tree) - {value})
      ensures SlotIs(p, t, slot)
    {
      hide Stores, Threads, Plug, InOrder, Before, After, Kid, Parent, ColourAt, Removed, Unthread, RemoveLinks,
        NewFront, NewBack, RemovalSlot,
        SlotIs, Successor, Item, Position, AttachLinks, Confined, ThreadConfined, Ids;
      ghost var k, order, links, thread := Position(p, t), Order(), TheLinks(), TheThread();
      assert k < |order| && order[k] == value by { InTheMiddle(p, t); }
      Ends(p, t);
      assert t.right.Node? ==> At(next, value) == First(t.right) by { if t.right.Node? { NextIsFirst(p, t); } }
      RemoveLinksStores(links, p, t, At(next, value));
      assert SlotIs(p, t, RemovalSlot(links, At(next, value), value)) by { SlotOfTree(p, t); }
      UnthreadThreads(thread, k, order, NewFront(links, thread, value), NewBack(links, thread, value));
      UnthreadConfined(thread, k, order, NewFront(links, thread, value), NewBack(links, thread, value));
      assert Confined(RemoveLinks(links, value, At(next, value)), Ids(tree) - {value}) by { RemovalConfined(p, t); }
      assert value != NULL && value != At(left, value) && value != At(right, value) by { NotOwnChild(p, t); }
      slot := Unlink(value);
      EraseFromOrder(value);
      numberOfNodes := numberOfNodes - 1;
    }

    /** The links of the tree, and the first and last node. */
    method Unlink(value: Ref) returns (slot: Slot)
      requires value != At(left, value) && value != At(right, value)
      modifies this`left, this`right, this`parent, this`rootNode, this`frontNode, this`backNode
      ensures TheLinks() == RemoveLinks(old(TheLinks()), value, At(next, value))
      ensures frontNode == NewFront(old(TheLinks()), old(TheThread()), value) &&
        backNode == NewBack(old(TheLinks()), old(TheThread()), value)
      ensures slot == RemovalSlot(old(TheLinks()), At(next, value), value)
      ensures At(left, value) == At(right, value) == At(parent, value) == NULL
    {
      hide PutKid, TakeOver, Detach, Cleared, Replace;
      if At(left, value) == NULL && At(right, value) == NULL {
        slot := Slot(NULL, NULL, NULL, Left);
        var up := At(parent, value);
        if up == NULL {
          frontNode, backNode := NULL, NULL;
        } else if At(left, up) == value {
          slot := Slot(NULL, value, up, Left);
          if value == frontNode { frontNode := up; }
        } else {
          slot := Slot(NULL, value, up, Right);
          if value == backNode { backNode := up; }
        }
        SetParentChild(up, value, NULL);
      } else if At(left, value) == NULL {
        slot := Slot(At(right, value), value, value, Right);
        ReplaceByChild(value, slot.replacement);
        if value == frontNode { frontNode := At(next, value); }
      } else if At(right, value) == NULL {
        slot := Slot(At(left, value), value, value, Left);
        ReplaceByChild(value, slot.replacement);
        if value == backNode { backNode := At(previous, value); }
      } else {
        var replacement := At(next, value);
        var up := At(parent, replacement);
        slot := Slot(replacement, up, up, if At(left, up) == replacement then Left else Right);
        ReplaceBySuccessor(value, replacement);
      }
      Clear(value);
    }

    lemma RemovalConfined(p: Path, t: Tree)
      requires t.Node? && Plug(p, t) == tree && Stores(TheLinks(), p, t) && Threads(TheThread(), Order()) &&
        Confined(TheLinks(), Ids(tree))
      ensures Confined(RemoveLinks(TheLinks(), t.id, At(next, t.id)), Ids(tree) - {t.id})
    {
      hide Stores, Threads, Plug, InOrder, Before, After, Confined, RemoveLinks, StoresTree, Ids, Kid, Parent;
      var s, v, succ := TheLinks(), t.id, At(next, t.id);
      WholeIds(p, t);
      StoredRoot(s, p, t);
      SuccessorApart(s, p, t);
      if t.right.Node? {
        NextIsFirst(p, t);
        FirstInTree(p, t);
      }
      RemoveLinksConfined(s, v, succ, Ids(tree));
      RemoveLinksStores(s, p, t, succ);
      var s', rest := RemoveLinks(s, v, succ), Plug(p, Successor(t));
      FocusTop(s', p, Successor(t));
      assert StoresTree(s', rest, NULL) && Apart(rest) by { TopStored(s', rest); }
      assert Ids(rest) == Ids(tree) - {v} by { SuccessorIds(s, p, t); }
      ShrinkConfined(s', rest, Ids(tree), v);
    }

    lemma Ends(p: Path, t: Tree)
      requires t.Node? && Plug(p, t) == tree && Stores(TheLinks(), p, t) && Threads(TheThread(), Order())
      ensures var k, order := Position(p, t), Order();
        k < |order| &&
        NewFront(TheLinks(), TheThread(), t.id) == (if k == 0 then Item(order, 1) else frontNode) &&
        NewBack(TheLinks(), TheThread(), t.id) == (if k == |order| - 1 then Item(order, |order| - 2) else backNode)
    {
      hide Stores, Threads, Plug, InOrder, Before, After;
      var k, order := Position(p, t), Order();
      AboutFocus(p, t);
      InTheMiddle(p, t);
      ThreadAt(TheThread(), order, k);
      AtTheEnds(TheThread(), order, k);
      SuccessorApart(TheLinks(), p, t);
    }

    lemma NextIsFirst(p: Path, t: Tree)
      requires t.Node? && t.right.Node? && Plug(p, t) == tree && Threads(TheThread(), Order())
      ensures At(next, t.id) == First(t.right)
    {
      hide Threads, Plug, InOrder, Before, After;
      InTheMiddle(p, t);
      ThreadAt(TheThread(), Order(), Position(p, t));
    }

    lemma NotOwnChild(p: Path, t: Tree)
      requires t.Node? && Stores(TheLinks(), p, t)
      ensures t.id != At(left, t.id) && t.id != At(right, t.id) && t.id != NULL
    {
      NullApart(t.left);
      NullApart(t.right);
    }

    lemma SlotOfTree(p: Path, t: Tree)
      requires t.Node? && Stores(TheLinks(), p, t) && Plug(p, t) == tree && Threads(TheThread(), Order())
      ensures SlotIs(p, t, RemovalSlot(TheLinks(), At(next, t.id), t.id))
    {
      hide Stores, Threads, Plug, InOrder, Before, After;
      AboutFocus(p, t);
      SuccessorApart(TheLinks(), p, t);
      if t.left.Node? && t.right.Node? {
        NextIsFirst(p, t);
        SuccessorSlot(p, t);
      }
    }

    method ReplaceByChild(value: Ref, child: Ref)
      requires child != NULL && child != value
      modifies this`left, this`right, this`parent, this`rootNode
      ensures TheLinks() == PutKid(old(TheLinks()), value, child)
    {
      parent := parent[child := At(parent, value)];
      SetParentChild(At(parent, value), value, child);
    }

    method ReplaceBySuccessor(value: Ref, replacement: Ref)
      modifies this`left, this`right, this`parent, this`rootNode
      ensures var s := old(TheLinks());
        TheLinks() == TakeOver(if replacement != Kid(s, Right, value) then Detach(s, value, replacement)
          else s, value, replacement)
    {
      if replacement != At(right, value) {
        DetachSuccessor(value, replacement);
      }
      parent := parent[replacement := At(parent, value)];
      left := left[replacement := At(left, value)];
      parent := parent[At(left, replacement) := replacement];
      SetParentChild(At(parent, replacement), value, replacement);
    }

    method DetachSuccessor(value: Ref, replacement: Ref)
      modifies this`left, this`right, this`parent
      ensures TheLinks() == Detach(old(TheLinks()), value, replacement)
    {
      var up := At(parent, replacement);
      if At(right, replacement) != NULL {
        parent := parent[At(right, replacement) := up];
      }
      left := left[up := At(right, replacement)];
      right := right[replacement := At(right, value)];
      parent := parent[At(right, replacement) := replacement];
    }

    method Clear(value: Ref)
      modifies this`left, this`right, this`parent
      ensures TheLinks() == Cleared(old(TheLinks()), value)
      ensures At(left, value) == At(right, value) == At(parent, value) == NULL
    {
      parent := parent[value := NULL];
      left := left[value := NULL];
      right := right[value := NULL];
    }

    lemma SuccessorSlot(p: Path, t: Tree)
      requires t.Node? && t.left.Node? && t.right.Node? && Stores(TheLinks(), p, t)
      ensures At(parent, First(t.right)) == SuccessorParent(t)
      ensures At(left, SuccessorParent(t)) == First(t.right) <==> t.right.left.Node?
    {
      var s := TheLinks();
      var b := Below(Right, t.colour, t.id, t.left, p);
      FocusUp(s, b, t.right);
      LeftmostFocus(s, t.right, b, Leaf);
      LeftmostIsFirst(t.right, b);
      LeftmostParent(t.right, b, Below(Right, t.colour, t.id, t.left, Top));
      var (q, f) := Leftmost(t.right, b);
      AboutFocus(q, f);
      if t.right.left.Node? { LeftmostBelow(t.right, b); }
    }

    method EraseFromOrder(value: Ref)
      modifies this`previous, this`next
      ensures TheThread() == Unthread(old(TheThread()), value)
      ensures At(previous, value) == At(next, value) == NULL
    {
      var before, after := At(previous, value), At(next, value);
      if before != NULL {
        next := next[before := after];
      }
      if after != NULL {
        previous := previous[after := before];
      }
      next := next[value := NULL];
      previous := previous[value := NULL];
    }

    function ColourOfNode(id: Ref): Colour
      reads this
    {
      if id in colour then colour[id] else Red
    }

    predicate IsRedNode(id: Ref)
      reads this
    {
      id != NULL && ColourOfNode(id).Red?
    }

    /** IntrusiveSet::erase. The set loses exactly that element. */
    method Erase(value: Ref) returns (ghost k: nat)
      requires Valid() && value in Order()
      modifies this
      ensures Valid()
      ensures k < |old(Order())| && old(Order())[k] == value && Order() == Removed(old(Order()), k)
    {
      hide Stores, Threads, Plug, InOrder, IsRedBlack, Before, After, Removed, EraseFix, Balanced, Surrounds, Remove,
        Successor, SlotIs, Position,
        Confined, ThreadConfined, Ids, Sorted, SameIds, FixedTree, Distinct, RedBlackTree.Erase;
      ghost var ids := Ids(tree) - {value};
      ghost var p, t, h := PlanErase(value);
      ghost var r := Remove(p, t);
      k := Position(p, t);
      var twoChildren := At(left, value) != NULL && At(right, value) != NULL;
      var valueParent := At(parent, value);
      var slot := RemoveFromTree(value, p, t);
      var doubleBlackParent, side := CopyColours(value, twoChildren, valueParent, slot, p, t, ids);
      ghost var fixed := Rebalance(doubleBlackParent, side, r.path, r.focus, r.short, h, ids);
      TopIsRoot(TheLinks(), fixed);
      assert fixed.Root() != NULL <==> fixed.Node? by { RootOfStored(TheLinks(), fixed); }
      if rootNode != NULL {
        RecolourFocus(TheLinks(), Top, fixed, Black);
        SetColourConfined(TheLinks(), rootNode, Black, ids);
        colour := colour[rootNode := Black];
      }
      tree := fixed.Blackened();
      assert Ids(tree) == ids by { AllIds(ids, tree); }
    }

    /** What erase is going to do. */
    lemma PlanErase(value: Ref) returns (p: Path, t: Tree, h: nat)
      requires Valid() && value in Order()
      ensures t.Node? && t.id == value && Plug(p, t) == tree && Stores(TheLinks(), p, t) &&
        ColourOfNode(value) == t.colour
      ensures var r := Remove(p, t); Balanced(r.focus, h) && (r.short ==> Surrounds(r.path, h + 1, Black))
      ensures var k, fixed := Position(p, t), FixedTree(Remove(p, t).path, Remove(p, t).focus, Remove(p, t).short, h);
        k < |Order()| && Order()[k] == value && IsRedBlack(fixed.Blackened()) &&
          InOrder(fixed.Blackened()) == Removed(Order(), k) &&
        Sorted(Removed(Order(), k), key) && |Removed(Order(), k)| == |Order()| - 1 &&
        SameIds(Ids(tree) - {value}, fixed) && SameIds(Ids(tree) - {value}, fixed.Blackened())
      ensures (At(left, value) != NULL && At(right, value) != NULL <==> t.left.Node? && t.right.Node?) &&
        At(parent, value) == p.Parent()
      ensures value !in Ids(Successor(t))
    {
      hide Stores, Threads, Plug, InOrder, IsRedBlack, Before, After, Removed, EraseFix, Balanced, Surrounds, Remove,
        Successor, Position,
        Confined, ThreadConfined, Ids, Sorted, Distinct;
      assert value in Ids(tree) by { OrderIds(tree); }
      p, t := FindFocus(Top, tree, value);
      PlugTop(tree);
      FocusTop(TheLinks(), p, t);
      InTheMiddle(p, t);
      h := EraseIsRedBlack(p, t);
      var r := Remove(p, t);
      ThreadEnds(TheThread(), Order());
      RemovedDistinct(Order(), Position(p, t));
      SortedRemove(Order(), Position(p, t), key);
      OrderWithout(p, t);
      AboutFocus(p, t);
      SuccessorApart(TheLinks(), p, t);
      StoredColour(TheLinks(), p, t);
      ErasedIds(tree, p, t, h);
      InOrderBlackened(FixedTree(r.path, r.focus, r.short, h));
    }

    /** The loop of erase. */
    method Rebalance(parentOfFocus: Ref, sideOfFocus: Side, ghost path: Path, ghost focus: Tree, ghost short: bool,
        ghost height: nat,
      ghost ids: set<Ref>) returns (ghost fixed: Tree)
      requires Stores(TheLinks(), path, focus) && Balanced(focus, height) &&
        (short ==> Surrounds(path, height + 1, Black))
      requires parentOfFocus == (if short then path.Parent() else NULL) &&
        (short ==> path.Below? && sideOfFocus == path.side)
      modifies this`left, this`right, this`parent, this`rootNode, this`colour
      requires Confined(TheLinks(), ids) && SameIds(ids, FixedTree(path, focus, short, height))
      ensures fixed == FixedTree(path, focus, short, height) && Stores(TheLinks(), Top, fixed) &&
        Confined(TheLinks(), ids)
    {
      hide Stores, Plug, Balanced, Surrounds, Borrowed, Paled, Lowered, Confined, SameIds;
      var doubleBlackParent, side := parentOfFocus, sideOfFocus;
      ghost var p, t, h := path, focus, height;
      fixed := FixedTree(path, focus, short, height);
      FocusTop(TheLinks(), p, t);
      assert short ==> path.id != NULL by { if short { SlotBelow(TheLinks(), path, focus); } }
      while doubleBlackParent != NULL
        invariant Confined(TheLinks(), ids)
        invariant doubleBlackParent == NULL ==> Stores(TheLinks(), Top, fixed)
        invariant doubleBlackParent != NULL ==>
          p.Below? && p.id == doubleBlackParent && p.side == side && Stores(TheLinks(), p, t)
        invariant doubleBlackParent != NULL ==>
          Balanced(t, h) && Surrounds(p, h + 1, Black) && EraseFix(p, t, h) == fixed
        decreases if doubleBlackParent == NULL then 0 else 1 + if p.colour.Black? then 1 + p.Length() else 0
      {
        doubleBlackParent, side, p, t, h := RebalanceOnce(doubleBlackParent, side, p, t, h, ids);
      }
    }

    /** One round of the loop of erase. */
    method RebalanceOnce(doubleBlackParent: Ref, side: Side, ghost p: Path, ghost t: Tree, ghost h: nat,
        ghost ids: set<Ref>)
        returns (parent': Ref, side': Side, ghost p': Path, ghost t': Tree, ghost h': nat)
      requires p.Below? && p.id == doubleBlackParent && p.side == side && Stores(TheLinks(), p, t)
      requires Balanced(t, h) && Surrounds(p, h + 1, Black) && Confined(TheLinks(), ids) &&
        SameIds(ids, EraseFix(p, t, h))
      modifies this`left, this`right, this`parent, this`rootNode, this`colour
      ensures Confined(TheLinks(), ids)
      ensures parent' == NULL ==> Stores(TheLinks(), Top, EraseFix(p, t, h))
      ensures parent' != NULL ==> p'.Below? && p'.id == parent' && p'.side == side' && Stores(TheLinks(), p', t')
      ensures parent' != NULL ==>
        Balanced(t', h') && Surrounds(p', h' + 1, Black) && EraseFix(p', t', h') == EraseFix(p, t, h)
      ensures parent' != NULL ==>
        (if p'.colour.Black? then 1 + p'.Length() else 0) < (if p.colour.Black? then 1 + p.Length() else 0)
    {
      hide Stores, Plug, Borrowed, Paled, Rotate, SetColour, Kid, Parent, ColourAt, Confined, SameIds;
      assert p.sibling.Node?;
      assert p.id != NULL by { SlotBelow(TheLinks(), p, t); }
      assert p.id in ids && p.sibling.id in ids by { ShortFocusIds(ids, p, t, h); }
      ghost var b := p.sibling;
      AboutSibling(p, t);
      var sibling := if side.Left? then At(right, doubleBlackParent) else At(left, doubleBlackParent);
      var leftRed := IsRedNode(At(left, sibling));
      var rightRed := IsRedNode(At(right, sibling));
      parent', side', p', t', h' := NULL, side, p, t, h;
      if ColourOfNode(sibling).Black? && (leftRed || rightRed) {
        BorrowNephew(doubleBlackParent, side, sibling, leftRed, p, t, ids);
        FocusTop(TheLinks(), p.up, Borrowed(p, t));
      } else if ColourOfNode(sibling).Black? {
        parent', side', p', t', h' := PaleSibling(doubleBlackParent, side, sibling, p, t, h, ids);
      } else {
        LowerStepStores(TheLinks(), p, t);
        LowerStepConfined(TheLinks(), p, t, ids);
        LowerSibling(doubleBlackParent, side, sibling);
        parent', p' := doubleBlackParent, Lowered(p);
      }
    }

    lemma AboutSibling(p: Path, t: Tree)
      requires p.Below? && p.sibling.Node? && Stores(TheLinks(), p, t)
      ensures var b := p.sibling;
        b.id != NULL && b.id == (if p.side.Left? then At(right, p.id) else At(left, p.id)) &&
          ColourOfNode(b.id) == b.colour && b.id != p.id &&
        At(left, b.id) == b.left.Root() && At(right, b.id) == b.right.Root() && ColourOfNode(p.id) == p.colour &&
        b.left.IsRed() == IsRedNode(At(left, b.id)) && b.right.IsRed() == IsRedNode(At(right, b.id))
    {
      var s, b := TheLinks(), p.sibling;
      assert Apart(b) && StoresTree(s, b, p.id);
      assert StoresTree(s, b.left, b.id) && StoresTree(s, b.right, b.id);
      NullApart(b.left);
      NullApart(b.right);
      NullApart(b);
    }

    /** Where the focus goes when it moves up. */
    lemma AboutPaled(p: Path, t: Tree)
      requires p.Below? && p.sibling.Node? && Stores(TheLinks(), p.up, Paled(p, t))
      ensures At(parent, p.id) == p.up.Parent() && (p.up.Parent() == NULL <==> p.up.Top?)
      ensures p.up.Below? ==> (At(left, p.up.id) == p.id <==> p.up.side.Left?)
    {
      hide Stores;
      AboutFocus(p.up, Paled(p, t));
    }

    /** A black sibling without red children: step 3.2 b. */
    method PaleSibling(doubleBlackParent: Ref, side: Side, sibling: Ref, ghost p: Path, ghost t: Tree, ghost h: nat,
        ghost ids: set<Ref>)
        returns (parent': Ref, side': Side, ghost p': Path, ghost t': Tree, ghost h': nat)
      requires p.Below? && p.id == doubleBlackParent && p.side == side && Stores(TheLinks(), p, t)
      requires Balanced(t, h) && Surrounds(p, h + 1, Black) && Confined(TheLinks(), ids)
      requires p.sibling.Node? && p.sibling.id == sibling && p.sibling.colour.Black? && !p.sibling.left.IsRed() &&
        !p.sibling.right.IsRed()
      modifies this`colour
      ensures Confined(TheLinks(), ids)
      ensures parent' == NULL ==> Stores(TheLinks(), Top, EraseFix(p, t, h))
      ensures parent' != NULL ==> p'.Below? && p'.id == parent' && p'.side == side' && Stores(TheLinks(), p', t')
      ensures parent' != NULL ==>
        Balanced(t', h') && Surrounds(p', h' + 1, Black) && EraseFix(p', t', h') == EraseFix(p, t, h)
      ensures parent' != NULL ==> p.colour.Black? && p'.Length() < p.Length()
    {
      hide Stores, Plug, Paled, SetColour, Kid, Parent, ColourAt, Confined;
      parent', side', p', t', h' := NULL, side, p, t, h;
      AboutSibling(p, t);
      PaledFix(p, t, h);
      PaledStores(TheLinks(), p, t);
      SetColourConfined(TheLinks(), sibling, Red, ids);
      colour := colour[sibling := Red];
      assert TheLinks() == SetColour(old(TheLinks()), sibling, Red) by { OneColour(old(TheLinks()), sibling, Red); }
      assert ColourOfNode(doubleBlackParent) == p.colour by { OwnSibling(old(TheLinks()), p, t); }
      if ColourOfNode(doubleBlackParent).Red? {
        label paled:
        SetColourConfined(TheLinks(), doubleBlackParent, Black, ids);
        colour := colour[doubleBlackParent := Black];
        assert TheLinks() == SetColour(old@paled(TheLinks()), doubleBlackParent,
          Black) by { OneColour(old@paled(TheLinks()), doubleBlackParent, Black); }
        FocusTop(TheLinks(), p.up, Paled(p, t));
      } else {
        PaledBalanced(p, t, h);
        SurroundsBlack(p.up, h + 2, p.colour);
        p', t', h' := p.up, Paled(p, t), h + 1;
        AboutPaled(p, t);
        parent' := At(parent, doubleBlackParent);
        if parent' != NULL {
          side' := if At(left, parent') == doubleBlackParent then Left else Right;
        } else {
          FocusTop(TheLinks(), p', t');
          PlugTop(t');
          assert EraseFix(p', t', h') == t';
        }
      }
    }

    /** A red nephew: step 3.2 a. */
    method BorrowNephew(doubleBlackParent: Ref, side: Side, sibling: Ref, leftRed: bool, ghost p: Path, ghost t: Tree,
        ghost ids: set<Ref>)
      requires p.Below? && p.id == doubleBlackParent && p.side == side && Stores(TheLinks(), p, t)
      requires p.sibling.Node? && p.sibling.id == sibling && leftRed == p.sibling.left.IsRed() &&
        (leftRed || p.sibling.right.IsRed())
      requires Confined(TheLinks(), ids) && p.id in ids && sibling in ids
      modifies this`left, this`right, this`parent, this`rootNode, this`colour
      ensures Stores(TheLinks(), p.up, Borrowed(p, t)) && Confined(TheLinks(), ids)
    {
      hide Stores, Rotate, Kid, Parent, Confined;
      AboutSibling(p, t);
      var nephew := if leftRed then At(left, sibling) else At(right, sibling);
      colour := colour[nephew := Black];
      if leftRed == side.Right? {
        SingleStepStores(old(TheLinks()), p, t);
        SingleStepConfined(old(TheLinks()), p, t, nephew, ids);
        RotateTo(side, doubleBlackParent);
        colour := colour[sibling := ColourOfNode(doubleBlackParent)];
        colour := colour[doubleBlackParent := Black];
      } else {
        DoubleStepStores(old(TheLinks()), p, t);
        DoubleStepConfined(old(TheLinks()), p, t, ids);
        colour := colour[nephew := ColourOfNode(doubleBlackParent)];
        colour := colour[doubleBlackParent := Black];
        colour := colour[sibling := Black];
        RotateTo(side.Other(), sibling);
        RotateTo(side, doubleBlackParent);
      }
    }

    /** A red sibling: step 3.2 c. */
    method LowerSibling(doubleBlackParent: Ref, side: Side, sibling: Ref)
      modifies this`left, this`right, this`parent, this`rootNode, this`colour
      ensures TheLinks() == LowerStep(old(TheLinks()), side, doubleBlackParent, sibling)
    {
      hide Rotate;
      colour := colour[sibling := Black];
      colour := colour[doubleBlackParent := Red];
      RotateTo(side, doubleBlackParent);
    }

    /** Whether a black node is missing, and where. The slot may belong to the removed node, whose links are null by
        now. */
    method FindMissing(value: Ref, twoChildren: bool, valueParent: Ref, slot: Slot, at: Ref, ghost p: Path,
        ghost t: Tree)
        returns (doubleBlackParent: Ref, side: Side)
      requires t.Node? && t.id == value && Stores(TheLinks(), p, Successor(t)) && SlotIs(p, t, slot) &&
        IsRedBlack(Plug(p, t))
      requires ColourOfNode(value) == t.colour && At(left, value) == At(right, value) == NULL && value != NULL
      requires twoChildren == (t.left.Node? && t.right.Node?) && valueParent == p.Parent() &&
        value !in Ids(Successor(t))
      requires at == Kid(TheLinks(), slot.side, slot.owner)
      ensures var r := Remove(p, t);
        Stores(ColoursPassed(TheLinks(), value, slot, at), r.path, r.focus) &&
          doubleBlackParent == (if r.short then r.path.Parent() else NULL) &&
        (r.short ==> r.path.Below? && side == r.path.side)
    {
      hide Stores, Plug, IsRedBlack, Successor, Leftmost, First, Fill, SuccessorParent, Ids;
      ghost var s := TheLinks();
      if t.left.Leaf? && t.right.Leaf? {
        assert Successor(t) == Leaf by { NothingLeft(t); }
        assert p.Below? ==> p.id != NULL by { if p.Below? { SlotBelow(s, p, Leaf); } }
      } else if t.left.Leaf? {
        CopyToChild(s, p, t, t.right);
      } else if t.right.Leaf? {
        CopyToChild(s, p, t, t.left);
      } else if t.right.left.Leaf? {
        CopyToRight(s, p, t);
      } else {
        CopyFromAfar(s, p, t);
      }
      KidField(slot.side, slot.owner);
      var firstRed := IsRedNode(slot.replacement);
      var secondRed := if slot.oldParent == value && !twoChildren then ColourOfNode(value).Red? else IsRedNode(at);
      doubleBlackParent, side := NULL, Left;
      if slot.oldParent != NULL && !firstRed && !secondRed {
        if slot.oldParent != value {
          doubleBlackParent, side := slot.oldParent, slot.side;
        } else if twoChildren {
          doubleBlackParent, side := slot.replacement, if slot.owner == value && slot.side.Left? then Left else Right;
        } else {
          doubleBlackParent, side := valueParent, if slot.owner == valueParent && slot.side.Left? then Left else Right;
        }
      }
    }

    method PassColours(value: Ref, slot: Slot, at: Ref, ghost ids: set<Ref>)
      requires Confined(TheLinks(), ids)
      modifies this`colour
      ensures Confined(TheLinks(), ids) && TheLinks() == ColoursPassed(old(TheLinks()), value, slot, at)
    {
      hide Confined, Inside;
      var replacement := slot.replacement;
      if replacement != NULL {
        if slot.owner != NULL && at != NULL {
          SetColourConfined(TheLinks(), at, ColourOfNode(replacement), ids);
          colour := colour[at := ColourOfNode(replacement)];
        }
        SetColourConfined(TheLinks(), replacement, ColourOfNode(value), ids);
        colour := colour[replacement := ColourOfNode(value)];
      }
    }

    /** The first part of erase, after the node has been taken out: find out whether a black node is missing, and
        where, and pass the colours on. */
    method CopyColours(value: Ref, twoChildren: bool, valueParent: Ref, slot: Slot, ghost p: Path, ghost t: Tree,
        ghost ids: set<Ref>)
        returns (doubleBlackParent: Ref, side: Side)
      requires t.Node? && t.id == value && Stores(TheLinks(), p, Successor(t)) && SlotIs(p, t, slot) &&
        IsRedBlack(Plug(p, t))
      requires ColourOfNode(value) == t.colour && At(left, value) == At(right, value) == NULL && value != NULL
      requires twoChildren == (t.left.Node? && t.right.Node?) && valueParent == p.Parent() &&
        value !in Ids(Successor(t))
      requires Confined(TheLinks(), ids)
      modifies this`colour
      ensures Confined(TheLinks(), ids)
      ensures var r := Remove(p, t);
        Stores(TheLinks(), r.path, r.focus) && doubleBlackParent == (if r.short then r.path.Parent() else NULL) &&
        (r.short ==> r.path.Below? && side == r.path.side)
    {
      hide Stores, Plug, IsRedBlack, Successor, Leftmost, First, Fill, SuccessorParent, Confined, Ids, Inside, Remove,
        ColoursPassed, SlotIs;
      var at := if slot.side.Left? then At(left, slot.owner) else At(right, slot.owner);
      KidField(slot.side, slot.owner);
      doubleBlackParent, side := FindMissing(value, twoChildren, valueParent, slot, at, p, t);
      PassColours(value, slot, at, ids);
    }

    lemma KidField(side: Side, id: Ref)
      ensures Kid(TheLinks(), side, id) == if side.Left? then At(left, id) else At(right, id)
    {}

    lemma PathInTree(p: Path)
      requires p.Below? && Plug(p, Leaf) == tree
      ensures p.id in Ids(tree)
    {
      InOrderOfPlug(p, Leaf);
      PathOrderIds(p);
      OrderIds(tree);
      PathHead(p);
    }

    lemma InTree(p: Path, t: Tree)
      requires t.Node? && Plug(p, t) == tree && Sorted(Order(), key)
      ensures t.id in key && t.id in Order() && exists i :: 0 <= i < |Order()| && Order()[i] == t.id
    {
      InOrderOfPlug(p, t);
      InOrderOfNode(t);
      assert t.id in Order();
    }
  }

  lemma ItemIsIn(order: seq<Ref>, i: int)
    ensures Item(order, i) == NULL || Item(order, i) in order
  {}

  lemma AttachKeepsColours(s: Links, side: Side, current: Ref, v: Ref)
    ensures ColourAt(AttachLinks(s, side, current, v), v) == ColourAt(s, v)
  {}

  lemma RootKeepsColours(s: Links, v: Ref)
    ensures ColourAt(s.(root := v), v) == ColourAt(s, v)
  {}

  lemma {:induction false} RootFocus(s: Links, p: Path, t: Tree)
    requires t.Node? && Stores(s, p, t)
    ensures t.id == s.root <==> p.Top?
  {
    if p.Below? {
      NullApart(t);
      RootOnPath(s, p, t.id);
    }
  }

  lemma {:induction false} RootOnPath(s: Links, p: Path, focus: Ref)
    requires p.Below? && StoresPath(s, p, focus)
    ensures s.root in PathIds(p)
    decreases p
  {
    if p.up.Below? {
      RootOnPath(s, p.up, p.id);
    }
  }

  lemma ThreeColours(s: Links, a: Ref, b: Ref, c: Ref)
    ensures RecolourStep(s, a, b, c) == s.(colour := s.colour[a := Black][b := Black][c := Red])
  {}

  lemma OneColour(s: Links, a: Ref, c: Colour)
    ensures SetColour(s, a, c) == s.(colour := s.colour[a := c])
  {}

  lemma OwnSibling(s: Links, p: Path, t: Tree)
    requires p.Below? && p.sibling.Node? && Stores(s, p, t)
    ensures p.sibling.id != p.id
  {
    NullApart(p.sibling);
  }

  lemma TwoColours(s: Links, a: Ref, b: Ref)
    ensures SetColour(SetColour(s, a, Black), b, Red) == s.(colour := s.colour[a := Black][b := Red])
  {}

  lemma NotRed(t: Tree)
    requires IsRedBlack(t)
    ensures !t.IsRed()
  {}

  lemma {:induction false} FixedNode(p: Path, t: Tree)
    requires t.Node?
    ensures InsertFix(p, t).Node?
    decreases p
  {
    if p.Top? || p.colour.Black? || p.up.Top? {
      PluggedNode(p, t);
    } else if p.up.sibling.IsRed() {
      FixedNode(p.up.up, Recoloured(p, t));
    } else if p.side == p.up.side {
      PluggedNode(p.up.up, RotatedOuter(p, t));
    } else {
      PluggedNode(p.up.up, RotatedInner(p, t));
    }
  }

  lemma {:induction false} PluggedNode(p: Path, t: Tree)
    requires t.Node?
    ensures Plug(p, t).Node?
    decreases p
  {
    if p.Below? {
      PluggedNode(p.up, Join(p.side, p.colour, t, p.id, p.sibling));
    }
  }

  /** The position of the node in focus in the order of the whole tree. */
  function Position(p: Path, t: Tree): nat
    requires t.Node?
  {
    |Before(p)| + |InOrder(t.left)|
  }

  /** The parent of the successor of a node with two children. */
  function SuccessorParent(t: Tree): Ref
    requires t.Node? && t.right.Node?
  {
    Leftmost(t.right, Below(Right, t.colour, t.id, t.left, Top)).0.Parent()
  }

  /** What remove_from_tree returns. */
  datatype Slot = Slot(replacement: Ref, oldParent: Ref, owner: Ref, side: Side)

  function RemovalSlot(s: Links, succ: Ref, v: Ref): Slot {
    var up := Parent(s, v);
    if Kid(s, Left, v) == NULL && Kid(s, Right, v) == NULL then
      if up == NULL then Slot(NULL, NULL, NULL, Left)
        else Slot(NULL, v, up, if Kid(s, Left, up) == v then Left else Right)
    else if Kid(s, Left, v) == NULL then Slot(Kid(s, Right, v), v, v, Right)
    else if Kid(s, Right, v) == NULL then Slot(Kid(s, Left, v), v, v, Left)
    else Slot(succ, Parent(s, succ), Parent(s, succ), if Kid(s, Left, Parent(s, succ)) == succ then Left else Right)
  }

  function NewFront(s: Links, h: Thread, v: Ref): Ref {
    var up := Parent(s, v);
    if Kid(s, Left, v) == NULL && Kid(s, Right, v) == NULL then
      if up == NULL then NULL else if Kid(s, Left, up) == v && v == h.front then up else h.front
    else if Kid(s, Left, v) == NULL && v == h.front then At(h.next, v)
    else h.front
  }

  function NewBack(s: Links, h: Thread, v: Ref): Ref {
    var up := Parent(s, v);
    if Kid(s, Left, v) == NULL && Kid(s, Right, v) == NULL then
      if up == NULL then NULL else if Kid(s, Left, up) != v && v == h.back then up else h.back
    else if Kid(s, Left, v) != NULL && Kid(s, Right, v) == NULL && v == h.back then At(h.previous, v)
    else h.back
  }

  /** The same, in terms of the tree. */
  ghost predicate SlotIs(p: Path, t: Tree, slot: Slot)
    requires t.Node?
  {
    if t.left.Leaf? && t.right.Leaf? then
      slot.replacement == NULL &&
      if p.Top? then slot.oldParent == NULL && slot.owner == NULL
        else slot.oldParent == t.id && slot.owner == p.id && slot.side == p.side
    else if t.left.Leaf? then slot == Slot(t.right.id, t.id, t.id, Right)
    else if t.right.Leaf? then slot == Slot(t.left.id, t.id, t.id, Left)
    else slot == Slot(First(t.right), SuccessorParent(t), SuccessorParent(t), if t.right.left.Leaf? then Right else Left)
  }

  lemma NothingLeft(t: Tree)
    requires t.Node? && t.left.Leaf? && t.right.Leaf?
    ensures Successor(t) == Leaf
  {}

  lemma RootOfStored(s: Links, t: Tree)
    requires Stores(s, Top, t)
    ensures t.Root() != NULL <==> t.Node?
  {
    NullApart(t);
  }

  lemma OrderWithout(p: Path, t: Tree)
    requires t.Node?
    ensures Position(p, t) < |InOrder(Plug(p, t))|
    ensures Before(p) + InOrder(t.left) + InOrder(t.right) + After(p) == Removed(InOrder(Plug(p, t)), Position(p, t))
  {
    hide Plug, InOrder, Before, After, Removed;
    InOrderOfPlug(p, t);
    InOrderOfNode(t);
    RemovedAround(Before(p), InOrder(t.left), t.id, InOrder(t.right), After(p));
  }

  lemma RemovedAround(a: seq<Ref>, b: seq<Ref>, v: Ref, c: seq<Ref>, d: seq<Ref>)
    ensures |a| + |b| < |a + (b + [v] + c) + d| && Removed(a + (b + [v] + c) + d, |a| + |b|) == a + b + c + d
  {
    var order := a + (b + [v] + c) + d;
    assert order[..|a| + |b|] == a + b;
    assert order[|a| + |b| + 1..] == c + d;
  }

  // ----- which nodes are in the tree

  ghost predicate SameIds(ids: set<Ref>, t: Tree) {
    forall id :: id in ids <==> id in InOrder(t)
  }

  lemma AllIds(ids: set<Ref>, t: Tree)
    requires SameIds(ids, t)
    ensures Ids(t) == ids
  {
    OrderIds(t);
  }

  lemma InsertedIds(tree: Tree, p: Path, v: Ref)
    requires Plug(p, Leaf) == tree
    ensures var t := InsertFix(p, Node(Red, Leaf, v, Leaf));
      SameIds(Ids(tree) + {v}, t) && SameIds(Ids(tree) + {v}, t.Blackened())
  {
    var t := Node(Red, Leaf, v, Leaf);
    OrderIds(tree);
    InOrderOfPlug(p, Leaf);
    InOrderOfPlug(p, t);
    InsertFixKeepsOrder(p, t);
    InOrderBlackened(InsertFix(p, t));
    assert InOrder(t) == [v] && InOrder(Leaf) == [];
  }

  lemma FocusIds(ids: set<Ref>, p: Path, t: Tree)
    requires t.Node? && p.Below? && p.up.Below? && SameIds(ids, InsertFix(p, t))
    ensures p.id in ids && p.up.id in ids
  {
    InsertFixKeepsOrder(p, t);
    InOrderOfPlug(p, t);
    PathOrderIds(p);
    assert p.id in PathIds(p) && p.up.id in PathIds(p);
  }

  /** What the loop of erase leads to. */
  ghost function FixedTree(p: Path, t: Tree, short: bool, h: nat): Tree
    requires short ==> Balanced(t, h) && Surrounds(p, h + 1, Black)
  {
    if short then EraseFix(p, t, h) else Plug(p, t)
  }

  lemma ErasedIds(tree: Tree, p: Path, t: Tree, h: nat)
    requires t.Node? && Plug(p, t) == tree && Distinct(InOrder(tree))
    requires var r := Remove(p, t); Balanced(r.focus, h) && (r.short ==> Surrounds(r.path, h + 1, Black))
    requires InOrder(RedBlackTree.Erase(p, t, h)) == Before(p) + InOrder(t.left) + InOrder(t.right) + After(p)
    ensures var r := Remove(p, t); SameIds(Ids(tree) - {t.id}, FixedTree(r.path, r.focus, r.short, h))
  {
    hide Plug, InOrder, EraseFix, Remove, Balanced, Surrounds, Before, After;
    var r := Remove(p, t);
    InOrderBlackened(FixedTree(r.path, r.focus, r.short, h));
    OrderIds(tree);
    InOrderOfPlug(p, t);
    InOrderOfNode(t);
    OneGone(Before(p), InOrder(t.left), t.id, InOrder(t.right), After(p));
  }

  lemma OneGone(a: seq<Ref>, b: seq<Ref>, v: Ref, c: seq<Ref>, d: seq<Ref>)
    requires Distinct(a + (b + [v] + c) + d)
    ensures forall id :: id in a + b + c + d <==> id in a + (b + [v] + c) + d && id != v
  {
    var order := a + (b + [v] + c) + d;
    assert order[|a| + |b|] == v;
    assert order[..|a| + |b|] == a + b && order[|a| + |b| + 1..] == c + d;
    assert forall i :: 0 <= i < |a| + |b| ==> (a + b)[i] == order[i];
    assert forall i :: 0 <= i < |c| + |d| ==> (c + d)[i] == order[|a| + |b| + 1 + i];
    assert a + b + c + d == (a + b) + (c + d);
  }

  lemma PaledFix(p: Path, t: Tree, h: nat)
    requires p.Below? && Balanced(t, h) && Surrounds(p, h + 1, Black)
    requires p.sibling.colour.Black? && !p.sibling.left.IsRed() && !p.sibling.right.IsRed()
    ensures Balanced(Paled(p, t), h + 1) && Surrounds(p.up, h + 1 + Weight(p.colour), Black)
    ensures EraseFix(p, t, h) == if p.colour.Red? then Plug(p.up, Paled(p, t)) else EraseFix(p.up, Paled(p, t), h + 1)
  {
    PaledBalanced(p, t, h);
    SurroundsBlack(p.up, h + 1 + Weight(p.colour), p.colour);
  }

  lemma ShortFocusIds(ids: set<Ref>, p: Path, t: Tree, h: nat)
    requires p.Below? && p.sibling.Node? && Balanced(t, h) && Surrounds(p, h + 1, Black) &&
      SameIds(ids, EraseFix(p, t, h))
    ensures p.id in ids && p.sibling.id in ids
  {
    EraseFixKeepsOrder(p, t, h);
    InOrderOfPlug(p, t);
    PathOrderIds(p);
    assert p.id in PathIds(p) && p.sibling.id in PathIds(p);
  }

  lemma WholeIds(p: Path, t: Tree)
    requires t.Node?
    ensures t.id in Ids(Plug(p, t))
  {
    OrderIds(Plug(p, t));
    InOrderOfPlug(p, t);
    InOrderOfNode(t);
  }

  lemma FirstInTree(p: Path, t: Tree)
    requires t.Node? && t.right.Node?
    ensures First(t.right) in Ids(Plug(p, t))
  {
    OrderIds(Plug(p, t));
    InTheMiddle(p, t);
  }

  lemma TopStored(s: Links, t: Tree)
    requires Stores(s, Top, t)
    ensures StoresTree(s, t, NULL) && Apart(t)
  {}

  lemma SuccessorIds(s: Links, p: Path, t: Tree)
    requires t.Node? && Stores(s, p, t)
    ensures Ids(Plug(p, Successor(t))) == Ids(Plug(p, t)) - {t.id}
  {
    PlugIds(p, t);
    PlugIds(p, Successor(t));
    SuccessorApart(s, p, t);
    if t.right.Node? { DropFirstIds(t.right); }
  }

  lemma {:induction false} PlugIds(p: Path, t: Tree)
    ensures Ids(Plug(p, t)) == Ids(t) + PathIds(p)
    decreases p
  {
    hide Join, Ids;
    if p.Below? {
      PlugIds(p.up, Join(p.side, p.colour, t, p.id, p.sibling));
      JoinApart(p.side, p.colour, t, p.id, p.sibling);
    }
  }

  lemma LooseLinks(s: Links, ids: set<Ref>, v: Ref)
    requires Confined(s, ids) && v !in ids && v != NULL
    ensures Kid(s, Left, v) == NULL && Kid(s, Right, v) == NULL && Parent(s, v) == NULL
  {}

  lemma LooseThread(h: Thread, order: seq<Ref>, v: Ref)
    requires ThreadConfined(h, order) && v !in order && v != NULL
    ensures At(h.previous, v) == NULL && At(h.next, v) == NULL
  {}

  lemma FirstThreadConfined(h: Thread, v: Ref)
    requires ThreadConfined(h, [])
    ensures ThreadConfined(h.(front := v, back := v), [] + [v] + [])
  {}

  lemma RootConfined(s: Links, v: Ref, ids: set<Ref>)
    requires Confined(s, ids)
    ensures Confined(s.(root := v), ids)
  {
    forall d, i ensures Kid(s.(root := v), d, i) == Kid(s, d, i) && Parent(s.(root := v), i) == Parent(s, i) {}
  }

  lemma AttachLinksConfined(s: Links, side: Side, current: Ref, v: Ref, ids: set<Ref>)
    requires Confined(s, ids) && current in ids && v in ids
    ensures Confined(AttachLinks(s, side, current, v), ids)
  {
    SetKidConfined(s, side, current, v, ids);
    SetParentConfined(SetKid(s, side, current, v), v, current, ids);
  }

  lemma SortedByBrackets(p: Path, key: map<Ref, int>, v: Ref)
    requires v in key && Brackets(p, key, key[v]) && Sorted(InOrder(Plug(p, Leaf)), key)
    ensures Sorted(Before(p) + [v] + After(p), key)
  {
    InOrderOfPlug(p, Leaf);
    assert Before(p) + InOrder(Leaf) + After(p) == Before(p) + After(p);
    SortedInsert(Before(p), v, After(p), key);
  }

  // ----- passing the colours on

  lemma OneChild(p: Path, t: Tree, child: Tree)
    requires t.Node? && IsRedBlack(Plug(p, t)) && child.Node?
    requires (t.left.Leaf? && child == t.right) || (t.right.Leaf? && child == t.left)
    ensures child.IsRed() && t.colour.Black?
  {
    hide Plug;
    var total :| Balanced(Plug(p, t), total);
    var height := BalancedUnplug(p, t, total);
  }

  lemma CopyToChild(s: Links, p: Path, t: Tree, child: Tree)
    requires t.Node? && Stores(s, p, Successor(t)) && IsRedBlack(Plug(p, t)) && child.Node?
    requires (t.left.Leaf? && child == t.right) || (t.right.Leaf? && child == t.left)
    ensures Remove(p, t) == Hole(p, WithColour(child, t.colour), false)
    ensures child.id != NULL && ColourAt(s, child.id) == Red
    ensures Stores(SetColour(s, child.id, t.colour), p, WithColour(child, t.colour))
  {
    hide Plug, IsRedBlack, Kid, Parent, SetColour;
    OneChild(p, t, child);
    RecolourFocus(s, p, child, t.colour);
  }

  lemma CopyToRight(s: Links, p: Path, t: Tree)
    requires t.Node? && t.left.Node? && t.right.Node? && t.right.left.Leaf? && Stores(s, p, Successor(t))
    ensures First(t.right) == t.right.id && SuccessorParent(t) == t.id && t.right.id != NULL &&
      ColourAt(s, t.right.id) == t.right.colour
    ensures var q := Below(Right, t.colour, t.right.id, t.left, p);
      Remove(p, t) == Hole(q, t.right.right, t.right.colour.Black?) &&
        Stores(SetColour(s, t.right.id, t.colour), q, t.right.right)
  {
    hide Kid, Parent, SetColour, Stores;
    var y := t.right.id;
    var whole := Node(t.right.colour, t.left, y, t.right.right);
    assert Successor(t) == whole;
    assert y != NULL && ColourAt(s, y) == t.right.colour by { StoredRoot(s, p, whole); StoredColour(s, p, whole); }
    RecolourFocus(s, p, whole, t.colour);
    FocusUp(SetColour(s, y, t.colour), Below(Right, t.colour, y, t.left, p), t.right.right);
  }

  lemma CopyFromAfar(s: Links, p: Path, t: Tree)
    requires t.Node? && t.left.Node? && t.right.Node? && t.right.left.Node? && Stores(s, p, Successor(t)) &&
      ColourAt(s, t.id) == t.colour
    requires t.id !in Ids(Successor(t))
    ensures var q, f := Leftmost(t.right, Below(Right, t.colour, First(t.right), t.left, p)).0,
      Leftmost(t.right, Top).1;
      var x, y := f.right, First(t.right);
      Leftmost(t.right, Below(Right, t.colour, y, t.left, p)).1 == f &&
      q.Below? && q.side.Left? && q.id == SuccessorParent(t) && q.id != NULL && q.id != t.id && y != NULL &&
        ColourAt(s, y) == f.colour &&
      Kid(s, Left, q.id) == x.Root() && (x.Root() == NULL <==> x.Leaf?) &&
        (x.Node? ==> ColourAt(s, x.id) == x.colour && x.id != y && x.id != t.id) &&
      Stores(SetColour(if x.Node? then SetColour(s, x.id, f.colour) else s, y, t.colour), q, WithColour(x, f.colour))
  {
    hide Kid, Parent, ColourAt, SetColour, Stores, Leftmost, First, Fill, SuccessorParent, Ids;
    var f, y, r, l := Leftmost(t.right, Top).1, First(t.right), t.right, t.left;
    var x := f.right;
    var whole := Node(f.colour, l, y, Fill(r, x));
    assert Successor(t) == whole;
    StoredRoot(s, p, whole);
    StoredColour(s, p, whole);
    var b := Below(Right, f.colour, y, l, p);
    FocusUp(s, b, Fill(r, x));
    LeftmostFocus(s, r, b, x);
    LeftmostAnywhere(r, b, Top);
    var q0 := Leftmost(r, b).0;
    LeftmostBelow(r, b);
    var x' := WithColour(x, f.colour);
    var s1 := if x.Node? then SetColour(s, x.id, f.colour) else s;
    if x.Node? {
      RecolourFocus(s, q0, x, f.colour);
      StoredColour(s, q0, x);
    }
    LeftmostFocus(s1, r, b, x');
    FocusUp(s1, b, Fill(r, x'));
    RecolourFocus(s1, p, Node(f.colour, l, y, Fill(r, x')), t.colour);
    var s2 := SetColour(s1, y, t.colour);
    var b' := Below(Right, t.colour, y, l, p);
    FocusUp(s2, b', Fill(r, x'));
    LeftmostFocus(s2, r, b', x');
    LeftmostAnywhere(r, b', Top);
    LeftmostBelow(r, b');
    LeftmostParent(r, b, b');
    assert Leftmost(r, b').0.id == SuccessorParent(t) by { DeepParent(t, b'); }
    SlotBelow(s, q0, x);
    assert q0.id != t.id && (x.Node? ==> x.id != y && x.id != t.id) by { DeepApart(s, p, t, q0, x); }
  }

  lemma DeepParent(t: Tree, b: Path)
    requires t.Node? && t.right.Node? && t.right.left.Node?
    ensures Leftmost(t.right, b).0.Parent() == SuccessorParent(t)
  {
    LeftmostParent(t.right.left, Below(Left, t.right.colour, t.right.id, t.right.right, b),
      Below(Left, t.right.colour, t.right.id, t.right.right, Below(Right, t.colour, t.id, t.left, Top)));
  }

  lemma SlotBelow(s: Links, q: Path, x: Tree)
    requires q.Below? && Stores(s, q, x)
    ensures Kid(s, q.side, q.id) == x.Root() && (x.Root() == NULL <==> x.Leaf?) && q.id != NULL
  {
    NullApart(x);
  }

  lemma DeepApart(s: Links, p: Path, t: Tree, q: Path, x: Tree)
    requires t.Node? && t.left.Node? && t.right.Node? && Stores(s, p, Successor(t)) && t.id !in Ids(Successor(t))
    requires Stores(s, q, x) && q.Below? &&
      q == Leftmost(t.right, Below(Right, Leftmost(t.right, Top).1.colour, First(t.right), t.left, p)).0
    requires x == Leftmost(t.right, Top).1.right && t.right.left.Node?
    ensures q.id != t.id && (x.Node? ==> x.id != First(t.right) && x.id != t.id)
  {
    var b := Below(Right, Leftmost(t.right, Top).1.colour, First(t.right), t.left, p);
    FillIds(t.right, x, b);
    var succ := Successor(t);
    assert Ids(succ) == Ids(t.left) + {First(t.right)} + Ids(Fill(t.right, x));
    assert Apart(succ);
    if x.Node? { NullApart(x); }
  }

  lemma {:induction false} FillIds(t: Tree, g: Tree, b: Path)
    requires t.Node?
    ensures Ids(g) <= Ids(Fill(t, g))
    ensures t.left.Node? ==> Leftmost(t, b).0.Parent() in Ids(Fill(t, g))
    decreases t
  {
    if t.left.Node? {
      FillIds(t.left, g, Below(Left, t.colour, t.id, t.right, b));
    }
  }

  lemma {:induction false} LeftmostParent(t: Tree, p: Path, p': Path)
    requires t.Node? && p.Parent() == p'.Parent()
    ensures Leftmost(t, p).0.Parent() == Leftmost(t, p').0.Parent()
    decreases t
  {
    if !t.left.Leaf? {
      LeftmostParent(t.left, Below(Left, t.colour, t.id, t.right, p), Below(Left, t.colour, t.id, t.right, p'));
    }
  }

  lemma AtTheEnds(h: Thread, order: seq<Ref>, k: nat)
    requires Threads(h, order) && k < |order|
    ensures (order[k] == h.front <==> k == 0) && (order[k] == h.back <==> k == |order| - 1)
  {}

  lemma {:induction false} FirstInOrder(t: Tree)
    requires t.Node?
    ensures InOrder(t) != [] && InOrder(t)[0] == First(t)
    decreases t
  {
    if t.left.Node? {
      FirstInOrder(t.left);
    }
  }

  /** The neighbours in order of the node in focus. */
  lemma InTheMiddle(p: Path, t: Tree)
    requires t.Node?
    ensures var order, k := InOrder(Plug(p, t)), Position(p, t);
      k < |order| && order[k] == t.id &&
      (t.right.Node? ==> k + 1 < |order| && order[k + 1] == First(t.right)) &&
      (t.left.Node? ==> k > 0) &&
      (t.left.Leaf? && t.right.Leaf? && p.Top? ==> |order| == 1) &&
      (t.left.Leaf? && t.right.Leaf? && p.Below? && p.side.Left? ==> k + 1 < |order| && order[k + 1] == p.id) &&
      (t.left.Leaf? && t.right.Leaf? && p.Below? && p.side.Right? ==> k > 0 && order[k - 1] == p.id)
  {
    hide Plug;
    InOrderOfPlug(p, t);
    InOrderOfNode(t);
    if t.right.Node? { FirstInOrder(t.right); }
    if t.left.Node? { FirstInOrder(t.left); }
  }

  lemma EmptyTree(s: Links, t: Tree)
    requires Stores(s, Top, t) && s.root == NULL
    ensures t == Leaf
  {}

  lemma NonEmptyTree(s: Links, t: Tree)
    requires Stores(s, Top, t) && s.root != NULL
    ensures t != Leaf
  {}

  lemma TopIsRoot(s: Links, t: Tree)
    requires Stores(s, Top, t)
    ensures t.Root() == s.root
  {}

  lemma PlugTop(t: Tree)
    ensures Plug(Top, t) == t && Before(Top) == [] && After(Top) == []
  {}

  lemma PlugDown(p: Path, t: Tree, side: Side)
    requires t.Node?
    ensures Plug(Below(side, t.colour, t.id, t.Kid(side.Other()), p), t.Kid(side)) == Plug(p, t)
  {}

  lemma TopBrackets(key: map<Ref, int>, x: int)
    ensures Brackets(Top, key, x)
  {}

  lemma StoredKid(s: Links, p: Path, t: Tree, side: Side)
    requires t.Node? && Stores(s, p, t)
    ensures Kid(s, side, t.id) == t.Kid(side).Root() && (t.Kid(side).Root() == NULL <==> t.Kid(side).Leaf?)
  {
    NullApart(t.Kid(side));
  }

  lemma NotYetIn(p: Path, v: Ref)
    requires v !in InOrder(Plug(p, Leaf))
    ensures v !in PathIds(p)
  {
    PathOrderIds(p);
    InOrderOfPlug(p, Leaf);
  }

  lemma Neighbour(p: Path)
    requires p.Below?
    ensures var k := if p.side.Left? then |Before(p)| else |Before(p)| - 1;
      0 <= k < |Before(p) + After(p)| && (Before(p) + After(p))[k] == p.id
  {}

  lemma InsertedMiddle(before: seq<Ref>, v: Ref, after: seq<Ref>)
    ensures Inserted(before + after, |before|, v) == before + [v] + after
  {}

  lemma ThreadOne(previous: map<Ref, Ref>, next: map<Ref, Ref>, v: Ref)
    requires v != NULL && At(previous, v) == NULL && At(next, v) == NULL
    ensures Threads(Thread(previous, next, v, v), [] + [v] + [])
  {}

  lemma SortedOne(v: Ref, key: map<Ref, int>)
    requires v in key
    ensures Sorted([] + [v] + [], key)
  {}
}
