/** A complete binary tree of nodes linked up, left and right. The nodes in level order determine all links, so the
    tree is described by a sequence: the children of the node at position k are at 2k + 1 and 2k + 2.
 */
module HeapLinks {
  import opened HeapOrder

  type Ref = nat
  const NULL: Ref := 0

  datatype Links = Links(up: map<Ref, Ref>, left: map<Ref, Ref>, right: map<Ref, Ref>, top: Ref)

  function At(m: map<Ref, Ref>, id: Ref): Ref {
    if id in m then m[id] else NULL
  }

  function Place(order: seq<Ref>, k: int): Ref {
    if 0 <= k < |order| then order[k] else NULL
  }

  /** The links of the node at position k. */
  predicate Placed(s: Links, order: seq<Ref>, k: nat)
    requires k < |order|
  {
    && At(s.up, order[k]) == (if k == 0 then NULL else order[Parent(k)])
    && At(s.left, order[k]) == Place(order, 2 * k + 1)
    && At(s.right, order[k]) == Place(order, 2 * k + 2)
  }

  predicate Distinct(order: seq<Ref>) {
    (forall k | 0 <= k < |order| :: order[k] != NULL) && forall j, k | 0 <= j < k < |order| :: order[j] != order[k]
  }

  predicate Stores(s: Links, order: seq<Ref>) {
    && Distinct(order) && s.top == Place(order, 0)
    && forall k | 0 <= k < |order| :: Placed(s, order, k)
  }

  // ----- swapChildAndParentNodes

  function Redirected(s: Links, above: Ref, from: Ref, to: Ref): Links {
    if above == NULL then s
    else if At(s.left, above) == from then s.(left := s.left[above := to])
    else s.(right := s.right[above := to])
  }

  function Lifted(up: map<Ref, Ref>, id: Ref, to: Ref): map<Ref, Ref> {
    if id == NULL then up else up[id := to]
  }

  function SwapLinks(s: Links, child: Ref, parent: Ref): Links {
    var above := At(s.up, parent);
    var t := Redirected(s, above, parent, child);
    var isLeft := child == At(t.left, parent);
    var other := if isLeft then At(t.right, parent) else At(t.left, parent);
    var l, r := At(t.left, child), At(t.right, child);
    Links(
      SwapUps(t.up, child, parent, above, other, l, r),
      t.left[parent := l][child := if isLeft then parent else other],
      t.right[parent := r][child := if isLeft then other else parent],
      if t.top == parent then child else t.top)
  }

  function SwapUps(up: map<Ref, Ref>, child: Ref, parent: Ref, above: Ref, other: Ref, l: Ref, r: Ref): map<Ref, Ref> {
    var below := Lifted(Lifted(up, l, parent), r, parent);
    Lifted(below[parent := child], other, child)[child := above]
  }

  lemma AtUpdated(m: map<Ref, Ref>, id: Ref, to: Ref, x: Ref)
    ensures At(m[id := to], x) == if x == id then to else At(m, x)
  {
  }

  lemma AtLifted(m: map<Ref, Ref>, id: Ref, to: Ref, x: Ref)
    ensures At(Lifted(m, id, to), x) == if x == id && id != NULL then to else At(m, x)
  {
  }

  lemma AtRedirected(s: Links, above: Ref, from: Ref, to: Ref, x: Ref)
    ensures var t := Redirected(s, above, from, to);
            t.up == s.up && t.top == s.top
            && At(t.left, x) == (if above != NULL && x == above && At(s.left, above) == from then to else At(s.left, x))
            && At(t.right, x) == (if above != NULL && x == above && At(s.left, above) != from then to
              else At(s.right, x))
  {
  }

  /** The other child of the parent. */
  function Other(s: Links, child: Ref, parent: Ref): Ref {
    if child == At(s.left, parent) then At(s.right, parent) else At(s.left, parent)
  }

  predicate Swappable(s: Links, child: Ref, parent: Ref) {
    child != parent && child != NULL && parent != NULL && At(s.up, parent) != child && At(s.up, parent) != parent
  }

  lemma SwapLeft(s: Links, child: Ref, parent: Ref, x: Ref)
    requires Swappable(s, child, parent)
    ensures At(SwapLinks(s, child, parent).left, x) ==
            if x == child then if child == At(s.left, parent) then parent else Other(s, child, parent)
            else if x == parent then At(s.left, child)
            else if x != NULL && x == At(s.up, parent) && At(s.left, x) == parent then child
            else At(s.left, x)
    ensures SwapLinks(s, child, parent).top == if s.top == parent then child else s.top
  {
    hide At, Redirected, Lifted;
    var above := At(s.up, parent);
    var t := Redirected(s, above, parent, child);
    AtRedirected(s, above, parent, child, parent);
    AtRedirected(s, above, parent, child, child);
    AtRedirected(s, above, parent, child, x);
    AtUpdated(t.left, parent, At(t.left, child), x);
    AtUpdated(t.left[parent := At(t.left, child)], child, if child == At(s.left, parent) then parent
      else Other(s, child, parent), x);
  }

  lemma SwapRight(s: Links, child: Ref, parent: Ref, x: Ref)
    requires Swappable(s, child, parent)
    ensures At(SwapLinks(s, child, parent).right, x) ==
            if x == child then if child == At(s.left, parent) then Other(s, child, parent) else parent
            else if x == parent then At(s.right, child)
            else if x != NULL && x == At(s.up, parent) && At(s.left, x) != parent then child
            else At(s.right, x)
  {
    hide At, Redirected, Lifted;
    var above := At(s.up, parent);
    var t := Redirected(s, above, parent, child);
    AtRedirected(s, above, parent, child, parent);
    AtRedirected(s, above, parent, child, child);
    AtRedirected(s, above, parent, child, x);
    AtUpdated(t.right, parent, At(t.right, child), x);
    AtUpdated(t.right[parent := At(t.right, child)], child, if child == At(s.left, parent) then Other(s, child, parent)
      else parent, x);
  }

  lemma SwapUp(s: Links, child: Ref, parent: Ref, x: Ref)
    requires Swappable(s, child, parent)
    ensures At(SwapLinks(s, child, parent).up, x) ==
            if x == child then At(s.up, parent)
            else if x == parent || (x == Other(s, child, parent) && x != NULL) then child
            else if x != NULL && (x == At(s.left, child) || x == At(s.right, child)) then parent
            else At(s.up, x)
  {
    hide At, Redirected, Lifted;
    var above := At(s.up, parent);
    var t := Redirected(s, above, parent, child);
    AtRedirected(s, above, parent, child, parent);
    AtRedirected(s, above, parent, child, child);
    var l, r, other := At(s.left, child), At(s.right, child), Other(s, child, parent);
    var m := Lifted(Lifted(t.up, l, parent), r, parent);
    AtLifted(t.up, l, parent, x);
    AtLifted(Lifted(t.up, l, parent), r, parent, x);
    AtUpdated(m, parent, child, x);
    AtLifted(m[parent := child], other, child, x);
    AtUpdated(Lifted(m[parent := child], other, child), child, above, x);
  }

  /** Links are found by position, and positions by links. */
  lemma SamePlace(order: seq<Ref>, j: nat, k: int)
    requires Distinct(order) && j < |order|
    ensures order[j] == Place(order, k) <==> j == k
  {
  }

  /** Where what is at position `q` comes from when k and p change places. */
  function Origin(q: int, k: nat, p: nat): int {
    if q == k then p else if q == p then k else q
  }

  lemma SwappedPlace(order: seq<Ref>, k: nat, p: nat, q: int)
    requires k < |order| && p < |order|
    ensures Place(Swapped(order, k, p), q) == Place(order, Origin(q, k, p))
  {
  }

  lemma IsSwappable(s: Links, order: seq<Ref>, k: nat)
    requires Stores(s, order) && 0 < k < |order|
    ensures Swappable(s, order[k], order[Parent(k)])
    ensures order[k] == At(s.left, order[Parent(k)]) <==> k == 2 * Parent(k) + 1
  {
    var p := Parent(k);
    assert Placed(s, order, p);
  }

  lemma LeftPlaced(s: Links, order: seq<Ref>, k: nat, j: nat)
    requires Stores(s, order) && 0 < k < |order| && j < |order|
    ensures var p := Parent(k);
            At(SwapLinks(s, order[k], order[p]).left, Place(order, Origin(j, k, p))) ==
              Place(order, Origin(2 * j + 1, k, p))
  {
    hide SwapLinks, Stores, Distinct, At, Swappable, Parent;
    var p, i := Parent(k), Origin(j, k, Parent(k));
    IsSwappable(s, order, k);
    StoredAt(s, order, k);
    StoredAt(s, order, p);
    StoredAt(s, order, i);
    SamePlace(order, i, p);
    SamePlace(order, i, k);
    SamePlace(order, p, 2 * i + 1);
    if p > 0 {
      SamePlace(order, i, Parent(p));
    }
    SwapLeft(s, order[k], order[p], order[i]);
  }

  lemma RightPlaced(s: Links, order: seq<Ref>, k: nat, j: nat)
    requires Stores(s, order) && 0 < k < |order| && j < |order|
    ensures var p := Parent(k);
            At(SwapLinks(s, order[k], order[p]).right, Place(order, Origin(j, k, p))) ==
              Place(order, Origin(2 * j + 2, k, p))
  {
    hide SwapLinks, Stores, Distinct, At, Swappable, Parent;
    var p, i := Parent(k), Origin(j, k, Parent(k));
    IsSwappable(s, order, k);
    StoredAt(s, order, k);
    StoredAt(s, order, p);
    StoredAt(s, order, i);
    SamePlace(order, i, p);
    SamePlace(order, i, k);
    SamePlace(order, p, 2 * i + 1);
    if p > 0 {
      SamePlace(order, i, Parent(p));
    }
    SwapRight(s, order[k], order[p], order[i]);
  }

  lemma UpPlaced(s: Links, order: seq<Ref>, k: nat, j: nat)
    requires Stores(s, order) && 0 < k < |order| && j < |order|
    ensures var p := Parent(k);
            At(SwapLinks(s, order[k], order[p]).up, Place(order, Origin(j, k, p))) ==
            if j == 0 then NULL else Place(order, Origin(Parent(j), k, p))
  {
    hide SwapLinks, Stores, Distinct, At, Swappable, Parent;
    var p, i := Parent(k), Origin(j, k, Parent(k));
    IsSwappable(s, order, k);
    StoredAt(s, order, k);
    StoredAt(s, order, p);
    StoredAt(s, order, i);
    SamePlace(order, i, p);
    SamePlace(order, i, k);
    SamePlace(order, i, 2 * p + 1);
    SamePlace(order, i, 2 * p + 2);
    SamePlace(order, i, 2 * k + 1);
    SamePlace(order, i, 2 * k + 2);
    SwapUp(s, order[k], order[p], order[i]);
  }

  /** Swapping a node with its parent is swapping their positions. */
  lemma SwapStores(s: Links, order: seq<Ref>, k: nat)
    requires Stores(s, order) && 0 < k < |order|
    ensures Stores(SwapLinks(s, order[k], order[Parent(k)]), Swapped(order, k, Parent(k)))
  {
    hide SwapLinks, At, Swappable;
    var p := Parent(k);
    var s', order' := SwapLinks(s, order[k], order[p]), Swapped(order, k, p);
    forall j | 0 <= j < |order'| ensures Placed(s', order', j) {
      LeftPlaced(s, order, k, j);
      RightPlaced(s, order, k, j);
      UpPlaced(s, order, k, j);
      SwappedPlace(order, k, p, j);
      SwappedPlace(order, k, p, 2 * j + 1);
      SwappedPlace(order, k, p, 2 * j + 2);
      if j > 0 {
        SwappedPlace(order, k, p, Parent(j));
      }
    }
    IsSwappable(s, order, k);
    SwapLeft(s, order[k], order[p], NULL);
  }

  lemma StoredAt(s: Links, order: seq<Ref>, k: nat)
    requires Stores(s, order) && k < |order|
    ensures Placed(s, order, k) && order[k] != NULL && Distinct(order)
  {
  }

  // ----- insertAsLast

  function AppendLinks(s: Links, value: Ref, node: Ref, toRight: bool): Links {
    var t := s.(right := s.right[value := NULL], left := s.left[value := NULL]);
    if t.top == NULL then t.(top := value, up := t.up[value := NULL])
    else
      (if toRight then t.(right := t.right[node := value])
        else t.(left := t.left[node := value])).(up := t.up[value := node])
  }

  lemma AppendStores(s: Links, order: seq<Ref>, value: Ref, node: Ref, toRight: bool)
    requires Stores(s, order) && value != NULL && value !in order
    requires order != [] ==> node == order[Parent(|order|)] && toRight == (|order| == 2 * Parent(|order|) + 2)
    ensures Stores(AppendLinks(s, value, node, toRight), order + [value])
  {
    var s', order' := AppendLinks(s, value, node, toRight), order + [value];
    forall k | 0 <= k < |order'| ensures Placed(s', order', k) {
      if k < |order| {
        StoredAt(s, order, k);
        if order != [] {
          SamePlace(order, k, Parent(|order|));
        }
      }
    }
  }

  // ----- erase

  /** The node's parent, or the top, does not refer to it any more. */
  function UnlinkLast(s: Links, last: Ref): Links {
    if At(s.up, last) == NULL then s.(top := NULL) else Redirected(s, At(s.up, last), last, NULL)
  }

  lemma UnlinkStores(s: Links, order: seq<Ref>)
    requires Stores(s, order) && order != []
    ensures Stores(UnlinkLast(s, order[|order| - 1]), order[..|order| - 1])
  {
    var n := |order| - 1;
    var s', order' := UnlinkLast(s, order[n]), order[..n];
    StoredAt(s, order, n);
    forall k | 0 <= k < n ensures Placed(s', order', k) {
      StoredAt(s, order, k);
      StoredAt(s, order, Parent(n));
      SamePlace(order, k, Parent(n));
      SamePlace(order, n, 2 * k + 1);
      AtRedirected(s, order[Parent(n)], order[n], NULL, order[k]);
    }
  }

  /** `last` takes the place of `node`, which has a parent. */
  function ReplaceLinks(s: Links, node: Ref, last: Ref): Links {
    var above, l, r := At(s.up, node), At(s.left, node), At(s.right, node);
    var t := Redirected(s.(up := s.up[last := above], left := s.left[last := l], right := s.right[last := r]), above,
      node, last);
    t.(up := Lifted(Lifted(t.up, r, last), l, last))
  }

  lemma ReplaceStores(s: Links, order: seq<Ref>, h: nat, last: Ref)
    requires Stores(s, order) && 0 < h < |order| && last != NULL && last !in order
    ensures Stores(ReplaceLinks(s, order[h], last), order[h := last])
  {
    hide Stores, Distinct, At, Lifted, Redirected;
    var s', order' := ReplaceLinks(s, order[h], last), order[h := last];
    forall k | 0 <= k < |order| ensures Placed(s', order', k) {
      ReplacePlaces(s, order, h, last, k);
    }
    StoredAt(s, order, h);
    ReplaceDistinct(order, h, last);
    TopIsFirst(s, order);
    RedirectedTop(s, order[h], last);
    StoresAll(s', order');
  }

  lemma RedirectedTop(s: Links, node: Ref, last: Ref)
    ensures ReplaceLinks(s, node, last).top == s.top
  {
  }

  lemma TopIsFirst(s: Links, order: seq<Ref>)
    requires Stores(s, order)
    ensures s.top == Place(order, 0)
  {
  }

  lemma StoresAll(s: Links, order: seq<Ref>)
    requires Distinct(order) && s.top == Place(order, 0) && forall k | 0 <= k < |order| :: Placed(s, order, k)
    ensures Stores(s, order)
  {
  }

  lemma ReplaceDistinct(order: seq<Ref>, h: nat, last: Ref)
    requires Distinct(order) && h < |order| && last != NULL && last !in order
    ensures Distinct(order[h := last])
  {
  }

  lemma ReplacePlaces(s: Links, order: seq<Ref>, h: nat, last: Ref, k: nat)
    requires Stores(s, order) && 0 < h < |order| && last != NULL && last !in order && k < |order|
    ensures Placed(ReplaceLinks(s, order[h], last), order[h := last], k)
  {
    hide Stores, Distinct, At, Lifted, Redirected, Parent;
    var node, x := order[h], order[h := last][k];
    StoredAt(s, order, h);
    StoredAt(s, order, k);
    var above, l, r := At(s.up, node), At(s.left, node), At(s.right, node);
    var a := s.(up := s.up[last := above], left := s.left[last := l], right := s.right[last := r]);
    AtUpdated(s.up, last, above, x);
    AtUpdated(s.left, last, l, x);
    AtUpdated(s.right, last, r, x);
    AtUpdated(s.left, last, l, above);
    AtRedirected(a, above, node, last, x);
    var t := Redirected(a, above, node, last);
    AtLifted(t.up, r, last, x);
    AtLifted(Lifted(t.up, r, last), l, last, x);
    SamePlace(order, k, Parent(h));
    SamePlace(order, k, h);
    SamePlace(order, k, 2 * h + 1);
    SamePlace(order, k, 2 * h + 2);
    SamePlace(order, h, 2 * k + 1);
  }
}

/** The priority queue kept in such a tree. */
module PointerHeap {
  import opened Division
  import opened HeapOrder
  import opened HeapLinks

  predicate IsPower(d: nat) {
    d == 1 || (d > 1 && d % 2 == 0 && IsPower(d / 2))
  }

  /** The bit of `n` at `direction` says which way to go: the positions passed on the way down are the prefixes of
      the size. */
  lemma NextPrefix(n: nat, direction: nat)
    requires direction > 0
    ensures n / direction == 2 * (n / (2 * direction)) + n / direction % 2
  {
    var q := n / direction;
    DivideAgain(n, direction, 2);
  }

  class PriorityQueue {
    const priority: map<Ref, int>
    var up: map<Ref, Ref>
    var left: map<Ref, Ref>
    var right: map<Ref, Ref>
    var topNode: Ref
    var numberOfElements: nat
    ghost var order: seq<Ref>

    ghost function TheLinks(): Links
      reads this
    {
      Links(up, left, right, topNode)
    }

    function Priority(id: Ref): int {
      if id in priority then priority[id] else 0
    }

    ghost function Priorities(order: seq<Ref>): (r: seq<int>)
      ensures |r| == |order| && forall i | 0 <= i < |order| :: r[i] == Priority(order[i])
    {
      seq(|order|, i requires 0 <= i < |order| => Priority(order[i]))
    }

    ghost predicate Shaped()
      reads this
    {
      Stores(TheLinks(), order) && numberOfElements == |order|
    }

    ghost predicate Valid()
      reads this
    {
      Shaped() && IsHeap(Priorities(order))
    }

    constructor (priority: map<Ref, int>)
      ensures Valid() && order == [] && this.priority == priority
    {
      this.priority := priority;
      up, left, right, topNode, numberOfElements := map[], map[], map[], NULL, 0;
      order := [];
    }

    /** The node on top has the highest priority. */
    method Top() returns (node: Ref)
      requires Valid() && numberOfElements > 0
      ensures node in order && forall id | id in order :: Priority(id) <= Priority(node)
    {
      node := topNode;
      forall id | id in order ensures Priority(id) <= Priority(node) {
        var i :| 0 <= i < |order| && order[i] == id;
        FirstIsLargest(Priorities(order), i);
      }
    }

    /** What refers to `from` in the node above it becomes `to`. */
    method Redirect(above: Ref, from: Ref, to: Ref)
      modifies this`left, this`right
      ensures TheLinks() == Redirected(old(TheLinks()), above, from, to)
    {
      if above != NULL {
        if At(left, above) == from {
          left := left[above := to];
        } else {
          right := right[above := to];
        }
      }
    }

    method Lift(id: Ref, to: Ref)
      modifies this`up
      ensures up == Lifted(old(up), id, to)
    {
      if id != NULL {
        up := up[id := to];
      }
    }

    method SwapChildAndParentNodes(child: Ref, parent: Ref)
      modifies this`up, this`left, this`right, this`topNode
      ensures TheLinks() == SwapLinks(old(TheLinks()), child, parent)
    {
      hide Redirected, Lifted;
      var parentUp := At(up, parent);
      Redirect(parentUp, parent, child);
      var leftRotate := child == At(left, parent);
      var otherChild := if leftRotate then At(right, parent) else At(left, parent);
      left := left[parent := At(left, child)];
      right := right[parent := At(right, child)];
      Lift(At(left, parent), parent);
      Lift(At(right, parent), parent);
      up := up[parent := child];
      Lift(otherChild, child);
      left := left[child := if leftRotate then parent else otherChild];
      right := right[child := if leftRotate then otherChild else parent];
      up := up[child := parentUp];
      if topNode == parent {
        topNode := child;
      }
    }

    /** The node at position k changes places with its parent. */
    method SwapUp(ghost k: nat, child: Ref, parent: Ref)
      requires Shaped() && 0 < k < |order| && child == order[k] && parent == order[Parent(k)]
      modifies this`up, this`left, this`right, this`topNode, this`order
      ensures Shaped() && order == Swapped(old(order), k, Parent(k)) && multiset(order) == multiset(old(order))
      ensures Priorities(order) == Swapped(Priorities(old(order)), k, Parent(k))
    {
      hide Stores;
      SwapStores(TheLinks(), order, k);
      SwappedKeepsElements(order, k, Parent(k));
      SwapChildAndParentNodes(child, parent);
      order := Swapped(order, k, Parent(k));
    }

    /** The highest bit of the size but one, or zero. */
    method SecondBit(n: nat) returns (direction: nat)
      requires n > 0
      ensures if direction == 0 then n == 1 else IsPower(direction) && n / (2 * direction) == 1
    {
      var d := 1;
      while d <= n
        invariant IsPower(d) && (d == 1 || d / 2 <= n)
        decreases n + 1 - d
      {
        d := d * 2;
      }
      direction := d / 4;
      if direction > 0 {
        assert IsPower(d / 2) && d / 2 == 2 * direction;
        Quotient(n, 2 * direction, 1, n - 2 * direction);
      }
    }

    /** Following the bits of the size leads to the last node. */
    method LastNode() returns (node: Ref)
      requires Shaped() && numberOfElements > 0
      ensures node == order[|order| - 1]
    {
      hide Stores, At;
      TopIsFirst(TheLinks(), order);
      node := topNode;
      var n := numberOfElements;
      var direction: nat := SecondBit(n);
      ghost var k: nat := 1;
      while direction != 0
        invariant direction != 0 ==> IsPower(direction) && k == n / (2 * direction)
        invariant direction == 0 ==> k == n
        invariant 1 <= k <= n && node == order[k - 1]
        decreases direction
      {
        NextPrefix(n, direction);
        StoredAt(TheLinks(), order, k - 1);
        PrefixFits(n, direction);
        k := 2 * k + n / direction % 2;
        if n / direction % 2 != 0 {
          node := At(right, node);
        } else {
          node := At(left, node);
        }
        direction := direction / 2;
      }
    }

    /** The node that is to be the parent of a node added as the n-th, and on which side that goes. */
    method ParentOfNext() returns (node: Ref, toRight: bool)
      requires Shaped() && numberOfElements > 0
      ensures node == order[Parent(|order|)] && toRight == (|order| == 2 * Parent(|order|) + 2)
    {
      hide Stores, At;
      TopIsFirst(TheLinks(), order);
      node := topNode;
      var n := numberOfElements + 1;
      var direction: nat := SecondBit(n);
      ghost var k: nat := 1;
      while direction != 1
        invariant IsPower(direction) && k == n / (2 * direction)
        invariant 1 <= k <= n / 2 && node == order[k - 1]
        decreases direction
      {
        NextPrefix(n, direction);
        StoredAt(TheLinks(), order, k - 1);
        HalfPrefixFits(n, direction);
        k := 2 * k + n / direction % 2;
        if n / direction % 2 != 0 {
          node := At(right, node);
        } else {
          node := At(left, node);
        }
        direction := direction / 2;
      }
      toRight := n % 2 != 0;
    }

    method InsertAsLast(value: Ref)
      requires Shaped() && value != NULL && value !in order
      modifies this`up, this`left, this`right, this`topNode, this`numberOfElements, this`order
      ensures Shaped() && order == old(order) + [value]
    {
      hide Stores;
      TopIsFirst(TheLinks(), order);
      FirstIsNotNull(TheLinks(), order);
      if topNode == NULL {
        AppendStores(TheLinks(), order, value, NULL, false);
        right, left := right[value := NULL], left[value := NULL];
        numberOfElements := numberOfElements + 1;
        topNode := value;
        up := up[value := NULL];
      } else {
        var node, toRight := ParentOfNext();
        AppendStores(TheLinks(), order, value, node, toRight);
        right, left := right[value := NULL], left[value := NULL];
        numberOfElements := numberOfElements + 1;
        if toRight {
          right := right[node := value];
        } else {
          left := left[node := value];
        }
        up := up[value := node];
      }
      order := order + [value];
    }

    /** A node that fits with what is below it moves up until it fits with what is above it. */
    method MoveUpwards(node: Ref, passEqual: bool, ghost start: nat)
      requires Shaped() && start < |order| && order[start] == node
      requires IsHeapBut(Priorities(order), start) && FitsBelow(Priorities(order), start)
      modifies this`up, this`left, this`right, this`topNode, this`order
      ensures Valid() && multiset(order) == multiset(old(order))
    {
      hide Stores, Swapped, IsHeapBut, FitsBelow, At, Parent;
      ghost var k: nat := start;
      while At(up, node) != NULL &&
        (Priority(At(up, node)) < Priority(node) || (passEqual && Priority(At(up, node)) == Priority(node)))
        invariant Shaped() && k < |order| && order[k] == node && multiset(order) == multiset(old(order))
        invariant IsHeapBut(Priorities(order), k) && FitsBelow(Priorities(order), k)
        decreases k
      {
        StoredAt(TheLinks(), order, k);
        HeapOrder.MoveUp(Priorities(order), k);
        ghost var before := order;
        SwapUp(k, node, At(up, node));
        SwappedThere(before, k, Parent(k));
        k := Parent(k);
      }
      StoredAt(TheLinks(), order, k);
      if k > 0 {
        StoredAt(TheLinks(), order, Parent(k));
      }
      FitsIsHeap(Priorities(order), k);
    }

    method Push(node: Ref)
      requires Valid() && node != NULL && node !in order
      modifies this`up, this`left, this`right, this`topNode, this`numberOfElements, this`order
      ensures Valid() && multiset(order) == multiset(old(order)) + multiset{node}
    {
      hide Stores, IsHeapBut, FitsBelow, IsHeap;
      ghost var before := order;
      InsertAsLast(node);
      assert Priorities(order) == Priorities(before) + [Priority(node)];
      AppendedIsHeapBut(Priorities(before), Priority(node));
      MoveUpwards(node, false, |before|);
    }

    /** Moves a node down until it has no children; the others stay a heap. */
    method MoveToBottom(node: Ref, ghost start: nat) returns (ghost h: nat)
      requires Shaped() && start < |order| && order[start] == node && IsHeapBut(Priorities(order), start)
      modifies this`up, this`left, this`right, this`topNode, this`order
      ensures Shaped() && multiset(order) == multiset(old(order))
      ensures h < |order| <= 2 * h + 1 && order[h] == node && IsHeapBut(Priorities(order), h)
    {
      hide Stores, Swapped, IsHeapBut, At;
      h := start;
      while true
        invariant Shaped() && h < |order| && order[h] == node && multiset(order) == multiset(old(order))
        invariant IsHeapBut(Priorities(order), h)
        decreases |order| - h
      {
        StoredAt(TheLinks(), order, h);
        NonNull(TheLinks(), order);
        var shiftUpNode := NULL;
        if At(left, node) != NULL && At(right, node) != NULL {
          if Priority(At(left, node)) < Priority(At(right, node)) {
            shiftUpNode := At(right, node);
          } else {
            shiftUpNode := At(left, node);
          }
        } else if At(left, node) != NULL {
          shiftUpNode := At(left, node);
        } else {
          shiftUpNode := At(right, node);
        }
        if shiftUpNode == NULL {
          break;
        }
        ghost var c := if shiftUpNode == At(left, node) then 2 * h + 1 else 2 * h + 2;
        ghost var before := order;
        MoveDownTo(Priorities(order), h, c);
        SwapUp(c, shiftUpNode, node);
        SwappedThere(before, c, h);
        h := c;
      }
    }

    /** The last node is taken out of the tree. */
    method Unlink(last: Ref)
      requires Shaped() && order != [] && last == order[|order| - 1]
      modifies this`left, this`right, this`topNode, this`numberOfElements, this`order
      ensures Shaped() && order == old(order)[..|old(order)| - 1]
    {
      hide Stores, Redirected, At;
      UnlinkStores(TheLinks(), order);
      if At(up, last) == NULL {
        topNode := NULL;
      } else {
        Redirect(At(up, last), last, NULL);
      }
      numberOfElements := numberOfElements - 1;
      order := order[..|order| - 1];
    }

    /** A node outside the tree takes the place of one in it. */
    method Replace(node: Ref, last: Ref, ghost h: nat)
      requires Shaped() && 0 < h < |order| && node == order[h] && last != NULL && last !in order
      modifies this`up, this`left, this`right, this`order
      ensures Shaped() && order == old(order)[h := last]
    {
      hide Stores, Redirected, Lifted, At;
      ReplaceStores(TheLinks(), order, h, last);
      ReplacedKeeps(TheLinks(), order, h, last);
      up := up[last := At(up, node)];
      left := left[last := At(left, node)];
      right := right[last := At(right, node)];
      Redirect(At(up, last), node, last);
      Lift(At(right, last), last);
      Lift(At(left, last), last);
      order := order[h := last];
    }

    /** The last node takes the place of a node without children, and moves up to where it fits. */
    method MoveLastTo(node: Ref, last: Ref, ghost h: nat)
      requires Shaped() && 0 < h < |order| && node == order[h] && last != NULL && last !in order
      requires IsHeapBut(Priorities(order)[h := Priority(last)], h) &&
        FitsBelow(Priorities(order)[h := Priority(last)], h)
      modifies this`up, this`left, this`right, this`topNode, this`order
      ensures Valid() && multiset(order) == multiset(old(order)[h := last])
    {
      hide Stores, IsHeapBut, FitsBelow, IsHeap, Distinct, Placed;
      ghost var was := order;
      Replace(node, last, h);
      assert Priorities(order) == Priorities(was)[h := Priority(last)];
      MoveUpwards(last, true, h);
    }

    method EraseAtBottom(node: Ref, ghost h: nat)
      requires Shaped() && h < |order| <= 2 * h + 1 && order[h] == node && IsHeapBut(Priorities(order), h)
      modifies this`up, this`left, this`right, this`topNode, this`numberOfElements, this`order
      ensures Valid() && multiset(order) == multiset(old(order)) - multiset{node}
    {
      hide Stores, IsHeapBut, FitsBelow, IsHeap, Distinct, Placed;
      ghost var was := order;
      var last := LastNode();
      StoredIsDistinct(TheLinks(), order);
      LastIsElsewhere(order, h);
      LeafReplaced(order, Priorities(order), h);
      Unlink(last);
      assert Priorities(order) == Priorities(was)[..|was| - 1];
      if last != node {
        MoveLastTo(node, last, h);
      }
    }

    /** Erasing any node: it moves to the bottom, the last node takes its place there and moves up to where it fits. */
    method Erase(node: Ref)
      requires Valid() && node in order
      modifies this`up, this`left, this`right, this`topNode, this`numberOfElements, this`order
      ensures Valid() && multiset(order) == multiset(old(order)) - multiset{node}
    {
      hide Stores, IsHeapBut, IsHeap;
      ghost var start :| 0 <= start < |order| && order[start] == node;
      HeapIsHeapBut(Priorities(order), start);
      ghost var h := MoveToBottom(node, start);
      EraseAtBottom(node, h);
    }

    method Pop()
      requires Valid() && numberOfElements > 0
      modifies this`up, this`left, this`right, this`topNode, this`numberOfElements, this`order
      ensures Valid() && old(topNode) in old(order) && multiset(order) == multiset(old(order)) - multiset{old(topNode)}
    {
      TopIsFirst(TheLinks(), order);
      Erase(topNode);
    }
  }

  lemma HeapIsHeapBut(v: seq<int>, h: nat)
    requires IsHeap(v) && h < |v|
    ensures IsHeapBut(v, h)
  {
    AnyReplacementIsHeapBut(v, h, v[h]);
    assert v[h := v[h]] == v;
  }

  /** What the fields hold between the assignments. */
  lemma ReplacedKeeps(s: Links, order: seq<Ref>, h: nat, last: Ref)
    requires Stores(s, order) && 0 < h < |order| && last != NULL && last !in order
    ensures order[h] != last
    ensures At(s.up[last := At(s.up, order[h])], last) == At(s.up, order[h])
    ensures var t := Redirected(s.(up := s.up[last := At(s.up, order[h])], left := s.left[last := At(s.left, order[h])],
      right := s.right[last := At(s.right, order[h])]),
                                At(s.up, order[h]), order[h], last);
            At(t.right, last) == At(s.right, order[h]) && At(t.left, last) == At(s.left, order[h])
  {
    assert Placed(s, order, h);
  }

  lemma LastIsElsewhere(order: seq<Ref>, h: nat)
    requires Distinct(order) && h < |order| <= 2 * h + 1
    ensures var n := |order| - 1;
            order[n] == order[h] <==> h == n
    ensures order[|order| - 1] !in order[..|order| - 1] && order[|order| - 1] != NULL
    ensures h < |order| - 1 ==> h > 0
  {
  }

  /** With the last element in the place of an element without children, only what is above it can be wrong. */
  lemma LeafReplaced(order: seq<Ref>, v: seq<int>, h: nat)
    requires |v| == |order| && h < |v| <= 2 * h + 1 && IsHeapBut(v, h)
    ensures var n := |v| - 1;
            (h == n ==> IsHeap(v[..n]))
            && (h < n ==> IsHeapBut(v[..n][h := v[n]], h) && FitsBelow(v[..n][h := v[n]], h))
    ensures var n := |v| - 1;
            (h == n ==> multiset(order[..n]) == multiset(order) - multiset{order[h]})
            && (h < n ==> multiset(order[..n][h := order[n]]) == multiset(order) - multiset{order[h]})
  {
    var n := |v| - 1;
    assert order == order[..n] + [order[n]];
  }

  lemma StoredIsDistinct(s: Links, order: seq<Ref>)
    requires Stores(s, order)
    ensures Distinct(order)
  {
  }

  lemma NonNull(s: Links, order: seq<Ref>)
    requires Stores(s, order)
    ensures forall k | 0 <= k < |order| :: order[k] != NULL
  {
  }

  lemma SwappedThere(order: seq<Ref>, k: nat, p: nat)
    requires k < |order| && p < |order|
    ensures |Swapped(order, k, p)| == |order| && Swapped(order, k, p)[p] == order[k] &&
      Swapped(order, k, p)[k] == order[p]
  {
  }

  lemma AppendedIsHeapBut(v: seq<int>, x: int)
    requires IsHeap(v)
    ensures IsHeapBut(v + [x], |v|) && FitsBelow(v + [x], |v|)
  {
  }

  lemma MoveDownTo(v: seq<int>, h: nat, c: nat)
    requires h < |v| && IsHeapBut(v, h) && (c == 2 * h + 1 || c == 2 * h + 2) && c < |v|
    requires v[c] >= v[2 * h + 1] && (2 * h + 2 < |v| ==> v[c] >= v[2 * h + 2])
    ensures Parent(c) == h && Swapped(v, c, h) == Swapped(v, h, c) && IsHeapBut(Swapped(v, h, c), c)
  {
    hide IsHeapBut;
    forall i | 0 < i < |v| && Parent(i) == h ensures v[c] >= v[i] {
      assert i == 2 * h + 1 || i == 2 * h + 2;
    }
    MoveDown(v, h, c);
  }

  lemma FirstIsNotNull(s: Links, order: seq<Ref>)
    requires Stores(s, order)
    ensures s.top == NULL <==> order == []
  {
  }

  lemma PrefixFits(n: nat, direction: nat)
    requires direction > 0
    ensures n / direction <= n
  {
    assert n / direction * direction <= n;
    TimesAtLeast(n / direction, direction, 1);
  }

  lemma TimesAtLeast(q: nat, d: nat, e: nat)
    requires d >= e
    ensures q * d >= q * e
  {
  }

  lemma HalfPrefixFits(n: nat, direction: nat)
    requires direction > 1 && direction % 2 == 0
    ensures n / direction <= n / 2 && n / (2 * (direction / 2)) == n / direction
  {
    DivideAgain(n, direction / 2, 2);
    assert 2 * (direction / 2) == direction;
    assert n / direction * direction <= n;
    TimesAtLeast(n / direction, direction, 2);
  }
}
