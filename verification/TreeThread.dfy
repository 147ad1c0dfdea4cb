/** The in-order thread: every node knows its previous and its next node, and the set knows the first and the last. */
module TreeThread {
  import opened RedBlackTree
  import opened TreeLinks

  datatype Thread = Thread(previous: map<Ref, Ref>, next: map<Ref, Ref>, front: Ref, back: Ref)

  predicate Distinct(order: seq<Ref>) {
    NULL !in order && forall i, j :: 0 <= i < j < |order| ==> order[i] != order[j]
  }

  function Item(order: seq<Ref>, i: int): Ref {
    if 0 <= i < |order| then order[i] else NULL
  }

  predicate Threads(h: Thread, order: seq<Ref>) {
    Distinct(order) && h.front == Item(order, 0) && h.back == Item(order, |order| - 1) &&
    forall i :: 0 <= i < |order| ==>
      At(h.previous, order[i]) == Item(order, i - 1) && At(h.next, order[i]) == Item(order, i + 1)
  }

  /** insert_in_tree: the new node `v` becomes the `side` child of `current`, which is then its neighbour. */
  function Attach(h: Thread, side: Side, current: Ref, v: Ref): Thread {
    if side.Left? then
      var before := At(h.previous, current);
      Thread(h.previous[v := before][current := v],
             if before != NULL then h.next[v := current][before := v] else h.next[v := current],
             if before != NULL then h.front else v, h.back)
    else
      var after := At(h.next, current);
      Thread(if after != NULL then h.previous[v := current][after := v] else h.previous[v := current],
             h.next[v := after][current := v],
             h.front, if after != NULL then h.back else v)
  }

  function Inserted(order: seq<Ref>, place: nat, v: Ref): seq<Ref>
    requires place <= |order|
  {
    order[..place] + [v] + order[place..]
  }

  lemma ItemOfInserted(order: seq<Ref>, place: nat, v: Ref, i: int)
    requires place <= |order|
    ensures Item(Inserted(order, place, v), i) == if i < place then Item(order, i)
      else if i == place then v else Item(order, i - 1)
  {}

  lemma ItemsDiffer(order: seq<Ref>, i: int, j: int)
    requires Distinct(order) && i != j
    ensures Item(order, i) != Item(order, j) || Item(order, i) == NULL
  {}

  lemma InsertedDistinct(order: seq<Ref>, place: nat, v: Ref)
    requires Distinct(order) && place <= |order| && v !in order && v != NULL
    ensures Distinct(Inserted(order, place, v))
  {
    var order' := Inserted(order, place, v);
    forall i, j | 0 <= i < j < |order'| ensures order'[i] != order'[j] {
      ItemOfInserted(order, place, v, i);
      ItemOfInserted(order, place, v, j);
    }
  }

  lemma ThreadAt(h: Thread, order: seq<Ref>, i: int)
    requires Threads(h, order) && 0 <= i < |order|
    ensures At(h.previous, Item(order, i)) == Item(order, i - 1) && At(h.next, Item(order, i)) == Item(order, i + 1)
    ensures Item(order, i) != NULL
  {}

  /** `v` has come between `a` and `b`, either of which may be null. */
  ghost predicate Between(h: Thread, h': Thread, a: Ref, v: Ref, b: Ref) {
    (forall x :: At(h'.previous, x) == if x == v then a else if x == b && x != NULL then v else At(h.previous, x)) &&
    (forall x :: At(h'.next, x) == if x == v then b else if x == a && x != NULL then v else At(h.next, x)) &&
    h'.front == (if a == NULL then v else h.front) && h'.back == (if b == NULL then v else h.back)
  }

  lemma AttachEffect(h: Thread, side: Side, current: Ref, v: Ref)
    requires current != NULL && v != current && v != At(h.previous, current) && v != At(h.next, current)
    ensures var a := if side.Left? then At(h.previous, current) else current;
      var b := if side.Left? then current else At(h.next, current);
      Between(h, Attach(h, side, current, v), a, v, b)
  {}

  lemma BetweenAt(h: Thread, h': Thread, order: seq<Ref>, place: nat, v: Ref, i: nat)
    requires Threads(h, order) && place <= |order| && v !in order && v != NULL
    requires Between(h, h', Item(order, place - 1), v, Item(order, place))
    requires i <= |order|
    ensures var order' := Inserted(order, place, v);
      At(h'.previous, Item(order', i)) == Item(order', i - 1) && At(h'.next, Item(order', i)) == Item(order', i + 1)
  {
    hide Threads, Inserted, At, Item;
    ItemOfInserted(order, place, v, i - 1);
    ItemOfInserted(order, place, v, i);
    ItemOfInserted(order, place, v, i + 1);
    if i != place {
      var j := if i < place then i else i - 1;
      ThreadAt(h, order, j);
      assert Distinct(order) by { ThreadEnds(h, order); }
      ItemIn(order, j);
      if j != place { ItemsDiffer(order, j, place); }
      if j != place - 1 { ItemsDiffer(order, j, place - 1); }
    }
  }

  lemma ItemIn(order: seq<Ref>, i: int)
    requires 0 <= i < |order|
    ensures Item(order, i) in order
  {}

  lemma AttachThreads(h: Thread, side: Side, k: nat, order: seq<Ref>, v: Ref)
    requires Threads(h, order) && k < |order| && v !in order && v != NULL
    ensures Threads(Attach(h, side, order[k], v), Inserted(order, if side.Left? then k else k + 1, v))
  {
    hide Threads, Attach, Distinct, Inserted;
    var place := if side.Left? then k else k + 1;
    var h', order' := Attach(h, side, order[k], v), Inserted(order, place, v);
    ThreadEnds(h, order);
    ThreadAt(h, order, k);
    AttachEffect(h, side, order[k], v);
    InsertedDistinct(order, place, v);
    ItemOfInserted(order, place, v, 0);
    ItemOfInserted(order, place, v, |order|);
    assert |order'| == |order| + 1 by { InsertedLength(order, place, v); }
    assert NULL !in order by { DistinctNull(order); }
    forall i | 0 <= i < |order'|
      ensures At(h'.previous, order'[i]) == Item(order', i - 1) && At(h'.next, order'[i]) == Item(order', i + 1)
    {
      BetweenAt(h, h', order, place, v, i);
    }
    ThreadsFrom(h', order');
  }

  lemma InsertedLength(order: seq<Ref>, place: nat, v: Ref)
    requires place <= |order|
    ensures |Inserted(order, place, v)| == |order| + 1
  {}

  lemma DistinctNull(order: seq<Ref>)
    requires Distinct(order)
    ensures NULL !in order
  {}

  lemma ThreadEnds(h: Thread, order: seq<Ref>)
    requires Threads(h, order)
    ensures Distinct(order) && h.front == Item(order, 0) && h.back == Item(order, |order| - 1)
  {}

  lemma ThreadsFrom(h: Thread, order: seq<Ref>)
    requires Distinct(order) && h.front == Item(order, 0) && h.back == Item(order, |order| - 1)
    requires forall i :: 0 <= i < |order| ==>
               At(h.previous, order[i]) == Item(order, i - 1) && At(h.next, order[i]) == Item(order, i + 1)
    ensures Threads(h, order)
  {}

  /** erase_from_order */
  function Unthread(h: Thread, v: Ref): Thread {
    var before, after := At(h.previous, v), At(h.next, v);
    var next1 := if before != NULL then h.next[before := after] else h.next;
    var previous1 := if after != NULL then h.previous[after := before] else h.previous;
    Thread(previous1[v := NULL], next1[v := NULL], h.front, h.back)
  }

  function Removed(order: seq<Ref>, k: nat): seq<Ref>
    requires k < |order|
  {
    order[..k] + order[k + 1..]
  }

  lemma ItemOfRemoved(order: seq<Ref>, k: nat, i: int)
    requires k < |order|
    ensures Item(Removed(order, k), i) == if i < k then Item(order, i) else Item(order, i + 1)
  {}

  /** `v` has gone from between `a` and `b`. */
  ghost predicate Closed(h: Thread, h': Thread, a: Ref, v: Ref, b: Ref) {
    (forall x :: At(h'.previous, x) == if x == v then NULL else if x == b && x != NULL then a else At(h.previous, x)) &&
    (forall x :: At(h'.next, x) == if x == v then NULL else if x == a && x != NULL then b else At(h.next, x))
  }

  lemma UnthreadEffect(h: Thread, v: Ref)
    ensures Closed(h, Unthread(h, v), At(h.previous, v), v, At(h.next, v))
  {}

  lemma ItemIs(order: seq<Ref>, k: nat)
    requires k < |order|
    ensures Item(order, k) == order[k]
  {}

  lemma ClosedInside(g: Thread, h: Thread, h': Thread, a: Ref, v: Ref, b: Ref)
    requires Closed(g, h', a, v, b) && g.previous == h.previous && g.next == h.next
    ensures Closed(h, h', a, v, b)
  {}

  lemma ClosedAt(h: Thread, h': Thread, order: seq<Ref>, k: nat, i: nat)
    requires Threads(h, order) && k < |order| && i + 1 < |order|
    requires Closed(h, h', Item(order, k - 1), Item(order, k), Item(order, k + 1))
    ensures var order' := Removed(order, k);
      At(h'.previous, Item(order', i)) == Item(order', i - 1) && At(h'.next, Item(order', i)) == Item(order', i + 1)
  {
    hide Threads, Removed, At, Item;
    ItemOfRemoved(order, k, i - 1);
    ItemOfRemoved(order, k, i);
    ItemOfRemoved(order, k, i + 1);
    var j := if i < k then i else i + 1;
    ThreadAt(h, order, j);
    ThreadEnds(h, order);
    ItemsDiffer(order, j, k);
    if j != k - 1 { ItemsDiffer(order, j, k - 1); }
    if j != k + 1 { ItemsDiffer(order, j, k + 1); }
  }

  lemma RemovedDistinct(order: seq<Ref>, k: nat)
    requires Distinct(order) && k < |order|
    ensures Distinct(Removed(order, k)) && |Removed(order, k)| == |order| - 1
  {
    var order' := Removed(order, k);
    forall i, j | 0 <= i < j < |order'| ensures order'[i] != order'[j] {
      ItemOfRemoved(order, k, i);
      ItemOfRemoved(order, k, j);
    }
  }

  lemma UnthreadThreads(h: Thread, k: nat, order: seq<Ref>, front: Ref, back: Ref)
    requires Threads(h, order) && k < |order|
    requires front == if k == 0 then Item(order, 1) else h.front
    requires back == if k == |order| - 1 then Item(order, |order| - 2) else h.back
    ensures Threads(Unthread(h.(front := front, back := back), order[k]), Removed(order, k))
  {
    hide Threads, Distinct, Removed, Unthread, At, Closed, Item;
    ItemIs(order, k);
    var g := h.(front := front, back := back);
    var h', order' := Unthread(g, order[k]), Removed(order, k);
    assert h'.front == front && h'.back == back by { UnthreadEnds(g, order[k]); }
    ThreadEnds(h, order);
    ThreadAt(h, order, k);
    UnthreadEffect(g, order[k]);
    ClosedInside(g, h, h', Item(order, k - 1), order[k], Item(order, k + 1));
    RemovedDistinct(order, k);
    ItemOfRemoved(order, k, 0);
    ItemOfRemoved(order, k, |order| - 2);
    forall i | 0 <= i < |order'|
      ensures At(h'.previous, order'[i]) == Item(order', i - 1) && At(h'.next, order'[i]) == Item(order', i + 1)
    {
      ClosedAt(h, h', order, k, i);
      ItemIs(order', i);
    }
    ThreadsFrom(h', order');
  }

  lemma UnthreadEnds(h: Thread, v: Ref)
    ensures Unthread(h, v).front == h.front && Unthread(h, v).back == h.back
  {}

  /** Nodes that are not in the order have null thread links, and no operation touches them. */
  ghost predicate ThreadConfined(h: Thread, order: seq<Ref>) {
    forall x :: x !in order && x != NULL ==> At(h.previous, x) == NULL && At(h.next, x) == NULL
  }

  lemma AttachConfined(h: Thread, side: Side, k: nat, order: seq<Ref>, v: Ref)
    requires Threads(h, order) && k < |order| && v !in order && v != NULL && ThreadConfined(h, order)
    ensures ThreadConfined(Attach(h, side, order[k], v), Inserted(order, if side.Left? then k else k + 1, v))
  {
    hide Threads, Attach, At;
    var place := if side.Left? then k else k + 1;
    ThreadAt(h, order, k);
    assert Item(order, k) == order[k];
    assert NULL !in order by { ThreadEnds(h, order); DistinctNull(order); }
    AttachEffect(h, side, order[k], v);
    forall x | x !in Inserted(order, place, v) && x != NULL
      ensures At(Attach(h, side, order[k], v).previous, x) == NULL && At(Attach(h, side, order[k], v).next, x) == NULL
    {
      assert v in Inserted(order, place, v) by { assert Inserted(order, place, v)[place] == v; }
      assert x !in order by { StillIn(order, place, v, x); }
    }
  }

  lemma StillIn(order: seq<Ref>, place: nat, v: Ref, x: Ref)
    requires place <= |order|
    ensures x in Inserted(order, place, v) <==> x == v || x in order
  {
    assert order == order[..place] + order[place..];
  }

  lemma UnthreadConfined(h: Thread, k: nat, order: seq<Ref>, front: Ref, back: Ref)
    requires Threads(h, order) && k < |order| && ThreadConfined(h, order)
    ensures ThreadConfined(Unthread(h.(front := front, back := back), order[k]), Removed(order, k))
  {
    hide Threads, Unthread, At;
    var g := h.(front := front, back := back);
    ThreadAt(h, order, k);
    assert Item(order, k) == order[k];
    UnthreadEffect(g, order[k]);
    forall x | x !in Removed(order, k) && x != NULL
      ensures At(Unthread(g, order[k]).previous, x) == NULL && At(Unthread(g, order[k]).next, x) == NULL
    {
      assert order == order[..k] + [order[k]] + order[k + 1..];
      if x != order[k] {
        assert x !in order;
      }
    }
  }

  /** The elements are kept sorted by their keys. */
  predicate Sorted(order: seq<Ref>, key: map<Ref, int>) {
    (forall i :: 0 <= i < |order| ==> order[i] in key) &&
      forall i, j :: 0 <= i < j < |order| ==> key[order[i]] <= key[order[j]]
  }

  lemma SortedInsert(before: seq<Ref>, v: Ref, after: seq<Ref>, key: map<Ref, int>)
    requires Sorted(before + after, key) && v in key
    requires forall i :: 0 <= i < |before| ==> before[i] in key && key[before[i]] <= key[v]
    requires forall i :: 0 <= i < |after| ==> after[i] in key && key[v] < key[after[i]]
    ensures Sorted(before + [v] + after, key)
  {
    var order, order' := before + after, before + [v] + after;
    assert forall i :: 0 <= i < |order'| ==>
             order'[i] == if i < |before| then before[i] else if i == |before| then v else after[i - |before| - 1];
    assert forall i :: 0 <= i < |before| ==> order[i] == before[i];
    assert forall i :: 0 <= i < |after| ==> order[i + |before|] == after[i];
  }

  lemma SortedRemove(order: seq<Ref>, k: nat, key: map<Ref, int>)
    requires Sorted(order, key) && k < |order|
    ensures Sorted(Removed(order, k), key)
  {
    var order' := Removed(order, k);
    assert forall i :: 0 <= i < |order'| ==> order'[i] == if i < k then order[i] else order[i + 1];
  }

  lemma {:induction false} OrderIds(t: Tree)
    ensures forall id :: id in InOrder(t) <==> id in Ids(t)
    decreases t
  {
    if t.Node? {
      OrderIds(t.left);
      OrderIds(t.right);
    }
  }

  lemma {:induction false} PathOrderIds(p: Path)
    ensures forall id :: id in Before(p) || id in After(p) <==> id in PathIds(p)
    decreases p
  {
    if p.Below? {
      OrderIds(p.sibling);
      PathOrderIds(p.up);
    }
  }
}
