/** Heaps laid out in a sequence: the children of position i are at 2i + 1 and 2i + 2. */
module HeapOrder {

  function Parent(i: nat): (p: nat)
    requires i > 0
    ensures p < i && (i == 2 * p + 1 || i == 2 * p + 2)
  {
    (i - 1) / 2
  }

  /** No element is less than one of its children. */
  predicate IsHeap(v: seq<int>) {
    forall i | 0 < i < |v| :: v[Parent(i)] >= v[i]
  }

  /** A heap but for the element at `h`, which may be anything; its parent is no less than its children. */
  predicate IsHeapBut(v: seq<int>, h: nat) {
    && (forall i | 0 < i < |v| && i != h && Parent(i) != h :: v[Parent(i)] >= v[i])
    && (forall i | 0 < i < |v| && 0 < h < |v| && Parent(i) == h :: v[Parent(h)] >= v[i])
  }

  predicate FitsAbove(v: seq<int>, h: nat)
    requires h < |v|
  {
    h > 0 ==> v[Parent(h)] >= v[h]
  }

  predicate FitsBelow(v: seq<int>, h: nat)
    requires h < |v|
  {
    forall i | 0 < i < |v| && Parent(i) == h :: v[h] >= v[i]
  }

  function Swapped<T>(v: seq<T>, i: nat, j: nat): seq<T>
    requires i < |v| && j < |v|
  {
    v[i := v[j]][j := v[i]]
  }

  lemma SwappedKeepsElements<T>(v: seq<T>, i: nat, j: nat)
    requires i < |v| && j < |v|
    ensures multiset(Swapped(v, i, j)) == multiset(v)
  {
  }

  lemma FitsIsHeap(v: seq<int>, h: nat)
    requires h < |v| && IsHeapBut(v, h) && FitsAbove(v, h) && FitsBelow(v, h)
    ensures IsHeap(v)
  {
  }

  lemma AnyReplacementIsHeapBut(v: seq<int>, h: nat, x: int)
    requires h < |v| && IsHeap(v)
    ensures IsHeapBut(v[h := x], h)
  {
    var w := v[h := x];
    forall i | 0 < i < |v| && h > 0 && Parent(i) == h ensures w[Parent(h)] >= w[i] {
      assert v[Parent(h)] >= v[h] >= v[i];
    }
  }

  /** An element no less than its parent changes places with it. */
  lemma MoveUp(v: seq<int>, h: nat)
    requires 0 < h < |v| && IsHeapBut(v, h) && v[Parent(h)] <= v[h]
    ensures IsHeapBut(Swapped(v, h, Parent(h)), Parent(h)) && FitsBelow(Swapped(v, h, Parent(h)), Parent(h))
  {
    var p := Parent(h);
    var w := Swapped(v, h, p);
    forall i | 0 < i < |w| && i != p && Parent(i) != p ensures w[Parent(i)] >= w[i] {
      if Parent(i) == h {
        assert v[Parent(h)] >= v[i];
      }
    }
    forall i | 0 < i < |w| && p > 0 && Parent(i) == p ensures w[Parent(p)] >= w[i] {
      assert v[Parent(p)] >= v[p];
      if i != h {
        assert v[Parent(i)] >= v[i];
      }
    }
  }

  /** An element changes places with the largest of its children. */
  lemma MoveDown(v: seq<int>, h: nat, c: nat)
    requires h < |v| && 0 < c < |v| && Parent(c) == h && IsHeapBut(v, h)
    requires forall i | 0 < i < |v| && Parent(i) == h :: v[c] >= v[i]
    ensures IsHeapBut(Swapped(v, h, c), c) && (v[h] <= v[c] ==> FitsAbove(Swapped(v, h, c), c))
    ensures FitsAbove(Swapped(v, h, c), h)
  {
    var w := Swapped(v, h, c);
    forall i | 0 < i < |w| && i != c && Parent(i) != c ensures w[Parent(i)] >= w[i] {
      if i == h {
        assert v[Parent(h)] >= v[c];
      } else if Parent(i) == h {
        assert v[c] >= v[i];
      }
    }
    forall i | 0 < i < |w| && Parent(i) == c ensures w[Parent(c)] >= w[i] {
      assert v[Parent(i)] >= v[i];
    }
  }

  /** The first element is the largest. */
  lemma {:induction false} FirstIsLargest(v: seq<int>, i: nat)
    requires IsHeap(v) && i < |v|
    ensures v[0] >= v[i]
  {
    if i > 0 {
      FirstIsLargest(v, Parent(i));
    }
  }
}

/** Erasing at any position of an array heap, without an element to float: a hole moves instead. */
module ArrayHeap {
  import opened HeapOrder

  /** What the array would hold if the last element were put in the hole. */
  ghost function Filled(v: seq<int>, hole: nat): (r: seq<int>)
    requires hole < |v|
  {
    if hole == |v| - 1 then v[..|v| - 1] else v[..|v| - 1][hole := v[|v| - 1]]
  }

  lemma FilledAtFirst(v: seq<int>, hole: nat)
    requires hole < |v| && IsHeap(v)
    ensures hole < |v| - 1 ==> IsHeapBut(Filled(v, hole), hole)
    ensures IsHeap(v[..|v| - 1])
    ensures multiset(Filled(v, hole)) == multiset(v) - multiset{v[hole]}
  {
    var n := |v| - 1;
    assert v == v[..n] + [v[n]];
    assert IsHeap(v[..n]);
    if hole < n {
      AnyReplacementIsHeapBut(v[..n], hole, v[n]);
    }
  }

  /** Copying a neighbour into the hole moves the hole there. */
  lemma HoleMoves(v: seq<int>, hole: nat, from: nat)
    requires hole < |v| - 1 && from < |v| - 1
    ensures Filled(v[hole := v[from]], from) == Swapped(Filled(v, hole), hole, from)
    ensures multiset(Filled(v[hole := v[from]], from)) == multiset(Filled(v, hole))
  {
    SwappedKeepsElements(Filled(v, hole), hole, from);
  }

  /** The hole is on its way. Once it has risen the last element fits below it, and once it has sunk it fits above
      it. */
  ghost predicate Moving(v: seq<int>, before: seq<int>, at: nat, hole: nat, rose: bool, sank: bool)
    requires at < |before|
  {
    && |v| == |before| && hole < |v| && v[|v| - 1] == before[|v| - 1]
    && multiset(Filled(v, hole)) == multiset(before) - multiset{before[at]}
    && (hole == |v| - 1 ==> v == before && IsHeap(v) && !rose && !sank)
    && (hole < |v| - 1 ==> IsHeapBut(Filled(v, hole), hole))
    && (rose ==> FitsBelow(Filled(v, hole), hole))
    && (sank ==> FitsAbove(Filled(v, hole), hole))
  }

  lemma FilledAt(v: seq<int>, hole: nat)
    requires hole < |v|
    ensures |Filled(v, hole)| == |v| - 1
    ensures forall i | 0 <= i < |v| - 1 :: Filled(v, hole)[i] == if i == hole then v[|v| - 1] else v[i]
  {
  }

  lemma HeapPrefix(v: seq<int>)
    requires IsHeap(v) && |v| > 0
    ensures IsHeap(v[..|v| - 1])
  {
  }

  lemma Starts(before: seq<int>, at: nat)
    requires at < |before| && IsHeap(before)
    ensures Moving(before, before, at, at, false, false)
  {
    FilledAtFirst(before, at);
  }

  /** The last element is larger than the parent of the hole. */
  ghost predicate TooLarge(v: seq<int>, hole: nat) {
    0 < hole < |v| && v[Parent(hole)] < v[|v| - 1]
  }

  /** `child` is the larger child of the hole, and larger than the last element. */
  ghost predicate TooSmall(v: seq<int>, hole: nat, child: nat) {
    && (child == 2 * hole + 1 || child == 2 * hole + 2) && child < |v| - 1 && v[|v| - 1] < v[child]
    && v[child] >= v[2 * hole + 1] && (2 * hole + 2 < |v| - 1 ==> v[child] >= v[2 * hole + 2])
  }

  ghost predicate FitsIn(v: seq<int>, hole: nat) {
    && hole < |v| && (hole > 0 ==> v[Parent(hole)] >= v[|v| - 1])
    && (2 * hole + 1 < |v| - 1 ==> v[|v| - 1] >= v[2 * hole + 1])
    && (2 * hole + 2 < |v| - 1 ==> v[|v| - 1] >= v[2 * hole + 2])
  }

  lemma Rises(v: seq<int>, before: seq<int>, at: nat, hole: nat, rose: bool, sank: bool)
    requires at < |before| && Moving(v, before, at, hole, rose, sank) && TooLarge(v, hole)
    ensures Moving(v[hole := v[Parent(hole)]], before, at, Parent(hole), true, false) && !sank
  {
    hide IsHeapBut, FitsBelow, Filled, Swapped;
    FilledAt(v, hole);
    if hole < |v| - 1 {
      HoleMoves(v, hole, Parent(hole));
      MoveUp(Filled(v, hole), hole);
    }
  }

  lemma LargerOfTwo(w: seq<int>, hole: nat, child: nat)
    requires 0 < child < |w| && 2 * hole + 1 < |w|
    requires w[child] >= w[2 * hole + 1] && (2 * hole + 2 < |w| ==> w[child] >= w[2 * hole + 2])
    ensures forall i | 0 < i < |w| && Parent(i) == hole :: w[child] >= w[i]
  {
    forall i | 0 < i < |w| && Parent(i) == hole ensures w[child] >= w[i] {
      assert i == 2 * hole + 1 || i == 2 * hole + 2;
    }
  }

  lemma Sinks(v: seq<int>, before: seq<int>, at: nat, hole: nat, rose: bool, sank: bool, child: nat)
    requires at < |before| && Moving(v, before, at, hole, rose, sank) && TooSmall(v, hole, child)
    ensures Moving(v[hole := v[child]], before, at, child, false, true) && !rose
  {
    hide IsHeapBut, Filled, Swapped, FitsAbove, FitsBelow, IsHeap;
    FilledAt(v, hole);
    var w := Filled(v, hole);
    assert w[hole] == v[|v| - 1] && w[child] == v[child] && w[2 * hole + 1] == v[2 * hole + 1];
    SinksTo(w, hole, child);
    HoleMoves(v, hole, child);
    if rose {
      BelowFits(w, hole, child);
    }
  }

  lemma SinksTo(w: seq<int>, hole: nat, child: nat)
    requires (child == 2 * hole + 1 || child == 2 * hole + 2) && child < |w| && IsHeapBut(w, hole) &&
      w[hole] <= w[child]
    requires w[child] >= w[2 * hole + 1] && (2 * hole + 2 < |w| ==> w[child] >= w[2 * hole + 2])
    ensures IsHeapBut(Swapped(w, hole, child), child) && FitsAbove(Swapped(w, hole, child), child) &&
      Parent(child) == hole
  {
    hide IsHeapBut, Swapped, FitsAbove;
    assert Parent(child) == hole;
    LargerOfTwo(w, hole, child);
    MoveDown(w, hole, child);
  }

  lemma BelowFits(w: seq<int>, hole: nat, child: nat)
    requires 0 < child < |w| && Parent(child) == hole && FitsBelow(w, hole)
    ensures w[hole] >= w[child]
  {
  }

  lemma Stops(v: seq<int>, before: seq<int>, at: nat, hole: nat, rose: bool, sank: bool)
    requires at < |before| && Moving(v, before, at, hole, rose, sank) && FitsIn(v, hole)
    ensures IsErased(v[hole := v[|v| - 1]], before, at)
  {
    hide Filled, IsHeapBut, IsHeap, FitsAbove, FitsBelow;
    FilledAt(v, hole);
    var w := Filled(v, hole);
    assert v[hole := v[|v| - 1]][..|v| - 1] == w;
    if hole < |v| - 1 {
      assert w[hole] == v[|v| - 1];
      FitsAround(w, hole);
      FitsIsHeap(w, hole);
    } else {
      HeapPrefix(v);
      assert w == v[..|v| - 1];
    }
  }

  lemma FitsAround(w: seq<int>, hole: nat)
    requires hole < |w| && (hole > 0 ==> w[Parent(hole)] >= w[hole])
    requires (2 * hole + 1 < |w| ==> w[hole] >= w[2 * hole + 1]) && (2 * hole + 2 < |w| ==> w[hole] >= w[2 * hole + 2])
    ensures FitsAbove(w, hole) && FitsBelow(w, hole)
  {
    forall i | 0 < i < |w| && Parent(i) == hole ensures w[hole] >= w[i] {
      assert i == 2 * hole + 1 || i == 2 * hole + 2;
    }
  }

  /** Where the hole goes next: nowhere when the last element fits in it. */
  method NextHole(a: array<int>, size: nat, position: nat) returns (next: nat)
    requires position < size <= a.Length
    ensures next < size && (next != position ==> next < size - 1 || TooLarge(a[..size], position))
    ensures if next == position then FitsIn(a[..size], position)
            else if next < position then TooLarge(a[..size], position) && next == Parent(position)
            else TooSmall(a[..size], position, next)
  {
    var child1, child2 := position * 2 + 1, position * 2 + 2;
    if position > 0 && a[Parent(position)] < a[size - 1] {
      next := Parent(position);
    } else if child1 < size - 1 && a[size - 1] < a[child1] {
      next := if child2 < size - 1 && a[child1] < a[child2] then child2 else child1;
    } else if child2 < size - 1 && a[size - 1] < a[child2] {
      next := child2;
    } else {
      next := position;
    }
  }

  method Put(a: array<int>, size: nat, i: nat, x: int)
    requires i < size <= a.Length
    modifies a
    ensures a[..size] == old(a[..size])[i := x] && a[size..] == old(a[size..])
  {
    a[i] := x;
  }

  /** erase_heap and the pop_back after it, on the first `size` elements of the array. */
  method EraseHeap(a: array<int>, size: nat, at: nat)
    requires at < size <= a.Length && IsHeap(a[..size])
    modifies a
    ensures IsHeap(a[..size - 1])
    ensures multiset(a[..size - 1]) == multiset(old(a[..size])) - multiset{old(a[at])}
    ensures a[size..] == old(a[size..])
  {
    hide *;
    ghost var before := a[..size];
    ghost var end := a[size..];
    assert before[at] == a[at];
    if size > 1 {
      MoveHole(a, size, at);
      assert a[..size][..size - 1] == a[..size - 1];
    } else {
      Single(before);
      assert a[..size - 1] == before[..0];
    }
  }

  method MoveHole(a: array<int>, size: nat, at: nat)
    requires at < size <= a.Length && IsHeap(a[..size])
    modifies a
    ensures var v := a[..size][..size - 1];
      IsHeap(v) && multiset(v) == multiset(old(a[..size])) - multiset{old(a[..size])[at]}
    ensures a[size..] == old(a[size..])
  {
    hide *;
    ghost var before, end := a[..size], a[size..];
    Starts(before, at);
    var position: nat := at;
    ghost var rose, sank := false, false;
    var done := false;
    while !done
      invariant position < size && a[size..] == end && !(rose && sank)
      invariant if done then IsErased(a[..size], before, at) else Moving(a[..size], before, at, position, rose, sank)
      decreases !done, if rose then position else if sank then size - position else 2 * size
    {
      position, done, rose, sank := MoveOnce(a, size, position, before, at, rose, sank);
    }
    ErasedParts(a[..size], before, at);
  }

  ghost predicate IsErased(v: seq<int>, before: seq<int>, at: nat)
    requires at < |before|
  {
    |v| == |before| && IsHeap(v[..|v| - 1]) && multiset(v[..|v| - 1]) == multiset(before) - multiset{before[at]}
  }

  lemma ErasedParts(v: seq<int>, before: seq<int>, at: nat)
    requires at < |before| && IsErased(v, before, at)
    ensures |v| == |before| && IsHeap(v[..|v| - 1]) && multiset(v[..|v| - 1]) == multiset(before) - multiset{before[at]}
  {
  }

  /** One round of the loop: the hole moves to a neighbour, or the last element fits in it. */
  method MoveOnce(a: array<int>, size: nat, position: nat, ghost before: seq<int>, ghost at: nat, ghost rose: bool,
      ghost sank: bool)
    returns (next: nat, done: bool, ghost rising: bool, ghost sinking: bool)
    requires position < size <= a.Length && at < |before| == size && !(rose && sank)
    requires Moving(a[..size], before, at, position, rose, sank)
    modifies a
    ensures next < size && a[size..] == old(a[size..]) && !(rising && sinking)
    ensures if done then IsErased(a[..size], before, at) else Moving(a[..size], before, at, next, rising, sinking)
    ensures !done ==> (rising && !sank && next < position) || (sinking && !rose && next > position)
  {
    hide *;
    next := NextHole(a, size, position);
    done, rising, sinking := false, false, false;
    if next == position {
      Stops(a[..size], before, at, position, rose, sank);
      Put(a, size, position, a[size - 1]);
      done := true;
    } else if next < position {
      Rises(a[..size], before, at, position, rose, sank);
      Put(a, size, position, a[next]);
      rising := true;
    } else {
      Sinks(a[..size], before, at, position, rose, sank, next);
      Put(a, size, position, a[next]);
      sinking := true;
    }
  }

  lemma Single(v: seq<int>)
    requires |v| == 1
    ensures IsHeap([]) && multiset(v[..0]) == multiset(v) - multiset{v[0]}
  {
    assert v == [v[0]];
  }
}
