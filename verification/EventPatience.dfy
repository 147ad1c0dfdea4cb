/** The event dispatcher without room: any number of producers may claim slots beyond the storage. Nothing is lost as
    long as each of them waits for its slot: it stores only when the slot has been emptied and checks only when its
    flag has been cleared.
 */
module EventPatience {
  import opened Options
  import opened EventDispatcher

  /** The number of claimed slots whose action has been removed again. */
  function EmptiedSlots(s: State): nat {
    if s.consumer.Emptied? || s.consumer.Freed? then s.popped + 1 else s.popped
  }

  /** A producer stores when the ticket one turn older has been emptied, and checks when it has been cleared. */
  predicate IsPatient(s: State, step: Step) {
    match step
    case Store(p) => Inside(At(s, p)) ==> At(s, p).ticket < EmptiedSlots(s) + |s.slots|
    case Check(p) => Inside(At(s, p)) ==> At(s, p).ticket < Cleared(s) + |s.slots|
    case _ => true
  }

  // ----- the invariant

  /** The tickets below this one have a slot of their own. */
  function Bound(s: State): Ticket {
    if |s.scheduled| < Cleared(s) + |s.slots| then |s.scheduled| else Cleared(s) + |s.slots|
  }

  /** The producer of a ticket beyond the storage has not got further than its claim, or has stored in the slot that
      was just emptied. */
  predicate Waits(s: State, q: Producer, k: Ticket)
    requires |s.slots| > 0 && k < |s.scheduled| && Inside(At(s, q))
  {
    At(s, q).slot == Ring(k, |s.slots|) && At(s, q).action == s.scheduled[k] &&
      (At(s, q).Claimed? || HasStored(s, q, k))
  }

  predicate HasStored(s: State, q: Producer, k: Ticket)
    requires Inside(At(s, q))
  {
    At(s, q).Stored? && s.consumer.Emptied? && k == s.popped + |s.slots| &&
    s.pop < |s.slots| && s.slots[s.pop].action == At(s, q).action
  }

  ghost predicate Outside(s: State)
    requires |s.slots| > 0
  {
    (forall q, k: Ticket :: Holds(At(s, q), k) && k >= Bound(s) ==> k < |s.scheduled| && Waits(s, q, k)) &&
    (forall p, q, k: Ticket :: k >= Bound(s) && Holds(At(s, p), k) && Holds(At(s, q), k) ==> p == q) &&
    (forall k: Ticket :: Bound(s) <= k < |s.scheduled| ==> Held(s, k))
  }

  ghost predicate PatientInv(s: State) {
    |s.slots| > 0 && s.push == Ring(|s.scheduled|, |s.slots|) && Inv(Without(s, Bound(s))) && Outside(s)
  }

  // ----- states that differ only in how their producers are written down

  lemma SameAt(w: State, w': State)
    requires Inv(w) && w' == w.(producers := w'.producers) && forall q :: At(w', q) == At(w, q)
    ensures Inv(w')
  {
    hide Ring, Flags, Actions, FlagInv;
    forall q ensures SamePlace(At(w, q), At(w', q)) {
      NotFailed(w, q);
    }
    SamePlaces(w, w');
    forall k: Ticket ensures Unwritten(w', k) <==> Unwritten(w, k) {
      SameUnwritten(w, w', k);
    }
    assert Indices(w) by { HasIndices(w); }
    SameActions(w, w');
  }

  lemma HasIndices(s: State)
    requires FlagInv(s)
    ensures Indices(s)
  {}

  /** With room for all tickets there is nothing outside. */
  lemma AllInside(s: State)
    requires |s.slots| > 0 && Bound(s) == |s.scheduled| && s.push == Ring(|s.scheduled|, |s.slots|)
    requires forall q :: Inside(At(s, q)) ==> At(s, q).ticket < |s.scheduled|
    ensures Inv(s) <==> Inv(Without(s, |s.scheduled|))
  {
    hide Ring, Inv;
    var n := |s.scheduled|;
    var w := Without(s, n);
    assert s.scheduled[..n] == s.scheduled;
    forall q ensures At(w, q) == At(s, q) {
      AtWithout(s, n, q);
    }
    if Inv(s) { SameAt(s, w); }
    if Inv(w) { SameAt(w, s); }
  }

  lemma TicketsInside(s: State)
    requires PatientInv(s)
    ensures forall q :: Inside(At(s, q)) ==> At(s, q).ticket < |s.scheduled|
  {
    hide Ring, Inv;
    forall q | Inside(At(s, q)) ensures At(s, q).ticket < |s.scheduled| {
      var k := At(s, q).ticket;
      assert Holds(At(s, q), k);
    }
  }

  lemma InvIsPatient(s: State)
    requires Inv(s)
    ensures PatientInv(s) && Bound(s) == |s.scheduled|
  {
    hide Ring, Flags, Actions, Counts, Consumer;
    var n := |s.scheduled|;
    forall q | Inside(At(s, q)) ensures At(s, q).ticket < n {
      TicketIsLive(s, q);
    }
    BoundWithin(s);
    AllInside(s);
  }

  lemma BoundWithin(s: State)
    requires Indices(s)
    ensures Bound(s) == |s.scheduled|
  {}

  lemma PatientIsSane(s: State)
    requires PatientInv(s)
    ensures Sane(s)
  {
    hide Ring, Inv;
    var w := Without(s, Bound(s));
    InvIsSane(w);
    forall q | Inside(At(s, q)) ensures At(s, q).slot < |s.slots| {
      AtWithout(s, Bound(s), q);
      assert Holds(At(s, q), At(s, q).ticket);
    }
  }

  // ----- steps that concern tickets with a slot of their own

  predicate IsInside(s: State, step: Step, n: Ticket) {
    match step
    case Store(p) => Inside(At(s, p)) && At(s, p).ticket < n
    case Check(p) => Inside(At(s, p)) && At(s, p).ticket < n
    case Publish(p) => Inside(At(s, p)) && At(s, p).ticket < n
    case TestFlag => true
    case Execute => true
    case EmptySlot => true
    case Advance => true
    case _ => false
  }

  function WhoSteps(step: Step): Option<Producer> {
    if step.Store? || step.Check? || step.Publish? then Some(step.p) else None
  }

  /** What such a step leaves alone. */
  lemma Leaves(s: State, step: Step, s': State, n: Ticket)
    requires IsInside(s, step, n) && Sane(s) && Take(s, step) == Some(s')
    ensures s'.scheduled == s.scheduled && s'.push == s.push && |s'.slots| == |s.slots| && Cleared(s') == Cleared(s)
    ensures forall q: Producer :: WhoSteps(step) != Some(q) ==> At(s', q) == At(s, q)
    ensures forall q, k: Ticket | k >= n :: Holds(At(s', q), k) <==> Holds(At(s, q), k)
    ensures WhoSteps(step).Some? ==> var p := WhoSteps(step).value; s'.producers == s.producers[p := At(s', p)]
    ensures WhoSteps(step).None? ==> s'.producers == s.producers
  {
  }

  /** Such a step does the same without the tickets from `n` on. */
  lemma StepWithout(s: State, step: Step, s': State, n: Ticket) returns (v: State)
    requires n <= |s.scheduled| && |s.slots| > 0 && IsInside(s, step, n) && Sane(s) && Take(s, step) == Some(s')
    requires Sane(Without(s, n))
    ensures |s'.scheduled| == |s.scheduled| && |s'.slots| == |s.slots|
    ensures Take(Without(s, n), step) == Some(v) && Without(s', n) == v.(producers := Without(s', n).producers)
    ensures forall q :: At(Without(s', n), q) == At(v, q)
  {
    Leaves(s, step, s', n);
    hide Ring, Sane;
    var w, w' := Without(s, n), Without(s', n);
    forall q ensures At(w, q) == if Inside(At(s, q)) && At(s, q).ticket >= n then Elsewhere else At(s, q) {
      AtWithout(s, n, q);
    }
    v := Take(w, step).value;
    forall q ensures At(w', q) == At(v, q) {
      AtWithout(s', n, q);
    }
  }

  /** What was stored in the slot that was just emptied stays there. */
  lemma FrontActionStays(s: State, step: Step, s': State)
    requires PatientInv(s) && s.consumer.Emptied? && IsInside(s, step, Bound(s)) && Sane(s) && Take(s, step) == Some(s')
    ensures s'.consumer.Emptied? && s'.popped == s.popped && s'.pop == s.pop
    ensures s.pop < |s.slots| == |s'.slots| && s'.slots[s.pop].action == s.slots[s.pop].action
  {
    hide Ring, Outside, FlagInv, Actions;
    var w := Without(s, Bound(s));
    FrontIsPublished(w);
    if step.Store? {
      var c := At(s, step.p);
      AtWithout(s, Bound(s), step.p);
      TicketIsLive(w, step.p);
      assert Holds(At(w, step.p), c.ticket);
      IsHeld(w, step.p, c.ticket);
      HasIndices(w);
      OtherSlot(w, c.ticket, w.popped);
      HolderSlot(w, step.p);
    }
  }

  lemma HolderSlot(s: State, p: Producer)
    requires FlagInv(s) && Inside(At(s, p))
    ensures At(s, p).slot == Ring(At(s, p).ticket, |s.slots|)
  {
    hide Ring, Flags;
    assert Holds(At(s, p), At(s, p).ticket);
  }

  lemma InsideStepKeeps(s: State, step: Step, s': State)
    requires PatientInv(s) && Sane(s) && IsInside(s, step, Bound(s)) && Take(s, step) == Some(s')
    ensures PatientInv(s')
  {
    hide Ring, Inv, Sane, Take, Outside;
    var n := Bound(s);
    Leaves(s, step, s', n);
    InvIsSane(Without(s, n));
    var v := StepWithout(s, step, s', n);
    StepKeeps(Without(s, n), step);
    SameAt(v, Without(s', n));
    InsideStepOutside(s, step, s');
  }

  lemma InsideStepOutside(s: State, step: Step, s': State)
    requires PatientInv(s) && Sane(s) && IsInside(s, step, Bound(s)) && Take(s, step) == Some(s')
    ensures |s'.slots| == |s.slots| && Outside(s')
  {
    hide Ring, Inv, Sane, Take;
    Leaves(s, step, s', Bound(s));
    if s.consumer.Emptied? {
      FrontActionStays(s, step, s');
    }
    forall k: Ticket | Bound(s) <= k < |s.scheduled| ensures Held(s', k) {
      assert Held(s, k);
      var q :| Holds(At(s, q), k);
      assert Holds(At(s', q), k);
    }
  }

  // ----- producers before their claim

  lemma LoadStepKeeps(s: State, p: Producer, c: Scheduling)
    requires PatientInv(s) && (At(s, p).Elsewhere? || At(s, p).Loaded?) && (c.Elsewhere? || c.Loaded?)
    ensures PatientInv(Rephased(s, p, c))
  {
    hide Ring, Inv, Outside;
    var s', n := Rephased(s, p, c), Bound(s);
    assert forall q :: At(s', q) == if q == p then c else At(s, q);
    assert s'.scheduled[..n] == s.scheduled[..n];
    BeforeClaim(s, s', p, c, n);
    LoadOutside(s, s', p);
  }

  /** A producer that has claimed nothing below `n` counts for nothing there. */
  lemma BeforeClaim(s: State, s': State, p: Producer, c: Scheduling, n: Ticket)
    requires n <= |s.scheduled| <= |s'.scheduled| && |s.slots| > 0 && Inv(Without(s, n))
    requires s' == s.(push := s'.push, producers := s'.producers, scheduled := s'.scheduled)
    requires s'.scheduled[..n] == s.scheduled[..n] && (At(s, p).Elsewhere? || At(s, p).Loaded?)
    requires forall q :: At(s', q) == if q == p then c else At(s, q)
    requires c.Elsewhere? || c.Loaded? || (Inside(c) && c.ticket >= n)
    ensures Inv(Without(s', n))
  {
    hide Ring, Inv;
    var w, w', d := Without(s, n), Without(s', n), if Inside(c) then Elsewhere else c;
    AtWithout(s, n, p);
    LoadKeeps(w, p, d);
    forall q ensures At(w', q) == At(Rephased(w, p, d), q) {
      AtWithout(s, n, q);
      AtWithout(s', n, q);
    }
    SameAt(Rephased(w, p, d), w');
  }

  lemma LoadOutside(s: State, s': State, p: Producer)
    requires PatientInv(s) && s' == s.(producers := s'.producers) && !Inside(At(s, p)) && !Inside(At(s', p))
    requires forall q :: q != p ==> At(s', q) == At(s, q)
    ensures Outside(s')
  {
    hide Ring, Inv;
    forall k: Ticket | Bound(s) <= k < |s.scheduled| ensures Held(s', k) {
      SameHeld(s, s', k);
    }
  }

  /** A claim without room. */
  lemma ClaimOutside(s: State, p: Producer, push: nat)
    requires PatientInv(s) && At(s, p).Loaded? && |s.scheduled| >= Cleared(s) + |s.slots|
    requires push == Ring(|s.scheduled| + 1, |s.slots|)
    ensures PatientInv(Claim(s, p, At(s, p).action, push))
  {
    hide Ring, Inv, Outside;
    var s', n, a := Claim(s, p, At(s, p).action, push), Bound(s), At(s, p).action;
    var c := Claimed(a, s.push, |s.scheduled|);
    assert forall q :: At(s', q) == if q == p then c else At(s, q);
    assert s'.scheduled[..n] == s.scheduled[..n];
    BeforeClaim(s, s', p, c, n);
    ClaimOutsideWaits(s, p, s');
  }

  lemma ClaimOutsideWaits(s: State, p: Producer, s': State)
    requires PatientInv(s) && At(s, p).Loaded? && |s.scheduled| >= Cleared(s) + |s.slots|
    requires s' == s.(push := s'.push, producers := s'.producers, scheduled := s.scheduled + [At(s, p).action])
    requires forall q :: At(s', q) == if q == p then Claimed(At(s, p).action, s.push, |s.scheduled|) else At(s, q)
    ensures Outside(s')
  {
    hide Ring, Inv;
    TicketsInside(s);
    assert Holds(At(s', p), |s.scheduled|);
    forall k: Ticket | Bound(s) <= k < |s.scheduled| ensures Held(s', k) {
      assert Held(s, k);
      var q :| Holds(At(s, q), k);
      assert Holds(At(s', q), k);
    }
  }

  /** Any other step, when there is room for all tickets. */
  lemma RoomyStepKeeps(s: State, step: Step)
    requires PatientInv(s) && Sane(s) && Bound(s) == |s.scheduled| && HasRoom(s, step) && Take(s, step).Some?
    ensures PatientInv(Take(s, step).value)
  {
    hide Ring, Inv, Sane, Take, Outside;
    TicketsInside(s);
    AllInside(s);
    StepKeeps(s, step);
    InvIsPatient(Take(s, step).value);
  }

  // ----- a producer that stores in the slot that was just emptied

  lemma FrontWritten(s: State, a: int)
    requires Inv(s) && s.consumer.Emptied?
    ensures Inv(Written(s, s.pop, a))
  {
    hide Ring, Held, Unwritten, Flags, Counts;
    var s' := Written(s, s.pop, a);
    FrontIsPublished(s);
    WrittenFlags(s, s.pop, a);
    SameProducers(s, s');
    assert forall k: Ticket :: Live(s', k) <==> Live(s, k);
    forall k: Ticket | Live(s, k) && k != s.popped ensures Ring(k, |s.slots|) != s.pop {
      OtherSlot(s, k, s.popped);
    }
  }

  lemma StoreOutside(s: State, p: Producer)
    requires PatientInv(s) && Sane(s) && IsPatient(s, Store(p)) && At(s, p).Claimed? && At(s, p).ticket >= Bound(s)
    ensures PatientInv(Take(s, Store(p)).value)
  {
    hide Ring, Inv;
    var s', c, n := Take(s, Store(p)).value, At(s, p), Bound(s);
    assert Holds(c, c.ticket) && s.consumer.Emptied? && c.ticket == n == s.popped + |s.slots|;
    var w, w' := Without(s, n), Without(s', n);
    assert forall q :: At(s', q) == if q == p then Stored(c.action, c.slot, c.ticket) else At(s, q);
    assert s.pop == Ring(s.popped, |s.slots|) by { InvHasIndices(w); }
    FullTurn(s.popped, |s.slots|);
    FrontWritten(w, c.action);
    forall q ensures At(w', q) == At(w, q) {
      AtWithout(s, n, q);
      AtWithout(s', n, q);
    }
    SameAt(Written(w, w.pop, c.action), w');
    forall k: Ticket | Bound(s) <= k < |s.scheduled| ensures Held(s', k) {
      SameHeld(s, s', k);
    }
  }

  lemma InvHasIndices(s: State)
    requires Inv(s)
    ensures s.pop == Ring(s.popped, |s.slots|) && s.pop < |s.slots|
  {}

  // ----- clearing a flag gives the next ticket its slot

  /** The producer of the first ticket beyond the storage. */
  lemma FirstOutside(s: State) returns (p: Producer)
    requires PatientInv(s) && |s.scheduled| > Cleared(s) + |s.slots|
    ensures Inside(At(s, p)) && At(s, p).ticket == Bound(s) && Waits(s, p, Bound(s))
    ensures forall q :: q != p && Inside(At(s, q)) ==> At(s, q).ticket != Bound(s)
  {
    hide Ring, Inv;
    var n := Bound(s);
    assert Held(s, n);
    p :| Holds(At(s, p), n);
    forall q | q != p && Inside(At(s, q)) ensures At(s, q).ticket != n {
      assert Holds(At(s, q), At(s, q).ticket);
    }
  }

  /** As if the claim had waited until there was room for it. */
  lemma ClaimNow(w: State, p: Producer, c: Scheduling, push: nat)
    requires Inv(w) && At(w, p).Elsewhere? && |w.scheduled| - Cleared(w) < |w.slots| && (c.Claimed? || c.Stored?)
    requires c.slot == w.push && c.ticket == |w.scheduled| && push == Ring(|w.scheduled| + 1, |w.slots|)
    requires c.slot < |w.slots| && (c.Stored? ==> w.slots[c.slot].action == c.action)
    ensures Inv(Claim(w, p, c.action, push).(producers := w.producers[p := c]))
  {
    hide Ring, Actions, FlagInv;
    var l := Loaded(c.action, w.push);
    LoadKeeps(w, p, l);
    var w2 := Rephased(w, p, l);
    assert At(w2, p) == l;
    ClaimFlags(w2, p, push);
    ClaimActions(w2, p, push);
    var w3 := Claim(w2, p, c.action, push);
    assert w2.producers[p := Claimed(c.action, w.push, |w.scheduled|)] ==
      w.producers[p := Claimed(c.action, w.push, |w.scheduled|)];
    if c.Stored? {
      assert At(w3, p) == Claimed(c.action, c.slot, c.ticket);
      WrittenFlags(w3, c.slot, c.action);
      RephasedFlags(Written(w3, c.slot, c.action), p, c);
      StoreActions(w3, p);
      assert w3.slots[c.slot := w3.slots[c.slot].(action := c.action)] == w3.slots;
      assert w3.producers[p := c] == w.producers[p := c];
    }
  }

  lemma ClearInside(s: State, p: Producer)
    requires PatientInv(s) && s.consumer.Emptied? && |s.scheduled| > Cleared(s) + |s.slots|
    requires Inside(At(s, p)) && At(s, p).ticket == Bound(s) && Waits(s, p, Bound(s))
    requires forall q :: q != p && Inside(At(s, q)) ==> At(s, q).ticket != Bound(s)
    ensures s.pop < |s.slots| && Inv(Without(Freeing(s), Bound(s) + 1))
  {
    hide Ring, Actions, FlagInv, Outside;
    var n, c := Bound(s), At(s, p);
    var w := Without(s, n);
    InvHasIndices(w);
    ClearFlags(w);
    ClearActions(w);
    var w1, s' := Freeing(w), Freeing(s);
    AtWithout(s, n, p);
    FullTurn(s.popped, |s.slots|);
    ClaimNow(w1, p, c, Ring(n + 1, |s.slots|));
    var v, w' := Claim(w1, p, c.action, Ring(n + 1, |s.slots|)).(producers := w1.producers[p := c]), Without(s', n + 1);
    assert s.scheduled[..n + 1] == s.scheduled[..n] + [s.scheduled[n]];
    forall q ensures At(w', q) == At(v, q) {
      AtWithout(s', n + 1, q);
      AtWithout(s, n, q);
    }
    SameAt(v, w');
  }

  lemma ClearKeeps(s: State)
    requires PatientInv(s) && s.consumer.Emptied? && |s.scheduled| > Cleared(s) + |s.slots|
    ensures s.pop < |s.slots| && PatientInv(Freeing(s))
  {
    hide Ring, Inv;
    var p := FirstOutside(s);
    ClearInside(s, p);
    var s' := Freeing(s);
    assert forall q :: At(s', q) == At(s, q);
    forall k: Ticket | Bound(s') <= k < |s.scheduled| ensures Held(s', k) {
      SameHeld(s, s', k);
    }
  }

  // ----- all steps

  /** Every patient step keeps the invariant, with any number of claims. */
  lemma PatientStepKeeps(s: State, step: Step)
    requires PatientInv(s) && Sane(s) && IsPatient(s, step) && Take(s, step).Some?
    ensures PatientInv(Take(s, step).value)
  {
    hide Ring, PatientInv, Sane;
    BoundIs(s);
    if Bound(s) == |s.scheduled| && HasRoom(s, step) {
      RoomyStepKeeps(s, step);
    } else {
      match step
      case Load(p, a) => LoadStepKeeps(s, p, Loaded(a, s.push));
      case ExchangeSucceeds(p) =>
        RingNext(|s.scheduled|, |s.slots|);
        ClaimOutside(s, p, (s.push + 1) % |s.slots|);
      case ExchangeFails(p) => LoadStepKeeps(s, p, Loaded(At(s, p).action, s.push));
      case Store(p) =>
        if At(s, p).ticket < Bound(s) {
          InsideStepKeeps(s, step, Take(s, step).value);
        } else {
          StoreOutside(s, p);
        }
      case Check(p) => InsideStepKeeps(s, step, Take(s, step).value);
      case Publish(p) =>
        CheckedIsInside(s, p);
        InsideStepKeeps(s, step, Take(s, step).value);
      case ClearFlag => ClearKeeps(s);
      case _ => InsideStepKeeps(s, step, Take(s, step).value);
    }
  }

  lemma BoundIs(s: State)
    requires PatientInv(s)
    ensures |s.slots| > 0 && s.push == Ring(|s.scheduled|, |s.slots|)
    ensures Bound(s) < |s.scheduled| ==> Bound(s) == Cleared(s) + |s.slots|
    ensures forall p :: Inside(At(s, p)) ==> At(s, p).ticket < |s.scheduled|
  {
    hide Ring, Inv, Outside;
    TicketsInside(s);
  }

  lemma CheckedIsInside(s: State, p: Producer)
    requires PatientInv(s) && At(s, p).Checked?
    ensures At(s, p).ticket < Bound(s)
  {
    hide Ring, Inv;
    assert Holds(At(s, p), At(s, p).ticket);
  }

  /** The first check that is not patient fails: the action of the older ticket has been removed from the slot and
      its flag has not. */
  lemma ImpatientCheckFails(s: State, p: Producer)
    requires PatientInv(s) && Sane(s) && At(s, p).Stored?
    ensures At(Take(s, Check(p)).value, p).Failed? <==> !IsPatient(s, Check(p))
  {
    hide Ring, Inv;
    var k, w := At(s, p).ticket, Without(s, Bound(s));
    assert Holds(At(s, p), k);
    if k < Bound(s) {
      AtWithout(s, Bound(s), p);
      SlotIsFree(w, p);
    } else {
      FullTurn(s.popped, |s.slots|);
      FrontIsReady(w);
    }
  }

  /** A store that is not patient goes to the slot of the ticket one turn older before that has been emptied: it
      overwrites the action of that ticket, which is still there, or that of a producer which has yet to store there
      itself. */
  lemma ImpatientStoreOverwrites(s: State, p: Producer)
    requires PatientInv(s) && At(s, p).Claimed? && !IsPatient(s, Store(p))
    ensures var size, k := |s.slots|, At(s, p).ticket;
      var o := k - size;
      EmptiedSlots(s) <= o < |s.scheduled| && At(s, p).slot == Ring(o, size) &&
      (Unwritten(s, o) || s.slots[Ring(o, size)].action == s.scheduled[o])
  {
    hide Ring, FlagInv, Unwritten;
    var n, size, k := Bound(s), |s.slots|, At(s, p).ticket;
    var w, o := Without(s, n), k - size;
    assert Holds(At(s, p), k);
    FullTurn(o, size);
    if o < n {
      assert Live(w, o) && !IsEmptied(w, o);
      UnwrittenWithout(s, n, o);
    } else {
      assert Held(s, o);
      InvHasIndices(w);
      FullTurn(s.popped, size);
      HeldOutside(s, o);
    }
  }

  lemma HeldOutside(s: State, o: Ticket)
    requires PatientInv(s) && Bound(s) <= o < |s.scheduled| && Held(s, o)
    ensures Unwritten(s, o) ||
      (o == s.popped + |s.slots| && s.pop < |s.slots| && s.slots[s.pop].action == s.scheduled[o])
  {
    hide Ring, Inv;
    var q :| Holds(At(s, q), o);
    assert Waits(s, q, o);
  }

  lemma UnwrittenWithout(s: State, n: Ticket, k: Ticket)
    requires n <= |s.scheduled| && |s.slots| > 0 && k < n
    ensures Unwritten(Without(s, n), k) <==> Unwritten(s, k)
  {
    var w := Without(s, n);
    forall q ensures Holds(At(w, q), k) && At(w, q).Claimed? <==> Holds(At(s, q), k) && At(s, q).Claimed? {
      AtWithout(s, n, q);
    }
    if Unwritten(s, k) { var q :| At(s, q).Claimed? && Holds(At(s, q), k); assert Holds(At(w, q), k); }
    if Unwritten(w, k) { var q :| At(w, q).Claimed? && Holds(At(w, q), k); assert Holds(At(s, q), k); }
  }

  lemma SlotIsFree(s: State, p: Producer)
    requires Inv(s) && Inside(At(s, p))
    ensures At(s, p).slot < |s.slots| && !s.slots[At(s, p).slot].ready
  {
    hide FlagInv, Actions;
    HolderSeesFalse(s, p);
  }

  lemma FrontIsReady(s: State)
    requires Inv(s) && s.consumer.Emptied?
    ensures s.pop == Ring(s.popped, |s.slots|) && s.pop < |s.slots| && s.slots[s.pop].ready
  {
    hide Ring, Flags, Actions;
  }

  // ----- whole runs

  ghost predicate IsPatientRun(run: seq<State>, steps: seq<Step>) {
    |run| == |steps| + 1 && Initial(run[0]) &&
    forall i :: 0 <= i < |steps| ==> Follows(run, steps, i) && IsPatient(run[i], steps[i])
  }

  lemma {:induction false} PatientRunKeeps(run: seq<State>, steps: seq<Step>, i: nat)
    requires IsPatientRun(run, steps) && i < |run|
    ensures PatientInv(run[i])
    decreases i
  {
    hide Inv, Take, Sane, PatientInv, IsPatient;
    if i == 0 {
      InvInitially(run[0]);
      InvIsPatient(run[0]);
    } else {
      PatientRunKeeps(run, steps, i - 1);
      assert Follows(run, steps, i - 1);
      PatientStepKeeps(run[i - 1], steps[i - 1]);
    }
  }

  /** In every interleaving in which producers without room wait for their slot: the executed actions are the
      scheduled actions in claim order, no assertion fails, and when the dispatcher is idle and no producer is inside
      Schedule, everything has been executed. */
  lemma NothingIsLost(run: seq<State>, steps: seq<Step>, i: nat)
    requires IsPatientRun(run, steps) && i < |run|
    ensures var s := run[i];
      |s.executed| <= |s.scheduled| && s.executed == s.scheduled[..|s.executed|] && (forall p :: !At(s, p).Failed?) &&
      (s.pop < |s.slots| && s.consumer.Testing? && !s.slots[s.pop].ready && (forall p :: !Inside(At(s, p))) ==>
        s.executed == s.scheduled)
  {
    hide IsPatientRun;
    PatientRunKeeps(run, steps, i);
    InOrder(run[i]);
  }

  lemma InOrder(s: State)
    requires PatientInv(s)
    ensures |s.executed| <= |s.scheduled| && s.executed == s.scheduled[..|s.executed|] &&
      (forall p :: !At(s, p).Failed?)
    ensures s.pop < |s.slots| && s.consumer.Testing? && !s.slots[s.pop].ready && (forall p :: !Inside(At(s, p))) ==>
      s.executed == s.scheduled
  {
    hide Ring, Inv;
    var n := Bound(s);
    var w := Without(s, n);
    InvInOrder(w);
    assert s.scheduled[..n][..|s.executed|] == s.scheduled[..|s.executed|];
    forall p ensures !At(s, p).Failed? {
      AtWithout(s, n, p);
    }
    if forall p :: !Inside(At(s, p)) {
      assert forall k: Ticket :: !Held(s, k);
      assert !Held(s, n) && n == |s.scheduled|;
      assert s.scheduled[..n] == s.scheduled;
      forall p ensures !Inside(At(w, p)) {
        AtWithout(s, n, p);
      }
    }
  }

  lemma InvInOrder(s: State)
    requires Inv(s)
    ensures |s.executed| <= |s.scheduled| && s.executed == s.scheduled[..|s.executed|] &&
      (forall p :: !At(s, p).Failed?)
    ensures s.consumer.Testing? && !s.slots[s.pop].ready && (forall p :: !Inside(At(s, p))) ==>
      s.executed == s.scheduled
  {
    if s.consumer.Testing? && !s.slots[s.pop].ready && (forall p :: !Inside(At(s, p))) {
      assert forall k: Ticket :: !Held(s, k);
      assert !Live(s, s.popped);
      assert s.scheduled[..|s.scheduled|] == s.scheduled;
    }
  }

  /** With room for every claim producers are patient by themselves. */
  lemma RoomIsPatience(run: seq<State>, steps: seq<Step>)
    requires IsRun(run, steps)
    ensures IsPatientRun(run, steps)
  {
    hide Inv, Take, Sane, HasRoom;
    forall i | 0 <= i < |steps| ensures Follows(run, steps, i) && IsPatient(run[i], steps[i]) {
      RunKeeps(run, steps, i);
      assert Follows(run, steps, i);
      HoldersArePatient(run[i], steps[i]);
    }
  }

  lemma HoldersArePatient(s: State, step: Step)
    requires Inv(s)
    ensures IsPatient(s, step)
  {
    hide Ring, Flags, Actions, Counts, Consumer;
    if (step.Store? || step.Check?) && Inside(At(s, step.p)) {
      TicketIsLive(s, step.p);
    }
  }
}
