/** EventDispatcherWorkerImpl: any number of producers (threads and interrupts) schedule actions while one consumer
    executes them. Every access to shared memory is one step of its own, so a run is any interleaving of such steps.
 */
module EventDispatcher {
  import opened Options
  import Division

  type Action = nat
  type Producer = nat
  /** The n-th successful claim has ticket n. Tickets are not part of the program; they name what happened. */
  type Ticket = nat

  datatype Slot = Slot(action: int, ready: bool)
  /** Function<void()>(nullptr) */
  const EMPTY := -1

  /** Where a producer is in Schedule. */
  datatype Scheduling =
    | Elsewhere
    | Loaded(action: Action, pushIndex: nat)                 // between reading scheduledActionsPushIndex and the exchange
    | Claimed(action: Action, slot: nat, ticket: Ticket)     // the exchange has succeeded
    | Stored(action: Action, slot: nat, ticket: Ticket)      // the action is in the slot
    | Checked(action: Action, slot: nat, ticket: Ticket)     // the flag was seen to be false
    | Failed                                                 // really_assert(!second) has failed

  /** Where the consumer is in TryExecuteAction. */
  datatype Executing = Testing | Ready | Executed | Emptied | Freed

  datatype State = State(
    slots: seq<Slot>, push: nat, pop: nat,
    producers: map<Producer, Scheduling>, consumer: Executing,
    scheduled: seq<Action>,    // in the order of the claims
    executed: seq<Action>,
    popped: nat)               // how many times the consumer has advanced

  function At(s: State, p: Producer): Scheduling {
    if p in s.producers then s.producers[p] else Elsewhere
  }

  /** Between the claim and the publication. */
  predicate Inside(c: Scheduling) {
    c.Claimed? || c.Stored? || c.Checked?
  }

  /** The number of claimed slots whose flag has been cleared again. */
  function Cleared(s: State): nat {
    if s.consumer.Freed? then s.popped + 1 else s.popped
  }

  ghost predicate Initial(s: State) {
    |s.slots| > 0 && (forall i :: 0 <= i < |s.slots| ==> s.slots[i] == Slot(EMPTY, false)) && s.push == 0 &&
      s.pop == 0 &&
    (forall p :: At(s, p).Elsewhere?) && s.consumer == Testing && s.scheduled == [] && s.executed == [] && s.popped == 0
  }

  /** All indices are within the storage. */
  ghost predicate Sane(s: State) {
    s.pop < |s.slots| && forall p :: Inside(At(s, p)) ==> At(s, p).slot < |s.slots|
  }

  datatype Step =
    | Load(p: Producer, a: Action)
    | ExchangeSucceeds(p: Producer)
    | ExchangeFails(p: Producer)
    | Store(p: Producer)
    | Check(p: Producer)
    | Publish(p: Producer)
    | TestFlag
    | Execute
    | EmptySlot
    | ClearFlag
    | Advance

  /** What one step does, as the code does it; None if the step is not the next one of that producer or of the
      consumer. */
  ghost function Take(s: State, step: Step): Option<State>
    requires Sane(s)
  {
    match step
    case Load(p, a) =>
      if At(s, p).Elsewhere? then Some(s.(producers := s.producers[p := Loaded(a, s.push)])) else None
    case ExchangeSucceeds(p) =>
      (match At(s, p)
       case Loaded(a, i) =>
         if i == s.push then
           Some(s.(push := (i + 1) % |s.slots|, producers := s.producers[p := Claimed(a, i, |s.scheduled|)],
             scheduled := s.scheduled + [a]))
         else None
       case _ => None)
    case ExchangeFails(p) =>
      // compare_exchange_weak may fail even when the values are equal; the expected value is then read again
      (match At(s, p)
       case Loaded(a, _) => Some(s.(producers := s.producers[p := Loaded(a, s.push)]))
       case _ => None)
    case Store(p) =>
      (match At(s, p)
       case Claimed(a, i, k) =>
         Some(s.(slots := s.slots[i := s.slots[i].(action := a)], producers := s.producers[p := Stored(a, i, k)]))
       case _ => None)
    case Check(p) =>
      (match At(s, p)
       case Stored(a, i, k) =>
         Some(s.(producers := s.producers[p := if s.slots[i].ready then Failed else Checked(a, i, k)]))
       case _ => None)
    case Publish(p) =>
      (match At(s, p)
       case Checked(a, i, k) =>
         Some(s.(slots := s.slots[i := s.slots[i].(ready := true)], producers := s.producers[p := Elsewhere]))
       case _ => None)
    case TestFlag =>
      if s.consumer.Testing? && s.slots[s.pop].ready then Some(s.(consumer := Ready)) else None
    case Execute =>
      if s.consumer.Ready? then
        Some(s.(consumer := Executed,
          executed := s.executed + [if s.slots[s.pop].action >= 0 then s.slots[s.pop].action else 0]))
      else None
    case EmptySlot =>
      if s.consumer.Executed?
        then Some(s.(consumer := Emptied, slots := s.slots[s.pop := s.slots[s.pop].(action := EMPTY)])) else None
    case ClearFlag =>
      if s.consumer.Emptied?
        then Some(s.(consumer := Freed, slots := s.slots[s.pop := s.slots[s.pop].(ready := false)])) else None
    case Advance =>
      if s.consumer.Freed?
        then Some(s.(consumer := Testing, pop := (s.pop + 1) % |s.slots|, popped := s.popped + 1)) else None
  }

  /** No more slots are claimed and not yet cleared than the storage holds. */
  predicate HasRoom(s: State, step: Step) {
    step.ExchangeSucceeds? ==> |s.scheduled| - Cleared(s) < |s.slots|
  }

  // ----- positions in the ring

  /** The slot of a ticket: the push and pop indices go round the storage. */
  function Ring(k: nat, size: nat): (i: nat)
    requires size > 0
    ensures i < size
  {
    if k == 0 then 0 else if Ring(k - 1, size) + 1 == size then 0 else Ring(k - 1, size) + 1
  }

  lemma RingNext(k: nat, size: nat)
    requires size > 0
    ensures Ring(k + 1, size) == (Ring(k, size) + 1) % size
  {
    if Ring(k, size) + 1 < size {
      assert (Ring(k, size) + 1) % size == Ring(k, size) + 1;
    }
  }

  lemma {:induction false} RingShift(j: nat, d: nat, size: nat)
    requires d < size
    ensures Ring(j + d, size) == if Ring(j, size) + d < size then Ring(j, size) + d else Ring(j, size) + d - size
    decreases d
  {
    if d > 0 {
      RingShift(j, d - 1, size);
    }
  }

  /** Tickets that are less than the size of the storage apart have different slots. */
  lemma RingDistinct(j: nat, k: nat, size: nat)
    requires j < k < j + size
    ensures Ring(j, size) != Ring(k, size)
  {
    RingShift(j, k - j, size);
  }

  lemma FullTurn(k: nat, size: nat)
    requires size > 0
    ensures Ring(k + size, size) == Ring(k, size)
  {
    RingShift(k, size - 1, size);
  }

  /** What Schedule compares minCapacity with, for a claimed slot. */
  function CapacityLeft(size: nat, pop: nat, slot: nat): int
    requires slot < size
  {
    (size + pop - slot - 1) % size + 1
  }

  /** It is the number of slots that were free at the claim, that one included, when there was room; and at least one
      in any case, so the second assertion in Schedule never fails. */
  lemma CapacityIsLeft(size: nat, popped: nat, n: Ticket)
    requires size > 0
    ensures 1 <= CapacityLeft(size, Ring(popped, size), Ring(n, size)) <= size
    ensures popped <= n < popped + size ==>
      CapacityLeft(size, Ring(popped, size), Ring(n, size)) == size - (n - popped)
  {
    hide Ring;
    var i, j := Ring(popped, size), Ring(n, size);
    Remainder(size + i - j - 1, size);
    if popped <= n < popped + size {
      RingShift(popped, n - popped, size);
      if i + (n - popped) < size {
        Remainder(size - (n - popped) - 1, size);
      } else {
        Remainder(size - (n - popped) - 1, size);
        assert size + i - j - 1 == size - (n - popped) - 1 + size;
      }
    }
  }

  lemma Remainder(x: nat, size: nat)
    requires size > 0
    ensures 0 <= x % size < size && (x < size ==> x % size == x) && (x + size) % size == x % size
  {
    var q, r := x / size, x % size;
    Times(q, size);
    Division.Quotient(x + size, size, q + 1, r);
  }

  lemma Times(q: nat, size: nat)
    ensures (q + 1) * size == q * size + size
  {}

  // ----- the invariant

  predicate Holds(c: Scheduling, k: Ticket) {
    Inside(c) && c.ticket == k
  }

  /** A producer has claimed ticket `k` and has not published it. */
  ghost predicate Held(s: State, k: Ticket) {
    exists p :: Holds(At(s, p), k)
  }

  /** A producer has claimed ticket `k` and has not stored the action yet. */
  ghost predicate Unwritten(s: State, k: Ticket) {
    exists p :: At(s, p).Claimed? && Holds(At(s, p), k)
  }

  predicate Live(s: State, k: Ticket) {
    Cleared(s) <= k < |s.scheduled|
  }

  predicate Indices(s: State) {
    |s.slots| > 0 && s.push == Ring(|s.scheduled|, |s.slots|) && s.pop == Ring(s.popped, |s.slots|) &&
    Cleared(s) <= |s.scheduled| <= Cleared(s) + |s.slots|
  }

  predicate Counts(s: State) {
    |s.executed| == (if s.consumer.Testing? || s.consumer.Ready? then s.popped else s.popped + 1) &&
      |s.executed| <= |s.scheduled|
  }

  /** A producer that has claimed a slot is the only one to hold that ticket. */
  ghost predicate Holders(s: State)
    requires |s.slots| > 0
  {
    (forall p :: !At(s, p).Failed?) &&
    (forall p, k: Ticket :: Holds(At(s, p), k) ==> Live(s, k) && At(s, p).slot == Ring(k, |s.slots|)) &&
    (forall p, q, k: Ticket :: Holds(At(s, p), k) && Holds(At(s, q), k) ==> p == q)
  }

  /** A slot is ready exactly when its ticket has been published. */
  ghost predicate Flags(s: State)
    requires |s.slots| > 0
  {
    (forall k: Ticket :: Live(s, k) ==> (s.slots[Ring(k, |s.slots|)].ready <==> !Held(s, k))) &&
    (forall i :: 0 <= i < |s.slots| && s.slots[i].ready ==> Covered(s, i))
  }

  ghost predicate Covered(s: State, i: nat)
    requires |s.slots| > 0
  {
    exists k: Ticket :: Live(s, k) && Ring(k, |s.slots|) == i
  }

  predicate Consumer(s: State)
    requires |s.slots| > 0 && s.pop < |s.slots|
  {
    !s.consumer.Testing? && !s.consumer.Freed? ==> s.slots[s.pop].ready && s.popped < |s.scheduled|
  }

  /** What holds of indices, flags and tickets, whatever the actions are. */
  ghost predicate FlagInv(s: State) {
    Indices(s) && Counts(s) && Holders(s) && Flags(s) && Consumer(s)
  }

  /** An action is in its slot from Store on, and is executed in its turn. */
  ghost predicate Actions(s: State)
    requires |s.slots| > 0
  {
    |s.executed| <= |s.scheduled| && s.executed == s.scheduled[..|s.executed|] &&
    (forall p, k: Ticket :: Holds(At(s, p), k) && k < |s.scheduled| ==> At(s, p).action == s.scheduled[k]) &&
    (forall k: Ticket :: Live(s, k) && !Unwritten(s, k) && !IsEmptied(s, k) ==>
       s.slots[Ring(k, |s.slots|)].action == s.scheduled[k])
  }

  predicate IsEmptied(s: State, k: Ticket) {
    k == s.popped && s.consumer.Emptied?
  }

  ghost predicate Inv(s: State) {
    FlagInv(s) && Actions(s)
  }

  lemma FlagsAreSane(s: State)
    requires FlagInv(s)
    ensures Sane(s)
  {
    forall p | Inside(At(s, p)) ensures At(s, p).slot < |s.slots| {
      var k := At(s, p).ticket;
      assert Holds(At(s, p), k);
      assert At(s, p).slot == Ring(k, |s.slots|);
    }
  }

  lemma InvIsSane(s: State)
    requires Inv(s)
    ensures Sane(s)
  {
    hide FlagInv, Sane;
    FlagsAreSane(s);
  }

  lemma InvInitially(s: State)
    requires Initial(s)
    ensures Inv(s)
  {
    assert forall p :: At(s, p) == Elsewhere;
    assert forall k: Ticket :: !Held(s, k) && !Live(s, k);
  }

  /** A dispatcher can start with storage of any size. */
  lemma StartsEmpty(size: nat)
    requires size > 0
    ensures Initial(State(seq(size, _ => Slot(EMPTY, false)), 0, 0, map[], Testing, [], [], 0))
  {}

  // ----- who holds what

  /** A step of `p` that only concerns ticket `n` does not change who holds another ticket. */
  lemma OtherTicket(s: State, s': State, p: Producer, n: Ticket, k: Ticket)
    requires k != n && forall q :: q != p ==> At(s', q) == At(s, q)
    requires forall j: Ticket :: j != n ==> !Holds(At(s, p), j) && !Holds(At(s', p), j)
    ensures (Held(s', k) <==> Held(s, k)) && (Unwritten(s', k) <==> Unwritten(s, k))
  {
    if Held(s, k) { var q :| Holds(At(s, q), k); assert Holds(At(s', q), k); }
    if Held(s', k) { var q :| Holds(At(s', q), k); assert Holds(At(s, q), k); }
    if Unwritten(s, k) { var q :| At(s, q).Claimed? && Holds(At(s, q), k); assert Holds(At(s', q), k); }
    if Unwritten(s', k) { var q :| At(s', q).Claimed? && Holds(At(s', q), k); assert Holds(At(s, q), k); }
  }

  ghost predicate SameHolders(s: State, s': State) {
    forall q, k: Ticket :: Holds(At(s', q), k) <==> Holds(At(s, q), k)
  }

  lemma SameHeld(s: State, s': State, k: Ticket)
    requires SameHolders(s, s')
    ensures Held(s', k) <==> Held(s, k)
  {
    if Held(s, k) { var q :| Holds(At(s, q), k); assert Holds(At(s', q), k); }
    if Held(s', k) { var q :| Holds(At(s', q), k); assert Holds(At(s, q), k); }
  }

  lemma SameUnwritten(s: State, s': State, k: Ticket)
    requires SameHolders(s, s') && forall q :: At(s', q).Claimed? <==> At(s, q).Claimed?
    ensures Unwritten(s', k) <==> Unwritten(s, k)
  {
    if Unwritten(s, k) { var q :| At(s, q).Claimed? && Holds(At(s, q), k); assert Holds(At(s', q), k); }
    if Unwritten(s', k) { var q :| At(s', q).Claimed? && Holds(At(s', q), k); assert Holds(At(s, q), k); }
  }

  lemma UnwrittenIsHeld(s: State, k: Ticket)
    ensures Unwritten(s, k) ==> Held(s, k)
  {}

  lemma OtherSlot(s: State, j: Ticket, k: Ticket)
    requires Indices(s) && Live(s, j) && Live(s, k) && j != k
    ensures Ring(j, |s.slots|) != Ring(k, |s.slots|)
  {
    if j < k { RingDistinct(j, k, |s.slots|); } else { RingDistinct(k, j, |s.slots|); }
  }

  /** The same slots for the same tickets. */
  lemma StillCovered(s: State, s': State, i: nat)
    requires |s.slots| == |s'.slots| > 0 && Covered(s, i) &&
      forall k: Ticket :: Live(s, k) && Ring(k, |s.slots|) == i ==> Live(s', k)
    ensures Covered(s', i)
  {
    hide Live;
    var k: Ticket :| Live(s, k) && Ring(k, |s.slots|) == i;
    assert Live(s', k);
  }

  // ----- steps and flags

  /** Steps that change no flag, no index and no holder. */
  ghost predicate SameFlags(s: State, s': State) {
    |s'.slots| == |s.slots| && (forall i :: 0 <= i < |s.slots| ==> s'.slots[i].ready == s.slots[i].ready) &&
    s'.push == s.push && s'.pop == s.pop && s'.popped == s.popped && |s'.scheduled| == |s.scheduled| &&
      Cleared(s') == Cleared(s) &&
    SameHolders(s, s') && (forall q :: !At(s', q).Failed?) &&
    (forall q :: Inside(At(s', q)) && Inside(At(s, q)) ==> At(s', q).slot == At(s, q).slot)
  }

  lemma SameFlagsKeep(s: State, s': State)
    requires FlagInv(s) && SameFlags(s, s') && Counts(s') && Consumer(s')
    ensures FlagInv(s')
  {
    hide Ring, Held, Covered;
    forall k: Ticket ensures (Held(s', k) <==> Held(s, k)) && (Live(s', k) <==> Live(s, k)) {
      SameHeld(s, s', k);
    }
    assert Holders(s') by {
      forall q, k: Ticket | Holds(At(s', q), k) ensures Live(s', k) && At(s', q).slot == Ring(k, |s'.slots|) {
        assert Holds(At(s, q), k);
      }
    }
    assert Flags(s') by {
      forall i | 0 <= i < |s'.slots| && s'.slots[i].ready ensures Covered(s', i) {
        StillCovered(s, s', i);
      }
    }
  }

  /** Another phase of the same producer. */
  function Rephased(s: State, p: Producer, c: Scheduling): State {
    s.(producers := s.producers[p := c])
  }

  predicate SamePlace(c: Scheduling, d: Scheduling) {
    if Inside(c) then Inside(d) && d.slot == c.slot && d.ticket == c.ticket else !Inside(d) && !d.Failed?
  }

  lemma RephasedFlags(s: State, p: Producer, c: Scheduling)
    requires FlagInv(s) && SamePlace(At(s, p), c)
    ensures FlagInv(Rephased(s, p, c))
  {
    hide Ring, Flags;
    var s' := Rephased(s, p, c);
    assert forall q :: At(s', q) == if q == p then c else At(s, q);
    SameFlagsKeep(s, s');
  }

  /** An action is written to a slot. */
  function Written(s: State, i: nat, a: int): State
    requires i < |s.slots|
  {
    s.(slots := s.slots[i := s.slots[i].(action := a)])
  }

  lemma WrittenFlags(s: State, i: nat, a: int)
    requires FlagInv(s) && i < |s.slots|
    ensures FlagInv(Written(s, i, a))
  {
    hide Ring, Flags;
    var s' := Written(s, i, a);
    assert forall q :: At(s', q) == At(s, q);
    SameFlagsKeep(s, s');
  }

  /** The state after a claim. */
  function Claim(s: State, p: Producer, a: Action, push: nat): State {
    s.(push := push, producers := s.producers[p := Claimed(a, s.push, |s.scheduled|)], scheduled := s.scheduled + [a])
  }

  lemma ClaimHolders(s: State, p: Producer, a: Action, push: nat)
    requires FlagInv(s) && At(s, p).Loaded?
    ensures var s', n := Claim(s, p, a, push), |s.scheduled|;
      (forall q :: At(s', q) == if q == p then Claimed(a, s.push, n) else At(s, q)) &&
      (forall k: Ticket :: Live(s', k) <==> Live(s, k) || k == n) &&
      Held(s', n) && Unwritten(s', n) &&
      (forall k: Ticket :: k != n ==> (Held(s', k) <==> Held(s, k))) &&
        (forall k: Ticket :: k != n ==> (Unwritten(s', k) <==> Unwritten(s, k)))
  {
    hide Ring, Flags, Consumer, Counts;
    var s', n := Claim(s, p, a, push), |s.scheduled|;
    assert forall q :: At(s', q) == if q == p then Claimed(a, s.push, n) else At(s, q);
    assert Holds(At(s', p), n);
    forall k: Ticket | k != n ensures (Held(s', k) <==> Held(s, k)) && (Unwritten(s', k) <==> Unwritten(s, k)) {
      OtherTicket(s, s', p, n, k);
    }
  }

  lemma ClaimFlags(s: State, p: Producer, push: nat)
    requires FlagInv(s) && At(s, p).Loaded? && |s.scheduled| - Cleared(s) < |s.slots|
    requires push == Ring(|s.scheduled| + 1, |s.slots|)
    ensures FlagInv(Claim(s, p, At(s, p).action, push))
  {
    hide Ring, Held, Unwritten, Covered;
    var n, size, a := |s.scheduled|, |s.slots|, At(s, p).action;
    var s' := Claim(s, p, a, push);
    ClaimHolders(s, p, a, push);
    assert !s.slots[Ring(n, size)].ready by { FreeSlot(s); }
    assert Flags(s') by {
      forall i | 0 <= i < size && s'.slots[i].ready ensures Covered(s', i) {
        StillCovered(s, s', i);
      }
    }
  }

  /** With room left, the slot of the next ticket is not ready. */
  lemma FreeSlot(s: State)
    requires Indices(s) && Flags(s) && |s.scheduled| < Cleared(s) + |s.slots|
    ensures !s.slots[Ring(|s.scheduled|, |s.slots|)].ready
  {
    hide Ring;
    var n, size := |s.scheduled|, |s.slots|;
    if s.slots[Ring(n, size)].ready {
      var k: Ticket :| Live(s, k) && Ring(k, size) == Ring(n, size);
      RingDistinct(k, n, size);
    }
  }

  /** A producer that holds a ticket finds its slot not ready. */
  lemma HolderSeesFalse(s: State, p: Producer)
    requires FlagInv(s) && Inside(At(s, p))
    ensures At(s, p).slot < |s.slots| && !s.slots[At(s, p).slot].ready
  {
    hide Ring, Consumer, Counts;
    var k := At(s, p).ticket;
    assert Holds(At(s, p), k) && Held(s, k);
  }

  function Published(s: State, p: Producer): State
    requires Inside(At(s, p)) && At(s, p).slot < |s.slots|
  {
    var i := At(s, p).slot;
    s.(slots := s.slots[i := s.slots[i].(ready := true)], producers := s.producers[p := Elsewhere])
  }

  lemma PublishHolders(s: State, p: Producer)
    requires FlagInv(s) && Inside(At(s, p)) && At(s, p).slot < |s.slots|
    ensures var s', n := Published(s, p), At(s, p).ticket;
      (forall q :: At(s', q) == if q == p then Elsewhere else At(s, q)) &&
      Live(s, n) && Held(s, n) && !Held(s', n) && !Unwritten(s', n) &&
      (forall k: Ticket :: k != n ==> (Held(s', k) <==> Held(s, k)) && (Unwritten(s', k) <==> Unwritten(s, k)))
  {
    hide Ring, Flags, Consumer, Counts, Indices;
    var s', c := Published(s, p), At(s, p);
    assert Holds(c, c.ticket);
    assert forall q :: At(s', q) == if q == p then Elsewhere else At(s, q);
    forall k: Ticket | k != c.ticket ensures (Held(s', k) <==> Held(s, k)) && (Unwritten(s', k) <==> Unwritten(s, k)) {
      OtherTicket(s, s', p, c.ticket, k);
    }
  }

  lemma PublishFlags(s: State, p: Producer)
    requires FlagInv(s) && Inside(At(s, p)) && At(s, p).slot < |s.slots|
    ensures FlagInv(Published(s, p))
  {
    hide Ring, Held, Unwritten, Covered;
    var s', c, size := Published(s, p), At(s, p), |s.slots|;
    PublishHolders(s, p);
    assert Holds(c, c.ticket) && c.slot == Ring(c.ticket, size);
    assert forall k: Ticket :: Live(s', k) <==> Live(s, k);
    forall k: Ticket | Live(s, k) && k != c.ticket ensures Ring(k, size) != c.slot {
      OtherSlot(s, k, c.ticket);
    }
    assert Flags(s') by {
      assert Covered(s', c.slot) by { IsCovered(s', c.ticket); }
      forall i | 0 <= i < size && s'.slots[i].ready ensures Covered(s', i) {
        if i != c.slot {
          StillCovered(s, s', i);
        }
      }
    }
  }

  lemma IsCovered(s: State, k: Ticket)
    requires |s.slots| > 0 && Live(s, k)
    ensures Covered(s, Ring(k, |s.slots|))
  {}

  /** The consumer does not change who holds what. */
  lemma SameProducers(s: State, s': State)
    requires s'.producers == s.producers
    ensures (forall q :: At(s', q) == At(s, q)) && SameHolders(s, s')
    ensures forall k: Ticket :: (Held(s', k) <==> Held(s, k)) && (Unwritten(s', k) <==> Unwritten(s, k))
  {
    assert forall q :: At(s', q) == At(s, q);
    forall k: Ticket ensures (Held(s', k) <==> Held(s, k)) && (Unwritten(s', k) <==> Unwritten(s, k)) {
      SameHeld(s, s', k);
      SameUnwritten(s, s', k);
    }
  }

  lemma TestFlags(s: State)
    requires FlagInv(s) && s.consumer.Testing? && s.slots[s.pop].ready
    ensures FlagInv(s.(consumer := Ready)) && s.popped < |s.scheduled|
  {
    hide Ring;
    var s' := s.(consumer := Ready);
    assert s.popped < |s.scheduled| by {
      var k: Ticket :| Live(s, k) && Ring(k, |s.slots|) == s.pop;
    }
    SameProducers(s, s');
    hide Flags;
    SameFlagsKeep(s, s');
  }

  lemma ExecuteFlags(s: State, a: Action)
    requires FlagInv(s) && s.consumer.Ready?
    ensures FlagInv(s.(consumer := Executed, executed := s.executed + [a]))
  {
    hide Ring, Flags;
    var s' := s.(consumer := Executed, executed := s.executed + [a]);
    SameProducers(s, s');
    SameFlagsKeep(s, s');
  }

  lemma EmptyFlags(s: State)
    requires FlagInv(s) && s.consumer.Executed?
    ensures FlagInv(Written(s, s.pop, EMPTY).(consumer := Emptied))
  {
    hide Ring, Flags;
    var s' := Written(s, s.pop, EMPTY).(consumer := Emptied);
    SameProducers(s, s');
    SameFlagsKeep(s, s');
  }

  /** The consumer's own ticket is published. */
  lemma FrontIsPublished(s: State)
    requires FlagInv(s) && (s.consumer.Ready? || s.consumer.Executed? || s.consumer.Emptied?)
    ensures Live(s, s.popped) && !Held(s, s.popped) && !Unwritten(s, s.popped) && s.pop == Ring(s.popped, |s.slots|)
  {
    hide Ring;
    assert Live(s, s.popped);
    UnwrittenIsHeld(s, s.popped);
  }

  function Freeing(s: State): State
    requires s.pop < |s.slots|
  {
    s.(consumer := Freed, slots := s.slots[s.pop := s.slots[s.pop].(ready := false)])
  }

  lemma ClearFlags(s: State)
    requires FlagInv(s) && s.consumer.Emptied?
    ensures FlagInv(Freeing(s))
  {
    hide Ring, Held, Unwritten, Covered;
    FrontIsPublished(s);
    var s' := Freeing(s);
    SameProducers(s, s');
    assert forall k: Ticket :: Live(s', k) <==> Live(s, k) && k != s.popped;
    assert Holders(s') by {
      forall q, k: Ticket | Holds(At(s', q), k) ensures Live(s', k) {
        IsHeld(s, q, k);
      }
    }
    forall k: Ticket | Live(s', k) ensures Ring(k, |s.slots|) != s.pop {
      OtherSlot(s, k, s.popped);
    }
    assert Flags(s') by {
      forall i | 0 <= i < |s'.slots| && s'.slots[i].ready ensures Covered(s', i) {
        StillCovered(s, s', i);
      }
    }
  }

  lemma IsHeld(s: State, q: Producer, k: Ticket)
    requires Holds(At(s, q), k)
    ensures Held(s, k)
  {}

  function Advanced(s: State, pop: nat): State {
    s.(consumer := Testing, pop := pop, popped := s.popped + 1)
  }

  lemma AdvanceFlags(s: State, pop: nat)
    requires FlagInv(s) && s.consumer.Freed? && pop == Ring(s.popped + 1, |s.slots|)
    ensures FlagInv(Advanced(s, pop))
  {
    hide Ring, Held, Unwritten, Covered;
    var s' := Advanced(s, pop);
    SameProducers(s, s');
    assert forall k: Ticket :: Live(s', k) <==> Live(s, k);
    assert Flags(s') by {
      forall i | 0 <= i < |s'.slots| && s'.slots[i].ready ensures Covered(s', i) {
        StillCovered(s, s', i);
      }
    }
  }

  // ----- steps and actions

  /** Steps that write no slot. */
  lemma SameActions(s: State, s': State)
    requires Indices(s) && Actions(s) && s'.slots == s.slots && s'.scheduled == s.scheduled && s'.executed == s.executed
    requires forall q, k: Ticket :: Holds(At(s', q), k) ==> Holds(At(s, q), k) && At(s', q).action == At(s, q).action
    requires forall k: Ticket :: Live(s', k) ==>
               Live(s, k) && (Unwritten(s, k) ==> Unwritten(s', k)) && (IsEmptied(s, k) ==> IsEmptied(s', k))
    ensures Actions(s')
  {
    hide Ring, Unwritten, Live;
  }

  lemma RephasedActions(s: State, p: Producer, c: Scheduling)
    requires Inv(s) && SamePlace(At(s, p), c) && (c.Claimed? <==> At(s, p).Claimed?) &&
      (Inside(c) ==> c.action == At(s, p).action)
    ensures Actions(Rephased(s, p, c))
  {
    hide Ring, Flags, Counts, Consumer, Actions;
    var s' := Rephased(s, p, c);
    assert forall q :: At(s', q) == if q == p then c else At(s, q);
    forall k: Ticket ensures Unwritten(s', k) <==> Unwritten(s, k) {
      SameUnwritten(s, s', k);
    }
    SameActions(s, s');
  }

  lemma ClaimActions(s: State, p: Producer, push: nat)
    requires Inv(s) && At(s, p).Loaded?
    ensures Actions(Claim(s, p, At(s, p).action, push))
  {
    hide Ring, Held, Unwritten, Flags, Counts, Consumer;
    ClaimHolders(s, p, At(s, p).action, push);
  }

  lemma StoreActions(s: State, p: Producer)
    requires Inv(s) && At(s, p).Claimed? && At(s, p).slot < |s.slots|
    ensures var c := At(s, p); Actions(Rephased(Written(s, c.slot, c.action), p, Stored(c.action, c.slot, c.ticket)))
  {
    hide Ring, Held, Unwritten, Flags, Counts, Consumer;
    var c := At(s, p);
    var s' := Rephased(Written(s, c.slot, c.action), p, Stored(c.action, c.slot, c.ticket));
    assert forall q :: At(s', q) == if q == p then Stored(c.action, c.slot, c.ticket) else At(s, q);
    assert Holds(c, c.ticket) && c.slot == Ring(c.ticket, |s.slots|) && c.action == s.scheduled[c.ticket];
    assert forall k: Ticket :: Live(s', k) <==> Live(s, k);
    forall k: Ticket | Live(s, k) && k != c.ticket ensures Ring(k, |s.slots|) != c.slot &&
      (Unwritten(s', k) <==> Unwritten(s, k)) {
      OtherSlot(s, k, c.ticket);
      OtherTicket(s, s', p, c.ticket, k);
    }
  }

  lemma PublishActions(s: State, p: Producer)
    requires Inv(s) && Inside(At(s, p)) && !At(s, p).Claimed? && At(s, p).slot < |s.slots|
    ensures Actions(Published(s, p))
  {
    hide Ring, Held, Unwritten, Flags, Counts, Consumer;
    var s', c := Published(s, p), At(s, p);
    PublishHolders(s, p);
    assert Holds(c, c.ticket);
    assert !Unwritten(s, c.ticket) by { WrittenByNow(s, p); }
    assert forall k: Ticket :: Live(s', k) <==> Live(s, k);
  }

  lemma WrittenByNow(s: State, p: Producer)
    requires |s.slots| > 0 && Holders(s) && Inside(At(s, p)) && !At(s, p).Claimed?
    ensures !Unwritten(s, At(s, p).ticket)
  {
    hide Ring;
    assert Holds(At(s, p), At(s, p).ticket);
  }

  /** The action that is executed is the one that was scheduled, fully written. */
  lemma ExecuteKeeps(s: State)
    requires Inv(s) && s.consumer.Ready?
    ensures s.slots[s.pop].action >= 0 && s.slots[s.pop].action == s.scheduled[|s.executed|]
    ensures Inv(s.(consumer := Executed, executed := s.executed + [s.slots[s.pop].action]))
  {
    hide Ring, Held, Unwritten, Flags;
    FrontIsPublished(s);
    var a := s.slots[s.pop].action;
    assert a == s.scheduled[s.popped];
    var s' := s.(consumer := Executed, executed := s.executed + [a]);
    SameProducers(s, s');
    ExecuteFlags(s, a);
    assert s.scheduled[..|s.executed| + 1] == s.scheduled[..|s.executed|] + [s.scheduled[|s.executed|]];
    assert forall k: Ticket :: Live(s', k) <==> Live(s, k);
  }

  lemma EmptyActions(s: State)
    requires Inv(s) && s.consumer.Executed?
    ensures Actions(Written(s, s.pop, EMPTY).(consumer := Emptied))
  {
    hide Ring, Held, Unwritten, Flags, Counts;
    FrontIsPublished(s);
    var s' := Written(s, s.pop, EMPTY).(consumer := Emptied);
    SameProducers(s, s');
    assert forall k: Ticket :: Live(s', k) <==> Live(s, k);
    forall k: Ticket | Live(s, k) && k != s.popped ensures Ring(k, |s.slots|) != s.pop {
      OtherSlot(s, k, s.popped);
    }
  }

  lemma ClearActions(s: State)
    requires Inv(s) && s.consumer.Emptied?
    ensures Actions(Freeing(s))
  {
    hide Ring, Held, Unwritten, Flags, Counts;
    FrontIsPublished(s);
    var s' := Freeing(s);
    SameProducers(s, s');
    assert forall k: Ticket :: Live(s', k) <==> Live(s, k) && k != s.popped;
  }

  lemma ConsumerActions(s: State, s': State)
    requires Inv(s) && s'.producers == s.producers && s'.slots == s.slots && s'.scheduled == s.scheduled &&
      s'.executed == s.executed
    requires Cleared(s') == Cleared(s) && !s.consumer.Emptied?
    ensures Actions(s')
  {
    hide Ring, Flags, Counts, Consumer, Actions;
    SameProducers(s, s');
    SameActions(s, s');
  }

  lemma InvIndices(s: State)
    requires FlagInv(s)
    ensures |s.slots| > 0 && s.push == Ring(|s.scheduled|, |s.slots|) && s.pop == Ring(s.popped, |s.slots|)
  {}

  /** Every step of every producer and of the consumer keeps the invariant, as long as there is room for each claim. */
  lemma StepKeeps(s: State, step: Step)
    requires Inv(s) && Sane(s) && HasRoom(s, step) && Take(s, step).Some?
    ensures Inv(Take(s, step).value)
  {
    hide FlagInv, Actions, Ring;
    assert |s.slots| > 0 && s.push == Ring(|s.scheduled|, |s.slots|) &&
      s.pop == Ring(s.popped, |s.slots|) by { InvIndices(s); }
    match step
    case Load(p, a) => LoadKeeps(s, p, Loaded(a, s.push));
    case ExchangeSucceeds(p) =>
      RingNext(|s.scheduled|, |s.slots|);
      ClaimFlags(s, p, (s.push + 1) % |s.slots|);
      ClaimActions(s, p, (s.push + 1) % |s.slots|);
    case ExchangeFails(p) => LoadKeeps(s, p, Loaded(At(s, p).action, s.push));
    case Store(p) =>
      var c := At(s, p);
      WrittenFlags(s, c.slot, c.action);
      RephasedFlags(Written(s, c.slot, c.action), p, Stored(c.action, c.slot, c.ticket));
      StoreActions(s, p);
    case Check(p) =>
      var c := At(s, p);
      HolderSeesFalse(s, p);
      RephasedFlags(s, p, Checked(c.action, c.slot, c.ticket));
      RephasedActions(s, p, Checked(c.action, c.slot, c.ticket));
    case Publish(p) =>
      PublishFlags(s, p);
      PublishActions(s, p);
    case TestFlag =>
      TestFlags(s);
      ConsumerActions(s, s.(consumer := Ready));
    case Execute => ExecuteKeeps(s);
    case EmptySlot =>
      EmptyFlags(s);
      EmptyActions(s);
    case ClearFlag =>
      ClearFlags(s);
      ClearActions(s);
    case Advance =>
      RingNext(s.popped, |s.slots|);
      AdvanceFlags(s, (s.pop + 1) % |s.slots|);
      ConsumerActions(s, Advanced(s, (s.pop + 1) % |s.slots|));
  }

  /** Producers before their claim do not matter. */
  lemma LoadKeeps(s: State, p: Producer, c: Scheduling)
    requires Inv(s) && (At(s, p).Elsewhere? || At(s, p).Loaded?) && (c.Elsewhere? || c.Loaded?)
    ensures Inv(Rephased(s, p, c))
  {
    hide FlagInv, Actions;
    RephasedFlags(s, p, c);
    RephasedActions(s, p, c);
  }

  // ----- whole runs

  ghost predicate Follows(run: seq<State>, steps: seq<Step>, i: nat)
    requires i < |steps| && |run| == |steps| + 1
  {
    Sane(run[i]) && Take(run[i], steps[i]) == Some(run[i + 1])
  }

  ghost predicate IsRun(run: seq<State>, steps: seq<Step>) {
    |run| == |steps| + 1 && Initial(run[0]) &&
    forall i :: 0 <= i < |steps| ==> Follows(run, steps, i) && HasRoom(run[i], steps[i])
  }

  lemma {:induction false} RunKeeps(run: seq<State>, steps: seq<Step>, i: nat)
    requires IsRun(run, steps) && i < |run|
    ensures Inv(run[i])
    decreases i
  {
    hide Inv, Take, Sane;
    if i == 0 {
      InvInitially(run[0]);
    } else {
      RunKeeps(run, steps, i - 1);
      assert Follows(run, steps, i - 1);
      StepKeeps(run[i - 1], steps[i - 1]);
    }
  }

  /** In every interleaving: the executed actions are the scheduled actions in claim order, as far as they go; no
      assertion fails; and when the dispatcher is idle and no producer is inside Schedule, everything scheduled has
      been executed. */
  lemma ExecutedInOrder(run: seq<State>, steps: seq<Step>, i: nat)
    requires IsRun(run, steps) && i < |run|
    ensures var s := run[i];
      |s.executed| <= |s.scheduled| && s.executed == s.scheduled[..|s.executed|] &&
      (forall p :: !At(s, p).Failed?) &&
      (s.pop < |s.slots| && s.consumer.Testing? && !s.slots[s.pop].ready && (forall p :: !Inside(At(s, p))) ==>
        s.executed == s.scheduled)
  {
    RunKeeps(run, steps, i);
    var s := run[i];
    if s.consumer.Testing? && !s.slots[s.pop].ready && (forall p :: !Inside(At(s, p))) {
      assert forall k: Ticket :: !Held(s, k);
      assert !Live(s, s.popped);
      assert s.scheduled[..|s.scheduled|] == s.scheduled;
    }
  }

  // ----- what happens when there is no room

  /** The state without the tickets from `n` on. */
  function Without(s: State, n: Ticket): State
    requires n <= |s.scheduled| && |s.slots| > 0
  {
    s.(scheduled := s.scheduled[..n], push := Ring(n, |s.slots|),
       producers := map q | q in s.producers && !(Inside(s.producers[q]) && s.producers[q].ticket >= n) ::
         s.producers[q])
  }

  /** Tickets below `n` obey the rules; those from `n` on, however many, have not got as far as their check, and each
      has the slot that the ring gives it. */
  ghost predicate OnlyClaimed(s: State, n: Ticket) {
    n <= |s.scheduled| && |s.slots| > 0 && FlagInv(Without(s, n)) && s.push == Ring(|s.scheduled|, |s.slots|) &&
    (forall q :: Inside(At(s, q)) && At(s, q).ticket >= n ==>
       At(s, q).slot == Ring(At(s, q).ticket, |s.slots|) && !At(s, q).Checked?)
  }

  /** Not a check or a publication of a ticket from `n` on. */
  predicate IsBefore(s: State, step: Step, n: Ticket) {
    (step.Check? || step.Publish?) && Inside(At(s, step.p)) ==> At(s, step.p).ticket < n
  }

  lemma AtWithout(s: State, n: Ticket, q: Producer)
    requires n <= |s.scheduled| && |s.slots| > 0
    ensures At(Without(s, n), q) == if Inside(At(s, q)) && At(s, q).ticket >= n then Elsewhere else At(s, q)
  {}

  lemma WithoutNothing(s: State)
    requires FlagInv(s)
    ensures OnlyClaimed(s, |s.scheduled|)
  {
    hide Ring, FlagInv;
    var n := |s.scheduled|;
    InvIndices(s);
    forall q | Inside(At(s, q)) ensures At(s, q).ticket < n {
      TicketIsLive(s, q);
    }
    assert s.scheduled[..n] == s.scheduled;
    assert forall q | q in s.producers :: At(s, q) == s.producers[q];
    assert Without(s, n).producers == s.producers;
  }

  lemma TicketIsLive(s: State, q: Producer)
    requires FlagInv(s) && Inside(At(s, q))
    ensures Live(s, At(s, q).ticket)
  {
    assert Holds(At(s, q), At(s, q).ticket);
  }

  lemma OnlyClaimedIsSane(s: State, n: Ticket)
    requires OnlyClaimed(s, n)
    ensures Sane(s)
  {
    hide Ring, Flags, Counts, Consumer;
    FlagsAreSane(Without(s, n));
    forall q | Inside(At(s, q)) ensures At(s, q).slot < |s.slots| {
      AtWithout(s, n, q);
    }
  }

  /** A producer changes its phase, not its place; and a slot may be written. */
  lemma OutsideRephased(s: State, s': State, n: Ticket, p: Producer, c: Scheduling)
    requires OnlyClaimed(s, n) && SamePlace(At(s, p), c) && (Inside(c) && c.ticket >= n ==> !c.Checked?)
    requires s' == s.(producers := s.producers[p := c], slots := s'.slots) && |s'.slots| == |s.slots|
    requires forall i :: 0 <= i < |s.slots| ==> s'.slots[i].ready == s.slots[i].ready
    ensures OnlyClaimed(s', n)
  {
    hide Ring, Flags, FlagInv, Indices;
    var w, w' := Without(s, n), Without(s', n);
    forall q ensures At(s', q) == (if q == p then c else At(s, q)) && SamePlace(At(w, q), At(w', q)) {
      AtWithout(s, n, q);
      AtWithout(s', n, q);
      NotFailed(w, q);
    }
    SamePlaces(w, w');
  }

  lemma NotFailed(s: State, q: Producer)
    requires FlagInv(s)
    ensures !At(s, q).Failed?
  {}

  lemma SamePlaces(w: State, w': State)
    requires FlagInv(w) && (forall q :: SamePlace(At(w, q), At(w', q))) &&
      w' == w.(producers := w'.producers, slots := w'.slots)
    requires |w'.slots| == |w.slots| && forall i :: 0 <= i < |w.slots| ==> w'.slots[i].ready == w.slots[i].ready
    ensures FlagInv(w')
  {
    hide Ring, Flags;
    SameFlagsKeep(w, w');
  }

  lemma OutsideClaims(s: State, n: Ticket, p: Producer)
    requires OnlyClaimed(s, n) && At(s, p).Loaded? && At(s, p).pushIndex == s.push
    ensures OnlyClaimed(Claim(s, p, At(s, p).action, (s.push + 1) % |s.slots|), n)
  {
    hide FlagInv;
    var s' := Claim(s, p, At(s, p).action, (s.push + 1) % |s.slots|);
    RingNext(|s.scheduled|, |s.slots|);
    hide Ring;
    var w, w' := Without(s, n), Without(s', n);
    assert s'.scheduled[..n] == s.scheduled[..n];
    forall q ensures At(s', q) == (if q == p then Claimed(At(s, p).action, s.push, |s.scheduled|) else At(s, q)) {
    }
    forall q ensures SamePlace(At(w, q), At(w', q)) {
      AtWithout(s, n, q);
      AtWithout(s', n, q);
      NotFailed(w, q);
    }
    SamePlaces(w, w');
  }

  /** The consumer, and the publications of tickets below `n`, go on as if the later tickets were not there. */
  lemma OutsideKeeps(s: State, step: Step, n: Ticket)
    requires OnlyClaimed(s, n) && Sane(s) && IsBefore(s, step, n) && Take(s, step).Some?
    ensures OnlyClaimed(Take(s, step).value, n)
  {
    hide Ring, FlagInv, OnlyClaimed;
    var s' := Take(s, step).value;
    match step
    case Load(p, a) => OutsideRephased(s, s', n, p, Loaded(a, s.push));
    case ExchangeSucceeds(p) => OutsideClaims(s, n, p);
    case ExchangeFails(p) => OutsideRephased(s, s', n, p, Loaded(At(s, p).action, s.push));
    case Store(p) => var c := At(s, p); OutsideRephased(s, s', n, p, Stored(c.action, c.slot, c.ticket));
    case Check(p) =>
      var c := At(s, p);
      BelowSeesFalse(s, n, p);
      OutsideRephased(s, s', n, p, Checked(c.action, c.slot, c.ticket));
    case Publish(p) => OutsidePublishes(s, n, p);
    case TestFlag => OutsideConsumes(s, step, n);
    case Execute => OutsideConsumes(s, step, n);
    case EmptySlot => OutsideConsumes(s, step, n);
    case ClearFlag => OutsideConsumes(s, step, n);
    case Advance => OutsideConsumes(s, step, n);
  }

  lemma BelowSeesFalse(s: State, n: Ticket, p: Producer)
    requires OnlyClaimed(s, n) && Inside(At(s, p)) && At(s, p).ticket < n
    ensures At(s, p).slot < |s.slots| && !s.slots[At(s, p).slot].ready
  {
    hide FlagInv, Ring;
    AtWithout(s, n, p);
    HolderSeesFalse(Without(s, n), p);
  }

  lemma OutsidePublishes(s: State, n: Ticket, p: Producer)
    requires OnlyClaimed(s, n) && Inside(At(s, p)) && At(s, p).ticket < n && At(s, p).slot < |s.slots|
    ensures OnlyClaimed(Published(s, p), n)
  {
    hide FlagInv, Ring;
    var s', w := Published(s, p), Without(s, n);
    AtWithout(s, n, p);
    PublishFlags(w, p);
    var w', v := Without(s', n), Published(w, p);
    forall q ensures At(s', q) == (if q == p then Elsewhere else At(s, q)) && SamePlace(At(v, q), At(w', q)) {
      AtWithout(s, n, q);
      AtWithout(s', n, q);
      NotFailed(w, q);
    }
    SamePlaces(v, w');
  }

  predicate IsConsumers(step: Step) {
    step.TestFlag? || step.Execute? || step.EmptySlot? || step.ClearFlag? || step.Advance?
  }

  lemma OutsideConsumes(s: State, step: Step, n: Ticket)
    requires OnlyClaimed(s, n) && Sane(s) && IsConsumers(step) && Take(s, step).Some?
    ensures OnlyClaimed(Take(s, step).value, n)
  {
    hide FlagInv, Ring;
    var w, s' := Without(s, n), Take(s, step).value;
    FlagsAreSane(w);
    assert Take(w, step).Some? && Take(w, step).value == Without(s', n);
    ConsumerFlags(w, step);
    assert forall q :: At(s', q) == At(s, q);
  }

  lemma ConsumerFlags(s: State, step: Step)
    requires FlagInv(s) && Sane(s) && IsConsumers(step) && Take(s, step).Some?
    ensures FlagInv(Take(s, step).value)
  {
    hide FlagInv, Ring;
    match step
    case TestFlag => TestFlags(s);
    case Execute => ExecuteFlags(s, if s.slots[s.pop].action >= 0 then s.slots[s.pop].action else 0);
    case EmptySlot => EmptyFlags(s);
    case ClearFlag => ClearFlags(s);
    case Advance =>
      InvIndices(s);
      RingNext(s.popped, |s.slots|);
      AdvanceFlags(s, (s.pop + 1) % |s.slots|);
  }

  /** A run that starts with everything in order and goes on up to the check of ticket `n`, with any number of claims
      and no room required; only no later ticket has been checked before. */
  ghost predicate IsOverrun(run: seq<State>, steps: seq<Step>, n: Ticket) {
    |run| == |steps| + 1 && Inv(run[0]) && |run[0].scheduled| == n &&
    forall i :: 0 <= i < |steps| ==> Follows(run, steps, i) && IsBefore(run[i], steps[i], n)
  }

  lemma {:induction false} OverrunKeeps(run: seq<State>, steps: seq<Step>, n: Ticket, i: nat)
    requires IsOverrun(run, steps, n) && i < |run|
    ensures OnlyClaimed(run[i], n) && |run[i].slots| == |run[0].slots|
    decreases i
  {
    hide OnlyClaimed, FlagInv, Actions, Take, Sane;
    if i == 0 {
      WithoutNothing(run[0]);
    } else {
      OverrunKeeps(run, steps, n, i - 1);
      assert Follows(run, steps, i - 1);
      OutsideKeeps(run[i - 1], steps[i - 1], n);
      SameStorage(run[i - 1], steps[i - 1]);
    }
  }

  lemma SameStorage(s: State, step: Step)
    requires Sane(s) && Take(s, step).Some?
    ensures |Take(s, step).value.slots| == |s.slots|
  {}

  /** The assertion in Schedule, in any interleaving: it fails if and only if the slot still belongs to the ticket
      one turn older, and that ticket has been published. So an overrun goes undetected exactly when the older ticket
      is still unpublished at the check. */
  lemma FailsIffOlderIsPublished(run: seq<State>, steps: seq<Step>, n: Ticket, p: Producer)
    requires IsOverrun(run, steps, n)
    requires var s := run[|steps|]; At(s, p).Stored? && At(s, p).ticket == n
    ensures var s := run[|steps|];
      var size := |s.slots|;
      Sane(s) && Take(s, Check(p)).Some? &&
      (At(Take(s, Check(p)).value, p).Failed? <==> n >= size && Cleared(s) <= n - size && !Held(s, n - size))
  {
    hide Ring, FlagInv, Held, OnlyClaimed, Take, Sane, Follows, IsBefore;
    var s := run[|steps|];
    OverrunKeeps(run, steps, n, |steps|);
    OnlyClaimedIsSane(s, n);
    CheckFails(s, n, p);
  }

  lemma CheckFails(s: State, n: Ticket, p: Producer)
    requires OnlyClaimed(s, n) && Sane(s) && At(s, p).Stored? && At(s, p).ticket == n
    ensures var size := |s.slots|;
      Take(s, Check(p)).Some? &&
      (At(Take(s, Check(p)).value, p).Failed? <==> n >= size && Cleared(s) <= n - size && !Held(s, n - size))
  {
    hide Ring, FlagInv, Held;
    var size, w := |s.slots|, Without(s, n);
    ReadyIffOlder(w);
    if n >= size {
      HeldWithout(s, n, n - size);
    }
    assert At(s, p).slot == Ring(n, size) && w.slots == s.slots && Cleared(w) == Cleared(s) && |w.scheduled| == n;
  }

  lemma HeldWithout(s: State, n: Ticket, k: Ticket)
    requires n <= |s.scheduled| && |s.slots| > 0 && k < n
    ensures Held(Without(s, n), k) <==> Held(s, k)
  {
    var w := Without(s, n);
    forall q ensures Holds(At(w, q), k) <==> Holds(At(s, q), k) {
      AtWithout(s, n, q);
    }
    if Held(s, k) { var q :| Holds(At(s, q), k); assert Holds(At(w, q), k); }
    if Held(w, k) { var q :| Holds(At(w, q), k); assert Holds(At(s, q), k); }
  }

  /** The slot of the next ticket is ready iff the ticket one turn older has been published and not cleared. */
  lemma ReadyIffOlder(s: State)
    requires FlagInv(s)
    ensures var n, size := |s.scheduled|, |s.slots|;
      s.slots[Ring(n, size)].ready <==> n >= size && Cleared(s) <= n - size && !Held(s, n - size)
  {
    hide Ring, Held, Counts, Consumer, Holders;
    var n, size := |s.scheduled|, |s.slots|;
    if n < Cleared(s) + size {
      FreeSlot(s);
    } else {
      assert Live(s, n - size);
      FullTurn(n - size, size);
    }
  }

  /** When no other producer is inside Schedule, and nothing else happens, a producer runs into the assertion iff the
      storage was full. */
  lemma FailsIffFull(s: State, p: Producer) returns (run: seq<State>, steps: seq<Step>)
    requires Inv(s) && At(s, p).Loaded? && At(s, p).pushIndex == s.push && forall q :: !Inside(At(s, q))
    ensures steps == [ExchangeSucceeds(p), Store(p), Check(p)] && |run| == 4 && run[0] == s
    ensures forall i :: 0 <= i < |steps| ==> Follows(run, steps, i)
    ensures At(run[3], p).Failed? <==> |s.scheduled| == Cleared(s) + |s.slots|
  {
    hide Ring, FlagInv, Actions, Sane, Take, OnlyClaimed;
    InvIsSane(s);
    var n := |s.scheduled|;
    var s1 := AfterClaim(s, p);
    WithoutNothing(s);
    OutsideKeeps(s, ExchangeSucceeds(p), n);
    OnlyClaimedIsSane(s1, n);
    var s2 := AfterStore(s1, p);
    var first := [s, s1, s2];
    assert forall i :: 0 <= i < 2 ==>
             Follows(first, [ExchangeSucceeds(p), Store(p)], i) &&
             IsBefore(first[i], [ExchangeSucceeds(p), Store(p)][i], n);
    FailsIffOlderIsPublished(first, [ExchangeSucceeds(p), Store(p)], n, p);
    InvIndices(s);
    if n >= |s.slots| {
      OnlyOneInside(s, s2, p, n);
      assert !Held(s2, n - |s.slots|);
    }
    Within(s);
    run, steps := first + [Take(s2, Check(p)).value], [ExchangeSucceeds(p), Store(p), Check(p)];
    assert Follows(run, steps, 2);
  }

  lemma Within(s: State)
    requires FlagInv(s)
    ensures |s.scheduled| <= Cleared(s) + |s.slots|
  {}

  lemma OnlyOneInside(s: State, s': State, p: Producer, n: Ticket)
    requires (forall q :: !Inside(At(s, q))) && (forall q :: q != p ==> At(s', q) == At(s, q)) && At(s', p).Stored? &&
      At(s', p).ticket == n
    ensures forall k: Ticket | k != n :: !Held(s', k)
  {}

  lemma AfterClaim(s: State, p: Producer) returns (s': State)
    requires Sane(s) && At(s, p).Loaded? && At(s, p).pushIndex == s.push
    ensures Take(s, ExchangeSucceeds(p)) == Some(s') && At(s', p) == Claimed(At(s, p).action, s.push, |s.scheduled|)
    ensures (forall q :: q != p ==> At(s', q) == At(s, q)) && Cleared(s') == Cleared(s) && |s'.slots| == |s.slots|
  {
    s' := Take(s, ExchangeSucceeds(p)).value;
  }

  lemma AfterStore(s: State, p: Producer) returns (s': State)
    requires Sane(s) && At(s, p).Claimed?
    ensures Take(s, Store(p)) == Some(s') && At(s', p) == Stored(At(s, p).action, At(s, p).slot, At(s, p).ticket)
    ensures (forall q :: q != p ==> At(s', q) == At(s, q)) && Cleared(s') == Cleared(s) && |s'.slots| == |s.slots|
  {
    s' := Take(s, Store(p)).value;
  }

  // ----- an overrun that is not detected

  /** A dispatcher with one slot and two producers. */
  function Small(slot: Slot, c: Scheduling, d: Scheduling, consumer: Executing, scheduled: seq<Action>,
      executed: seq<Action>, popped: nat): State {
    State([slot], 0, 0, map[1 := c, 2 := d], consumer, scheduled, executed, popped)
  }

  lemma SmallSteps(slot: Slot, c: Scheduling, d: Scheduling, consumer: Executing, scheduled: seq<Action>,
      executed: seq<Action>, popped: nat)
    requires Inside(c) ==> c.slot == 0
    requires Inside(d) ==> d.slot == 0
    ensures var s := Small(slot, c, d, consumer, scheduled, executed, popped);
      Sane(s) && At(s, 1) == c && At(s, 2) == d && (forall q :: q != 1 && q != 2 ==> At(s, q) == Elsewhere) &&
      (forall e :: s.producers[1 := e] == map[1 := e, 2 := d]) &&
        (forall e :: s.producers[2 := e] == map[1 := c, 2 := e]) &&
      (forall e :: s.slots[0 := e] == [e])
  {
    var s := Small(slot, c, d, consumer, scheduled, executed, popped);
    assert forall q :: At(s, q) == if q == 1 then c else if q == 2 then d else Elsewhere;
  }

  /** A run from an initial state with one slot up to `last` in which no assertion fails. */
  ghost predicate IsPath(run: seq<State>, steps: seq<Step>, last: State) {
    |run| == |steps| + 1 && run[|steps|] == last && Initial(run[0]) && |run[0].slots| == 1 &&
      (forall i :: 0 <= i < |steps| ==> Follows(run, steps, i)) &&
    forall i, q :: 0 <= i < |run| ==> !At(run[i], q).Failed?
  }

  ghost predicate Leads(s: State, step: Step, s': State) {
    Sane(s) && Take(s, step) == Some(s') && forall q :: !At(s', q).Failed?
  }

  lemma PathGoesOn(run: seq<State>, steps: seq<Step>, step: Step, s: State, s': State)
      returns (run': seq<State>, steps': seq<Step>)
    requires IsPath(run, steps, s) && Leads(s, step, s')
    ensures IsPath(run', steps', s')
  {
    hide Sane, Take;
    run', steps' := run + [s'], steps + [step];
    forall i | 0 <= i < |steps'| ensures Follows(run', steps', i) {
      assert i < |steps| ==> Follows(run, steps, i);
    }
  }

  lemma AtTheStart(s: State)
    requires Initial(s) && |s.slots| == 1
    ensures IsPath([s], [], s)
  {}

  /** Producer 1 claims the one slot and stores its action. */
  lemma FirstClaims() returns (run: seq<State>, steps: seq<Step>)
    ensures IsPath(run, steps, Small(Slot(7, false), Stored(7, 0, 0), Elsewhere, Testing, [7], [], 0))
  {
    hide Sane, IsPath;
    var s0 := Small(Slot(EMPTY, false), Elsewhere, Elsewhere, Testing, [], [], 0);
    run, steps := [s0], [];
    assert IsPath(run, steps, s0) by {
      SmallSteps(Slot(EMPTY, false), Elsewhere, Elsewhere, Testing, [], [], 0);
      AtTheStart(s0);
    }
    var s1 := Small(Slot(EMPTY, false), Loaded(7, 0), Elsewhere, Testing, [], [], 0);
    assert Leads(s0, Load(1, 7), s1) by {
      SmallSteps(Slot(EMPTY, false), Elsewhere, Elsewhere, Testing, [], [], 0);
      SmallSteps(Slot(EMPTY, false), Loaded(7, 0), Elsewhere, Testing, [], [], 0);
    }
    run, steps := PathGoesOn(run, steps, Load(1, 7), s0, s1);
    var s2 := Small(Slot(EMPTY, false), Claimed(7, 0, 0), Elsewhere, Testing, [7], [], 0);
    assert Leads(s1, ExchangeSucceeds(1), s2) by {
      SmallSteps(Slot(EMPTY, false), Loaded(7, 0), Elsewhere, Testing, [], [], 0);
      assert s1.scheduled + [7] == [7];
      SmallSteps(Slot(EMPTY, false), Claimed(7, 0, 0), Elsewhere, Testing, [7], [], 0);
    }
    run, steps := PathGoesOn(run, steps, ExchangeSucceeds(1), s1, s2);
    var s3 := Small(Slot(7, false), Stored(7, 0, 0), Elsewhere, Testing, [7], [], 0);
    assert Leads(s2, Store(1), s3) by {
      SmallSteps(Slot(EMPTY, false), Claimed(7, 0, 0), Elsewhere, Testing, [7], [], 0);
      SmallSteps(Slot(7, false), Stored(7, 0, 0), Elsewhere, Testing, [7], [], 0);
    }
    run, steps := PathGoesOn(run, steps, Store(1), s2, s3);
  }

  /** Producer 2 claims the same slot and writes its action over the other. */
  lemma SecondClaims(before: seq<State>, taken: seq<Step>) returns (run: seq<State>, steps: seq<Step>)
    requires IsPath(before, taken, Small(Slot(7, false), Stored(7, 0, 0), Elsewhere, Testing, [7], [], 0))
    ensures IsPath(run, steps, Small(Slot(8, false), Stored(7, 0, 0), Stored(8, 0, 1), Testing, [7, 8], [], 0))
  {
    hide Sane, IsPath;
    var s3 := Small(Slot(7, false), Stored(7, 0, 0), Elsewhere, Testing, [7], [], 0);
    run, steps := before, taken;
    var s4 := Small(Slot(7, false), Stored(7, 0, 0), Loaded(8, 0), Testing, [7], [], 0);
    assert Leads(s3, Load(2, 8), s4) by {
      SmallSteps(Slot(7, false), Stored(7, 0, 0), Elsewhere, Testing, [7], [], 0);
      SmallSteps(Slot(7, false), Stored(7, 0, 0), Loaded(8, 0), Testing, [7], [], 0);
    }
    run, steps := PathGoesOn(run, steps, Load(2, 8), s3, s4);
    var s5 := Small(Slot(7, false), Stored(7, 0, 0), Claimed(8, 0, 1), Testing, [7, 8], [], 0);
    assert Leads(s4, ExchangeSucceeds(2), s5) by {
      SmallSteps(Slot(7, false), Stored(7, 0, 0), Loaded(8, 0), Testing, [7], [], 0);
      assert s4.scheduled + [8] == [7, 8];
      SmallSteps(Slot(7, false), Stored(7, 0, 0), Claimed(8, 0, 1), Testing, [7, 8], [], 0);
    }
    run, steps := PathGoesOn(run, steps, ExchangeSucceeds(2), s4, s5);
    var s6 := Small(Slot(8, false), Stored(7, 0, 0), Stored(8, 0, 1), Testing, [7, 8], [], 0);
    assert Leads(s5, Store(2), s6) by {
      SmallSteps(Slot(7, false), Stored(7, 0, 0), Claimed(8, 0, 1), Testing, [7, 8], [], 0);
      SmallSteps(Slot(8, false), Stored(7, 0, 0), Stored(8, 0, 1), Testing, [7, 8], [], 0);
    }
    run, steps := PathGoesOn(run, steps, Store(2), s5, s6);
  }

  /** Both see the flag false before either sets it. */
  lemma BothCheck(before: seq<State>, taken: seq<Step>) returns (run: seq<State>, steps: seq<Step>)
    requires IsPath(before, taken, Small(Slot(8, false), Stored(7, 0, 0), Stored(8, 0, 1), Testing, [7, 8], [], 0))
    ensures IsPath(run, steps, Small(Slot(8, false), Checked(7, 0, 0), Checked(8, 0, 1), Testing, [7, 8], [], 0))
  {
    hide Sane, IsPath;
    var s6 := Small(Slot(8, false), Stored(7, 0, 0), Stored(8, 0, 1), Testing, [7, 8], [], 0);
    run, steps := before, taken;
    var s7 := Small(Slot(8, false), Checked(7, 0, 0), Stored(8, 0, 1), Testing, [7, 8], [], 0);
    assert Leads(s6, Check(1), s7) by {
      SmallSteps(Slot(8, false), Stored(7, 0, 0), Stored(8, 0, 1), Testing, [7, 8], [], 0);
      SmallSteps(Slot(8, false), Checked(7, 0, 0), Stored(8, 0, 1), Testing, [7, 8], [], 0);
    }
    run, steps := PathGoesOn(run, steps, Check(1), s6, s7);
    var s8 := Small(Slot(8, false), Checked(7, 0, 0), Checked(8, 0, 1), Testing, [7, 8], [], 0);
    assert Leads(s7, Check(2), s8) by {
      SmallSteps(Slot(8, false), Checked(7, 0, 0), Stored(8, 0, 1), Testing, [7, 8], [], 0);
      SmallSteps(Slot(8, false), Checked(7, 0, 0), Checked(8, 0, 1), Testing, [7, 8], [], 0);
    }
    run, steps := PathGoesOn(run, steps, Check(2), s7, s8);
  }

  lemma BothPublish(before: seq<State>, taken: seq<Step>) returns (run: seq<State>, steps: seq<Step>)
    requires IsPath(before, taken, Small(Slot(8, false), Checked(7, 0, 0), Checked(8, 0, 1), Testing, [7, 8], [], 0))
    ensures IsPath(run, steps, Small(Slot(8, true), Elsewhere, Elsewhere, Testing, [7, 8], [], 0))
  {
    hide Sane, IsPath;
    var s8 := Small(Slot(8, false), Checked(7, 0, 0), Checked(8, 0, 1), Testing, [7, 8], [], 0);
    run, steps := before, taken;
    var s9 := Small(Slot(8, true), Elsewhere, Checked(8, 0, 1), Testing, [7, 8], [], 0);
    assert Leads(s8, Publish(1), s9) by {
      SmallSteps(Slot(8, false), Checked(7, 0, 0), Checked(8, 0, 1), Testing, [7, 8], [], 0);
      SmallSteps(Slot(8, true), Elsewhere, Checked(8, 0, 1), Testing, [7, 8], [], 0);
    }
    run, steps := PathGoesOn(run, steps, Publish(1), s8, s9);
    var s10 := Small(Slot(8, true), Elsewhere, Elsewhere, Testing, [7, 8], [], 0);
    assert Leads(s9, Publish(2), s10) by {
      SmallSteps(Slot(8, true), Elsewhere, Checked(8, 0, 1), Testing, [7, 8], [], 0);
      SmallSteps(Slot(8, true), Elsewhere, Elsewhere, Testing, [7, 8], [], 0);
    }
    run, steps := PathGoesOn(run, steps, Publish(2), s9, s10);
  }

  /** The consumer finds one action. */
  lemma OneIsExecuted(before: seq<State>, taken: seq<Step>) returns (run: seq<State>, steps: seq<Step>)
    requires IsPath(before, taken, Small(Slot(8, true), Elsewhere, Elsewhere, Testing, [7, 8], [], 0))
    ensures IsPath(run, steps, Small(Slot(8, true), Elsewhere, Elsewhere, Executed, [7, 8], [8], 0))
  {
    hide Sane, IsPath;
    var s10 := Small(Slot(8, true), Elsewhere, Elsewhere, Testing, [7, 8], [], 0);
    run, steps := before, taken;
    var s11 := Small(Slot(8, true), Elsewhere, Elsewhere, Ready, [7, 8], [], 0);
    assert Leads(s10, TestFlag, s11) by {
      SmallSteps(Slot(8, true), Elsewhere, Elsewhere, Testing, [7, 8], [], 0);
      SmallSteps(Slot(8, true), Elsewhere, Elsewhere, Ready, [7, 8], [], 0);
    }
    run, steps := PathGoesOn(run, steps, TestFlag, s10, s11);
    var s12 := Small(Slot(8, true), Elsewhere, Elsewhere, Executed, [7, 8], [8], 0);
    assert Leads(s11, Execute, s12) by {
      SmallSteps(Slot(8, true), Elsewhere, Elsewhere, Ready, [7, 8], [], 0);
      assert s11.executed + [8] == [8];
      SmallSteps(Slot(8, true), Elsewhere, Elsewhere, Executed, [7, 8], [8], 0);
    }
    run, steps := PathGoesOn(run, steps, Execute, s11, s12);
  }

  lemma SlotIsFreed(before: seq<State>, taken: seq<Step>) returns (run: seq<State>, steps: seq<Step>)
    requires IsPath(before, taken, Small(Slot(8, true), Elsewhere, Elsewhere, Executed, [7, 8], [8], 0))
    ensures IsPath(run, steps, Small(Slot(EMPTY, false), Elsewhere, Elsewhere, Testing, [7, 8], [8], 1))
  {
    hide Sane, IsPath;
    var s12 := Small(Slot(8, true), Elsewhere, Elsewhere, Executed, [7, 8], [8], 0);
    run, steps := before, taken;
    var s13 := Small(Slot(EMPTY, true), Elsewhere, Elsewhere, Emptied, [7, 8], [8], 0);
    assert Leads(s12, EmptySlot, s13) by {
      SmallSteps(Slot(8, true), Elsewhere, Elsewhere, Executed, [7, 8], [8], 0);
      SmallSteps(Slot(EMPTY, true), Elsewhere, Elsewhere, Emptied, [7, 8], [8], 0);
    }
    run, steps := PathGoesOn(run, steps, EmptySlot, s12, s13);
    var s14 := Small(Slot(EMPTY, false), Elsewhere, Elsewhere, Freed, [7, 8], [8], 0);
    assert Leads(s13, ClearFlag, s14) by {
      SmallSteps(Slot(EMPTY, true), Elsewhere, Elsewhere, Emptied, [7, 8], [8], 0);
      SmallSteps(Slot(EMPTY, false), Elsewhere, Elsewhere, Freed, [7, 8], [8], 0);
    }
    run, steps := PathGoesOn(run, steps, ClearFlag, s13, s14);
    var s15 := Small(Slot(EMPTY, false), Elsewhere, Elsewhere, Testing, [7, 8], [8], 1);
    assert Leads(s14, Advance, s15) by {
      SmallSteps(Slot(EMPTY, false), Elsewhere, Elsewhere, Freed, [7, 8], [8], 0);
      SmallSteps(Slot(EMPTY, false), Elsewhere, Elsewhere, Testing, [7, 8], [8], 1);
    }
    run, steps := PathGoesOn(run, steps, Advance, s14, s15);
  }

  /** Without room, an overrun can pass unseen: the check of the second producer comes before the publication of the
      first. Then no assertion fails, and of two scheduled actions the first one is lost: nothing is left to execute. */
  lemma OverrunUndetected() returns (run: seq<State>, steps: seq<Step>)
    ensures |run| == |steps| + 1 && Initial(run[0]) && |run[0].slots| == 1
    ensures forall i :: 0 <= i < |steps| ==> Follows(run, steps, i)
    ensures forall i, q :: 0 <= i < |run| ==> !At(run[i], q).Failed?
    ensures var s := run[|steps|];
      s.scheduled == [7, 8] && s.executed == [8] && s.consumer.Testing? && s.slots == [Slot(EMPTY, false)] &&
        forall q :: At(s, q).Elsewhere?
  {
    run, steps := FirstClaims();
    run, steps := SecondClaims(run, steps);
    run, steps := BothCheck(run, steps);
    run, steps := BothPublish(run, steps);
    run, steps := OneIsExecuted(run, steps);
    run, steps := SlotIsFreed(run, steps);
    SmallSteps(Slot(EMPTY, false), Elsewhere, Elsewhere, Testing, [7, 8], [8], 1);
  }
}
