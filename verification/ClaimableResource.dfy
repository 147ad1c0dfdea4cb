/** ClaimableResource: claimers queue for a resource, and an event dispatched later grants it to the first of them. */
module ClaimableResource {
  import opened Options

  type Claimer = nat
  /** The n-th call of Claim has ticket n. Tickets are not part of the program; they name what happened. */
  type Ticket = nat

  datatype Waiting = Waiting(claimer: Claimer, ticket: Ticket)
  datatype State = State(
    pending: seq<Waiting>, current: Option<Claimer>,
    granted: set<Claimer>,     // isGranted
    queued: set<Claimer>,      // isQueued
    armed: set<Claimer>,       // onGranted is set
    events: nat,               // ReEvaluateClaim events in the event dispatcher
    issued: nat,               // the number of claims so far
    grants: seq<Ticket>,       // the claims granted so far, in that order
    withdrawn: set<Ticket>)

  // ----- ClaimableResource

  function ReEvaluateClaim(s: State): State {
    if s.current.None? && s.pending != [] then
      var c := s.pending[0].claimer;
      s.(pending := s.pending[1..], current := Some(c),
         queued := s.queued - {c}, granted := s.granted + {c}, armed := s.armed - {c}, grants :=
           s.grants + [s.pending[0].ticket])
    else s
  }

  function AddClaim(s: State, c: Claimer): State {
    s.(pending := s.pending + [Waiting(c, s.issued)], issued := s.issued + 1, events := if s.current.None?
      then s.events + 1 else s.events)
  }

  /** Where the claimer is in the list, if it is. */
  function Position(pending: seq<Waiting>, c: Claimer): (i: nat)
    ensures i <= |pending| && (i < |pending| ==> pending[i].claimer == c)
    ensures forall j | 0 <= j < i :: pending[j].claimer != c
  {
    if pending == [] || pending[0].claimer == c then 0 else Position(pending[1..], c) + 1
  }

  /** Erasing a claimer that is not in the list has no effect. */
  function Without(pending: seq<Waiting>, c: Claimer): seq<Waiting> {
    var i := Position(pending, c);
    if i < |pending| then pending[..i] + pending[i + 1..] else pending
  }

  /** The ticket of the claimer, if it is waiting. */
  function TicketOf(pending: seq<Waiting>, c: Claimer): set<Ticket> {
    var i := Position(pending, c);
    if i < |pending| then {pending[i].ticket} else {}
  }

  function RemoveClaim(s: State, c: Claimer): State {
    if s.current == Some(c) then s.(current := None, events := s.events + 1)
    else s.(pending := Without(s.pending, c), withdrawn := s.withdrawn + TicketOf(s.pending, c))
  }

  // ----- the claimers

  function BaseRelease(s: State, c: Claimer): State {
    var t := if c in s.granted then s else s.(queued := s.queued - {c});
    RemoveClaim(t.(granted := t.granted - {c}), c)
  }

  function Release(s: State, c: Claimer): State {
    BaseRelease(if c in s.granted then s else s.(armed := s.armed - {c}), c)
  }

  function Destroyed(s: State, c: Claimer): State {
    var t := if c in s.granted then BaseRelease(s, c) else s;
    var u := if c in t.queued then BaseRelease(t, c) else t;
    u.(armed := u.armed - {c})
  }

  datatype Step =
    | Claim(c: Claimer)
    | LetGo(c: Claimer)
    | Destroy(c: Claimer)
    | Dispatch

  /** A claim whose function has not been called yet may not be repeated: really_assert(!this->onGranted). */
  predicate Enabled(s: State, step: Step) {
    match step
    case Claim(c) => c !in s.armed
    case LetGo(c) => true
    case Destroy(c) => true
    case Dispatch => s.events > 0
  }

  function Take(s: State, step: Step): State
    requires Enabled(s, step)
  {
    match step
    case Claim(c) => AddClaim(s.(armed := s.armed + {c}, queued := s.queued + {c}), c)
    case LetGo(c) => Release(s, c)
    case Destroy(c) => Destroyed(s, c)
    case Dispatch => ReEvaluateClaim(s.(events := s.events - 1))
  }

  predicate Initial(s: State) {
    s.pending == [] && s.current.None? && s.granted == {} && s.queued == {} && s.armed == {} && s.issued == 0 &&
      s.grants == [] && s.withdrawn == {}
  }

  // ----- the invariant

  function Tickets(pending: seq<Waiting>): set<Ticket> {
    set w | w in pending :: w.ticket
  }

  function Claimers(pending: seq<Waiting>): set<Claimer> {
    set w | w in pending :: w.claimer
  }

  predicate InOrder(pending: seq<Waiting>) {
    forall i, j | 0 <= i < j < |pending| :: pending[i].ticket < pending[j].ticket &&
      pending[i].claimer != pending[j].claimer
  }

  predicate Increasing(grants: seq<Ticket>) {
    forall i, j | 0 <= i < j < |grants| :: grants[i] < grants[j]
  }

  ghost predicate Flags(s: State) {
    && s.granted == (if s.current.Some? then {s.current.value} else {})
    && s.queued == Claimers(s.pending) && s.armed == s.queued
    && (s.current.None? && s.pending != [] ==> s.events > 0)
  }

  ghost predicate Order(s: State) {
    && InOrder(s.pending) && Increasing(s.grants)
    && (forall i, j | 0 <= i < |s.grants| && 0 <= j < |s.pending| :: s.grants[i] < s.pending[j].ticket)
    && (forall t: Ticket :: t < s.issued <==> t in s.grants || t in s.withdrawn || t in Tickets(s.pending))
    && (forall t | t in s.withdrawn :: t !in s.grants && t !in Tickets(s.pending))
  }

  ghost predicate Inv(s: State) {
    Flags(s) && Order(s)
  }

  lemma InitialInv(s: State)
    requires Initial(s)
    ensures Inv(s)
  {
  }

  /** A resource that nobody has claimed. */
  lemma StartsFree(events: nat)
    ensures Initial(State([], None, {}, {}, {}, events, 0, [], {}))
  {}

  lemma WithoutMembers(pending: seq<Waiting>, c: Claimer)
    requires InOrder(pending)
    ensures forall w :: w in Without(pending, c) <==> w in pending && w.claimer != c
  {
    var i := Position(pending, c);
    if i < |pending| {
      var rest := pending[..i] + pending[i + 1..];
      assert pending == pending[..i] + [pending[i]] + pending[i + 1..];
      forall j | i < j < |pending| ensures pending[j].claimer != c {
        assert pending[i].claimer != pending[j].claimer;
      }
      assert forall w | w in rest :: w.claimer != c;
    }
  }

  lemma WithoutInOrder(pending: seq<Waiting>, c: Claimer)
    requires InOrder(pending)
    ensures InOrder(Without(pending, c))
  {
  }

  /** What is left when a claimer is erased. */
  lemma WithoutParts(pending: seq<Waiting>, c: Claimer)
    requires InOrder(pending)
    ensures Claimers(Without(pending, c)) == Claimers(pending) - {c}
    ensures Tickets(Without(pending, c)) == Tickets(pending) - TicketOf(pending, c) &&
      TicketOf(pending, c) <= Tickets(pending)
  {
    hide Without, InOrder;
    WithoutMembers(pending, c);
    var i := Position(pending, c);
    if i < |pending| {
      assert pending[i] in pending;
      forall w | w in pending && (w.ticket == pending[i].ticket || w.claimer == c) ensures w == pending[i] {
        SameTicket(pending, w, pending[i]);
      }
    }
  }

  lemma SameTicket(pending: seq<Waiting>, v: Waiting, w: Waiting)
    requires InOrder(pending) && v in pending && w in pending && (v.ticket == w.ticket || v.claimer == w.claimer)
    ensures v == w
  {
    var i :| 0 <= i < |pending| && pending[i] == v;
    var j :| 0 <= j < |pending| && pending[j] == w;
    assert !(i < j) && !(j < i);
  }

  lemma ClaimKeeps(s: State, c: Claimer)
    requires Inv(s) && c !in s.armed
    ensures Inv(Take(s, Claim(c)))
  {
    var s' := Take(s, Claim(c));
    var w := Waiting(c, s.issued);
    assert forall v :: v in s'.pending <==> v in s.pending || v == w;
    assert Claimers(s'.pending) == Claimers(s.pending) + {c};
    assert Tickets(s'.pending) == Tickets(s.pending) + {s.issued};
    forall i | 0 <= i < |s.pending| ensures s.pending[i].ticket < s.issued && s.pending[i].claimer != c {
      assert s.pending[i] in s.pending;
      assert s.pending[i].ticket in Tickets(s.pending) && s.pending[i].claimer in Claimers(s.pending);
    }
    forall i | 0 <= i < |s.grants| ensures s.grants[i] < s.issued {
      assert s.grants[i] in s.grants;
    }
  }

  lemma DispatchKeeps(s: State)
    requires Inv(s) && s.events > 0
    ensures Inv(Take(s, Dispatch))
  {
    hide Order, Flags;
    OrderIsInOrder(s);
    SameOrder(s, s.(events := s.events - 1));
    GrantKeepsOrder(s.(events := s.events - 1));
    GrantKeepsFlags(s);
  }

  lemma OrderIsInOrder(s: State)
    requires Order(s)
    ensures InOrder(s.pending)
  {
  }

  lemma SameOrder(s: State, s': State)
    requires Order(s) && s'.pending == s.pending && s'.grants == s.grants && s'.withdrawn == s.withdrawn &&
      s'.issued == s.issued
    ensures Order(s')
  {
  }

  lemma FirstLeaves(pending: seq<Waiting>)
    requires pending != [] && InOrder(pending)
    ensures Claimers(pending[1..]) == Claimers(pending) - {pending[0].claimer} &&
      pending[0].claimer in Claimers(pending)
    ensures Tickets(pending[1..]) == Tickets(pending) - {pending[0].ticket} && pending[0].ticket in Tickets(pending)
  {
    WithoutParts(pending, pending[0].claimer);
    assert Without(pending, pending[0].claimer) == pending[1..];
    assert pending[0] in pending;
  }

  lemma GrantKeepsOrder(s: State)
    requires Order(s)
    ensures Order(ReEvaluateClaim(s))
  {
    hide Tickets, Claimers;
    if s.current.None? && s.pending != [] {
      FirstLeaves(s.pending);
    }
  }

  lemma GrantKeepsFlags(s: State)
    requires Flags(s) && InOrder(s.pending) && s.events > 0
    ensures Flags(ReEvaluateClaim(s.(events := s.events - 1)))
  {
    hide Tickets, Claimers, InOrder;
    if s.current.None? && s.pending != [] {
      FirstLeaves(s.pending);
    }
  }

  lemma RemoveKeepsOrder(s: State, c: Claimer)
    requires Order(s)
    ensures Order(RemoveClaim(s, c))
  {
    hide Without, TicketOf;
    if s.current != Some(c) {
      WithoutParts(s.pending, c);
      WithoutInOrder(s.pending, c);
      WithoutMembers(s.pending, c);
      var rest := Without(s.pending, c);
      forall i, j | 0 <= i < |s.grants| && 0 <= j < |rest| ensures s.grants[i] < rest[j].ticket {
        assert rest[j] in s.pending;
      }
      forall t | t in TicketOf(s.pending, c) ensures t !in s.grants {
        assert t in Tickets(s.pending);
      }
    }
  }

  /** A claimer that holds the resource gives it back; a claim it has made since stays. */
  lemma GrantedReleaseKeeps(s: State, c: Claimer)
    requires Inv(s) && c in s.granted
    ensures Inv(BaseRelease(s, c)) && c !in BaseRelease(s, c).granted
  {
    hide Order;
    SameOrder(s, BaseRelease(s, c));
  }

  /** A claimer that does not hold it withdraws its claim, if it has one. */
  lemma WaitingReleaseKeeps(s: State, c: Claimer)
    requires Inv(s) && c !in s.granted
    ensures Inv(Release(s, c)) && Release(s, c) == BaseRelease(s, c).(armed := s.armed - {c})
  {
    hide Order, Without, TicketOf, Claimers;
    OrderIsInOrder(s);
    WithoutParts(s.pending, c);
    var t := s.(armed := s.armed - {c}, queued := s.queued - {c}, granted := s.granted - {c});
    SameOrder(s, t);
    RemoveKeepsOrder(t, c);
    EmptyWithout(c);
  }

  lemma EmptyWithout(c: Claimer)
    ensures Without([], c) == []
  {
  }

  lemma DestroyKeeps(s: State, c: Claimer)
    requires Inv(s)
    ensures Inv(Destroyed(s, c)) && c !in Destroyed(s, c).queued && c !in Destroyed(s, c).granted
  {
    hide Inv, BaseRelease, Release;
    var t := s;
    if c in s.granted {
      GrantedReleaseKeeps(s, c);
      t := BaseRelease(s, c);
    }
    if c in t.queued {
      WaitingReleaseKeeps(t, c);
      ReleaseLeaves(t, c);
    } else {
      NotArmed(t, c);
    }
  }

  lemma ReleaseLeaves(s: State, c: Claimer)
    requires Inv(s) && c !in s.granted
    ensures c !in BaseRelease(s, c).queued && c !in BaseRelease(s, c).granted && BaseRelease(s, c).armed == s.armed
  {
  }

  lemma NotArmed(s: State, c: Claimer)
    requires Inv(s) && c !in s.queued
    ensures s.(armed := s.armed - {c}) == s
  {
  }

  lemma StepKeeps(s: State, step: Step)
    requires Inv(s) && Enabled(s, step)
    ensures Inv(Take(s, step))
  {
    hide Inv, BaseRelease, Destroyed, AddClaim, ReEvaluateClaim;
    match step
    case Claim(c) => ClaimKeeps(s, c);
    case LetGo(c) => if c in s.granted { GrantedReleaseKeeps(s, c); } else { WaitingReleaseKeeps(s, c); }
    case Destroy(c) => DestroyKeeps(s, c);
    case Dispatch => DispatchKeeps(s);
  }

  ghost predicate Follows(run: seq<State>, steps: seq<Step>, i: nat)
    requires i < |steps| && |run| == |steps| + 1
  {
    Enabled(run[i], steps[i]) && run[i + 1] == Take(run[i], steps[i])
  }

  ghost predicate IsRun(run: seq<State>, steps: seq<Step>) {
    |run| == |steps| + 1 && Initial(run[0]) && forall i | 0 <= i < |steps| :: Follows(run, steps, i)
  }

  lemma {:induction false} RunKeeps(run: seq<State>, steps: seq<Step>, i: nat)
    requires IsRun(run, steps) && i <= |steps|
    ensures Inv(run[i])
  {
    hide Inv, Enabled, Take;
    if i == 0 {
      InitialInv(run[0]);
    } else {
      RunKeeps(run, steps, i - 1);
      assert Follows(run, steps, i - 1);
      StepKeeps(run[i - 1], steps[i - 1]);
    }
  }

  /** In every run: at most one claimer holds the resource, and it is the current claim; no claimer waits twice; and
      when the resource is free while a claimer waits, a re-evaluation is still to come. */
  lemma HeldByOne(run: seq<State>, steps: seq<Step>, i: nat)
    requires IsRun(run, steps) && i <= |steps|
    ensures var s := run[i];
            (forall c, d | c in s.granted && d in s.granted :: c == d)
            && (forall c :: c in s.granted <==> s.current == Some(c))
            && (forall j, k | 0 <= j < k < |s.pending| :: s.pending[j].claimer != s.pending[k].claimer)
            && (s.current.None? && s.pending != [] ==> s.events > 0)
  {
    RunKeeps(run, steps, i);
  }

  /** In every run: claims are granted in the order in which they were made, each at most once, and a claim is
      overtaken only when it was withdrawn. */
  lemma GrantedInOrder(run: seq<State>, steps: seq<Step>, i: nat, j: nat, t: Ticket)
    requires IsRun(run, steps) && i <= |steps| && j < |run[i].grants| && t < run[i].grants[j]
    ensures Increasing(run[i].grants)
    ensures t in run[i].withdrawn || exists k | 0 <= k < j :: run[i].grants[k] == t
    ensures t in run[i].withdrawn ==> t !in run[i].grants
  {
    hide InOrder;
    RunKeeps(run, steps, i);
    var s := run[i];
    assert s.grants[j] in s.grants;
    assert t < s.issued;
    assert t !in Tickets(s.pending);
    if t !in s.withdrawn {
      var k :| 0 <= k < |s.grants| && s.grants[k] == t;
      assert k < j;
    }
  }

  // ----- nobody waits for ever

  /** A claimer may claim unless it waits already; it may let go, and be destroyed, at any time. */
  lemma WhatIsEnabled(s: State, c: Claimer)
    requires Inv(s)
    ensures Enabled(s, Claim(c)) <==> forall i | 0 <= i < |s.pending| :: s.pending[i].claimer != c
    ensures Enabled(s, LetGo(c)) && Enabled(s, Destroy(c)) && (Enabled(s, Dispatch) <==> s.events > 0)
  {
    if c in s.armed {
      var w :| w in s.pending && w.claimer == c;
    }
    forall i | 0 <= i < |s.pending| ensures s.pending[i].claimer in s.armed {
      assert s.pending[i] in s.pending;
    }
  }

  /** A claim goes to the end, and when the resource is free it is looked at. */
  lemma ClaimIsLast(s: State, c: Claimer)
    requires Inv(s) && Enabled(s, Claim(c))
    ensures var t := Take(s, Claim(c));
      t.pending == s.pending + [Waiting(c, s.issued)] && t.current == s.current && t.grants == s.grants &&
      t.events == s.events + (if s.current.None? then 1 else 0)
  {}

  /** Letting go frees the resource and has the list looked at. */
  lemma LettingGoFrees(s: State, c: Claimer)
    requires Inv(s) && s.current == Some(c)
    ensures var t := Take(s, LetGo(c));
      t.current == None && t.events == s.events + 1 && t.pending == s.pending && t.grants == s.grants && c !in t.granted
  {}

  /** When the resource is free the first that waits can be granted it, and no other. */
  lemma FirstIsGranted(s: State)
    requires Inv(s) && s.current.None? && s.pending != []
    ensures Enabled(s, Dispatch)
    ensures var t, first := Take(s, Dispatch), s.pending[0];
      t.current == Some(first.claimer) && t.granted == {first.claimer} && t.pending == s.pending[1..] &&
      t.grants == s.grants + [first.ticket]
  {}

  /** A holder keeps the resource, whatever is dispatched. */
  lemma HolderStays(s: State)
    requires Inv(s) && s.current.Some? && s.events > 0
    ensures Take(s, Dispatch) == s.(events := s.events - 1)
  {}

  ghost predicate Leads(s: State, t: State, n: nat)
    decreases n
  {
    if n == 0 then s == t else exists step :: Enabled(s, step) && Leads(Take(s, step), t, n - 1)
  }

  lemma LeadsOn(s: State, step: Step, t: State, n: nat)
    requires Enabled(s, step) && Leads(Take(s, step), t, n)
    ensures Leads(s, t, n + 1)
  {
    hide Take, Enabled;
  }

  function InTurn(pending: seq<Waiting>): seq<Ticket> {
    if pending == [] then [] else [pending[0].ticket] + InTurn(pending[1..])
  }

  /** As each holder lets go, everyone that waits is granted the resource in turn. */
  lemma {:induction false} AllAreGranted(s: State) returns (t: State, n: nat)
    requires Inv(s)
    ensures Leads(s, t, n) && Inv(t) && t.pending == [] && t.grants == s.grants + InTurn(s.pending)
    decreases |s.pending|, s.current.Some?
  {
    hide Inv, Take, Enabled;
    if s.pending == [] {
      t, n := s, 0;
    } else if s.current.Some? {
      var c := s.current.value;
      WhatIsEnabled(s, c);
      StepKeeps(s, LetGo(c));
      LettingGoFrees(s, c);
      t, n := AllAreGranted(Take(s, LetGo(c)));
      LeadsOn(s, LetGo(c), t, n);
      n := n + 1;
    } else {
      FirstIsGranted(s);
      StepKeeps(s, Dispatch);
      t, n := AllAreGranted(Take(s, Dispatch));
      LeadsOn(s, Dispatch, t, n);
      n := n + 1;
      assert s.grants + [s.pending[0].ticket] + InTurn(s.pending[1..]) == s.grants + InTurn(s.pending);
    }
  }
}
