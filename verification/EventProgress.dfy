/** The event dispatcher is never stuck: which steps can be taken, and that from every state everything scheduled can
    still be executed. */
module EventProgress {
  import opened Options
  import opened EventDispatcher
  import opened EventPatience

  // ----- which steps can be taken

  /** A producer can take the next step of Schedule, and no other. */
  lemma ProducerCan(s: State, p: Producer, a: Action)
    requires Sane(s)
    ensures Take(s, Load(p, a)).Some? <==> At(s, p).Elsewhere?
    ensures Take(s, ExchangeSucceeds(p)).Some? <==> At(s, p).Loaded? && At(s, p).pushIndex == s.push
    ensures Take(s, ExchangeFails(p)).Some? <==> At(s, p).Loaded?
    ensures Take(s, Store(p)).Some? <==> At(s, p).Claimed?
    ensures Take(s, Check(p)).Some? <==> At(s, p).Stored?
    ensures Take(s, Publish(p)).Some? <==> At(s, p).Checked?
  {}

  /** The consumer can start on an action iff the ticket that is next has been published; and once it has started it
      can go on. */
  lemma ConsumerCan(s: State)
    requires PatientInv(s) && Sane(s)
    ensures Take(s, TestFlag).Some? <==> s.consumer.Testing? && s.popped < |s.scheduled| && !Held(s, s.popped)
    ensures Take(s, Execute).Some? <==> s.consumer.Ready?
    ensures Take(s, EmptySlot).Some? <==> s.consumer.Executed?
    ensures Take(s, ClearFlag).Some? <==> s.consumer.Emptied?
    ensures Take(s, Advance).Some? <==> s.consumer.Freed?
  {
    hide Ring, Inv, Outside, Held;
    if s.consumer.Testing? {
      var n := Bound(s);
      var w := Without(s, n);
      FrontReadyIff(w);
      if s.popped < n {
        HeldWithout(s, n, s.popped);
      }
    }
  }

  lemma FrontReadyIff(s: State)
    requires Inv(s) && s.consumer.Testing?
    ensures s.pop < |s.slots| && (s.slots[s.pop].ready <==> s.popped < |s.scheduled| && !Held(s, s.popped))
  {
    hide Ring, Held, Actions;
    if s.popped < |s.scheduled| {
      assert Live(s, s.popped);
    } else {
      assert !Covered(s, s.pop);
    }
  }

  // ----- going on

  /** Patient steps lead from `s` to `t`, and none of them is part of a further claim. */
  ghost predicate LeadsTo(run: seq<State>, steps: seq<Step>, s: State, t: State) {
    |run| == |steps| + 1 && run[0] == s && run[|steps|] == t &&
    forall i :: 0 <= i < |steps| ==> Follows(run, steps, i) && IsPatient(run[i], steps[i]) && !IsClaim(steps[i])
  }

  predicate IsClaim(step: Step) {
    step.Load? || step.ExchangeSucceeds? || step.ExchangeFails?
  }

  ghost predicate Reaches(s: State, t: State) {
    exists run, steps :: LeadsTo(run, steps, s, t)
  }

  lemma ReachesItself(s: State)
    ensures Reaches(s, s)
  {
    assert LeadsTo([s], [], s, s);
  }

  lemma ReachesNext(s: State, step: Step)
    requires Sane(s) && IsPatient(s, step) && !IsClaim(step) && Take(s, step).Some?
    ensures Reaches(s, Take(s, step).value)
  {
    hide Sane, Take, IsPatient;
    var run, steps := [s, Take(s, step).value], [step];
    assert Follows(run, steps, 0);
    assert LeadsTo(run, steps, s, Take(s, step).value);
  }

  lemma ReachesOn(s: State, t: State, u: State)
    requires Reaches(s, t) && Reaches(t, u)
    ensures Reaches(s, u)
  {
    hide Sane, Take, IsPatient;
    var a, x :| LeadsTo(a, x, s, t);
    var b, y :| LeadsTo(b, y, t, u);
    var run, steps := a + b[1..], x + y;
    forall i | 0 <= i < |steps| ensures Follows(run, steps, i) && IsPatient(run[i], steps[i]) && !IsClaim(steps[i]) {
      if i < |x| {
        assert Follows(a, x, i);
        assert run[i] == a[i] && run[i + 1] == a[i + 1];
      } else {
        assert Follows(b, y, i - |x|);
        assert run[i] == b[i - |x|] && run[i + 1] == b[i - |x| + 1];
      }
    }
    assert LeadsTo(run, steps, s, u);
  }

  /** A step of the code, with what it keeps. */
  lemma Goes(s: State, step: Step) returns (t: State)
    requires PatientInv(s) && IsPatient(s, step) && !IsClaim(step) && (Sane(s) ==> Take(s, step).Some?)
    ensures Sane(s) && Take(s, step) == Some(t) && PatientInv(t) && Reaches(s, t)
  {
    hide PatientInv, Sane, Take, IsPatient, Reaches;
    PatientIsSane(s);
    t := Take(s, step).value;
    PatientStepKeeps(s, step);
    ReachesNext(s, step);
  }

  // ----- producers

  /** Everything but one producer, and the slots, is as it was. */
  ghost predicate OnlyProducer(s: State, t: State, p: Producer) {
    t == s.(slots := t.slots, producers := t.producers) && |t.slots| == |s.slots| &&
      forall q :: q != p ==> At(t, q) == At(s, q)
  }

  lemma StoreGoes(s: State, p: Producer) returns (t: State)
    requires PatientInv(s) && At(s, p).Claimed? && At(s, p).ticket < Bound(s)
    ensures PatientInv(t) && Reaches(s, t) && OnlyProducer(s, t, p)
    ensures At(t, p) == Stored(At(s, p).action, At(s, p).slot, At(s, p).ticket)
  {
    hide PatientInv, Reaches;
    t := Goes(s, Store(p));
  }

  lemma CheckGoes(s: State, p: Producer) returns (t: State)
    requires PatientInv(s) && At(s, p).Stored? && At(s, p).ticket < Bound(s)
    ensures PatientInv(t) && Reaches(s, t) && OnlyProducer(s, t, p)
    ensures At(t, p) == Checked(At(s, p).action, At(s, p).slot, At(s, p).ticket)
  {
    hide PatientInv, Sane, Reaches;
    t := Goes(s, Check(p));
    ImpatientCheckFails(s, p);
  }

  lemma PublishGoes(s: State, p: Producer) returns (t: State)
    requires PatientInv(s) && At(s, p).Checked?
    ensures PatientInv(t) && Reaches(s, t) && OnlyProducer(s, t, p) && At(t, p).Elsewhere?
  {
    hide PatientInv, Reaches;
    t := Goes(s, Publish(p));
  }

  /** A producer with a slot of its own can go on to the end of Schedule. */
  lemma ProducerFinishes(s: State, p: Producer) returns (t: State)
    requires PatientInv(s) && Inside(At(s, p)) && At(s, p).ticket < Bound(s)
    ensures PatientInv(t) && Reaches(s, t) && OnlyProducer(s, t, p) && At(t, p).Elsewhere?
  {
    hide PatientInv, Reaches;
    t := s;
    ReachesItself(s);
    if At(t, p).Claimed? {
      var u := StoreGoes(t, p);
      ReachesOn(s, t, u);
      t := u;
    }
    if At(t, p).Stored? {
      var u := CheckGoes(t, p);
      ReachesOn(s, t, u);
      t := u;
    }
    var u := PublishGoes(t, p);
    ReachesOn(s, t, u);
    t := u;
  }

  /** Any producer can claim, at any time, and the action is the last one scheduled. */
  lemma CanClaim(s: State, p: Producer, a: Action) returns (loaded: State, claimed: State)
    requires PatientInv(s) && At(s, p).Elsewhere?
    ensures Sane(s) && Take(s, Load(p, a)) == Some(loaded)
    ensures Sane(loaded) && Take(loaded, ExchangeSucceeds(p)) == Some(claimed) && PatientInv(claimed)
    ensures claimed.scheduled == s.scheduled + [a] && At(claimed, p) == Claimed(a, s.push, |s.scheduled|)
    ensures forall q :: q != p ==> At(claimed, q) == At(s, q)
    ensures claimed == s.(push := claimed.push, producers := claimed.producers, scheduled := claimed.scheduled)
  {
    hide PatientInv, Sane;
    PatientIsSane(s);
    loaded := Take(s, Load(p, a)).value;
    PatientStepKeeps(s, Load(p, a));
    PatientIsSane(loaded);
    claimed := Take(loaded, ExchangeSucceeds(p)).value;
    PatientStepKeeps(loaded, ExchangeSucceeds(p));
  }

  /** With room, it can go on to the end of Schedule. */
  lemma CanSchedule(s: State, p: Producer, a: Action) returns (loaded: State, claimed: State, t: State)
    requires PatientInv(s) && At(s, p).Elsewhere? && |s.scheduled| < Cleared(s) + |s.slots|
    ensures Sane(s) && Take(s, Load(p, a)) == Some(loaded)
    ensures Sane(loaded) && Take(loaded, ExchangeSucceeds(p)) == Some(claimed) && Reaches(claimed, t)
    ensures PatientInv(t) && t.scheduled == s.scheduled + [a] && At(t, p).Elsewhere? && t.executed == s.executed
    ensures forall q :: q != p ==> At(t, q) == At(s, q)
  {
    hide PatientInv, Reaches, Sane, Take;
    loaded, claimed := CanClaim(s, p, a);
    t := ProducerFinishes(claimed, p);
  }

  function Unfinished(s: State): set<Producer> {
    set p | p in s.producers && Inside(s.producers[p]) && s.producers[p].ticket < Bound(s)
  }

  /** So can all of them. */
  lemma {:induction false} ProducersFinish(s: State) returns (t: State)
    requires PatientInv(s)
    ensures PatientInv(t) && Reaches(s, t) && Unfinished(t) == {}
    ensures t == s.(slots := t.slots, producers := t.producers) && |t.slots| == |s.slots|
    decreases |Unfinished(s)|
  {
    hide PatientInv, Reaches;
    if Unfinished(s) == {} {
      t := s;
      ReachesItself(s);
    } else {
      var p :| p in Unfinished(s);
      var u := ProducerFinishes(s, p);
      assert Unfinished(u) <= Unfinished(s) - {p} by {
        forall q | q in Unfinished(u) ensures q in Unfinished(s) - {p} {
          assert At(u, q) == u.producers[q];
        }
      }
      Fewer(Unfinished(u), Unfinished(s), p);
      t := ProducersFinish(u);
      ReachesOn(s, u, t);
    }
  }

  lemma Fewer(a: set<Producer>, b: set<Producer>, p: Producer)
    requires p in b && a <= b - {p}
    ensures |a| < |b|
  {
    Subset(a, b - {p});
  }

  lemma {:induction false} Subset(a: set<Producer>, b: set<Producer>)
    requires a <= b
    ensures |a| <= |b|
    decreases |a|
  {
    if a != {} {
      var x :| x in a;
      Subset(a - {x}, b - {x});
    }
  }

  // ----- the consumer

  lemma ConsumerGoes(s: State, step: Step) returns (t: State)
    requires PatientInv(s) && (Sane(s) ==> Take(s, step).Some?) && IsConsumers(step)
    ensures Sane(s) && Take(s, step) == Some(t) && PatientInv(t) && Reaches(s, t)
    ensures t.scheduled == s.scheduled && t.producers == s.producers && |t.slots| == |s.slots|
    ensures t.popped == s.popped + if step.Advance? then 1 else 0
    ensures t.consumer == match step
                          case TestFlag => Ready
                          case Execute => Executed
                          case EmptySlot => Emptied
                          case ClearFlag => Freed
                          case _ => Testing
  {
    hide PatientInv, Reaches;
    t := Goes(s, step);
  }

  /** The consumer goes on until it has advanced. */
  lemma TurnEnds(s: State) returns (t: State)
    requires PatientInv(s) && (s.consumer.Testing? ==> s.popped < |s.scheduled| && !Held(s, s.popped))
    ensures PatientInv(t) && Reaches(s, t) && t.consumer.Testing? && t.popped == s.popped + 1 &&
      t.scheduled == s.scheduled
  {
    hide PatientInv, Reaches, Sane, Take;
    t := s;
    ReachesItself(s);
    PatientIsSane(s);
    ConsumerCan(s);
    if t.consumer.Testing? {
      t := ThenConsumes(s, t, TestFlag);
    }
    if t.consumer.Ready? {
      t := ThenConsumes(s, t, Execute);
    }
    if t.consumer.Executed? {
      t := ThenConsumes(s, t, EmptySlot);
    }
    if t.consumer.Emptied? {
      t := ThenConsumes(s, t, ClearFlag);
    }
    t := ThenConsumes(s, t, Advance);
  }

  lemma ThenConsumes(s: State, u: State, step: Step) returns (t: State)
    requires PatientInv(u) && Reaches(s, u) && IsConsumers(step)
    requires match step
             case TestFlag => Sane(u) && Take(u, TestFlag).Some?
             case Execute => u.consumer.Ready?
             case EmptySlot => u.consumer.Executed?
             case ClearFlag => u.consumer.Emptied?
             case _ => u.consumer.Freed?
    ensures PatientInv(t) && Reaches(s, t) && t.scheduled == u.scheduled
    ensures t.popped == u.popped + if step.Advance? then 1 else 0
    ensures t.consumer == match step
                          case TestFlag => Ready
                          case Execute => Executed
                          case EmptySlot => Emptied
                          case ClearFlag => Freed
                          case _ => Testing
  {
    hide PatientInv, Reaches, Sane, Take;
    PatientIsSane(u);
    ConsumerCan(u);
    t := ConsumerGoes(u, step);
    ReachesOn(s, u, t);
  }

  // ----- everything is executed

  lemma FrontIsPublishedNow(s: State)
    requires PatientInv(s) && Unfinished(s) == {} && s.consumer.Testing? && s.popped < |s.scheduled|
    ensures !Held(s, s.popped)
  {
    hide Ring, Inv, Outside;
    forall p ensures !Holds(At(s, p), s.popped) {
      assert p !in Unfinished(s);
    }
  }

  lemma AllDone(s: State)
    requires PatientInv(s) && Unfinished(s) == {} && s.consumer.Testing? && s.popped >= |s.scheduled|
    ensures s.executed == s.scheduled && forall p :: !Inside(At(s, p))
  {
    hide Ring;
    hide Flags, Outside;
    var w := Without(s, Bound(s));
    assert s.popped == |s.scheduled| == Bound(s) && |s.executed| == s.popped;
    InOrder(s);
    assert s.scheduled[..|s.scheduled|] == s.scheduled;
    TicketsInside(s);
    forall p ensures !Inside(At(s, p)) {
      assert p !in Unfinished(s);
    }
  }

  lemma PoppedWithin(s: State)
    requires PatientInv(s)
    ensures s.popped <= |s.scheduled| && (!s.consumer.Testing? ==> s.popped < |s.scheduled|)
  {
    hide Ring, Flags, Outside, Actions;
    var w := Without(s, Bound(s));
    assert Indices(w) && Consumer(w);
  }

  /** From every state, however many claims are in progress, everything that has been scheduled can be executed: the
      producers finish, and the consumer executes one action after the other. */
  lemma {:induction false} EverythingCanBeExecuted(s: State) returns (t: State)
    requires PatientInv(s)
    ensures PatientInv(t) && Reaches(s, t)
    ensures t.scheduled == s.scheduled && t.executed == t.scheduled && t.consumer.Testing? &&
      forall p :: !Inside(At(t, p))
    decreases |s.scheduled| - s.popped
  {
    hide PatientInv, Reaches;
    var u := ProducersFinish(s);
    PoppedWithin(u);
    if u.consumer.Testing? && u.popped >= |u.scheduled| {
      t := u;
      AllDone(u);
    } else {
      if u.consumer.Testing? {
        FrontIsPublishedNow(u);
      }
      var v := TurnEnds(u);
      ReachesOn(s, u, v);
      PoppedWithin(v);
      t := EverythingCanBeExecuted(v);
      ReachesOn(s, v, t);
    }
  }
}
