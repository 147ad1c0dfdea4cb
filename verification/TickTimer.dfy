/** TickOnInterruptTimerService: an interrupt counts ticks; the main program turns them into system time. The
    interrupt is one step, the main program may be interrupted between any two accesses to the shared variables.
 */
module TickTimer {
  import opened Options

  const TWO_32: nat := 0x1_0000_0000
  /** std::numeric_limits<uint32_t>::max() / 2 */
  const FARTHEST: nat := 0x7fff_ffff

  /** Where the main program is in ProcessTicks. */
  datatype Phase =
    | Elsewhere
    | Started                     // taken from the event dispatcher
    | Exchanged(taken: nat)       // the count was taken and set to zero
    | Progressed                  // system time was moved on; timers that are due fire
    | Targeted                    // the threshold was set
    | Decided(again: bool)        // the count was compared with the threshold
    | Stored(again: bool)         // notificationScheduled was assigned

  datatype State = State(
    systemTime: int, resolution: int, threshold: nat, ticks: nat, scheduled: bool, phase: Phase,
    queued: nat,        // ProcessTicks events in the event dispatcher
    elapsed: nat,       // the number of interrupts so far
    wraps: nat)         // how often the count has wrapped around

  /** NextTriggerChanged, for the time of the first trigger if there is one. */
  function Threshold(trigger: Option<int>, systemTime: int, resolution: int): nat
    requires resolution > 0
  {
    match trigger
    case None => FARTHEST
    case Some(at) =>
      var duration := if at - systemTime > 0 then at - systemTime else 0;
      var ticks := (duration + resolution - 1) / resolution % TWO_32;
      if ticks < FARTHEST then ticks else FARTHEST
  }

  /** SystemTickInterrupt */
  function Tick(s: State): State {
    var t := s.(ticks := (s.ticks + 1) % TWO_32, elapsed := s.elapsed + 1, wraps := if s.ticks + 1 >= TWO_32
      then s.wraps + 1 else s.wraps);
    if t.ticks >= t.threshold && !t.scheduled then t.(scheduled := true, queued := t.queued + 1) else t
  }

  function Retargeted(s: State, trigger: Option<int>): State
    requires s.resolution > 0
  {
    s.(threshold := Threshold(trigger, s.systemTime, s.resolution))
  }

  datatype Step =
    | Interrupt
    | Start | Exchange | Advance
    | Retarget(trigger: Option<int>)     // a timer is started or stopped
    | Target(trigger: Option<int>)       // ProcessTicks does so itself
    | Decide | Store | Finish

  predicate Enabled(s: State, step: Step) {
    match step
    case Interrupt => true
    case Start => s.phase.Elsewhere? && s.queued > 0
    case Exchange => s.phase.Started?
    case Advance => s.phase.Exchanged?
    case Retarget(_) => s.resolution > 0 && (s.phase.Elsewhere? || s.phase.Progressed?)
    case Target(_) => s.resolution > 0 && s.phase.Progressed?
    case Decide => s.phase.Targeted?
    case Store => s.phase.Decided?
    case Finish => s.phase.Stored?
  }

  function Take(s: State, step: Step): State
    requires Enabled(s, step)
  {
    match step
    case Interrupt => Tick(s)
    case Start => s.(phase := Started, queued := s.queued - 1)
    case Exchange => s.(phase := Exchanged(s.ticks), ticks := 0)
    case Advance => s.(phase := Progressed, systemTime := s.systemTime + s.phase.taken * s.resolution)
    case Retarget(trigger) => Retargeted(s, trigger)
    case Target(trigger) => Retargeted(s, trigger).(phase := Targeted)
    case Decide => s.(phase := Decided(s.ticks >= s.threshold))
    case Store => s.(phase := Stored(s.phase.again), scheduled := s.phase.again)
    case Finish => s.(phase := Elsewhere, queued := if s.phase.again then s.queued + 1 else s.queued)
  }

  /** The constructor calls NextTriggerChanged when no timer is registered yet. */
  predicate Initial(s: State) {
    && s.systemTime == 0 && s.threshold == FARTHEST && s.resolution > 0 && s.ticks == 0 && !s.scheduled &&
      s.phase.Elsewhere?
    && s.queued == 0 && s.elapsed == 0 && s.wraps == 0
  }

  function InFlight(p: Phase): nat {
    if p.Exchanged? then p.taken else 0
  }

  /** How many ProcessTicks are queued, or running with their decision to come, or about to queue another. */
  function Pending(s: State): nat {
    s.queued + (if s.phase.Elsewhere? || s.phase == Stored(false) then 0 else 1)
  }

  predicate Inv(s: State) {
    && s.resolution > 0 && s.ticks < TWO_32
    && s.systemTime + (InFlight(s.phase) + s.ticks + TWO_32 * s.wraps) * s.resolution == s.elapsed * s.resolution
    && Pending(s) == (if s.scheduled then 1 else 0)
  }

  lemma InitialInv(s: State)
    requires Initial(s)
    ensures Inv(s)
  {
  }

  /** A timer service can start with any resolution. */
  lemma StartsAtZero(resolution: int)
    requires resolution > 0
    ensures Initial(State(0, resolution, FARTHEST, 0, false, Elsewhere, 0, 0, 0))
  {}

  lemma StepKeeps(s: State, step: Step)
    requires Inv(s) && Enabled(s, step)
    ensures Inv(Take(s, step))
  {
  }

  ghost predicate IsRun(run: seq<State>, steps: seq<Step>) {
    && |run| == |steps| + 1 && Initial(run[0])
    && forall i | 0 <= i < |steps| :: Follows(run, steps, i)
  }

  lemma {:induction false} RunKeeps(run: seq<State>, steps: seq<Step>, i: nat)
    requires IsRun(run, steps) && i <= |steps|
    ensures Inv(run[i])
  {
    hide Inv, Enabled, Take;
    if i == 0 {
      InitialInv(run[0]);
    } else {
      RunKeeps(run, steps, i - 1);
      assert Follows(run, steps, i - 1);
      StepKeeps(run[i - 1], steps[i - 1]);
    }
  }

  function Now(s: State): int {
    s.systemTime + s.ticks * s.resolution
  }

  /** In every interleaving no tick is lost or counted twice, short of a count that wraps around, and Now is the time
      that has elapsed wherever the main program can ask for it; and there is never more than one ProcessTicks to
      come. */
  lemma TimeIsKept(run: seq<State>, steps: seq<Step>, i: nat)
    requires IsRun(run, steps) && i <= |steps|
    ensures var s := run[i];
            s.queued <= 1 && (s.queued == 1 && !s.phase.Elsewhere? ==> s.phase == Stored(false))
            && s.systemTime + (InFlight(s.phase) + s.ticks + TWO_32 * s.wraps) * s.resolution ==
              s.elapsed * s.resolution
            && (!s.phase.Exchanged? && s.wraps == 0 ==> Now(s) == s.elapsed * s.resolution)
  {
    RunKeeps(run, steps, i);
  }

  // ----- notifications

  /** The count has reached the threshold, and no ProcessTicks is queued or running that will find that out: nothing
      is scheduled, or ProcessTicks has already decided not to run again. */
  predicate Lost(s: State) {
    s.ticks >= s.threshold && (!s.scheduled || s.phase == Decided(false))
  }

  /** The threshold is lowered to the count while nothing is scheduled, or an interrupt reaches the threshold after
      ProcessTicks has compared it and before ProcessTicks has said so. */
  predicate Loses(s: State, step: Step)
    requires Enabled(s, step)
  {
    match step
    case Retarget(trigger) => !s.scheduled && s.ticks >= Threshold(trigger, s.systemTime, s.resolution)
    case Interrupt => s.phase == Decided(false) && (s.ticks + 1) % TWO_32 >= s.threshold
    case _ => false
  }

  /** An interrupt comes while nothing is scheduled, or wraps the count around to below the threshold; or the
      threshold is raised. */
  predicate Repairs(s: State, step: Step)
    requires Enabled(s, step)
  {
    match step
    case Retarget(trigger) => s.ticks < Threshold(trigger, s.systemTime, s.resolution)
    case Interrupt => !s.scheduled || (s.ticks + 1) % TWO_32 < s.threshold
    case _ => false
  }

  /** No other step loses a notification, and no other makes up for one. */
  lemma LostByStep(s: State, step: Step)
    requires Inv(s) && Enabled(s, step)
    ensures Lost(Take(s, step)) <==> if Lost(s) then !Repairs(s, step) else Loses(s, step)
    ensures Loses(s, step) ==> !Repairs(s, step)
  {
    hide Threshold;
  }

  ghost predicate LostAt(run: seq<State>, steps: seq<Step>, j: nat, i: nat)
    requires IsRun(run, steps) && j < i <= |steps|
  {
    (Follows(run, steps, j) && Loses(run[j], steps[j])) &&
    forall k | j < k < i :: Follows(run, steps, k) && !Repairs(run[k], steps[k])
  }

  /** In every run a notification is lost exactly when some step has lost it and none since has made up for it. */
  lemma {:induction false} LostIffNotRepaired(run: seq<State>, steps: seq<Step>, i: nat)
    requires IsRun(run, steps) && i <= |steps|
    ensures Lost(run[i]) <==> exists j: nat | j < i :: LostAt(run, steps, j, i)
  {
    hide Inv, Enabled, Take, Lost, Loses, Repairs;
    if i == 0 {
      NotLostInitially(run[0]);
    } else {
      LostIffNotRepaired(run, steps, i - 1);
      RunKeeps(run, steps, i - 1);
      assert Follows(run, steps, i - 1);
      LostByStep(run[i - 1], steps[i - 1]);
      if Lost(run[i]) {
        if Lost(run[i - 1]) {
          var j: nat :| j < i - 1 && LostAt(run, steps, j, i - 1);
          assert LostAt(run, steps, j, i);
        } else {
          assert LostAt(run, steps, i - 1, i);
        }
      }
      if j: nat :| j < i - 1 && LostAt(run, steps, j, i) {
        assert LostAt(run, steps, j, i - 1);
        assert !Repairs(run[i - 1], steps[i - 1]);
      }
    }
  }

  lemma NotLostInitially(s: State)
    requires Initial(s)
    ensures !Lost(s)
  {}

  predicate Idle(s: State) {
    s.phase.Elsewhere? && s.queued == 0
  }

  /** When the main program is elsewhere and nothing is queued, the count has reached the threshold if and only if an
      earlier step has lost the notification and none since has made up for it. */
  lemma IdleIffLost(run: seq<State>, steps: seq<Step>, i: nat)
    requires IsRun(run, steps) && i <= |steps| && Idle(run[i])
    ensures run[i].ticks >= run[i].threshold <==> exists j: nat | j < i :: LostAt(run, steps, j, i)
  {
    hide IsRun, LostAt;
    RunKeeps(run, steps, i);
    LostIffNotRepaired(run, steps, i);
  }

  /** An interrupt that leaves the count at or above the threshold leaves a ProcessTicks queued or running that will
      find that out, unless it falls between the comparison and the assignment; so whatever was lost before is made
      up for. */
  lemma InterruptSchedules(s: State)
    requires Inv(s) && Tick(s).ticks >= s.threshold
    ensures Lost(Tick(s)) <==> s.phase == Decided(false)
    ensures s.phase != Decided(false) ==> Tick(s).queued == 1 || !Tick(s).phase.Elsewhere?
  {
    StepKeeps(s, Interrupt);
  }

  /** Such an interrupt does occur: a timer with a period of one tick can fire a tick late. */
  lemma NotificationCanBeMissed(start: State) returns (run: seq<State>, steps: seq<Step>)
    requires Initial(start)
    ensures IsRun(run, steps) && run[0] == start
    ensures var s := run[|steps|];
            s.phase.Elsewhere? && s.queued == 0 && s.ticks >= s.threshold && Now(s) == 2 * s.resolution
  {
    hide Threshold, Inv;
    var r := start.resolution;
    OneTick(0, r);
    OneTick(r, r);
    var s1 := Take(start, Retarget(Some(r)));
    assert s1 == start.(threshold := 1);
    var s2 := Take(s1, Interrupt);
    var s3 := Take(s2, Start);
    var s4 := Take(s3, Exchange);
    assert s4 == s1.(phase := Exchanged(1), scheduled := true, elapsed := 1);
    var s5 := Take(s4, Advance);
    assert s5.systemTime == r;
    var s6 := Take(s5, Target(Some(2 * r)));
    var s7 := Take(s6, Decide);
    assert s7 == s5.(phase := Decided(false));
    var s8 := Take(s7, Interrupt);
    var s9 := Take(s8, Store);
    var s10 := Take(s9, Finish);
    assert s10 == s5.(phase := Elsewhere, ticks := 1, scheduled := false, elapsed := 2);
    run := [start, s1, s2, s3, s4, s5, s6, s7, s8, s9, s10];
    steps := [Retarget(Some(r)), Interrupt, Start, Exchange, Advance, Target(Some(2 * r)), Decide, Interrupt,
      Store, Finish];
    assert run[|steps|] == s10;
    EveryStep(run, steps);
  }

  lemma EveryStep(run: seq<State>, steps: seq<Step>)
    requires |steps| == 10 && |run| == 11 && Initial(run[0])
    requires Follows(run, steps, 0) && Follows(run, steps, 1) && Follows(run, steps, 2) && Follows(run, steps, 3) &&
      Follows(run, steps, 4)
    requires Follows(run, steps, 5) && Follows(run, steps, 6) && Follows(run, steps, 7) && Follows(run, steps, 8) &&
      Follows(run, steps, 9)
    ensures IsRun(run, steps)
  {
    hide Enabled, Take;
    forall i | 0 <= i < |steps| ensures Follows(run, steps, i) {
    }
  }

  ghost predicate Follows(run: seq<State>, steps: seq<Step>, i: nat)
    requires i < |steps| && |run| == |steps| + 1
  {
    Enabled(run[i], steps[i]) && run[i + 1] == Take(run[i], steps[i])
  }

  lemma OneTick(systemTime: int, r: int)
    requires r > 0
    ensures Threshold(Some(systemTime + r), systemTime, r) == 1
  {
    assert r + r - 1 == 1 * r + (r - 1);
    assert (r + r - 1) / r == 1;
  }

  /** The number of whole ticks until the trigger, rounded up. */
  function TicksUntil(at: int, systemTime: int, resolution: int): nat
    requires resolution > 0
  {
    if at <= systemTime then 0 else (at - systemTime + resolution - 1) / resolution
  }

  /** The threshold is the number of ticks until the trigger if that is small enough, and smaller otherwise, never
      larger. */
  lemma ThresholdIsNotLate(at: int, systemTime: int, resolution: int)
    requires resolution > 0
    ensures Threshold(Some(at), systemTime, resolution) <= TicksUntil(at, systemTime, resolution)
    ensures Threshold(Some(at), systemTime, resolution) == TicksUntil(at, systemTime, resolution)
            <==> TicksUntil(at, systemTime, resolution) <= FARTHEST
  {
    if at <= systemTime {
      assert (resolution - 1) / resolution == 0;
    } else {
      Remainder(TicksUntil(at, systemTime, resolution));
    }
  }

  lemma Remainder(n: nat)
    ensures n % TWO_32 <= n && (n < TWO_32 ==> n % TWO_32 == n)
  {
  }

  /** A trigger has been reached exactly when the count has reached the number of ticks until it. */
  lemma DueIffCounted(s: State, at: int)
    requires Inv(s)
    ensures Now(s) >= at <==> s.ticks >= TicksUntil(at, s.systemTime, s.resolution)
  {
    var d, r := at - s.systemTime, s.resolution;
    if d > 0 {
      RoundedUp(d, r, s.ticks);
    } else {
      assert s.ticks * r >= 0;
    }
  }

  lemma RoundedUp(d: int, r: int, n: nat)
    requires d > 0 && r > 0
    ensures n * r >= d <==> n >= (d + r - 1) / r
  {
    var q := (d + r - 1) / r;
    assert q * r <= d + r - 1 < (q + 1) * r;
    if n >= q {
      assert n * r >= q * r;
    } else {
      assert n * r <= (q - 1) * r;
    }
  }

  /** A ProcessTicks is queued, or runs and has yet to compare the count, or has found that it is to run again. */
  predicate WillProcess(s: State) {
    s.queued > 0 || !(s.phase.Elsewhere? || s.phase == Decided(false) || s.phase == Stored(false))
  }

  lemma LostIffUnattended(s: State)
    requires Inv(s)
    ensures Lost(s) <==> s.ticks >= s.threshold && !WillProcess(s)
  {}

  /** So a trigger is never passed over: when it has been reached, the count has reached the threshold set for it,
      and a ProcessTicks will handle it unless the notification was lost and nothing has made up for that yet. */
  lemma DueIsNoticed(run: seq<State>, steps: seq<Step>, i: nat, at: int)
    requires IsRun(run, steps) && i <= |steps|
    requires var s := run[i];
      s.resolution > 0 && s.threshold == Threshold(Some(at), s.systemTime, s.resolution) && Now(s) >= at
    ensures run[i].ticks >= run[i].threshold
    ensures WillProcess(run[i]) <==> !exists j: nat | j < i :: LostAt(run, steps, j, i)
  {
    hide LostAt, Inv, Lost, WillProcess, Threshold, TicksUntil, Follows;
    var s := run[i];
    RunKeeps(run, steps, i);
    assert s.resolution > 0;
    DueIffCounted(s, at);
    ThresholdIsNotLate(at, s.systemTime, s.resolution);
    LostIffUnattended(s);
    LostIffNotRepaired(run, steps, i);
  }

  // ----- ProcessTicks can run, and what it does

  /** ProcessTicks, once queued, can run to its end. Without interrupts it turns all ticks into system time, sets the
      threshold for the first trigger, and is queued again iff that is due already. */
  lemma ProcessTicksRuns(s: State, trigger: Option<int>) returns (run: seq<State>, steps: seq<Step>)
    requires Inv(s) && s.phase.Elsewhere? && s.queued > 0
    ensures steps == [Start, Exchange, Advance, Target(trigger), Decide, Store, Finish] && |run| == 8 && run[0] == s
    ensures forall i | 0 <= i < 7 :: Follows(run, steps, i)
    ensures var time := s.systemTime + s.ticks * s.resolution;
      var next := Threshold(trigger, time, s.resolution);
      run[7] == s.(systemTime := time, threshold := next, ticks := 0, scheduled := next == 0, phase := Elsewhere,
                   queued := if next == 0 then s.queued else s.queued - 1)
  {
    hide Threshold;
    var s1 := Take(s, Start);
    var s2 := Take(s1, Exchange);
    var s3 := Take(s2, Advance);
    var s4 := Take(s3, Target(trigger));
    var s5 := Take(s4, Decide);
    var s6 := Take(s5, Store);
    var s7 := Take(s6, Finish);
    run, steps := [s, s1, s2, s3, s4, s5, s6, s7], [Start, Exchange, Advance, Target(trigger), Decide, Store, Finish];
    forall i | 0 <= i < 7 ensures Follows(run, steps, i) {
      assert i in [0, 1, 2, 3, 4, 5, 6];
    }
  }

  /** An interrupt can come at any time: it counts, in 32 bits, and schedules iff the threshold is reached and
      nothing is scheduled. */
  lemma InterruptCounts(s: State)
    ensures Enabled(s, Interrupt)
    ensures var t := Take(s, Interrupt);
      t.ticks == (s.ticks + 1) % TWO_32 && t.elapsed == s.elapsed + 1 && t.systemTime == s.systemTime &&
      t.threshold == s.threshold && t.phase == s.phase &&
      (if t.ticks >= s.threshold && !s.scheduled then t.scheduled && t.queued == s.queued + 1
       else t.scheduled == s.scheduled && t.queued == s.queued)
  {}

  /** The main program goes on in one way only, or starts a timer. */
  lemma WhatIsEnabled(s: State, trigger: Option<int>)
    requires Inv(s)
    ensures Enabled(s, Start) <==> s.phase.Elsewhere? && s.queued > 0
    ensures Enabled(s, Exchange) <==> s.phase.Started?
    ensures Enabled(s, Advance) <==> s.phase.Exchanged?
    ensures Enabled(s, Retarget(trigger)) <==> s.phase.Elsewhere? || s.phase.Progressed?
    ensures Enabled(s, Target(trigger)) <==> s.phase.Progressed?
    ensures Enabled(s, Decide) <==> s.phase.Targeted?
    ensures Enabled(s, Store) <==> s.phase.Decided?
    ensures Enabled(s, Finish) <==> s.phase.Stored?
  {}
}
