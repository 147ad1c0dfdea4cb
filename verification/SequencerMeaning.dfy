/** What a program comes to, rule by rule: how the end of each statement follows from the ends of its parts. Direct
    execution and the sequencer both come to it.
 */
module SequencerMeaning {
  import opened SequencerProgram
  import opened StructuredExecution
  import opened SequencerReplay
  import opened SequencerPoints
  import opened SequencerTheorems

  // ----- the variables

  /** An assignment sets one variable, in 32 bits, and no other. */
  lemma AssignedIsRead(v: Variable, x: nat, w: World, u: Variable)
    ensures Read(v, Assign(v, x, w)) == x % WORD_LIMIT
    ensures u != v ==> Read(u, Assign(v, x, w)) == Read(u, w)
    ensures Assign(v, x, w).trace == w.trace + [Assigned(v, x % WORD_LIMIT)]
  {}

  /** Tests and comparisons only look. */
  lemma LookingChangesNothing(env: Environment, c: Condition, v: Variable, x: Word, w: World, u: Variable)
    ensures Read(u, Test(env, c, w)) == Read(u, w) == Read(u, Compare(v, x, w))
    ensures Test(env, c, w).trace == w.trace + [Tested(c, env.holds(c, w))]
    ensures Compare(v, x, w).trace == w.trace + [Compared(v, x, Read(v, w) == x)]
  {}

  /** A Step is seen once, and its action alone decides about the variables. */
  lemma ActedOnce(env: Environment, a: Action, w: World)
    ensures Act(env, a, w).trace == w.trace + [Acted(a)] && Act(env, a, w).variables == env.effect(a, w)
  {}

  // ----- coming to an end

  /** From `w`, the rest `r` comes to its end within `n` micro steps, in `w'`. */
  ghost predicate EndsIn(env: Environment, r: Rest, n: nat, w: World, w': World) {
    Direct(env, n, Config(r, w)) == Config(Halt, w')
  }

  ghost predicate RestEnds(env: Environment, r: Rest, w: World, w': World) {
    exists n: nat :: EndsIn(env, r, n, w, w')
  }

  /** From `w`, the block `b` comes to its end in `w'`. */
  ghost predicate Ends(env: Environment, b: Block, w: World, w': World) {
    RestEnds(env, Push(b, Halt), w, w')
  }

  function One(s: Statement): Block {
    Cons(s, Nil)
  }

  lemma OneIs(s: Statement, k: Rest)
    ensures Push(One(s), k) == Do(s, k)
  {
    assert Push(Nil, k) == k;
  }

  lemma {:induction false} HaltStays(env: Environment, n: nat, w: World)
    ensures Direct(env, n, Config(Halt, w)) == Config(Halt, w)
  {
    if n > 0 {
      HaltStays(env, n - 1, w);
    }
  }

  lemma HaltEnds(env: Environment, w: World, w': World)
    ensures RestEnds(env, Halt, w, w') <==> w == w'
  {
    if RestEnds(env, Halt, w, w') {
      var n: nat :| EndsIn(env, Halt, n, w, w');
      HaltStays(env, n, w);
    }
    if w == w' {
      assert EndsIn(env, Halt, 0, w, w');
    }
  }

  /** One micro step less. */
  lemma EndsAfterMicro(env: Environment, r: Rest, w: World, w': World)
    requires !r.Halt?
    ensures var c := Micro(env, Config(r, w)); RestEnds(env, r, w, w') <==> RestEnds(env, c.rest, c.world, w')
  {
    hide Micro;
    var c := Micro(env, Config(r, w));
    if RestEnds(env, r, w, w') {
      var n: nat :| EndsIn(env, r, n, w, w');
      assert EndsIn(env, c.rest, n - 1, c.world, w');
    }
    if RestEnds(env, c.rest, c.world, w') {
      var n: nat :| EndsIn(env, c.rest, n, c.world, w');
      assert EndsIn(env, r, n + 1, w, w');
    }
  }

  lemma {:induction false} EndIsUnique(env: Environment, r: Rest, w: World, a: World, b: World)
    requires RestEnds(env, r, w, a) && RestEnds(env, r, w, b)
    ensures a == b
  {
    hide Direct;
    var n: nat :| EndsIn(env, r, n, w, a);
    var m: nat :| EndsIn(env, r, m, w, b);
    var c := Config(r, w);
    if n <= m {
      DirectTransitive(env, n, m - n, c);
      HaltStays(env, m - n, a);
    } else {
      DirectTransitive(env, m, n - m, c);
      HaltStays(env, n - m, b);
    }
  }

  // ----- one rest after another

  /** `r`, and then `k`. */
  function Then(r: Rest, k: Rest): Rest {
    match r
    case Halt => k
    case Do(s, next) => Do(s, Then(next, k))
    case Again(s, next) => Again(s, Then(next, k))
    case Until(s, next) => Until(s, Then(next, k))
    case Iterate(s, next) => Iterate(s, Then(next, k))
    case Increment(v, next) => Increment(v, Then(next, k))
  }

  lemma {:induction false} PushThen(b: Block, next: Rest, k: Rest)
    ensures Then(Push(b, next), k) == Push(b, Then(next, k))
    decreases b
  {
    if b.Cons? {
      PushThen(b.tail, next, k);
    }
  }

  lemma OtherwiseThen(a: Alternative, next: Rest, k: Rest)
    ensures Then(Otherwise(a, next), k) == Otherwise(a, Then(next, k))
  {
    if a.Else? {
      PushThen(a.body, next, k);
    }
  }

  lemma MicroThen(env: Environment, r: Rest, k: Rest, w: World)
    requires !r.Halt?
    ensures var c := Micro(env, Config(r, w)); Micro(env, Config(Then(r, k), w)) == Config(Then(c.rest, k), c.world)
  {
    match r
    case Do(s, next) =>
      if s.If? {
        OtherwiseThen(s.alternative, next, k);
      }
      if !s.Step? {
        PushThen(s.body, if s.While? then Again(s, next) else if s.DoWhile? then Until(s, next) else next, k);
      }
    case Iterate(s, next) =>
      if s.ForEach? {
        PushThen(s.body, Increment(s.variable, Iterate(s, next)), k);
      }
    case _ =>
  }

  lemma {:induction false} EndsInThen(env: Environment, r: Rest, k: Rest, n: nat, w: World, u: World, w': World)
    requires EndsIn(env, r, n, w, u) && RestEnds(env, k, u, w')
    ensures RestEnds(env, Then(r, k), w, w')
    decreases n
  {
    hide Micro;
    if r.Halt? {
      HaltStays(env, n, w);
    } else {
      var c := Micro(env, Config(r, w));
      MicroThen(env, r, k, w);
      EndsInThen(env, c.rest, k, n - 1, c.world, u, w');
      EndsAfterMicro(env, Then(r, k), w, w');
    }
  }

  lemma {:induction false} ThenEndsIn(env: Environment, r: Rest, k: Rest, n: nat, w: World, w': World)
      returns (u: World)
    requires EndsIn(env, Then(r, k), n, w, w')
    ensures RestEnds(env, r, w, u) && RestEnds(env, k, u, w')
    decreases n
  {
    hide Micro;
    if r.Halt? {
      u := w;
      HaltEnds(env, w, w);
    } else {
      var c := Micro(env, Config(r, w));
      MicroThen(env, r, k, w);
      assert EndsIn(env, Then(c.rest, k), n - 1, c.world, w');
      u := ThenEndsIn(env, c.rest, k, n - 1, c.world, w');
      EndsAfterMicro(env, r, w, u);
    }
  }

  /** A rest and then another comes to an end iff the first does, and from there the second. */
  lemma ThenEnds(env: Environment, r: Rest, k: Rest, w: World, w': World)
    ensures RestEnds(env, Then(r, k), w, w') <==> exists u :: RestEnds(env, r, w, u) && RestEnds(env, k, u, w')
  {
    if RestEnds(env, Then(r, k), w, w') {
      var n: nat :| EndsIn(env, Then(r, k), n, w, w');
      var u := ThenEndsIn(env, r, k, n, w, w');
    }
    if u :| RestEnds(env, r, w, u) && RestEnds(env, k, u, w') {
      var n: nat :| EndsIn(env, r, n, w, u);
      EndsInThen(env, r, k, n, w, u, w');
    }
  }

  lemma BlockEnds(env: Environment, b: Block, k: Rest, w: World, w': World)
    ensures RestEnds(env, Push(b, k), w, w') <==> exists u :: Ends(env, b, w, u) && RestEnds(env, k, u, w')
  {
    hide RestEnds;
    PushThen(b, Halt, k);
    ThenEnds(env, Push(b, Halt), k, w, w');
  }

  // ----- the rules

  lemma NothingEnds(env: Environment, w: World, w': World)
    ensures Ends(env, Nil, w, w') <==> w == w'
  {
    HaltEnds(env, w, w');
  }

  lemma SequenceEnds(env: Environment, s: Statement, rest: Block, w: World, w': World)
    ensures Ends(env, Cons(s, rest), w, w') <==> exists u :: Ends(env, One(s), w, u) && Ends(env, rest, u, w')
  {
    hide RestEnds;
    OneIs(s, Halt);
    var r, k := Do(s, Halt), Push(rest, Halt);
    assert Then(Halt, k) == k;
    assert Then(r, k) == Push(Cons(s, rest), Halt);
    ThenEnds(env, r, k, w, w');
    if Ends(env, Cons(s, rest), w, w') {
      var u :| RestEnds(env, r, w, u) && RestEnds(env, k, u, w');
      assert Ends(env, One(s), w, u);
    }
    if u :| Ends(env, One(s), w, u) && Ends(env, rest, u, w') {
      assert RestEnds(env, r, w, u) && RestEnds(env, k, u, w');
    }
  }

  lemma StepEnds(env: Environment, a: Action, w: World, w': World)
    ensures Ends(env, One(Step(a)), w, w') <==> w' == Act(env, a, w)
  {
    hide RestEnds;
    OneIs(Step(a), Halt);
    EndsAfterMicro(env, Do(Step(a), Halt), w, w');
    HaltEnds(env, Act(env, a, w), w');
  }

  lemma ExecuteEnds(env: Environment, body: Block, w: World, w': World)
    ensures Ends(env, One(Execute(body)), w, w') <==> Ends(env, body, w, w')
  {
    hide RestEnds;
    OneIs(Execute(body), Halt);
    EndsAfterMicro(env, Do(Execute(body), Halt), w, w');
  }

  ghost predicate AlternativeEnds(env: Environment, a: Alternative, w: World, w': World) {
    match a
    case EndIf => w' == w
    case Else(body) => Ends(env, body, w, w')
    case ElseIf(cond, body, next) => Ends(env, One(If(cond, body, next)), w, w')
  }

  lemma IfEnds(env: Environment, cond: Condition, body: Block, a: Alternative, w: World, w': World)
    ensures Ends(env, One(If(cond, body, a)), w, w') <==>
      if env.holds(cond, w) then Ends(env, body, Test(env, cond, w), w')
        else AlternativeEnds(env, a, Test(env, cond, w), w')
  {
    hide RestEnds;
    OneIs(If(cond, body, a), Halt);
    EndsAfterMicro(env, Do(If(cond, body, a), Halt), w, w');
    HaltEnds(env, Test(env, cond, w), w');
  }

  lemma WhileEnds(env: Environment, cond: Condition, body: Block, w: World, w': World)
    ensures Ends(env, One(While(cond, body)), w, w') <==>
      if env.holds(cond, w) then exists u :: Ends(env, body, Test(env, cond, w), u) &&
                                   Ends(env, One(While(cond, body)), u, w')
      else w' == Test(env, cond, w)
  {
    hide RestEnds;
    var s, t := While(cond, body), Test(env, cond, w);
    OneIs(s, Halt);
    EndsAfterMicro(env, Do(s, Halt), w, w');
    HaltEnds(env, t, w');
    BlockEnds(env, body, Again(s, Halt), t, w');
    forall u ensures RestEnds(env, Again(s, Halt), u, w') <==> Ends(env, One(s), u, w') {
      EndsAfterMicro(env, Again(s, Halt), u, w');
    }
  }

  lemma DoWhileEnds(env: Environment, cond: Condition, body: Block, w: World, w': World)
    ensures Ends(env, One(DoWhile(body, cond)), w, w') <==>
      exists u :: Ends(env, body, w, u) &&
                  if env.holds(cond, u) then Ends(env, One(DoWhile(body, cond)), Test(env, cond, u), w')
                  else w' == Test(env, cond, u)
  {
    hide RestEnds;
    var s := DoWhile(body, cond);
    OneIs(s, Halt);
    EndsAfterMicro(env, Do(s, Halt), w, w');
    BlockEnds(env, body, Until(s, Halt), w, w');
    forall u ensures RestEnds(env, Until(s, Halt), u, w') <==>
        if env.holds(cond, u) then Ends(env, One(s), Test(env, cond, u), w') else w' == Test(env, cond, u) {
      EndsAfterMicro(env, Until(s, Halt), u, w');
      HaltEnds(env, Test(env, cond, u), w');
    }
  }

  // ----- ForEach

  /** The rounds that are left when the variable is set to `x`: `n` of them, each entered with the next value. */
  ghost predicate Rounds(env: Environment, s: Statement, x: Word, n: nat, w: World, w': World)
    requires s.ForEach?
    decreases n
  {
    Read(s.variable, w) == x &&
    var c := Compare(s.variable, s.to, w);
    if n == 0 then x == s.to && w' == c
    else x != s.to && exists u :: Ends(env, s.body, c, u) && NextRound(env, s, x, n, u, w')
  }

  /** The body has ended in `u` with the variable as it was, and the variable is increased, in 32 bits. */
  ghost predicate NextRound(env: Environment, s: Statement, x: Word, n: nat, u: World, w': World)
    requires s.ForEach? && n > 0
    decreases n, 0
  {
    Read(s.variable, u) == x && Rounds(env, s, (x + 1) % WORD_LIMIT, n - 1, Assign(s.variable, x + 1, u), w')
  }

  ghost predicate LeavesAlone(env: Environment, b: Block, v: Variable) {
    forall w, w' :: Ends(env, b, w, w') ==> Read(v, w') == Read(v, w)
  }

  /** How many rounds are left. */
  function RoundsLeft(x: Word, to: Word): nat {
    if x <= to then to - x else to + WORD_LIMIT - x
  }

  lemma OneRoundLess(x: Word, to: Word)
    requires x != to
    ensures RoundsLeft(x, to) == RoundsLeft((x + 1) % WORD_LIMIT, to) + 1
  {}

  /** What follows the assignment. */
  ghost predicate Iterates(env: Environment, s: Statement, w: World, w': World) {
    RestEnds(env, Iterate(s, Halt), w, w')
  }

  lemma IterateEnds(env: Environment, s: Statement, w: World, w': World)
    requires s.ForEach?
    ensures var v, c := s.variable, Compare(s.variable, s.to, w);
      Iterates(env, s, w, w') <==>
        if Read(v, w) == s.to then w' == c
        else exists u :: Ends(env, s.body, c, u) && Iterates(env, s, Assign(v, Read(v, u) + 1, u), w')
  {
    hide RestEnds;
    var v, c, k := s.variable, Compare(s.variable, s.to, w), Increment(s.variable, Iterate(s, Halt));
    EndsAfterMicro(env, Iterate(s, Halt), w, w');
    HaltEnds(env, c, w');
    BlockEnds(env, s.body, k, c, w');
    forall u ensures RestEnds(env, k, u, w') <==> Iterates(env, s, Assign(v, Read(v, u) + 1, u), w') {
      EndsAfterMicro(env, k, u, w');
    }
  }

  lemma {:induction false} IteratesInRounds(env: Environment, s: Statement, x: Word, n: nat, w: World, w': World)
    requires s.ForEach? && LeavesAlone(env, s.body, s.variable) && Read(s.variable, w) == x && n == RoundsLeft(x, s.to)
    ensures Iterates(env, s, w, w') <==> Rounds(env, s, x, n, w, w')
    decreases n
  {
    hide RestEnds, Ends, Iterates;
    var v, c := s.variable, Compare(s.variable, s.to, w);
    IterateEnds(env, s, w, w');
    if n > 0 {
      OneRoundLess(x, s.to);
      forall u | Ends(env, s.body, c, u)
        ensures Iterates(env, s, Assign(v, Read(v, u) + 1, u), w') <==> NextRound(env, s, x, n, u, w') {
        assert Read(v, u) == Read(v, c) == x;
        IteratesInRounds(env, s, (x + 1) % WORD_LIMIT, n - 1, Assign(v, x + 1, u), w');
      }
    }
  }

  /** ForEach over a body that leaves the variable alone comes to its end iff the body does, once for each value from
      the first up to the limit and in that order, going round 2^32; and then the variable has the value of the
      limit. */
  lemma ForEachEnds(env: Environment, v: Variable, from: Word, to: Word, body: Block, w: World, w': World)
    requires LeavesAlone(env, body, v)
    ensures var s := ForEach(v, from, to, body);
      Ends(env, One(s), w, w') <==> Rounds(env, s, from, RoundsLeft(from, to), Assign(v, from, w), w')
    ensures Ends(env, One(ForEach(v, from, to, body)), w, w') ==> Read(v, w') == to
  {
    hide RestEnds, Rounds;
    var s := ForEach(v, from, to, body);
    OneIs(s, Halt);
    EndsAfterMicro(env, Do(s, Halt), w, w');
    IteratesInRounds(env, s, from, RoundsLeft(from, to), Assign(v, from, w), w');
    if Rounds(env, s, from, RoundsLeft(from, to), Assign(v, from, w), w') {
      LastValue(env, s, from, RoundsLeft(from, to), Assign(v, from, w), w');
    }
  }

  lemma {:induction false} LastValue(env: Environment, s: Statement, x: Word, n: nat, w: World, w': World)
    requires s.ForEach? && Rounds(env, s, x, n, w, w')
    ensures Read(s.variable, w') == s.to
    decreases n
  {
    hide Ends;
    if n > 0 {
      var u :| Ends(env, s.body, Compare(s.variable, s.to, w), u) && NextRound(env, s, x, n, u, w');
      LastValue(env, s, (x + 1) % WORD_LIMIT, n - 1, Assign(s.variable, x + 1, u), w');
    }
  }

  /** The worlds in which the body is entered: as many as there are values, each with its value. */
  lemma {:induction false} EnteredWith(env: Environment, s: Statement, x: Word, n: nat, w: World, w': World)
      returns (entered: seq<World>, left: seq<World>)
    requires s.ForEach? && Rounds(env, s, x, n, w, w')
    ensures |entered| == |left| == n
    ensures forall i :: 0 <= i < n ==> Ends(env, s.body, entered[i], left[i])
    ensures forall i :: 0 <= i < n ==> Read(s.variable, entered[i]) == (x + i) % WORD_LIMIT
    decreases n
  {
    hide Ends;
    if n == 0 {
      entered, left := [], [];
    } else {
      var c := Compare(s.variable, s.to, w);
      var u :| Ends(env, s.body, c, u) && NextRound(env, s, x, n, u, w');
      var e, l := EnteredWith(env, s, (x + 1) % WORD_LIMIT, n - 1, Assign(s.variable, x + 1, u), w');
      entered, left := [c] + e, [u] + l;
      forall i | 0 <= i < n ensures Read(s.variable, entered[i]) == (x + i) % WORD_LIMIT {
        if i > 0 {
          NextValue(x, i);
        }
      }
    }
  }

  lemma NextValue(x: nat, i: nat)
    requires i > 0
    ensures ((x + 1) % WORD_LIMIT + (i - 1)) % WORD_LIMIT == (x + i) % WORD_LIMIT
  {}

  // ----- Load and Continue come to the same end

  /** A sequencer that has finished is where direct execution ends. */
  lemma FinishedAtEnd(env: Environment, program: Block, w: World, run: seq<Machine>, i: nat)
    requires Fits(program) && IsRun(env, program, w, run) && i < |run| && Finished(run[i])
    ensures Ends(env, program, w, run[i].world)
  {
    hide IsRun, Fits, Direct, InBlock, RestOfBlock;
    var n := ReplayIsDirectExecution(env, program, w, run, i);
    assert EndsIn(env, Push(program, Halt), n, w, run[i].world);
  }

  /** Before it ends, direct execution comes to a Step or to its end. */
  lemma {:induction false} YieldsWithin(env: Environment, n: nat, c: Config, w': World) returns (q: nat)
    requires Direct(env, n, c) == Config(Halt, w')
    ensures q <= n && Yields(env, q, c)
    decreases n
  {
    hide Micro;
    if AtStep(c) || AtEnd(c) {
      q := 0;
      assert Quietly(env, 0, c, c);
    } else {
      q := YieldsWithin(env, n - 1, Micro(env, c), w');
      var d :| Quietly(env, q, Micro(env, c), d) && (AtStep(d) || AtEnd(d));
      q := q + 1;
      assert Quietly(env, q, c, d);
    }
  }

  /** One call of Continue, and how much is left after it. */
  lemma OneCall(env: Environment, program: Block, m: Machine, n: nat, w': World) returns (m': Machine, left: nat)
    requires Fits(program) && m.examine == [] && Standing(program, m.execute)
    requires EndsIn(env, Left(program, m.execute), n, m.world, w')
    ensures ContinuesTo(env, program, m, m') && m'.examine == []
    ensures Finished(m') ==> m'.world == w'
    ensures !Finished(m') ==>
      InBlock(program, m'.execute) && left < n &&
        EndsIn(env, RestOfBlock(program, m'.execute, Halt), left, m'.world, w')
  {
    hide Fits, Direct, InBlock, RestOfBlock, Settles, Quietly, Micro, Push;
    var c := Config(Left(program, m.execute), m.world);
    var q := YieldsWithin(env, n, c, w');
    var k, p := ContinueReturns(env, program, m, q);
    var steps, d := ContinueIsDirect(env, program, m, k, p);
    m', left := Advance(p), 0;
    assert m.(examine := []) == m;
    QuietlyDirect(env, steps, c, d);
    if Finished(m') {
      assert EndsIn(env, c.rest, steps, c.world, m'.world);
      EndIsUnique(env, c.rest, c.world, w', m'.world);
    } else {
      left := StepsLeft(env, c, steps, d, n, w');
    }
  }

  lemma StepsLeft(env: Environment, c: Config, steps: nat, d: Config, n: nat, w': World) returns (left: nat)
    requires Direct(env, steps, c) == d && AtStep(d) && Direct(env, n, c) == Config(Halt, w')
    ensures left < n && Direct(env, left, Micro(env, d)) == Config(Halt, w')
  {
    hide Direct, Micro;
    if steps >= n {
      DirectTransitive(env, n, steps - n, c);
      HaltStays(env, steps - n, w');
    }
    left := n - steps - 1;
    DirectTransitive(env, steps, n - steps, c);
    DirectTransitive(env, 1, left, d);
    DirectOne(env, d);
  }

  lemma {:induction false} CallsToTheEnd(env: Environment, program: Block, m: Machine, n: nat, w': World)
      returns (run: seq<Machine>)
    requires Fits(program) && m.examine == [] && Standing(program, m.execute)
    requires EndsIn(env, Left(program, m.execute), n, m.world, w')
    ensures |run| > 0 && ContinuesTo(env, program, m, run[0]) && Finished(run[|run| - 1]) && run[|run| - 1].world == w'
    ensures forall i :: 0 < i < |run| ==> IsContinued(env, program, run, i)
    decreases n
  {
    hide Fits, Direct, InBlock, RestOfBlock, ContinuesTo, Push;
    var m', left := OneCall(env, program, m, n, w');
    if Finished(m') {
      run := [m'];
    } else {
      var more := CallsToTheEnd(env, program, m', left, w');
      run := [m'] + more;
      forall i | 0 < i < |run| ensures IsContinued(env, program, run, i) {
        if i > 1 {
          assert IsContinued(env, program, more, i - 1);
        }
      }
    }
  }

  /** Load and then Continue, until the sequencer is finished, comes to an end in `w'` iff the program does by the
      rules. */
  lemma FinishesIffEnds(env: Environment, program: Block, w: World, w': World)
    requires Fits(program)
    ensures Ends(env, program, w, w') <==> CanFinish(env, program, w, w')
  {
    hide Fits, Direct, IsRun, ContinuesTo;
    if CanFinish(env, program, w, w') {
      var run: seq<Machine> :| IsRun(env, program, w, run) && |run| > 0 && Finished(run[|run| - 1]) &&
        run[|run| - 1].world == w';
      FinishedAtEnd(env, program, w, run, |run| - 1);
    }
    if Ends(env, program, w, w') {
      var n: nat :| EndsIn(env, Push(program, Halt), n, w, w');
      var run := CallsToTheEnd(env, program, Machine([], [], false, w), n, w');
      MakesARun(env, program, w, run);
    }
  }

  ghost predicate CanFinish(env: Environment, program: Block, w: World, w': World) {
    exists run: seq<Machine> :: IsRun(env, program, w, run) && |run| > 0 && Finished(run[|run| - 1]) &&
      run[|run| - 1].world == w'
  }

  lemma MakesARun(env: Environment, program: Block, w: World, run: seq<Machine>)
    requires |run| > 0 && ContinuesTo(env, program, Machine([], [], false, w), run[0])
    requires forall i :: 0 < i < |run| ==> IsContinued(env, program, run, i)
    ensures IsRun(env, program, w, run)
  {}

  // ----- as many Steps as there are values

  lemma ActsGrow(trace: seq<Event>, e: Event)
    ensures Acts(trace + [e]) == Acts(trace) + if e.Acted? then 1 else 0
  {
    assert (trace + [e])[..|trace|] == trace;
  }

  lemma {:induction false} ActsInRounds(env: Environment, s: Statement, a: Action, x: Word, n: nat, w: World, w': World)
    requires s.ForEach? && s.body == One(Step(a)) && Rounds(env, s, x, n, w, w')
    ensures Acts(w'.trace) == Acts(w.trace) + n
    decreases n
  {
    hide Ends, Acts;
    var v := s.variable;
    var c := Compare(v, s.to, w);
    ActsGrow(w.trace, Compared(v, s.to, Read(v, w) == s.to));
    if n > 0 {
      var u :| Ends(env, s.body, c, u) && NextRound(env, s, x, n, u, w');
      StepEnds(env, a, c, u);
      ActsGrow(c.trace, Acted(a));
      ActsGrow(u.trace, Assigned(v, (x + 1) % WORD_LIMIT));
      ActsInRounds(env, s, a, (x + 1) % WORD_LIMIT, n - 1, Assign(v, x + 1, u), w');
    }
  }

  lemma SmallFits(s: Statement, a: Action)
    requires s.ForEach? && s.body == One(Step(a))
    ensures Fits(One(s))
  {
    assert BlockFits(Nil, 6) && StatementFits(Step(a), 6) && BlockWidth(Nil) == 0;
    assert BlockFits(s.body, 6) && BlockWidth(s.body) == 1;
    assert BodyFits(s.body, 1, 6);
    assert StatementFits(s, 7) && BlockFits(Nil, 7);
  }

  /** A ForEach around one Step takes, beside the call that finds it finished, one call of Load or Continue for every
      value. */
  lemma ForEachCalls(env: Environment, v: Variable, from: Word, to: Word, a: Action, w: World,
      run: seq<Machine>, i: nat)
    requires LeavesAlone(env, One(Step(a)), v) && IsRun(env, One(ForEach(v, from, to, One(Step(a)))), w, run)
    requires i < |run| && Finished(run[i])
    ensures i == RoundsLeft(from, to) && Read(v, run[i].world) == to
    ensures Acts(run[i].world.trace) == Acts(w.trace) + RoundsLeft(from, to)
  {
    hide IsRun, Ends, Acts, Rounds, InBlock, RestOfBlock, Direct;
    var s := ForEach(v, from, to, One(Step(a)));
    var started := Assign(v, from, w);
    SmallFits(s, a);
    hide Fits;
    FinishedAtEnd(env, One(s), w, run, i);
    ForEachEnds(env, v, from, to, s.body, w, run[i].world);
    ActsInRounds(env, s, a, from, RoundsLeft(from, to), started, run[i].world);
    ActsGrow(w.trace, Assigned(v, from));
    var n := ReplayIsDirectExecution(env, One(s), w, run, i);
  }
}
