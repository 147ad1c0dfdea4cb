/** Walking over the part of the program that covers `execute` performs direct structured execution,
    up to the next Step, the next jump back or the end of that part.
 */
module SequencerLive {
  import opened SequencerProgram
  import opened StructuredExecution
  import opened SequencerReplay
  import opened SequencerSkip
  import opened SequencerPoints

  /** How a walk over a part of the program ends. `n` counts quiet micro steps of direct execution.
      - Flowed: control has come to the end of the part.
      - Paused: the Step at `at` has been performed from `before`; `rest` is left after it.
      - Looped: control has jumped back to `at`, where `rest` is left; the program must be walked over again. */
  datatype Outcome =
    | Flowed(n: nat)
    | Paused(n: nat, at: seq<nat>, before: Config, rest: Rest)
    | Looped(n: nat, at: seq<nat>, rest: Rest)

  /** The walk over the positions lo..hi of the context `ctx` took `m` to `m'`; direct execution had `k0` to do
      and has `k` to do after this part. */
  ghost predicate Ran(env: Environment, m: Machine, m': Machine, ctx: seq<nat>, lo: nat, hi: nat, k0: Rest, k: Rest,
      o: Outcome) {
    m'.examine == ctx + [hi] &&
    match o
    case Flowed(n) =>
      m'.execute == ctx + [hi] && !m'.repeat && Quietly(env, n, Config(k0, m.world), Config(k, m'.world))
    case Paused(n, at, before, rest) =>
      |at| > 0 && lo <= at[0] < hi && m'.execute == ctx + at && !m'.repeat &&
      Quietly(env, n, Config(k0, m.world), before) && AtStep(before) && Micro(env, before) == Config(rest, m'.world)
    case Looped(n, at, rest) =>
      |at| > 0 && lo <= at[0] < hi && m'.execute == ctx + at && m'.repeat &&
      n > 0 && Quietly(env, n, Config(k0, m.world), Config(rest, m'.world))
  }

  /** Where control is after the outcome: a Paused machine moves on by one position before the next walk. */
  function Resumption(o: Outcome): seq<nat>
    requires !o.Flowed?
  {
    if o.Paused? then Bump(o.at) else o.at
  }

  function Delayed(o: Outcome, n: nat): Outcome {
    o.(n := o.n + n)
  }

  function Nested(o: Outcome, x: nat): Outcome {
    if o.Flowed? then o else o.(at := [x] + o.at)
  }

  lemma RanDelayed(env: Environment, m: Machine, n: nat, mid: Machine, m': Machine, ctx: seq<nat>, lo: nat, hi: nat,
      k0: Rest, k1: Rest, k: Rest, o: Outcome)
    requires Quietly(env, n, Config(k0, m.world), Config(k1, mid.world))
    requires Ran(env, mid, m', ctx, lo, hi, k1, k, o)
    ensures Ran(env, m, m', ctx, lo, hi, k0, k, Delayed(o, n))
  {
    hide Micro;
    var target := match o case Flowed(_) =>
      Config(k, m'.world) case Paused(_, _, before, _) => before case Looped(_, _, rest) => Config(rest, m'.world);
    QuietlyTransitive(env, n, o.n, Config(k0, m.world), Config(k1, mid.world), target);
  }

  lemma QuietOne(env: Environment, c: Config)
    requires !AtStep(c) && !AtEnd(c)
    ensures Quietly(env, 1, c, Micro(env, c))
  {
    assert Quietly(env, 0, Micro(env, c), Micro(env, c));
  }

  // ----- single operations at the current position

  lemma PassPosition(m: Machine, acted: Machine, ctx: seq<nat>, j: nat, to: nat)
    requires m.execute == m.examine == acted.examine == ctx + [j] && j + 1 < POSITION_LIMIT
    requires acted.execute == ctx + [to] && to + 1 < POSITION_LIMIT
    ensures ExecuteWithoutContext(m, acted) == acted.(execute := ctx + [to + 1], examine := ctx + [j + 1])
  {
    BumpAt(ctx, j);
    BumpAt(ctx, to);
  }

  lemma Next(m: Machine, ctx: seq<nat>, j: nat)
    requires m.execute == ctx + [j] && j + 1 < POSITION_LIMIT
    ensures ExecuteNextStep(m) == m.(execute := ctx + [j + 1])
  {
    BumpAt(ctx, j);
  }

  lemma PassTest(env: Environment, cond: Condition, m: Machine, ctx: seq<nat>, j: nat)
    requires m.execute == m.examine == ctx + [j] && j + 3 < POSITION_LIMIT
    ensures TestCondition(env, cond, m) ==
      m.(execute := ctx + [if env.holds(cond, m.world) then j + 1 else j + 3], examine := ctx + [j + 1],
        world := Test(env, cond, m.world))
  {
    hide Bump;
    var tested := m.(world := Test(env, cond, m.world));
    if env.holds(cond, m.world) {
      PassPosition(m, tested, ctx, j, j);
    } else {
      Next(tested, ctx, j);
      Next(ExecuteNextStep(tested), ctx, j + 1);
      PassPosition(m, ExecuteNextStep(ExecuteNextStep(tested)), ctx, j, j + 2);
    }
  }

  lemma PassPop(m: Machine, ctx: seq<nat>, x: nat, y: nat)
    requires m.execute == m.examine == ctx + [x] + [y] && x + 1 < POSITION_LIMIT
    ensures PopContext(m) == m.(execute := ctx + [x + 1], examine := ctx + [x + 1])
  {
    BumpAt(ctx, x);
    assert m.examine[..|m.examine| - 1] == ctx + [x];
  }

  lemma DropAt(ctx: seq<nat>, j: nat)
    requires j < POSITION_LIMIT
    ensures Drop(ctx + [j]) == ctx + [if j == 0 then POSITION_LIMIT - 1 else j - 1]
  {
    assert (ctx + [j])[..|ctx|] == ctx;
  }

  /** Three steps back and one on: with a uint8_t this also works at position 0. */
  lemma PassBack(m: Machine, acted: Machine, ctx: seq<nat>, j: nat)
    requires m.execute == m.examine == acted.execute == acted.examine == ctx + [j + 2] && j + 3 < POSITION_LIMIT
    ensures ExecuteWithoutContext(m, BackToStart(acted)) ==
      acted.(execute := ctx + [j], examine := ctx + [j + 3], repeat := true)
  {
    hide Drop, Bump;
    DropAt(ctx, j + 2);
    DropAt(ctx, j + 1);
    DropAt(ctx, j);
    BumpAt(ctx, j + 2);
    if j == 0 {
      assert Bump(ctx + [POSITION_LIMIT - 1]) == ctx + [0] by { WrapAround(ctx); }
    } else {
      BumpAt(ctx, j - 1);
    }
  }

  lemma WrapAround(ctx: seq<nat>)
    ensures Bump(ctx + [POSITION_LIMIT - 1]) == ctx + [0]
  {
    assert (ctx + [POSITION_LIMIT - 1])[..|ctx|] == ctx;
  }

  // ----- bodies

  /** The part of a body between opening its context, entered or resumed, and closing it. */
  lemma {:induction false} LiveBody(env: Environment, b: Block, m: Machine, ctx: seq<nat>, x: nat, r: seq<nat>, k: Rest,
      depth: nat) returns (o: Outcome)
    requires m.examine == ctx + [x] && x < POSITION_LIMIT && !m.repeat
    requires BodyFits(b, 0, depth) && InBlock(b, r)
    requires (r == [0] && m.execute == ctx + [x]) || m.execute == ctx + [x] + r
    ensures Ran(env, m, RunBlock(env, b, PushContext(m)), ctx + [x], 0, BlockWidth(b), RestOfBlock(b, r, k), k, o)
    ensures BlockResumes(b, o, 0, k)
    decreases b, 1
  {
    hide RunBlock, InBlock, RestOfBlock, BlockFits, Bump, Quietly, Micro;
    assert |r| > 0 by { RankPoint(b, r); }
    var m1 := PushContext(m);
    assert m1.execute == ctx + [x] + r;
    assert m1.examine == ctx + [x] + [0];
    assert From(r, 0) == r;
    o := LiveBlock(env, b, m1, ctx + [x], 0, r, k, depth);
  }

  lemma RankPoint(b: Block, r: seq<nat>)
    requires InBlock(b, r)
    ensures |r| > 0
  {}

  lemma BumpShape(v: seq<nat>)
    ensures |Bump(v)| == |v|
    ensures |v| > 1 ==> Bump(v) == [v[0]] + Bump(v[1..])
  {}

  ghost predicate BlockResumes(b: Block, o: Outcome, j: nat, k: Rest) {
    o.Flowed? ||
    (var e := Resumption(o);
     |e| > 0 && e[0] >= j && InBlock(b, From(e, j)) && o.rest == RestOfBlock(b, From(e, j), k))
  }

  ghost predicate StatementResumes(s: Statement, o: Outcome, j: nat, k: Rest) {
    o.Flowed? ||
    (var e := Resumption(o);
     |e| > 0 && e[0] >= j && InStatement(s, From(e, j)) && o.rest == RestOfStatement(s, From(e, j), k))
  }

  ghost predicate AlternativeResumes(a: Alternative, o: Outcome, j: nat, k: Rest) {
    o.Flowed? ||
    (var e := Resumption(o);
     |e| > 0 && e[0] >= j && InAlternative(a, From(e, j)) && o.rest == RestOfAlternative(a, From(e, j), k))
  }

  lemma FromFrom(e: seq<nat>, j: nat, w: nat)
    requires |e| > 0 && e[0] >= j + w
    ensures From(From(e, j), w) == From(e, j + w)
  {}

  lemma {:induction false} StatementPoint(s: Statement, e: seq<nat>)
    requires InStatement(s, e)
    ensures |e| > 0 && (e[0] < Width(s) || e == [Width(s)])
  {
    hide InBlock, InAlternative;
    if s.If? && e[0] >= 2 && e != [Width(s)] {
      AlternativePoint(s.alternative, From(e, 2));
      assert |From(e, 2)| == |e| && From(e, 2)[0] == e[0] - 2;
    }
  }

  lemma {:induction false} AlternativePoint(a: Alternative, e: seq<nat>)
    requires InAlternative(a, e)
    ensures |e| > 0 && (e[0] < AlternativeWidth(a) || e == [AlternativeWidth(a)])
    decreases a
  {
    hide InBlock, InStatement;
    if a.ElseIf? && e[0] >= 3 {
      AlternativePoint(a.alternative, From(e, 3));
      assert |From(e, 3)| == |e| && From(e, 3)[0] == e[0] - 3;
    }
  }

  lemma {:induction false} LiveBlock(env: Environment, b: Block, m: Machine, ctx: seq<nat>, j: nat, at: seq<nat>,
      k: Rest, depth: nat) returns (o: Outcome)
    requires m.examine == ctx + [j] && j + BlockWidth(b) < POSITION_LIMIT && !m.repeat
    requires |at| > 0 && at[0] >= j && m.execute == ctx + at
    requires BlockFits(b, depth) && InBlock(b, From(at, j))
    ensures Ran(env, m, RunBlock(env, b, m), ctx, j, j + BlockWidth(b), RestOfBlock(b, From(at, j), k), k, o)
    ensures BlockResumes(b, o, j, k)
    decreases b, 0
  {
    hide RunStatement, InStatement, RestOfStatement, StatementFits, Bump, Quietly, Micro, Push, Resumption;
    match b
    case Nil =>
      o := Flowed(0);
      assert Quietly(env, 0, Config(k, m.world), Config(k, m.world)) by { QuietNone(env, Config(k, m.world)); }
    case Cons(s, rest) =>
      if From(at, j)[0] < Width(s) {
        o := LiveHead(env, s, rest, m, ctx, j, at, k, depth);
      } else {
        assert (ctx + at)[|ctx|] == at[0];
        SkipStatement(env, s, m, ctx, j, depth, |ctx|);
        FromFrom(at, j, Width(s));
        o := LiveBlock(env, rest, m.(examine := ctx + [j + Width(s)]), ctx, j + Width(s), at, k, depth);
        TailResumes(s, rest, o, j, k);
      }
  }

  lemma QuietNone(env: Environment, c: Config)
    ensures Quietly(env, 0, c, c)
  {}

  lemma TailResumes(s: Statement, rest: Block, o: Outcome, j: nat, k: Rest)
    requires BlockResumes(rest, o, j + Width(s), k)
    ensures BlockResumes(Cons(s, rest), o, j, k)
  {
    hide InStatement, RestOfStatement, Resumption;
    if !o.Flowed? {
      FromFrom(Resumption(o), j, Width(s));
    }
  }

  lemma HeadResumes(s: Statement, rest: Block, o: Outcome, j: nat, k: Rest)
    requires StatementResumes(s, o, j, Push(rest, k))
    ensures BlockResumes(Cons(s, rest), o, j, k)
  {
    hide InStatement, RestOfStatement, Resumption;
    if !o.Flowed? {
      var e := From(Resumption(o), j);
      StatementPoint(s, e);
      if e[0] >= Width(s) {
        assert From(e, Width(s)) == [0];
        RestFromStart(rest, k);
        assert RestOfStatement(s, [Width(s)], Push(rest, k)) == Push(rest, k) by { RestAtEnd(s, Push(rest, k)); }
      }
    }
  }

  lemma RestAtEnd(s: Statement, k: Rest)
    ensures InStatement(s, [Width(s)]) && RestOfStatement(s, [Width(s)], k) == k
  {}

  lemma {:induction false} LiveHead(env: Environment, s: Statement, rest: Block, m: Machine, ctx: seq<nat>, j: nat,
      at: seq<nat>, k: Rest, depth: nat) returns (o: Outcome)
    requires m.examine == ctx + [j] && j + BlockWidth(Cons(s, rest)) < POSITION_LIMIT && !m.repeat
    requires |at| > 0 && j <= at[0] < j + Width(s) && m.execute == ctx + at
    requires StatementFits(s, depth) && BlockFits(rest, depth) && InStatement(s, From(at, j))
    ensures Ran(env, m, RunBlock(env, rest, RunStatement(env, s, m)), ctx, j, j + BlockWidth(Cons(s, rest)),
      RestOfStatement(s, From(at, j), Push(rest, k)), k, o)
    ensures BlockResumes(Cons(s, rest), o, j, k)
    decreases Cons(s, rest), 0, 0
  {
    hide RunStatement, RunBlock, InStatement, RestOfStatement, InBlock, RestOfBlock, StatementFits, BlockFits, Bump,
      Quietly, Micro, Push, Resumption;
    var k1 := Push(rest, k);
    var m1 := RunStatement(env, s, m);
    var k0 := RestOfStatement(s, From(at, j), k1);
    var o1 := LiveStatement(env, s, m, ctx, j, at, k1, depth);
    if o1.Flowed? {
      RestFromStart(rest, k);
      assert From([j + Width(s)], j + Width(s)) == [0];
      var o2 := LiveBlock(env, rest, m1, ctx, j + Width(s), [j + Width(s)], k, depth);
      o := Delayed(o2, o1.n);
      RanDelayed(env, m, o1.n, m1, RunBlock(env, rest, m1), ctx, j + Width(s), j + BlockWidth(Cons(s, rest)),
        k0, k1, k, o2);
      assert BlockResumes(rest, o, j + Width(s), k) by { DelayedResumes(rest, o2, o1.n, j + Width(s), k); }
      TailResumes(s, rest, o, j, k);
    } else {
      assert (ctx + o1.at)[|ctx|] == o1.at[0];
      SkipBlock(env, rest, m1, ctx, j + Width(s), depth, |ctx|);
      o := o1;
      HeadResumes(s, rest, o, j, k);
    }
  }

  lemma DelayedResumes(b: Block, o: Outcome, n: nat, j: nat, k: Rest)
    requires BlockResumes(b, o, j, k)
    ensures BlockResumes(b, Delayed(o, n), j, k)
  {
    hide InBlock, RestOfBlock;
  }

  /** A body that did not come to its end: what follows it in the walk has no effect. */
  lemma BodyStopped(env: Environment, n: nat, m: Machine, mid: Machine, m1: Machine, ctx: seq<nat>, x: nat, width: nat,
      lo: nat, hi: nat, k0: Rest, k1: Rest, kb: Rest, k: Rest, o1: Outcome) returns (o: Outcome)
    requires Quietly(env, n, Config(k0, m.world), Config(k1, mid.world))
    requires Ran(env, mid, m1, ctx + [x], 0, width, k1, kb, o1) && !o1.Flowed?
    requires lo <= x < hi && x + 1 < POSITION_LIMIT
    ensures o == Delayed(Nested(o1, x), n)
    ensures Ran(env, m, m1.(examine := ctx + [hi]), ctx, lo, hi, k0, k, o)
    ensures PopContext(m1) == m1.(examine := ctx + [x + 1])
    ensures m1.execute != m1.examine
    ensures Away(m1.execute, ctx, x + 1, POSITION_LIMIT, |ctx|)
    ensures |o.at| > 1 && Resumption(o) == [x] + Resumption(o1)
  {
    hide Micro, Quietly, Bump;
    o := Delayed(Nested(o1, x), n);
    assert m1.execute == ctx + [x] + o1.at == ctx + o.at;
    assert m1.execute[|ctx| + 1] == o1.at[0] != width;
    assert m1.execute[|ctx|] == x;
    assert Ran(env, mid, m1.(examine := ctx + [hi]), ctx, lo, hi, k1, k, Nested(o1, x));
    RanDelayed(env, m, n, mid, m1.(examine := ctx + [hi]), ctx, lo, hi, k0, k1, k, Nested(o1, x));
    SkipPop(m1, ctx, x, width);
    BumpShape(o.at);
    assert o.at[1..] == o1.at;
  }

  lemma InsideResumes(b: Block, o1: Outcome, o: Outcome, x: nat, j: nat, kb: Rest)
    requires !o1.Flowed? && BlockResumes(b, o1, 0, kb)
    requires !o.Flowed? && o.rest == o1.rest && Resumption(o) == [x] + Resumption(o1) && x >= j
    ensures var e := From(Resumption(o), j);
      Inside(e, x - j) && InBlock(b, e[1..]) && o.rest == RestOfBlock(b, e[1..], kb)
  {
    hide InBlock, RestOfBlock, Resumption;
    assert From(Resumption(o1), 0) == Resumption(o1);
    assert From(Resumption(o), j)[1..] == Resumption(o1);
  }

  /** Where a body is entered or resumed, seen from its own context. */
  function InnerPoint(at: seq<nat>): seq<nat>
    requires |at| > 0
  {
    if |at| == 1 then [0] else at[1..]
  }

  /** The position of the body of a statement, and what follows when that body has been done. */
  function BodyPosition(s: Statement): nat
    requires !s.Step?
  {
    match s
    case Execute(_) => 0
    case ForEach(_, _, _, _) => 2
    case _ => 1
  }

  function AfterBody(s: Statement, k: Rest): Rest
    requires !s.Step?
  {
    match s
    case Execute(_) => k
    case If(_, _, _) => k
    case While(_, _) => Again(s, k)
    case DoWhile(_, _) => Until(s, k)
    case ForEach(v, _, _, _) => Increment(v, Iterate(s, k))
  }

  lemma RestInBody(s: Statement, e: seq<nat>, k: Rest)
    requires !s.Step? && Inside(e, BodyPosition(s))
    ensures InStatement(s, e) <==> InBlock(s.body, e[1..])
    ensures InStatement(s, e) ==> RestOfStatement(s, e, k) == RestOfBlock(s.body, e[1..], AfterBody(s, k))
  {
    hide InBlock, RestOfBlock, InAlternative, RestOfAlternative;
  }

  lemma RestAtStart(s: Statement, k: Rest)
    ensures InStatement(s, [0]) && RestOfStatement(s, [0], k) == Do(s, k)
  {}

  /** The walk over a statement stops inside its body. */
  lemma StopsInBody(env: Environment, s: Statement, n: nat, m: Machine, mid: Machine, m1: Machine, ctx: seq<nat>,
      j: nat, k0: Rest, k1: Rest, k: Rest, o1: Outcome) returns (o: Outcome)
    requires !s.Step? && j + Width(s) < POSITION_LIMIT
    requires Quietly(env, n, Config(k0, m.world), Config(k1, mid.world))
    requires Ran(env, mid, m1, ctx + [j + BodyPosition(s)], 0, BlockWidth(s.body), k1, AfterBody(s, k), o1) &&
      !o1.Flowed?
    requires BlockResumes(s.body, o1, 0, AfterBody(s, k))
    ensures Ran(env, m, m1.(examine := ctx + [j + Width(s)]), ctx, j, j + Width(s), k0, k, o)
    ensures StatementResumes(s, o, j, k)
    ensures m1.execute != m1.examine
    ensures PopContext(m1) == m1.(examine := ctx + [j + BodyPosition(s) + 1])
    ensures Away(m1.execute, ctx, j + BodyPosition(s) + 1, POSITION_LIMIT, |ctx|)
  {
    hide Quietly, Bump, Resumption, PopContext, InBlock, RestOfBlock, InStatement, RestOfStatement, AfterBody;
    var x := j + BodyPosition(s);
    o := BodyStopped(env, n, m, mid, m1, ctx, x, BlockWidth(s.body), j, j + Width(s), k0, k1, AfterBody(s, k), k, o1);
    InsideResumes(s.body, o1, o, x, j, AfterBody(s, k));
    RestInBody(s, From(Resumption(o), j), k);
  }

  /** An Execute statement enters its body in one quiet step. */
  lemma MicroExecute(env: Environment, body: Block, k: Rest, w: World)
    ensures Quietly(env, 1, Config(Do(Execute(body), k), w), Config(Push(body, k), w))
  {
    QuietOne(env, Config(Do(Execute(body), k), w));
  }

  lemma {:induction false} LiveExecute(env: Environment, s: Statement, m: Machine, ctx: seq<nat>, j: nat, at: seq<nat>,
      k: Rest, depth: nat) returns (o: Outcome)
    requires s.Execute?
    requires m.examine == ctx + [j] && j + Width(s) < POSITION_LIMIT && !m.repeat
    requires |at| > 0 && j <= at[0] < j + Width(s) && m.execute == ctx + at
    requires StatementFits(s, depth) && InStatement(s, From(at, j))
    ensures Ran(env, m, RunStatement(env, s, m), ctx, j, j + Width(s), RestOfStatement(s, From(at, j), k), k, o)
    ensures StatementResumes(s, o, j, k)
    decreases s, 0
  {
    hide RunBlock, InBlock, RestOfBlock, BlockFits, Bump, Quietly, Resumption, PopContext, PushContext, Micro,
      InStatement, RestOfStatement, StatementResumes;
    var body, r := s.body, InnerPoint(at);
    var e, k0 := From(at, j), RestOfStatement(s, From(at, j), k);
    var n, k1 := if |at| == 1 then 1 else 0, Push(body, k);
    assert m.execute[..|ctx| + 1] == ctx + [j];
    if |at| == 1 {
      assert e == [0];
      RestAtStart(s, k);
      MicroExecute(env, body, k, m.world);
      RestFromStart(body, k);
    } else {
      assert e[1..] == r;
      RestInBody(s, e, k);
      k1 := RestOfBlock(body, r, k);
      QuietNone(env, Config(k0, m.world));
      assert m.execute == ctx + [j] + r;
    }
    var m1 := RunBlock(env, body, PushContext(m));
    var o1 := LiveBody(env, body, m, ctx, j, r, k, depth - 1);
    if o1.Flowed? {
      PassPop(m1, ctx, j, BlockWidth(body));
      o := Delayed(o1, n);
      assert Ran(env, m, PopContext(m1), ctx, j, j + 1, k1, k, o1);
      RanDelayed(env, m, n, m, PopContext(m1), ctx, j, j + 1, k0, k1, k, o1);
      assert StatementResumes(s, o, j, k) by { FlowedResumes(s, o, j, k); }
    } else {
      o := StopsInBody(env, s, n, m, m, m1, ctx, j, k0, k1, k, o1);
    }
  }

  lemma FlowedResumes(s: Statement, o: Outcome, j: nat, k: Rest)
    requires o.Flowed?
    ensures StatementResumes(s, o, j, k)
  {}

  lemma LoopPoint(s: Statement, e: seq<nat>)
    requires s.While? || s.DoWhile?
    requires InStatement(s, e) && e[0] < Width(s)
    ensures e == [0] || Inside(e, 1)
  {
    hide InBlock;
  }

  lemma FlowedRan(env: Environment, n: nat, m: Machine, m': Machine, ctx: seq<nat>, lo: nat, hi: nat, k0: Rest, k: Rest)
    requires m'.execute == m'.examine == ctx + [hi] && !m'.repeat
    requires Quietly(env, n, Config(k0, m.world), Config(k, m'.world))
    ensures Ran(env, m, m', ctx, lo, hi, k0, k, Flowed(n))
  {}

  lemma LoopedRan(env: Environment, n: nat, m: Machine, m': Machine, ctx: seq<nat>, lo: nat, hi: nat, at: nat, k0: Rest,
      k: Rest, rest: Rest)
    requires m'.examine == ctx + [hi] && m'.execute == ctx + [at] && lo <= at < hi && m'.repeat && n > 0
    requires Quietly(env, n, Config(k0, m.world), Config(rest, m'.world))
    ensures Ran(env, m, m', ctx, lo, hi, k0, k, Looped(n, [at], rest))
  {}

  lemma LoopedToStart(s: Statement, n: nat, j: nat, k: Rest)
    ensures StatementResumes(s, Looped(n, [j], Do(s, k)), j, k)
  {
    RestAtStart(s, k);
    assert From([j], j) == [0];
  }

  lemma AwayAt(execute: seq<nat>, ctx: seq<nat>, p: nat, lo: nat, hi: nat)
    requires execute == ctx + [p] && !(lo <= p < hi)
    ensures Away(execute, ctx, lo, hi, |ctx|)
  {}

  lemma Narrow(execute: seq<nat>, ctx: seq<nat>, lo: nat, hi: nat, lo': nat, hi': nat, i: nat)
    requires Away(execute, ctx, lo, hi, i) && lo <= lo' <= hi' <= hi
    ensures Away(execute, ctx, lo', hi', i)
  {}

  lemma FlowedIs(env: Environment, m: Machine, m': Machine, ctx: seq<nat>, lo: nat, hi: nat, k0: Rest, k: Rest, n: nat)
    requires Ran(env, m, m', ctx, lo, hi, k0, k, Flowed(n))
    ensures m'.execute == m'.examine == ctx + [hi] && !m'.repeat
    ensures Quietly(env, n, Config(k0, m.world), Config(k, m'.world))
  {}

  lemma MicroWhile(env: Environment, s: Statement, k: Rest, w: World)
    requires s.While?
    ensures Quietly(env, 1, Config(Do(s, k), w),
      Config(if env.holds(s.cond, w) then Push(s.body, Again(s, k)) else k, Test(env, s.cond, w)))
    ensures Quietly(env, 1, Config(Again(s, k), w), Config(Do(s, k), w))
  {
    QuietOne(env, Config(Do(s, k), w));
    QuietOne(env, Config(Again(s, k), w));
  }

  lemma {:induction false} LiveWhile(env: Environment, s: Statement, m: Machine, ctx: seq<nat>, j: nat, at: seq<nat>,
      k: Rest, depth: nat) returns (o: Outcome)
    requires s.While?
    requires m.examine == ctx + [j] && j + Width(s) < POSITION_LIMIT && !m.repeat
    requires |at| > 0 && j <= at[0] < j + Width(s) && m.execute == ctx + at
    requires StatementFits(s, depth) && InStatement(s, From(at, j))
    ensures Ran(env, m, RunStatement(env, s, m), ctx, j, j + Width(s), RestOfStatement(s, From(at, j), k), k, o)
    ensures StatementResumes(s, o, j, k)
    decreases s, 0
  {
    hide RunBlock, InBlock, RestOfBlock, BlockFits, Bump, Quietly, Resumption, PopContext, PushContext, Micro,
      InStatement, RestOfStatement, StatementResumes, BlockResumes, Ran,
      TestCondition, ExecuteWithoutContext, BackToStart, Away, Push, Test, Act, Assign, Compare;
    var e, k0 := From(at, j), RestOfStatement(s, From(at, j), k);
    LoopPoint(s, e);
    var mid := TestCondition(env, s.cond, m);
    if |at| == 1 {
      assert e == [0] && at == [j];
      RestAtStart(s, k);
      MicroWhile(env, s, k, m.world);
      PassTest(env, s.cond, m, ctx, j);
      if env.holds(s.cond, m.world) {
        RestFromStart(s.body, Again(s, k));
        o := LiveWhileBody(env, s, 1, m, mid, ctx, j, [0], k0, k, depth);
      } else {
        var end := mid.(examine := ctx + [j + 2]);
        AwayAt(mid.execute, ctx, j + 3, j + 1, j + 2);
        SkipBody(env, s.body, mid, ctx, j + 1, depth - 1, |ctx|);
        AwayAt(mid.execute, ctx, j + 3, j, j + 3);
        SkipEnd(mid, BackToStart(end), ctx, j, 2, j + 3, |ctx|);
        o := Flowed(1);
        FlowedRan(env, 1, m, mid.(examine := ctx + [j + 3]), ctx, j, j + 3, k0, k);
        FlowedResumes(s, o, j, k);
      }
    } else {
      assert m.execute == ctx + [j + 1] + at[1..];
      assert e[1..] == at[1..];
      SkipTest(env, s.cond, m, ctx, j);
      RestInBody(s, e, k);
      QuietNone(env, Config(k0, m.world));
      o := LiveWhileBody(env, s, 0, m, mid, ctx, j, at[1..], k0, k, depth);
    }
  }

  lemma {:induction false} LiveWhileBody(env: Environment, s: Statement, n: nat, m: Machine, mid: Machine,
      ctx: seq<nat>, j: nat, r: seq<nat>, k0: Rest, k: Rest, depth: nat) returns (o: Outcome)
    requires s.While? && StatementFits(s, depth)
    requires mid.examine == ctx + [j + 1] && j + 3 < POSITION_LIMIT && !mid.repeat
    requires InBlock(s.body, r)
    requires (r == [0] && mid.execute == ctx + [j + 1]) || mid.execute == ctx + [j + 1] + r
    requires Quietly(env, n, Config(k0, m.world), Config(RestOfBlock(s.body, r, Again(s, k)), mid.world))
    ensures Ran(env, m, OnEndWhile(RunBlock(env, s.body, PushContext(mid))), ctx, j, j + 3, k0, k, o)
    ensures StatementResumes(s, o, j, k)
    decreases s, 0, 0
  {
    hide RunBlock, InBlock, RestOfBlock, BlockFits, Bump, Quietly, Resumption, PopContext, PushContext, Micro,
      InStatement, RestOfStatement, StatementResumes, BlockResumes, Ran,
      TestCondition, ExecuteWithoutContext, BackToStart, Away, Push, Test, Act, Assign, Compare;
    var k1 := RestOfBlock(s.body, r, Again(s, k));
    var m1 := RunBlock(env, s.body, PushContext(mid));
    var o1 := LiveBody(env, s.body, mid, ctx, j + 1, r, Again(s, k), depth - 1);
    if o1.Flowed? {
      FlowedIs(env, mid, m1, ctx + [j + 1], 0, BlockWidth(s.body), k1, Again(s, k), o1.n);
      PassPop(m1, ctx, j + 1, BlockWidth(s.body));
      var closed := m1.(execute := ctx + [j + 2], examine := ctx + [j + 2]);
      PassBack(closed, closed, ctx, j);
      MicroWhile(env, s, k, m1.world);
      QuietlyTransitive(env, n, o1.n, Config(k0, m.world), Config(k1, mid.world), Config(Again(s, k), m1.world));
      QuietlyTransitive(env, n + o1.n, 1, Config(k0, m.world), Config(Again(s, k), m1.world),
        Config(Do(s, k), m1.world));
      o := Looped(n + o1.n + 1, [j], Do(s, k));
      LoopedRan(env, o.n, m, closed.(execute := ctx + [j], examine := ctx + [j + 3], repeat := true), ctx, j, j + 3, j,
        k0, k, Do(s, k));
      LoopedToStart(s, o.n, j, k);
    } else {
      o := StopsInBody(env, s, n, m, mid, m1, ctx, j, k0, k1, k, o1);
      Narrow(m1.execute, ctx, j + 2, POSITION_LIMIT, j + 2, j + 3, |ctx|);
      SkipEnd(m1, BackToStart(m1.(examine := ctx + [j + 2])), ctx, j + 2, 0, j + 3, |ctx|);
    }
  }

  lemma MicroDoWhile(env: Environment, s: Statement, k: Rest, w: World)
    requires s.DoWhile?
    ensures Quietly(env, 1, Config(Do(s, k), w), Config(Push(s.body, Until(s, k)), w))
    ensures Quietly(env, 1, Config(Until(s, k), w),
      Config(if env.holds(s.cond, w) then Do(s, k) else k, Test(env, s.cond, w)))
  {
    QuietOne(env, Config(Do(s, k), w));
    QuietOne(env, Config(Until(s, k), w));
  }

  lemma {:induction false} LiveDoWhile(env: Environment, s: Statement, m: Machine, ctx: seq<nat>, j: nat, at: seq<nat>,
      k: Rest, depth: nat) returns (o: Outcome)
    requires s.DoWhile?
    requires m.examine == ctx + [j] && j + Width(s) < POSITION_LIMIT && !m.repeat
    requires |at| > 0 && j <= at[0] < j + Width(s) && m.execute == ctx + at
    requires StatementFits(s, depth) && InStatement(s, From(at, j))
    ensures Ran(env, m, RunStatement(env, s, m), ctx, j, j + Width(s), RestOfStatement(s, From(at, j), k), k, o)
    ensures StatementResumes(s, o, j, k)
    decreases s, 0
  {
    hide RunBlock, InBlock, RestOfBlock, BlockFits, Bump, Quietly, Resumption, PopContext, PushContext, Micro,
      InStatement, RestOfStatement, StatementResumes, BlockResumes, Ran,
      TestCondition, ExecuteWithoutContext, BackToStart, Away, Push, Test, Act, Assign, Compare;
    var e, k0 := From(at, j), RestOfStatement(s, From(at, j), k);
    LoopPoint(s, e);
    if |at| == 1 {
      assert e == [0] && at == [j];
      RestAtStart(s, k);
      MicroDoWhile(env, s, k, m.world);
      PassPosition(m, m, ctx, j, j);
      RestFromStart(s.body, Until(s, k));
      o := LiveDoWhileBody(env, s, 1, m, m.(execute := ctx + [j + 1], examine := ctx + [j + 1]), ctx, j, [0],
        k0, k, depth);
    } else {
      assert m.execute == ctx + [j + 1] + at[1..];
      assert e[1..] == at[1..];
      SkipPosition(m, m, ctx, j);
      RestInBody(s, e, k);
      QuietNone(env, Config(k0, m.world));
      o := LiveDoWhileBody(env, s, 0, m, m.(examine := ctx + [j + 1]), ctx, j, at[1..], k0, k, depth);
    }
  }

  lemma {:induction false} LiveDoWhileBody(env: Environment, s: Statement, n: nat, m: Machine, mid: Machine,
      ctx: seq<nat>, j: nat, r: seq<nat>, k0: Rest, k: Rest, depth: nat) returns (o: Outcome)
    requires s.DoWhile? && StatementFits(s, depth)
    requires mid.examine == ctx + [j + 1] && j + 3 < POSITION_LIMIT && !mid.repeat
    requires InBlock(s.body, r)
    requires (r == [0] && mid.execute == ctx + [j + 1]) || mid.execute == ctx + [j + 1] + r
    requires Quietly(env, n, Config(k0, m.world), Config(RestOfBlock(s.body, r, Until(s, k)), mid.world))
    ensures Ran(env, m, OnEndDoWhile(env, s.cond, RunBlock(env, s.body, PushContext(mid))), ctx, j, j + 3, k0, k, o)
    ensures StatementResumes(s, o, j, k)
    decreases s, 0, 0
  {
    hide RunBlock, InBlock, RestOfBlock, BlockFits, Bump, Quietly, Resumption, PopContext, PushContext, Micro,
      InStatement, RestOfStatement, StatementResumes, BlockResumes, Ran,
      TestCondition, ExecuteWithoutContext, BackToStart, Away, Push, Test, Act, Assign, Compare;
    var k1 := RestOfBlock(s.body, r, Until(s, k));
    var m1 := RunBlock(env, s.body, PushContext(mid));
    var o1 := LiveBody(env, s.body, mid, ctx, j + 1, r, Until(s, k), depth - 1);
    if o1.Flowed? {
      FlowedIs(env, mid, m1, ctx + [j + 1], 0, BlockWidth(s.body), k1, Until(s, k), o1.n);
      PassPop(m1, ctx, j + 1, BlockWidth(s.body));
      var closed := m1.(execute := ctx + [j + 2], examine := ctx + [j + 2]);
      var tested := closed.(world := Test(env, s.cond, m1.world));
      MicroDoWhile(env, s, k, m1.world);
      QuietlyTransitive(env, n, o1.n, Config(k0, m.world), Config(k1, mid.world), Config(Until(s, k), m1.world));
      var next := if env.holds(s.cond, m1.world) then Do(s, k) else k;
      QuietlyTransitive(env, n + o1.n, 1, Config(k0, m.world), Config(Until(s, k), m1.world),
        Config(next, tested.world));
      if env.holds(s.cond, m1.world) {
        PassBack(closed, tested, ctx, j);
        o := Looped(n + o1.n + 1, [j], Do(s, k));
        LoopedRan(env, o.n, m, tested.(execute := ctx + [j], examine := ctx + [j + 3], repeat := true), ctx, j, j + 3,
          j, k0, k, Do(s, k));
        LoopedToStart(s, o.n, j, k);
      } else {
        PassPosition(closed, tested, ctx, j + 2, j + 2);
        o := Flowed(n + o1.n + 1);
        FlowedRan(env, o.n, m, tested.(execute := ctx + [j + 3], examine := ctx + [j + 3]), ctx, j, j + 3, k0, k);
        FlowedResumes(s, o, j, k);
      }
    } else {
      o := StopsInBody(env, s, n, m, mid, m1, ctx, j, k0, k1, k, o1);
      Narrow(m1.execute, ctx, j + 2, POSITION_LIMIT, j + 2, j + 3, |ctx|);
      var closed := m1.(examine := ctx + [j + 2]);
      var tested := closed.(world := Test(env, s.cond, closed.world));
      SkipEnd(m1, if env.holds(s.cond, closed.world) then BackToStart(tested) else tested, ctx, j + 2, 0, j + 3, |ctx|);
    }
  }

  lemma ForEachPoint(s: Statement, e: seq<nat>, k: Rest)
    requires s.ForEach?
    requires InStatement(s, e) && e[0] < Width(s)
    ensures e == [0] || e == [1] || Inside(e, 2)
    ensures e == [1] ==> RestOfStatement(s, e, k) == Iterate(s, k)
  {
    hide InBlock;
  }

  lemma MicroForEach(env: Environment, s: Statement, k: Rest, w: World)
    requires s.ForEach?
    ensures Quietly(env, 1, Config(Do(s, k), w), Config(Iterate(s, k), Assign(s.variable, s.from, w)))
    ensures Quietly(env, 1, Config(Iterate(s, k), w),
      Config(if Read(s.variable, w) == s.to then k else Push(s.body, AfterBody(s, k)), Compare(s.variable, s.to, w)))
    ensures Quietly(env, 1, Config(AfterBody(s, k), w),
      Config(Iterate(s, k), Assign(s.variable, Read(s.variable, w) + 1, w)))
  {
    QuietOne(env, Config(Do(s, k), w));
    QuietOne(env, Config(Iterate(s, k), w));
    QuietOne(env, Config(AfterBody(s, k), w));
  }

  lemma LoopedToIterate(s: Statement, n: nat, j: nat, k: Rest)
    requires s.ForEach?
    ensures StatementResumes(s, Looped(n, [j + 1], Iterate(s, k)), j, k)
  {
    assert From([j + 1], j) == [1];
  }

  lemma {:induction false} LiveForEach(env: Environment, s: Statement, m: Machine, ctx: seq<nat>, j: nat, at: seq<nat>,
      k: Rest, depth: nat) returns (o: Outcome)
    requires s.ForEach?
    requires m.examine == ctx + [j] && j + Width(s) < POSITION_LIMIT && !m.repeat
    requires |at| > 0 && j <= at[0] < j + Width(s) && m.execute == ctx + at
    requires StatementFits(s, depth) && InStatement(s, From(at, j))
    ensures Ran(env, m, RunStatement(env, s, m), ctx, j, j + Width(s), RestOfStatement(s, From(at, j), k), k, o)
    ensures StatementResumes(s, o, j, k)
    decreases s, 0
  {
    hide RunBlock, InBlock, RestOfBlock, BlockFits, Bump, Quietly, Resumption, PopContext, PushContext, Micro,
      InStatement, RestOfStatement, StatementResumes, BlockResumes, Ran,
      TestCondition, ExecuteWithoutContext, BackToStart, Away, Push, Test, Act, Assign, Compare, Read;
    var e, k0 := From(at, j), RestOfStatement(s, From(at, j), k);
    ForEachPoint(s, e, k);
    var assign := m.(world := Assign(s.variable, s.from, m.world));
    var started := ExecuteWithoutContext(m, assign);
    if e == [0] {
      assert at == [j];
      RestAtStart(s, k);
      MicroForEach(env, s, k, m.world);
      PassPosition(m, assign, ctx, j, j);
      o := LiveIterate(env, s, 1, m, started, ctx, j, k0, k, depth);
    } else if e == [1] {
      assert at == [j + 1];
      assert m.execute[|ctx|] == j + 1;
      SkipPosition(m, assign, ctx, j);
      QuietNone(env, Config(k0, m.world));
      o := LiveIterate(env, s, 0, m, started, ctx, j, k0, k, depth);
    } else {
      assert m.execute == ctx + [j + 2] + at[1..];
      assert e[1..] == at[1..];
      SkipPosition(m, assign, ctx, j);
      var compared := started.(world := Compare(s.variable, s.to, started.world));
      SkipPosition(started, if Read(s.variable, started.world) == s.to then ExecuteNextStep(ExecuteNextStep(compared))
        else compared, ctx, j + 1);
      RestInBody(s, e, k);
      QuietNone(env, Config(k0, m.world));
      o := LiveForEachBody(env, s, 0, m, m.(examine := ctx + [j + 2]), ctx, j, at[1..], k0, k, depth);
    }
  }

  /** From the comparison of a ForEach onwards. */
  lemma {:induction false} LiveIterate(env: Environment, s: Statement, n: nat, m: Machine, started: Machine,
      ctx: seq<nat>, j: nat, k0: Rest, k: Rest, depth: nat) returns (o: Outcome)
    requires s.ForEach? && StatementFits(s, depth)
    requires started.execute == started.examine == ctx + [j + 1] && j + 4 < POSITION_LIMIT && !started.repeat
    requires Quietly(env, n, Config(k0, m.world), Config(Iterate(s, k), started.world))
    ensures var compared := started.(world := Compare(s.variable, s.to, started.world));
            var inner := PushContext(ExecuteWithoutContext(started,
              if Read(s.variable, started.world) == s.to then ExecuteNextStep(ExecuteNextStep(compared))
                else compared));
            Ran(env, m, OnEndForEach(s.variable, RunBlock(env, s.body, inner)), ctx, j, j + 4, k0, k, o)
    ensures StatementResumes(s, o, j, k)
    decreases s, 0, 1
  {
    hide RunBlock, InBlock, RestOfBlock, BlockFits, Bump, Quietly, Resumption, PopContext, PushContext, Micro,
      InStatement, RestOfStatement, StatementResumes, BlockResumes, Ran,
      TestCondition, ExecuteWithoutContext, BackToStart, Away, Push, Test, Act, Assign, Compare, Read;
    var compared := started.(world := Compare(s.variable, s.to, started.world));
    MicroForEach(env, s, k, started.world);
    var next := if Read(s.variable, started.world) == s.to then k else Push(s.body, AfterBody(s, k));
    QuietlyTransitive(env, n, 1, Config(k0, m.world), Config(Iterate(s, k), started.world),
      Config(next, compared.world));
    if Read(s.variable, started.world) == s.to {
      Next(compared, ctx, j + 1);
      Next(ExecuteNextStep(compared), ctx, j + 2);
      PassPosition(started, ExecuteNextStep(ExecuteNextStep(compared)), ctx, j + 1, j + 3);
      var mid := compared.(execute := ctx + [j + 4], examine := ctx + [j + 2]);
      AwayAt(mid.execute, ctx, j + 4, j + 2, j + 3);
      SkipBody(env, s.body, mid, ctx, j + 2, depth - 1, |ctx|);
      AwayAt(mid.execute, ctx, j + 4, j, j + 4);
      SkipEndForEach(s.variable, mid, ctx, j, BlockWidth(s.body), |ctx|);
      SkipEnd(mid, BackToStart(mid.(examine := ctx + [j + 3])), ctx, j, 3, j + 4, |ctx|);
      o := Flowed(n + 1);
      FlowedRan(env, n + 1, m, mid.(examine := ctx + [j + 4]), ctx, j, j + 4, k0, k);
      FlowedResumes(s, o, j, k);
    } else {
      PassPosition(started, compared, ctx, j + 1, j + 1);
      RestFromStart(s.body, AfterBody(s, k));
      o := LiveForEachBody(env, s, n + 1, m, compared.(execute := ctx + [j + 2], examine := ctx + [j + 2]), ctx, j, [0],
        k0, k, depth);
    }
  }

  lemma {:induction false} LiveForEachBody(env: Environment, s: Statement, n: nat, m: Machine, mid: Machine,
      ctx: seq<nat>, j: nat, r: seq<nat>, k0: Rest, k: Rest, depth: nat) returns (o: Outcome)
    requires s.ForEach? && StatementFits(s, depth)
    requires mid.examine == ctx + [j + 2] && j + 4 < POSITION_LIMIT && !mid.repeat
    requires InBlock(s.body, r)
    requires (r == [0] && mid.execute == ctx + [j + 2]) || mid.execute == ctx + [j + 2] + r
    requires Quietly(env, n, Config(k0, m.world), Config(RestOfBlock(s.body, r, AfterBody(s, k)), mid.world))
    ensures Ran(env, m, OnEndForEach(s.variable, RunBlock(env, s.body, PushContext(mid))), ctx, j, j + 4, k0, k, o)
    ensures StatementResumes(s, o, j, k)
    decreases s, 0, 0
  {
    hide RunBlock, InBlock, RestOfBlock, BlockFits, Bump, Quietly, Resumption, PopContext, PushContext, Micro,
      InStatement, RestOfStatement, StatementResumes, BlockResumes, Ran,
      TestCondition, ExecuteWithoutContext, BackToStart, Away, Push, Test, Act, Assign, Compare, Read;
    var v, width, kb := s.variable, BlockWidth(s.body), AfterBody(s, k);
    var k1 := RestOfBlock(s.body, r, kb);
    var m1 := RunBlock(env, s.body, PushContext(mid));
    var o1 := LiveBody(env, s.body, mid, ctx, j + 2, r, kb, depth - 1);
    var incremented := m1.(world := Assign(v, Read(v, m1.world) + 1, m1.world));
    if o1.Flowed? {
      FlowedIs(env, mid, m1, ctx + [j + 2], 0, width, k1, kb, o1.n);
      PassPosition(m1, incremented, ctx + [j + 2], width, width);
      PassPop(incremented.(execute := ctx + [j + 2] + [width + 1], examine := ctx + [j + 2] + [width + 1]), ctx,
        j + 2, width + 1);
      var closed := incremented.(execute := ctx + [j + 3], examine := ctx + [j + 3]);
      PassBack(closed, closed, ctx, j + 1);
      MicroForEach(env, s, k, m1.world);
      QuietlyTransitive(env, n, o1.n, Config(k0, m.world), Config(k1, mid.world), Config(kb, m1.world));
      QuietlyTransitive(env, n + o1.n, 1, Config(k0, m.world), Config(kb, m1.world),
        Config(Iterate(s, k), incremented.world));
      o := Looped(n + o1.n + 1, [j + 1], Iterate(s, k));
      LoopedRan(env, o.n, m, closed.(execute := ctx + [j + 1], examine := ctx + [j + 4], repeat := true), ctx, j, j + 4,
        j + 1, k0, k, Iterate(s, k));
      LoopedToIterate(s, o.n, j, k);
    } else {
      o := StopsInBody(env, s, n, m, mid, m1, ctx, j, k0, k1, k, o1);
      NotAtEnd(env, mid, m1, ctx + [j + 2], width, k1, kb, o1);
      SkipPosition(m1, incremented, ctx + [j + 2], width);
      SkipPop(m1.(examine := ctx + [j + 2] + [width + 1]), ctx, j + 2, width + 1);
      Narrow(m1.execute, ctx, j + 3, POSITION_LIMIT, j + 3, j + 4, |ctx|);
      SkipEnd(m1, BackToStart(m1.(examine := ctx + [j + 3])), ctx, j + 3, 0, j + 4, |ctx|);
    }
  }

  lemma NotAtEnd(env: Environment, mid: Machine, m1: Machine, ctx: seq<nat>, width: nat, k1: Rest, kb: Rest,
      o1: Outcome)
    requires Ran(env, mid, m1, ctx, 0, width, k1, kb, o1) && !o1.Flowed?
    ensures m1.execute != ctx + [width + 1] && m1.examine == ctx + [width]
  {
    assert m1.execute[|ctx|] == o1.at[0];
  }

  // ----- If, ElseIf and Else

  /** A branch whose body is the context at position `x`, followed by `next`. */
  ghost predicate BranchResumes(body: Block, next: Alternative, o: Outcome, x: nat, k: Rest) {
    o.Flowed? ||
    (var e := Resumption(o);
     |e| > 0 &&
     ((Inside(e, x) && InBlock(body, e[1..]) && o.rest == RestOfBlock(body, e[1..], k)) ||
      (e[0] >= x + 1 && InAlternative(next, From(e, x + 1)) && o.rest == RestOfAlternative(next, From(e, x + 1), k))))
  }

  lemma NextResumes(body: Block, next: Alternative, o: Outcome, n: nat, x: nat, k: Rest)
    requires AlternativeResumes(next, o, x + 1, k)
    ensures BranchResumes(body, next, Delayed(o, n), x, k)
  {
    hide InAlternative, RestOfAlternative, InBlock;
  }

  lemma Widen(env: Environment, m: Machine, m': Machine, ctx: seq<nat>, lo: nat, lo': nat, hi: nat, k0: Rest,
      k: Rest, o: Outcome)
    requires Ran(env, m, m', ctx, lo, hi, k0, k, o) && lo' <= lo
    ensures Ran(env, m, m', ctx, lo', hi, k0, k, o)
  {}

  lemma RestOfDoneAlternative(a: Alternative, k: Rest)
    ensures InAlternative(a, [0]) && RestOfAlternative(a, [0], k) == k
    ensures InAlternative(a, [1]) && RestOfAlternative(a, [1], k) == Otherwise(a, k)
  {}

  /** A body that was done, after which `next` was passed over. */
  lemma BranchFlowed(env: Environment, body: Block, next: Alternative, n: nat, m: Machine, mid: Machine, m1: Machine,
      m2: Machine, ctx: seq<nat>, x: nat, k0: Rest, k1: Rest, k: Rest, o1: Outcome, o2: Outcome) returns (o: Outcome)
    requires Quietly(env, n, Config(k0, m.world), Config(k1, mid.world)) && o1.Flowed?
    requires Ran(env, mid, m1, ctx + [x], 0, BlockWidth(body), k1, k, o1)
    requires Ran(env, m1, m2, ctx, x + 1, x + 1 + AlternativeWidth(next), k, k, o2)
    requires AlternativeResumes(next, o2, x + 1, k)
    ensures Ran(env, m, m2, ctx, x, x + 1 + AlternativeWidth(next), k0, k, o)
    ensures BranchResumes(body, next, o, x, k)
  {
    hide RunBlock, InBlock, RestOfBlock, BlockFits, Bump, Quietly, Resumption, PopContext, PushContext, Micro,
      InStatement, RestOfStatement, StatementResumes, BlockResumes, Ran,
      TestCondition, ExecuteWithoutContext, BackToStart, Away, Push, Test, InAlternative, RestOfAlternative,
        AlternativeResumes, BranchResumes, AlternativeFits;
    var hi := x + 1 + AlternativeWidth(next);
    FlowedIs(env, mid, m1, ctx + [x], 0, BlockWidth(body), k1, k, o1.n);
    QuietlyTransitive(env, n, o1.n, Config(k0, m.world), Config(k1, mid.world), Config(k, m1.world));
    o := Delayed(o2, n + o1.n);
    Widen(env, m1, m2, ctx, x + 1, x, hi, k, k, o2);
    RanDelayed(env, m, n + o1.n, m1, m2, ctx, x, hi, k0, k, k, o2);
    NextResumes(body, next, o2, n + o1.n, x, k);
  }

  lemma BranchStopped(env: Environment, body: Block, next: Alternative, n: nat, m: Machine, mid: Machine, m1: Machine,
      ctx: seq<nat>, x: nat, k0: Rest, k1: Rest, k: Rest, o1: Outcome, depth: nat) returns (o: Outcome)
    requires Quietly(env, n, Config(k0, m.world), Config(k1, mid.world)) && !o1.Flowed?
    requires Ran(env, mid, m1, ctx + [x], 0, BlockWidth(body), k1, k, o1) && BlockResumes(body, o1, 0, k)
    requires AlternativeFits(next, depth) && x + 1 + AlternativeWidth(next) < POSITION_LIMIT
    ensures Ran(env, m, RunAlternative(env, next, m1), ctx, x, x + 1 + AlternativeWidth(next), k0, k, o)
    ensures BranchResumes(body, next, o, x, k)
  {
    hide RunBlock, InBlock, RestOfBlock, BlockFits, Bump, Quietly, Resumption, PopContext, PushContext, Micro,
      InStatement, RestOfStatement, StatementResumes, Ran,
      TestCondition, ExecuteWithoutContext, BackToStart, Away, Push, Test, InAlternative, RestOfAlternative,
        AlternativeResumes, AlternativeFits, RunAlternative;
    var hi := x + 1 + AlternativeWidth(next);
    o := BodyStopped(env, n, m, mid, m1, ctx, x, BlockWidth(body), x, hi, k0, k1, k, k, o1);
    StoppedExamine(env, mid, m1, ctx, x, BlockWidth(body), k1, k, o1);
    Narrow(m1.execute, ctx, x + 1, POSITION_LIMIT, x + 1, hi, |ctx|);
    SkipAlternative(env, next, m1, ctx, x, BlockWidth(body), depth, |ctx|);
    assert m1.(examine := ctx + [x] + [BlockWidth(body)]) == m1;
    InsideResumes(body, o1, o, x, x, k);
    assert From(Resumption(o), x)[1..] == Resumption(o)[1..];
  }

  /** A body that is passed over: control is in `next`. */
  lemma BranchSkipped(env: Environment, body: Block, next: Alternative, n: nat, m: Machine, mid: Machine, m2: Machine,
      ctx: seq<nat>, x: nat, k0: Rest, k1: Rest, k: Rest, o2: Outcome) returns (o: Outcome)
    requires Quietly(env, n, Config(k0, m.world), Config(k1, mid.world))
    requires Ran(env, mid, m2, ctx, x + 1, x + 1 + AlternativeWidth(next), k1, k, o2)
    requires AlternativeResumes(next, o2, x + 1, k)
    ensures Ran(env, m, m2, ctx, x, x + 1 + AlternativeWidth(next), k0, k, o)
    ensures BranchResumes(body, next, o, x, k)
  {
    hide RunBlock, InBlock, RestOfBlock, BlockFits, Bump, Quietly, Resumption, PopContext, PushContext, Micro,
      InStatement, RestOfStatement, StatementResumes, BlockResumes, Ran,
      TestCondition, ExecuteWithoutContext, BackToStart, Away, Push, Test, InAlternative, RestOfAlternative,
        AlternativeResumes, BranchResumes, AlternativeFits;
    var hi := x + 1 + AlternativeWidth(next);
    o := Delayed(o2, n);
    Widen(env, mid, m2, ctx, x + 1, x, hi, k1, k, o2);
    RanDelayed(env, m, n, mid, m2, ctx, x, hi, k0, k1, k, o2);
    NextResumes(body, next, o2, n, x, k);
  }

  lemma StoppedExamine(env: Environment, mid: Machine, m1: Machine, ctx: seq<nat>, x: nat, width: nat, k1: Rest,
      kb: Rest, o1: Outcome)
    requires Ran(env, mid, m1, ctx + [x], 0, width, k1, kb, o1) && !o1.Flowed?
    ensures m1.examine == ctx + [x] + [width]
  {}

  lemma FlowedAlternative(a: Alternative, o: Outcome, y: nat, k: Rest)
    requires o.Flowed?
    ensures AlternativeResumes(a, o, y, k)
  {}

  lemma AlternativeCases(a: Alternative, e: seq<nat>, k: Rest)
    requires InAlternative(a, e)
    ensures a.EndIf? ==> e == [0] || e == [1]
    ensures e == [0] || e == [1] || a.ElseIf? ||
      (a.Else? && Inside(e, 1) && InBlock(a.body, e[1..]) &&
        RestOfAlternative(a, e, k) == RestOfBlock(a.body, e[1..], k))
    ensures e == [0] || e == [1] || a.Else? ||
      (a.ElseIf? && Inside(e, 2) && InBlock(a.body, e[1..]) &&
        RestOfAlternative(a, e, k) == RestOfBlock(a.body, e[1..], k)) ||
      (a.ElseIf? && e[0] >= 3 && InAlternative(a.alternative, From(e, 3)) &&
        RestOfAlternative(a, e, k) == RestOfAlternative(a.alternative, From(e, 3), k))
  {
    hide InBlock, RestOfBlock;
  }

  lemma AlternativeInBody(a: Alternative, e: seq<nat>, k: Rest)
    requires !a.EndIf? && Inside(e, if a.Else? then 1 else 2) && InBlock(a.body, e[1..])
    ensures InAlternative(a, e) && RestOfAlternative(a, e, k) == RestOfBlock(a.body, e[1..], k)
  {
    hide InBlock, RestOfBlock;
  }

  lemma AlternativeInNext(a: Alternative, e: seq<nat>, k: Rest)
    requires a.ElseIf? && |e| > 0 && e[0] >= 3 && InAlternative(a.alternative, From(e, 3))
    ensures InAlternative(a, e) && RestOfAlternative(a, e, k) == RestOfAlternative(a.alternative, From(e, 3), k)
  {
    hide InBlock, RestOfBlock;
  }

  lemma BranchOfAlternative(a: Alternative, o: Outcome, y: nat, k: Rest)
    requires a.ElseIf? && BranchResumes(a.body, a.alternative, o, y + 2, k)
    ensures AlternativeResumes(a, o, y, k)
  {
    hide InAlternative, RestOfAlternative, InBlock, RestOfBlock, Resumption;
    if !o.Flowed? {
      var e := Resumption(o);
      if Inside(e, y + 2) && InBlock(a.body, e[1..]) && o.rest == RestOfBlock(a.body, e[1..], k) {
        assert From(e, y)[1..] == e[1..];
        AlternativeInBody(a, From(e, y), k);
      } else {
        FromFrom(e, y, 3);
        AlternativeInNext(a, From(e, y), k);
      }
    }
  }

  /** The alternatives of an If: position 0 is where control arrives when a branch has been done,
      position 1 when all conditions so far have failed. */
  lemma {:induction false} LiveAlternative(env: Environment, a: Alternative, m: Machine, p: Machine, ctx: seq<nat>,
      y: nat, at: seq<nat>, k: Rest, depth: nat) returns (o: Outcome)
    requires PopContext(m) == p && p.examine == ctx + [y] && y + AlternativeWidth(a) < POSITION_LIMIT && !p.repeat
    requires |at| > 0 && at[0] >= y && p.execute == ctx + at
    requires AlternativeFits(a, depth) && InAlternative(a, From(at, y))
    ensures Ran(env, p, RunAlternative(env, a, m), ctx, y, y + AlternativeWidth(a),
      RestOfAlternative(a, From(at, y), k), k, o)
    ensures AlternativeResumes(a, o, y, k)
    decreases a, 1
  {
    hide RunBlock, InBlock, RestOfBlock, BlockFits, Bump, Quietly, Resumption, PopContext, PushContext, Micro,
      InStatement, RestOfStatement, StatementResumes, BlockResumes, Ran,
      TestCondition, ExecuteWithoutContext, ExecuteNextStep, BackToStart, Away, Push, Test, InAlternative,
        RestOfAlternative, AlternativeResumes, BranchResumes, AlternativeFits;
    var e := From(at, y);
    var k0 := RestOfAlternative(a, e, k);
    AlternativeCases(a, e, k);
    match a
    case EndIf =>
      RestOfDoneAlternative(a, k);
      QuietNone(env, Config(k, p.world));
      if e == [0] {
        assert at == [y];
        PassPosition(p, p, ctx, y, y);
      } else {
        assert at == [y + 1];
        assert p.execute[|ctx|] == y + 1;
        SkipPosition(p, p, ctx, y);
      }
      o := Flowed(0);
      FlowedRan(env, 0, p, p.(execute := ctx + [y + 1], examine := ctx + [y + 1]), ctx, y, y + 1, k0, k);
      FlowedAlternative(a, o, y, k);
    case Else(_) =>
      o := LiveElse(env, a, m, p, ctx, y, at, k, depth);
    case ElseIf(_, _, _) =>
      o := LiveElseIf(env, a, m, p, ctx, y, at, k, depth);
  }

  lemma {:induction false} LiveElse(env: Environment, a: Alternative, m: Machine, p: Machine, ctx: seq<nat>, y: nat,
      at: seq<nat>, k: Rest, depth: nat) returns (o: Outcome)
    requires a.Else?
    requires PopContext(m) == p && p.examine == ctx + [y] && y + AlternativeWidth(a) < POSITION_LIMIT && !p.repeat
    requires |at| > 0 && at[0] >= y && p.execute == ctx + at
    requires AlternativeFits(a, depth) && InAlternative(a, From(at, y))
    ensures Ran(env, p, RunAlternative(env, a, m), ctx, y, y + AlternativeWidth(a),
      RestOfAlternative(a, From(at, y), k), k, o)
    ensures AlternativeResumes(a, o, y, k)
    decreases a, 0
  {
    hide RunBlock, InBlock, RestOfBlock, BlockFits, Bump, Quietly, Resumption, PopContext, PushContext, Micro,
      InStatement, RestOfStatement, StatementResumes, BlockResumes, Ran,
      TestCondition, ExecuteWithoutContext, ExecuteNextStep, BackToStart, Away, Push, Test, InAlternative,
        RestOfAlternative, AlternativeResumes, BranchResumes;
    var e := From(at, y);
    var k0 := RestOfAlternative(a, e, k);
    AlternativeCases(a, e, k);
    RestOfDoneAlternative(a, k);
    var mid := ExecuteWithoutContext(p, ExecuteNextStep(p));
    if e == [0] {
      assert at == [y];
      Next(p, ctx, y);
      PassPosition(p, ExecuteNextStep(p), ctx, y, y + 1);
      AwayAt(mid.execute, ctx, y + 2, y + 1, y + 2);
      SkipBody(env, a.body, mid, ctx, y + 1, depth - 1, |ctx|);
      var closed := mid.(examine := ctx + [y + 2]);
      PassPosition(closed, closed, ctx, y + 2, y + 2);
      o := Flowed(0);
      QuietNone(env, Config(k, p.world));
      FlowedRan(env, 0, p, closed.(execute := ctx + [y + 3], examine := ctx + [y + 3]), ctx, y, y + 3, k0, k);
      FlowedAlternative(a, o, y, k);
    } else {
      assert at[0] == y + 1 && p.execute[|ctx|] == y + 1;
      SkipPosition(p, ExecuteNextStep(p), ctx, y);
      var r := InnerPoint(at);
      if e == [1] {
        RestFromStart(a.body, k);
        assert at == [y + 1];
      } else {
        assert e[1..] == r && p.execute == ctx + [y + 1] + r;
      }
      o := LiveElseBody(env, a, mid, ctx, y, r, k, depth);
      SameWorld(env, p, mid, OnEndIf(RunBlock(env, a.body, PushContext(mid))), ctx, y, y + 3, k0, k, o);
    }
  }

  lemma SameWorld(env: Environment, m: Machine, mid: Machine, m': Machine, ctx: seq<nat>, lo: nat, hi: nat, k0: Rest,
      k: Rest, o: Outcome)
    requires Ran(env, mid, m', ctx, lo, hi, k0, k, o) && m.world == mid.world
    ensures Ran(env, m, m', ctx, lo, hi, k0, k, o)
  {}

  lemma {:induction false} LiveElseBody(env: Environment, a: Alternative, mid: Machine, ctx: seq<nat>, y: nat,
      r: seq<nat>, k: Rest, depth: nat) returns (o: Outcome)
    requires a.Else? && AlternativeFits(a, depth)
    requires mid.examine == ctx + [y + 1] && y + 3 < POSITION_LIMIT && !mid.repeat
    requires InBlock(a.body, r)
    requires (r == [0] && mid.execute == ctx + [y + 1]) || mid.execute == ctx + [y + 1] + r
    ensures Ran(env, mid, OnEndIf(RunBlock(env, a.body, PushContext(mid))), ctx, y, y + 3,
      RestOfBlock(a.body, r, k), k, o)
    ensures AlternativeResumes(a, o, y, k)
    decreases a, 0, 0
  {
    hide RunBlock, InBlock, RestOfBlock, BlockFits, Bump, Quietly, Resumption, PopContext, PushContext, Micro,
      InStatement, RestOfStatement, StatementResumes, BlockResumes, Ran,
      TestCondition, ExecuteWithoutContext, ExecuteNextStep, BackToStart, Away, Push, Test, InAlternative,
        RestOfAlternative, AlternativeResumes, BranchResumes;
    var k1 := RestOfBlock(a.body, r, k);
    var m1 := RunBlock(env, a.body, PushContext(mid));
    var o1 := LiveBody(env, a.body, mid, ctx, y + 1, r, k, depth - 1);
    if o1.Flowed? {
      FlowedIs(env, mid, m1, ctx + [y + 1], 0, BlockWidth(a.body), k1, k, o1.n);
      PassPop(m1, ctx, y + 1, BlockWidth(a.body));
      var closed := m1.(execute := ctx + [y + 2], examine := ctx + [y + 2]);
      PassPosition(closed, closed, ctx, y + 2, y + 2);
      o := o1;
      FlowedRan(env, o.n, mid, closed.(execute := ctx + [y + 3], examine := ctx + [y + 3]), ctx, y, y + 3, k1, k);
      FlowedAlternative(a, o, y, k);
    } else {
      QuietNone(env, Config(k1, mid.world));
      o := BodyStopped(env, 0, mid, mid, m1, ctx, y + 1, BlockWidth(a.body), y, y + 3, k1, k1, k, k, o1);
      Narrow(m1.execute, ctx, y + 2, POSITION_LIMIT, y + 2, y + 3, |ctx|);
      SkipEnd(m1, m1.(examine := ctx + [y + 2]), ctx, y + 2, 0, y + 3, |ctx|);
      ElseResumes(a, o1, o, y, k);
    }
  }

  lemma ElseResumes(a: Alternative, o1: Outcome, o: Outcome, y: nat, k: Rest)
    requires a.Else? && !o1.Flowed? && BlockResumes(a.body, o1, 0, k)
    requires !o.Flowed? && o.rest == o1.rest && Resumption(o) == [y + 1] + Resumption(o1)
    ensures AlternativeResumes(a, o, y, k)
  {
    hide InAlternative, RestOfAlternative, InBlock, RestOfBlock, Resumption, BlockResumes;
    InsideResumes(a.body, o1, o, y + 1, y, k);
    AlternativeInBody(a, From(Resumption(o), y), k);
  }

  /** The body at position `x` is passed over; control is at `at`, in `next`. */
  lemma {:induction false} PassOverBranch(env: Environment, body: Block, next: Alternative, n: nat, m: Machine,
      mid: Machine, ctx: seq<nat>, x: nat, at: seq<nat>, k0: Rest, k: Rest, depth: nat) returns (o: Outcome)
    requires depth > 0 && BodyFits(body, 0, depth - 1) && AlternativeFits(next, depth)
    requires mid.examine == ctx + [x] && x + 1 + AlternativeWidth(next) < POSITION_LIMIT && !mid.repeat
    requires |at| > 0 && at[0] >= x + 1 && mid.execute == ctx + at && InAlternative(next, From(at, x + 1))
    requires Quietly(env, n, Config(k0, m.world), Config(RestOfAlternative(next, From(at, x + 1), k), mid.world))
    ensures Ran(env, m, RunAlternative(env, next, RunBlock(env, body, PushContext(mid))), ctx, x,
      x + 1 + AlternativeWidth(next), k0, k, o)
    ensures BranchResumes(body, next, o, x, k)
    decreases next, 2
  {
    hide RunBlock, InBlock, RestOfBlock, BlockFits, Bump, Quietly, Resumption, PopContext, PushContext, Micro,
      InStatement, RestOfStatement, StatementResumes, BlockResumes, Ran,
      TestCondition, ExecuteWithoutContext, ExecuteNextStep, BackToStart, Push, Test, InAlternative, RestOfAlternative,
        AlternativeResumes, BranchResumes, RunAlternative, AlternativeFits;
    assert mid.execute[|ctx|] == at[0];
    SkipBody(env, body, mid, ctx, x, depth - 1, |ctx|);
    var m1 := mid.(examine := ctx + [x] + [BlockWidth(body)]);
    var p := mid.(examine := ctx + [x + 1]);
    var o2 := LiveAlternative(env, next, m1, p, ctx, x + 1, at, k, depth);
    var k1 := RestOfAlternative(next, From(at, x + 1), k);
    o := BranchSkipped(env, body, next, n, m, p, RunAlternative(env, next, m1), ctx, x, k0, k1, k, o2);
  }

  /** The body at position `x` has been walked over, with outcome `o1`. */
  lemma {:induction false} FinishBranch(env: Environment, body: Block, next: Alternative, n: nat, m: Machine,
      mid: Machine, m1: Machine, ctx: seq<nat>, x: nat, k0: Rest, k1: Rest, k: Rest, o1: Outcome, depth: nat)
      returns (o: Outcome)
    requires AlternativeFits(next, depth) && x + 1 + AlternativeWidth(next) < POSITION_LIMIT
    requires Quietly(env, n, Config(k0, m.world), Config(k1, mid.world))
    requires Ran(env, mid, m1, ctx + [x], 0, BlockWidth(body), k1, k, o1) && BlockResumes(body, o1, 0, k)
    ensures Ran(env, m, RunAlternative(env, next, m1), ctx, x, x + 1 + AlternativeWidth(next), k0, k, o)
    ensures BranchResumes(body, next, o, x, k)
    decreases next, 2
  {
    hide RunBlock, InBlock, RestOfBlock, BlockFits, Bump, Quietly, Resumption, PopContext, PushContext, Micro,
      InStatement, RestOfStatement, StatementResumes, BlockResumes, Ran,
      TestCondition, ExecuteWithoutContext, ExecuteNextStep, BackToStart, Away, Push, Test, InAlternative,
        RestOfAlternative, AlternativeResumes, BranchResumes, RunAlternative, AlternativeFits;
    if o1.Flowed? {
      FlowedIs(env, mid, m1, ctx + [x], 0, BlockWidth(body), k1, k, o1.n);
      PassPop(m1, ctx, x, BlockWidth(body));
      var p := m1.(execute := ctx + [x + 1], examine := ctx + [x + 1]);
      RestOfDoneAlternative(next, k);
      assert From([x + 1], x + 1) == [0];
      var o2 := LiveAlternative(env, next, m1, p, ctx, x + 1, [x + 1], k, depth);
      SameWorld(env, m1, p, RunAlternative(env, next, m1), ctx, x + 1, x + 1 + AlternativeWidth(next), k, k, o2);
      o := BranchFlowed(env, body, next, n, m, mid, m1, RunAlternative(env, next, m1), ctx, x, k0, k1, k, o1, o2);
    } else {
      o := BranchStopped(env, body, next, n, m, mid, m1, ctx, x, k0, k1, k, o1, depth);
    }
  }

  lemma MicroIf(env: Environment, cond: Condition, body: Block, next: Alternative, k: Rest, w: World)
    ensures Quietly(env, 1, Config(Do(If(cond, body, next), k), w),
      Config(if env.holds(cond, w) then Push(body, k) else Otherwise(next, k), Test(env, cond, w)))
  {
    QuietOne(env, Config(Do(If(cond, body, next), k), w));
  }

  lemma FromStart(at: seq<nat>, y: nat)
    requires |at| > 0 && at[0] >= y && From(at, y) == [0]
    ensures at == [y]
  {
    assert |at| == |From(at, y)| && From(at, y)[0] == at[0] - y;
  }

  lemma {:induction false} LiveElseIf(env: Environment, a: Alternative, m: Machine, p: Machine, ctx: seq<nat>, y: nat,
      at: seq<nat>, k: Rest, depth: nat) returns (o: Outcome)
    requires a.ElseIf?
    requires PopContext(m) == p && p.examine == ctx + [y] && y + AlternativeWidth(a) < POSITION_LIMIT && !p.repeat
    requires |at| > 0 && at[0] >= y && p.execute == ctx + at
    requires AlternativeFits(a, depth) && InAlternative(a, From(at, y))
    ensures Ran(env, p, RunAlternative(env, a, m), ctx, y, y + AlternativeWidth(a),
      RestOfAlternative(a, From(at, y), k), k, o)
    ensures AlternativeResumes(a, o, y, k)
    decreases a, 0
  {
    hide RunBlock, InBlock, RestOfBlock, BlockFits, Bump, Quietly, Resumption, PopContext, PushContext, Micro,
      InStatement, RestOfStatement, StatementResumes, BlockResumes, Ran,
      TestCondition, ExecuteWithoutContext, ExecuteNextStep, BackToStart, Away, Push, Test, InAlternative,
        RestOfAlternative, AlternativeResumes, BranchResumes, Otherwise, Test;
    var e := From(at, y);
    var k0 := RestOfAlternative(a, e, k);
    var body, next := a.body, a.alternative;
    AlternativeCases(a, e, k);
    RestOfDoneAlternative(a, k);
    RestOfDoneAlternative(next, k);
    var q := ExecuteWithoutContext(p, ExecuteNextStep(ExecuteNextStep(p)));
    var mid := TestCondition(env, a.cond, q);
    if e == [0] {
      FromStart(at, y);
      Next(p, ctx, y);
      Next(ExecuteNextStep(p), ctx, y + 1);
      PassPosition(p, ExecuteNextStep(ExecuteNextStep(p)), ctx, y, y + 2);
      assert q.execute == ctx + [y + 3];
      assert q.execute[|ctx|] == y + 3;
      SkipTest(env, a.cond, q, ctx, y + 1);
      QuietNone(env, Config(k0, p.world));
      assert From([y + 3], y + 3) == [0];
      o := PassOverBranch(env, body, next, 0, p, mid, ctx, y + 2, [y + 3], k0, k, depth);
    } else {
      assert p.execute[|ctx|] == at[0] > y;
      SkipPosition(p, ExecuteNextStep(ExecuteNextStep(p)), ctx, y);
      if e == [1] {
        assert at == [y + 1];
        PassTest(env, a.cond, q, ctx, y + 1);
        MicroIf(env, a.cond, body, next, k, p.world);
        OtherwiseIf(a, k);
        if env.holds(a.cond, p.world) {
          RestFromStart(body, k);
          var o1 := LiveBody(env, body, mid, ctx, y + 2, [0], k, depth - 1);
          o := FinishBranch(env, body, next, 1, p, mid, RunBlock(env, body, PushContext(mid)), ctx, y + 2, k0,
            Push(body, k), k, o1, depth);
        } else {
          assert From([y + 4], y + 3) == [1];
          o := PassOverBranch(env, body, next, 1, p, mid, ctx, y + 2, [y + 4], k0, k, depth);
        }
      } else {
        SkipTest(env, a.cond, q, ctx, y + 1);
        QuietNone(env, Config(k0, p.world));
        if e[0] == 2 {
          assert e[1..] == at[1..] && p.execute == ctx + [y + 2] + at[1..];
          var o1 := LiveBody(env, body, mid, ctx, y + 2, at[1..], k, depth - 1);
          o := FinishBranch(env, body, next, 0, p, mid, RunBlock(env, body, PushContext(mid)), ctx, y + 2, k0, k0,
            k, o1, depth);
        } else {
          FromFrom(at, y, 3);
          o := PassOverBranch(env, body, next, 0, p, mid, ctx, y + 2, at, k0, k, depth);
        }
      }
    }
    Widen(env, p, RunAlternative(env, next, RunBlock(env, body, PushContext(mid))), ctx, y + 2, y,
      y + AlternativeWidth(a), k0, k, o);
    BranchOfAlternative(a, o, y, k);
  }

  lemma OtherwiseIf(a: Alternative, k: Rest)
    requires a.ElseIf?
    ensures Otherwise(a, k) == Do(If(a.cond, a.body, a.alternative), k)
  {}

  lemma IfCases(s: Statement, e: seq<nat>, k: Rest)
    requires s.If? && |e| > 0 && e[0] >= 2
    ensures InAlternative(s.alternative, From(e, 2)) ==>
      InStatement(s, e) && RestOfStatement(s, e, k) == RestOfAlternative(s.alternative, From(e, 2), k)
    ensures InStatement(s, e) && e[0] < Width(s) ==> InAlternative(s.alternative, From(e, 2))
  {
    hide InBlock, RestOfBlock;
    if InAlternative(s.alternative, From(e, 2)) && e == [Width(s)] {
      assert From(e, 2) == [AlternativeWidth(s.alternative)];
      AlternativeEnd(s.alternative, k);
    }
  }

  lemma {:induction false} AlternativeEnd(a: Alternative, k: Rest)
    ensures InAlternative(a, [AlternativeWidth(a)]) ==> RestOfAlternative(a, [AlternativeWidth(a)], k) == k
    decreases a
  {
    hide InBlock, RestOfBlock;
    if a.ElseIf? {
      assert From([AlternativeWidth(a)], 3) == [AlternativeWidth(a.alternative)];
      AlternativeEnd(a.alternative, k);
    }
  }

  lemma BranchOfStatement(s: Statement, o: Outcome, j: nat, k: Rest)
    requires s.If? && BranchResumes(s.body, s.alternative, o, j + 1, k)
    ensures StatementResumes(s, o, j, k)
  {
    hide InAlternative, RestOfAlternative, InBlock, RestOfBlock, Resumption, InStatement, RestOfStatement;
    if !o.Flowed? {
      var e := Resumption(o);
      if Inside(e, j + 1) && InBlock(s.body, e[1..]) && o.rest == RestOfBlock(s.body, e[1..], k) {
        assert From(e, j)[1..] == e[1..];
        RestInBody(s, From(e, j), k);
      } else {
        FromFrom(e, j, 2);
        IfCases(s, From(e, j), k);
      }
    }
  }

  lemma IfPoint(s: Statement, e: seq<nat>)
    requires s.If? && InStatement(s, e) && e[0] < 2
    ensures e == [0] || Inside(e, 1)
  {
    hide InBlock, InAlternative;
  }

  lemma {:induction false} LiveIf(env: Environment, s: Statement, m: Machine, ctx: seq<nat>, j: nat, at: seq<nat>,
      k: Rest, depth: nat) returns (o: Outcome)
    requires s.If?
    requires m.examine == ctx + [j] && j + Width(s) < POSITION_LIMIT && !m.repeat
    requires |at| > 0 && j <= at[0] < j + Width(s) && m.execute == ctx + at
    requires StatementFits(s, depth) && InStatement(s, From(at, j))
    ensures Ran(env, m, RunStatement(env, s, m), ctx, j, j + Width(s), RestOfStatement(s, From(at, j), k), k, o)
    ensures StatementResumes(s, o, j, k)
    decreases s, 0
  {
    hide RunBlock, InBlock, RestOfBlock, BlockFits, Bump, Quietly, Resumption, PopContext, PushContext, Micro,
      InStatement, RestOfStatement, StatementResumes, BlockResumes, Ran,
      TestCondition, ExecuteWithoutContext, ExecuteNextStep, BackToStart, Away, Push, Test, InAlternative,
        RestOfAlternative, AlternativeResumes, BranchResumes, Otherwise, Test;
    var e := From(at, j);
    var k0 := RestOfStatement(s, e, k);
    var body, next := s.body, s.alternative;
    RestOfDoneAlternative(next, k);
    var mid := TestCondition(env, s.cond, m);
    if e[0] < 2 { IfPoint(s, e); }
    if e == [0] {
      assert at == [j];
      RestAtStart(s, k);
      PassTest(env, s.cond, m, ctx, j);
      MicroIf(env, s.cond, body, next, k, m.world);
      if env.holds(s.cond, m.world) {
        RestFromStart(body, k);
        var o1 := LiveBody(env, body, mid, ctx, j + 1, [0], k, depth - 1);
        o := FinishBranch(env, body, next, 1, m, mid, RunBlock(env, body, PushContext(mid)), ctx, j + 1, k0,
          Push(body, k), k, o1, depth);
      } else {
        assert From([j + 3], j + 2) == [1];
        o := PassOverBranch(env, body, next, 1, m, mid, ctx, j + 1, [j + 3], k0, k, depth);
      }
    } else {
      assert m.execute[|ctx|] == at[0] > j;
      SkipTest(env, s.cond, m, ctx, j);
      QuietNone(env, Config(k0, m.world));
      if e[0] == 1 {
        assert e[1..] == at[1..] && m.execute == ctx + [j + 1] + at[1..];
        RestInBody(s, e, k);
        var o1 := LiveBody(env, body, mid, ctx, j + 1, at[1..], k, depth - 1);
        o := FinishBranch(env, body, next, 0, m, mid, RunBlock(env, body, PushContext(mid)), ctx, j + 1, k0, k0,
          k, o1, depth);
      } else {
        IfCases(s, e, k);
        FromFrom(at, j, 2);
        o := PassOverBranch(env, body, next, 0, m, mid, ctx, j + 1, at, k0, k, depth);
      }
    }
    Widen(env, m, RunAlternative(env, next, RunBlock(env, body, PushContext(mid))), ctx, j + 1, j,
      j + Width(s), k0, k, o);
    BranchOfStatement(s, o, j, k);
  }

  lemma LiveStep(env: Environment, s: Statement, m: Machine, ctx: seq<nat>, j: nat, at: seq<nat>, k: Rest, depth: nat)
      returns (o: Outcome)
    requires s.Step?
    requires m.examine == ctx + [j] && j + Width(s) < POSITION_LIMIT && !m.repeat
    requires |at| > 0 && j <= at[0] < j + Width(s) && m.execute == ctx + at
    requires StatementFits(s, depth) && InStatement(s, From(at, j))
    ensures Ran(env, m, RunStatement(env, s, m), ctx, j, j + Width(s), RestOfStatement(s, From(at, j), k), k, o)
    ensures StatementResumes(s, o, j, k)
  {
    hide Bump;
    assert at == [j] && From(at, j) == [0];
    RestAtStart(s, k);
    RestAtEnd(s, k);
    var c := Config(Do(s, k), m.world);
    o := Paused(0, [j], c, k);
    BumpAt(ctx, j);
    BumpAt([], j);
    assert Bump([j]) == [j + 1] by { assert [] + [j] == [j] && [] + [j + 1] == [j + 1]; }
    assert From([j + 1], j) == [1];
  }

  lemma {:induction false} LiveStatement(env: Environment, s: Statement, m: Machine, ctx: seq<nat>, j: nat,
      at: seq<nat>, k: Rest, depth: nat) returns (o: Outcome)
    requires m.examine == ctx + [j] && j + Width(s) < POSITION_LIMIT && !m.repeat
    requires |at| > 0 && j <= at[0] < j + Width(s) && m.execute == ctx + at
    requires StatementFits(s, depth) && InStatement(s, From(at, j))
    ensures Ran(env, m, RunStatement(env, s, m), ctx, j, j + Width(s), RestOfStatement(s, From(at, j), k), k, o)
    ensures StatementResumes(s, o, j, k)
    decreases s, 1
  {
    hide RunBlock, InBlock, RestOfBlock, BlockFits, Bump, Quietly, Resumption, PopContext, PushContext, Micro,
      InStatement, RestOfStatement, StatementResumes, BlockResumes, Ran,
      TestCondition, ExecuteWithoutContext, ExecuteNextStep, BackToStart, Away, Push, Test, InAlternative,
        RestOfAlternative, AlternativeResumes, BranchResumes, RunStatement;
    match s
    case Step(_) => o := LiveStep(env, s, m, ctx, j, at, k, depth);
    case Execute(_) => o := LiveExecute(env, s, m, ctx, j, at, k, depth);
    case If(_, _, _) => o := LiveIf(env, s, m, ctx, j, at, k, depth);
    case While(_, _) => o := LiveWhile(env, s, m, ctx, j, at, k, depth);
    case DoWhile(_, _) => o := LiveDoWhile(env, s, m, ctx, j, at, k, depth);
    case ForEach(_, _, _, _) => o := LiveForEach(env, s, m, ctx, j, at, k, depth);
  }
}
