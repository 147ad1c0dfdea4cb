/** A part of the program whose positions do not cover `execute` is walked over without effect. */
module SequencerSkip {
  import opened SequencerProgram
  import opened SequencerReplay

  /** At index `i`, `execute` differs from every position `ctx + [j] + ...` with lo <= j < hi. */
  ghost predicate Away(execute: seq<nat>, ctx: seq<nat>, lo: nat, hi: nat, i: nat) {
    i < |execute| && i <= |ctx| &&
    if i < |ctx| then execute[i] != ctx[i] else !(lo <= execute[i] < hi)
  }

  lemma NotThere(execute: seq<nat>, ctx: seq<nat>, j: nat, lo: nat, hi: nat, i: nat)
    requires Away(execute, ctx, lo, hi, i) && lo <= j < hi
    ensures execute != ctx + [j]
    ensures |execute| > |ctx| ==> execute[..|ctx| + 1] != ctx + [j]
  {
    assert (ctx + [j])[i] != execute[i];
    assert |execute| > |ctx| ==> execute[..|ctx| + 1][i] == execute[i];
  }

  lemma NotBelow(execute: seq<nat>, ctx: seq<nat>, x: nat, y: nat, i: nat)
    requires Away(execute, ctx, x, x + 1, i)
    ensures execute != ctx + [x] + [y]
  {
    assert (ctx + [x] + [y])[i] == (ctx + [x])[i] != execute[i];
  }

  lemma BumpAt(ctx: seq<nat>, j: nat)
    requires j + 1 < POSITION_LIMIT
    ensures Bump(ctx + [j]) == ctx + [j + 1]
  {
    assert (ctx + [j])[..|ctx|] == ctx;
  }

  lemma SkipPosition(m: Machine, acted: Machine, ctx: seq<nat>, j: nat)
    requires m.examine == ctx + [j] && j + 1 < POSITION_LIMIT
    requires m.execute != m.examine
    ensures ExecuteWithoutContext(m, acted) == m.(examine := ctx + [j + 1])
  {
    BumpAt(ctx, j);
  }

  lemma SkipTest(env: Environment, cond: Condition, m: Machine, ctx: seq<nat>, j: nat)
    requires m.examine == ctx + [j] && j + 1 < POSITION_LIMIT
    requires m.execute != m.examine
    ensures TestCondition(env, cond, m) == m.(examine := ctx + [j + 1])
  {
    BumpAt(ctx, j);
  }

  lemma SkipPop(m: Machine, ctx: seq<nat>, x: nat, j: nat)
    requires m.examine == ctx + [x] + [j] && x + 1 < POSITION_LIMIT
    requires m.execute != m.examine
    ensures PopContext(m) == m.(examine := ctx + [x + 1])
  {
    BumpAt(ctx, x);
    assert m.examine[..|m.examine| - 1] == ctx + [x];
  }

  /** A whole body, from opening its context up to closing it. */
  lemma {:induction false} SkipBody(env: Environment, b: Block, m: Machine, ctx: seq<nat>, x: nat, depth: nat, i: nat)
    requires m.examine == ctx + [x] && x + 1 < POSITION_LIMIT
    requires Away(m.execute, ctx, x, x + 1, i)
    requires BodyFits(b, 0, depth)
    ensures RunBlock(env, b, PushContext(m)) == m.(examine := ctx + [x] + [BlockWidth(b)])
    ensures PopContext(m.(examine := ctx + [x] + [BlockWidth(b)])) == m.(examine := ctx + [x + 1])
    decreases b, 1
  {
    hide RunBlock, RunStatement, BlockFits, Bump;
    NotThere(m.execute, ctx, x, x, x + 1, i);
    NotBelow(m.execute, ctx, x, BlockWidth(b), i);
    SkipBlock(env, b, PushContext(m), ctx + [x], 0, depth, i);
    SkipPop(m.(examine := ctx + [x] + [BlockWidth(b)]), ctx, x, BlockWidth(b));
  }

  lemma {:induction false} SkipBlock(env: Environment, b: Block, m: Machine, ctx: seq<nat>, j: nat, depth: nat, i: nat)
    requires m.examine == ctx + [j] && j + BlockWidth(b) < POSITION_LIMIT
    requires Away(m.execute, ctx, j, j + BlockWidth(b), i)
    requires BlockFits(b, depth)
    ensures RunBlock(env, b, m) == m.(examine := ctx + [j + BlockWidth(b)])
    decreases b, 0
  {
    hide RunStatement, RunAlternative, StatementFits, AlternativeFits;
    match b
    case Nil =>
    case Cons(s, rest) =>
      SkipStatement(env, s, m, ctx, j, depth, i);
      SkipBlock(env, rest, m.(examine := ctx + [j + Width(s)]), ctx, j + Width(s), depth, i);
  }

  lemma {:induction false} SkipStatement(env: Environment, s: Statement, m: Machine, ctx: seq<nat>, j: nat,
      depth: nat, i: nat)
    requires m.examine == ctx + [j] && j + Width(s) < POSITION_LIMIT
    requires Away(m.execute, ctx, j, j + Width(s), i)
    requires StatementFits(s, depth)
    ensures RunStatement(env, s, m) == m.(examine := ctx + [j + Width(s)])
    decreases s, 0
  {
    hide RunBlock, RunAlternative, BlockFits, AlternativeFits, Bump, ExecuteWithoutContext, TestCondition,
      PushContext, PopContext, BackToStart, ExecuteNextStep;
    NotThere(m.execute, ctx, j, j, j + Width(s), i);
    BumpAt(ctx, j);
    match s
    case Step(_) =>
    case Execute(_) =>
    case If(cond, body, alternative) =>
      SkipTest(env, cond, m, ctx, j);
      SkipBody(env, body, m.(examine := ctx + [j + 1]), ctx, j + 1, depth - 1, i);
      NotBelow(m.execute, ctx, j + 1, BlockWidth(body), i);
      SkipAlternative(env, alternative, m, ctx, j + 1, BlockWidth(body), depth, i);
    case While(cond, body) =>
      SkipTest(env, cond, m, ctx, j);
      SkipBody(env, body, m.(examine := ctx + [j + 1]), ctx, j + 1, depth - 1, i);
      var closed := m.(examine := ctx + [j + 2]);
      SkipEnd(m, BackToStart(closed), ctx, j, 2, j + 3, i);
    case DoWhile(body, cond) =>
      SkipPosition(m, m, ctx, j);
      SkipBody(env, body, m.(examine := ctx + [j + 1]), ctx, j + 1, depth - 1, i);
      var closed := m.(examine := ctx + [j + 2]);
      var tested := closed.(world := Test(env, cond, closed.world));
      SkipEnd(m, if env.holds(cond, closed.world) then BackToStart(tested) else tested, ctx, j, 2, j + 3, i);
    case ForEach(v, from, to, body) =>
      SkipForEach(v, from, to, m, ctx, j, i);
      SkipBody(env, body, m.(examine := ctx + [j + 2]), ctx, j + 2, depth - 1, i);
      SkipEndForEach(v, m, ctx, j, BlockWidth(body), i);
      SkipEnd(m, BackToStart(m.(examine := ctx + [j + 3])), ctx, j, 3, j + 4, i);
  }

  lemma SkipEnd(m: Machine, acted: Machine, ctx: seq<nat>, j: nat, offset: nat, end: nat, i: nat)
    requires end < POSITION_LIMIT && j + offset + 1 == end
    requires Away(m.execute, ctx, j, end, i)
    ensures ExecuteWithoutContext(m.(examine := ctx + [j + offset]), acted) == m.(examine := ctx + [end])
  {
    NotThere(m.execute, ctx, j + offset, j, end, i);
    SkipPosition(m.(examine := ctx + [j + offset]), acted, ctx, j + offset);
  }

  lemma SkipForEach(v: Variable, from: Word, to: Word, m: Machine, ctx: seq<nat>, j: nat, i: nat)
    requires m.examine == ctx + [j] && j + 4 < POSITION_LIMIT
    requires Away(m.execute, ctx, j, j + 4, i)
    ensures OnForEach(v, from, to, m) == PushContext(m.(examine := ctx + [j + 2]))
  {
    hide Bump, PushContext, ExecuteWithoutContext;
    NotThere(m.execute, ctx, j, j, j + 4, i);
    NotThere(m.execute, ctx, j + 1, j, j + 4, i);
    var next := m.(examine := ctx + [j + 1]);
    SkipPosition(m, m.(world := Assign(v, from, m.world)), ctx, j);
    var compared := next.(world := Compare(v, to, next.world));
    SkipPosition(next, if Read(v, next.world) == to then ExecuteNextStep(ExecuteNextStep(compared))
      else compared, ctx, j + 1);
  }

  lemma SkipEndForEach(v: Variable, m: Machine, ctx: seq<nat>, j: nat, width: nat, i: nat)
    requires j + 4 < POSITION_LIMIT && width + 1 < POSITION_LIMIT
    requires Away(m.execute, ctx, j, j + 4, i)
    ensures var closed := m.(examine := ctx + [j + 3]);
            OnEndForEach(v, m.(examine := ctx + [j + 2] + [width])) ==
              ExecuteWithoutContext(closed, BackToStart(closed))
  {
    hide Bump, PopContext, ExecuteWithoutContext, BackToStart;
    var n := m.(examine := ctx + [j + 2] + [width]);
    NotBelow(m.execute, ctx, j + 2, width, i);
    NotBelow(m.execute, ctx, j + 2, width + 1, i);
    SkipPosition(n, n.(world := Assign(v, Read(v, n.world) + 1, n.world)), ctx + [j + 2], width);
    SkipPop(m.(examine := ctx + [j + 2] + [width + 1]), ctx, j + 2, width + 1);
  }

  /** The alternatives of an If, from just before the context at position `x` is closed. */
  lemma {:induction false} SkipAlternative(
    env: Environment, a: Alternative, m: Machine, ctx: seq<nat>, x: nat, end: nat, depth: nat, i: nat)
    requires x + 1 + AlternativeWidth(a) < POSITION_LIMIT
    requires m.execute != ctx + [x] + [end]
    requires Away(m.execute, ctx, x + 1, x + 1 + AlternativeWidth(a), i)
    requires AlternativeFits(a, depth)
    ensures RunAlternative(env, a, m.(examine := ctx + [x] + [end])) ==
      m.(examine := ctx + [x + 1 + AlternativeWidth(a)])
    decreases a, 0
  {
    hide RunBlock, RunStatement, BlockFits, Bump, ExecuteWithoutContext, TestCondition,
      PushContext, PopContext, BackToStart, ExecuteNextStep;
    SkipPop(m.(examine := ctx + [x] + [end]), ctx, x, end);
    var closed := m.(examine := ctx + [x + 1]);
    match a
    case EndIf =>
      SkipEnd(m, closed, ctx, x + 1, 0, x + 2, i);
    case Else(body) =>
      SkipEnd(m, ExecuteNextStep(closed), ctx, x + 1, 0, x + 2, i);
      SkipBody(env, body, m.(examine := ctx + [x + 2]), ctx, x + 2, depth - 1, i);
      SkipEnd(m, m.(examine := ctx + [x + 3]), ctx, x + 1, 2, x + 4, i);
    case ElseIf(cond, body, next) =>
      SkipEnd(m, ExecuteNextStep(ExecuteNextStep(closed)), ctx, x + 1, 0, x + 2, i);
      NotThere(m.execute, ctx, x + 2, x + 1, x + 1 + AlternativeWidth(a), i);
      SkipTest(env, cond, m.(examine := ctx + [x + 2]), ctx, x + 2);
      SkipBody(env, body, m.(examine := ctx + [x + 3]), ctx, x + 3, depth - 1, i);
      NotBelow(m.execute, ctx, x + 3, BlockWidth(body), i);
      SkipAlternative(env, next, m, ctx, x + 3, BlockWidth(body), depth, i);
  }
}
