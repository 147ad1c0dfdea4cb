/** Load followed by repeated Continue performs exactly direct structured execution, one Step at a time. */
module SequencerTheorems {
  import opened SequencerProgram
  import opened StructuredExecution
  import opened SequencerReplay
  import opened SequencerSkip
  import opened SequencerPoints
  import opened SequencerLive

  /** `execute` is a position of the program, or empty before the first walk. */
  ghost predicate Standing(program: Block, execute: seq<nat>) {
    execute == [] || InBlock(program, execute)
  }

  ghost function Left(program: Block, execute: seq<nat>): Rest
    requires Standing(program, execute)
  {
    if execute == [] then Push(program, Halt) else RestOfBlock(program, execute, Halt)
  }

  /** Between `c` and the machine `p` direct execution has come to its end, or to just behind a Step, or has jumped
      back. */
  ghost predicate Passed(env: Environment, program: Block, c: Config, p: Machine, o: Outcome) {
    p.examine == [] && p.repeat == o.Looped? && Finished(p) == o.Flowed? &&
    match o
    case Flowed(n) => Quietly(env, n, c, Config(Halt, p.world))
    case Paused(n, at, before, rest) =>
      p.execute == at && InBlock(program, Bump(at)) && rest == RestOfBlock(program, Bump(at), Halt) &&
      Quietly(env, n, c, before) && AtStep(before) && Micro(env, before) == Config(rest, p.world)
    case Looped(n, at, rest) =>
      p.execute == at && InBlock(program, at) && rest == RestOfBlock(program, at, Halt) &&
      n > 0 && Quietly(env, n, c, Config(rest, p.world))
  }

  /** One round of Continue: the whole program is walked over once, and what happens is what direct execution does
      next, up to the end, up to and including a Step, or up to a jump back. */
  lemma PassIsDirect(env: Environment, program: Block, m: Machine) returns (o: Outcome)
    requires Fits(program) && m.examine == [] && Standing(program, m.execute)
    ensures Passed(env, program, Config(Left(program, m.execute), m.world), Pass(env, program, m), o)
  {
    hide RunBlock, InBlock, RestOfBlock, BlockFits, Quietly, Micro, Push, Bump, PopContext;
    var m0 := m.(repeat := false);
    var at := if m.execute == [] then [0] else m.execute;
    RestFromStart(program, Halt);
    assert |at| > 0 && InBlock(program, at) by { if m.execute != [] { RankPoint(program, at); } }
    var inner := PushContext(m0);
    assert inner.examine == [] + [0] && inner.execute == [] + at;
    assert From(at, 0) == at;
    o := LiveBlock(env, program, inner, [], 0, at, Halt, MAX_CONTEXTS - 1);
    var m1 := RunBlock(env, program, inner);
    if o.Flowed? {
      assert m1.execute == m1.examine == [BlockWidth(program)];
      PopFinished(m1, BlockWidth(program));
    } else {
      assert m1.execute == o.at && m1.examine == [BlockWidth(program)];
      assert m1.execute[0] != BlockWidth(program);
      PopUnfinished(m1, BlockWidth(program));
      assert From(Resumption(o), 0) == Resumption(o);
    }
  }

  lemma PopFinished(m: Machine, width: nat)
    requires m.execute == m.examine == [width]
    ensures PopContext(m) == m.(execute := [], examine := [])
  {
    assert m.execute[..0] == [];
  }

  lemma PopUnfinished(m: Machine, width: nat)
    requires m.examine == [width] && |m.execute| > 0 && m.execute[0] != width
    ensures PopContext(m) == m.(examine := [])
  {
    assert m.examine[..0] == [];
  }

  /** The loop of Continue comes to an end after `n` rounds, in `p`. */
  ghost predicate Settles(env: Environment, program: Block, m: Machine, n: nat, p: Machine)
    decreases n
  {
    n > 0 &&
    var q := Pass(env, program, m);
    if q.repeat then Settles(env, program, q, n - 1, p) else n == 1 && p == q
  }

  /** What Continue does after its loop. */
  function Advance(m: Machine): Machine {
    if Finished(m) then m else ExecuteNextStep(m)
  }

  /** Direct execution from `c` goes on quietly and ends, or goes on quietly and performs one Step, and is then where
      the machine `m` is. */
  ghost predicate OneStep(env: Environment, program: Block, c: Config, n: nat, d: Config, m: Machine) {
    Quietly(env, n, c, d) && m.examine == [] &&
    if Finished(m) then d == Config(Halt, m.world)
    else AtStep(d) && InBlock(program, m.execute) && Micro(env, d) == Config(RestOfBlock(program, m.execute, Halt), m.world)
  }

  /** Whenever Continue returns, it has done what direct execution does up to and including its next Step. */
  lemma {:induction false} ContinueIsDirect(env: Environment, program: Block, m: Machine, n: nat, p: Machine)
      returns (steps: nat, d: Config)
    requires Fits(program) && m.examine == [] && Standing(program, m.execute)
    requires Settles(env, program, m, n, p)
    ensures OneStep(env, program, Config(Left(program, m.execute), m.world), steps, d, Advance(p))
    decreases n
  {
    hide Pass, Micro, InBlock, RestOfBlock, Fits, Bump, Quietly, Push;
    var c := Config(Left(program, m.execute), m.world);
    var o := PassIsDirect(env, program, m);
    var q := Pass(env, program, m);
    match o
    case Flowed(k) => steps, d := k, Config(Halt, q.world);
    case Paused(k, _, before, _) =>
      steps, d := k, before;
      assert Bump(q.execute) != [] by { RankPoint(program, Bump(q.execute)); }
    case Looped(k, _, rest) =>
      var k', e := ContinueIsDirect(env, program, q, n - 1, p);
      steps, d := k + k', e;
      QuietlyTransitive(env, k, k', c, Config(rest, q.world), e);
  }

  /** Continue returns when direct execution comes to a Step or to its end: a loop that tests and jumps for ever
      without a Step is the only way not to return. The converse is ContinueIsDirect. */
  lemma {:induction false} ContinueReturns(env: Environment, program: Block, m: Machine, q: nat)
      returns (n: nat, p: Machine)
    requires Fits(program) && m.examine == [] && Standing(program, m.execute)
    requires Yields(env, q, Config(Left(program, m.execute), m.world))
    ensures Settles(env, program, m, n, p)
    decreases q
  {
    hide Pass, Micro, InBlock, RestOfBlock, Fits, Bump, Quietly, Push;
    var c := Config(Left(program, m.execute), m.world);
    var o := PassIsDirect(env, program, m);
    var r := Pass(env, program, m);
    if o.Looped? {
      var d :| Quietly(env, q, c, d) && (AtStep(d) || AtEnd(d));
      QuietlyOnTheWay(env, o.n, q, c, Config(o.rest, r.world), d);
      assert Yields(env, q - o.n, Config(o.rest, r.world));
      n, p := ContinueReturns(env, program, r, q - o.n);
      n := n + 1;
    } else {
      n, p := 1, r;
    }
  }

  /** The program as a whole is run: Load, and then Continue as long as the sequencer is not finished. */
  ghost predicate ContinuesTo(env: Environment, program: Block, m: Machine, m': Machine) {
    exists n, p :: Settles(env, program, m.(examine := []), n, p) && m' == Advance(p)
  }

  ghost predicate IsRun(env: Environment, program: Block, w: World, run: seq<Machine>) {
    |run| > 0 &&
    ContinuesTo(env, program, Machine([], [], false, w), run[0]) &&
    forall i :: 0 < i < |run| ==> IsContinued(env, program, run, i)
  }

  ghost predicate IsContinued(env: Environment, program: Block, run: seq<Machine>, i: nat)
    requires 0 < i < |run|
  {
    !Finished(run[i - 1]) && ContinuesTo(env, program, run[i - 1], run[i])
  }

  /** `n` micro steps of direct execution. */
  ghost function Direct(env: Environment, n: nat, c: Config): Config {
    if n == 0 then c else Direct(env, n - 1, Micro(env, c))
  }

  lemma {:induction false} DirectTransitive(env: Environment, n: nat, m: nat, c: Config)
    ensures Direct(env, n + m, c) == Direct(env, m, Direct(env, n, c))
  {
    if n > 0 {
      DirectTransitive(env, n - 1, m, Micro(env, c));
    }
  }

  /** The number of Steps that have been performed. */
  function Acts(trace: seq<Event>): nat {
    if trace == [] then 0 else Acts(trace[..|trace| - 1]) + (if trace[|trace| - 1].Acted? then 1 else 0)
  }

  lemma MicroActs(env: Environment, c: Config)
    ensures Acts(Micro(env, c).world.trace) == Acts(c.world.trace) + (if AtStep(c) then 1 else 0)
  {
    var before, after := c.world.trace, Micro(env, c).world.trace;
    assert after == before || after[..|after| - 1] == before;
  }

  lemma {:induction false} QuietlyDirect(env: Environment, n: nat, c: Config, d: Config)
    requires Quietly(env, n, c, d)
    ensures Direct(env, n, c) == d
    ensures Acts(d.world.trace) == Acts(c.world.trace)
    decreases n
  {
    hide Micro, Acts;
    if n > 0 {
      MicroActs(env, c);
      QuietlyDirect(env, n - 1, Micro(env, c), d);
    }
  }

  /** Where direct execution is when the sequencer is at `m`. */
  ghost function Standpoint(program: Block, m: Machine): Config
    requires Finished(m) || InBlock(program, m.execute)
  {
    Config(if Finished(m) then Halt else RestOfBlock(program, m.execute, Halt), m.world)
  }

  /** The main theorem. In every run, after Load and `i` calls of Continue, the sequencer stands exactly where direct
      structured execution stands after some number of micro steps: same events in the same order, same variables, same
      program left to do. Exactly one Step has been performed by Load and by each Continue, except that the call that
      finishes the program performs none. */
  lemma {:induction false} ReplayIsDirectExecution(env: Environment, program: Block, w: World, run: seq<Machine>,
      i: nat) returns (n: nat)
    requires Fits(program) && IsRun(env, program, w, run) && i < |run|
    ensures run[i].examine == [] && (Finished(run[i]) || InBlock(program, run[i].execute))
    ensures Direct(env, n, Config(Push(program, Halt), w)) == Standpoint(program, run[i])
    ensures Acts(run[i].world.trace) == Acts(w.trace) + (if Finished(run[i]) then i else i + 1)
    decreases i
  {
    hide Pass, Micro, InBlock, RestOfBlock, Fits, Bump, Quietly, Push, Settles, Direct, Acts;
    var start := Config(Push(program, Halt), w);
    var m, before := Machine([], [], false, w), 0;
    if i > 0 {
      before := ReplayIsDirectExecution(env, program, w, run, i - 1);
      m := run[i - 1];
      assert IsContinued(env, program, run, i);
    } else {
      assert Direct(env, 0, start) == start by { DirectNone(env, start); }
    }
    assert ContinuesTo(env, program, m, run[i]);
    var k, p :| Settles(env, program, m.(examine := []), k, p) && run[i] == Advance(p);
    var c := Config(Left(program, m.execute), m.world);
    var steps, d := ContinueIsDirect(env, program, m.(examine := []), k, p);
    QuietlyDirect(env, steps, c, d);
    MicroActs(env, d);
    DirectTransitive(env, before, steps, start);
    DirectTransitive(env, before + steps, 1, start);
    assert Direct(env, 1, d) == Micro(env, d) by { DirectOne(env, d); }
    n := before + steps + (if Finished(run[i]) then 0 else 1);
  }

  lemma DirectNone(env: Environment, c: Config)
    ensures Direct(env, 0, c) == c
  {}

  lemma DirectOne(env: Environment, c: Config)
    ensures Direct(env, 1, c) == Micro(env, c)
  {
    assert Direct(env, 0, Micro(env, c)) == Micro(env, c);
  }

  // ----- why fewer than 256 positions

  function Steps(n: nat): Block {
    if n == 0 then Nil else Cons(Step(0), Steps(n - 1))
  }

  lemma WalkOverStep(env: Environment, m: Machine, j: nat)
    requires m.execute == [0] && m.examine == [j]
    ensures var q := OnStep(env, 0, m);
      RunStatement(env, Step(0), m) == q && q.execute == [0] && q.examine == [(j + 1) % POSITION_LIMIT] &&
        q.repeat == m.repeat &&
      Acts(q.world.trace) == Acts(m.world.trace) + (if j == 0 then 1 else 0)
  {
    var q := OnStep(env, 0, m);
    assert q.examine == [(j + 1) % POSITION_LIMIT];
    assert q.world.trace == m.world.trace || q.world.trace[..|q.world.trace| - 1] == m.world.trace;
  }

  lemma {:induction false} WalkOverSteps(env: Environment, n: nat, m: Machine, j: nat)
    requires m.execute == [0] && m.examine == [j] && j < POSITION_LIMIT
    ensures var p := RunBlock(env, Steps(n), m);
      p.execute == [0] && p.examine == [(j + n) % POSITION_LIMIT] && p.repeat == m.repeat &&
      Acts(p.world.trace) == Acts(m.world.trace) + (j + n + 255) / POSITION_LIMIT - (j + 255) / POSITION_LIMIT
    decreases n
  {
    hide RunStatement, Acts, OnStep;
    if n > 0 {
      var q := OnStep(env, 0, m);
      WalkOverStep(env, m, j);
      WalkOverSteps(env, n - 1, q, (j + 1) % POSITION_LIMIT);
      CountSteps(j, n);
    } else {
      assert (j + n) % POSITION_LIMIT == j;
    }
  }

  lemma CountSteps(j: nat, n: nat)
    requires j < POSITION_LIMIT && n > 0
    ensures var i := (j + 1) % POSITION_LIMIT;
      (i + (n - 1)) % POSITION_LIMIT == (j + n) % POSITION_LIMIT &&
      (if j == 0 then 1 else 0) + (i + (n - 1) + 255) / POSITION_LIMIT - (i + 255) / POSITION_LIMIT ==
      (j + n + 255) / POSITION_LIMIT - (j + 255) / POSITION_LIMIT
  {
    if j == 255 {
      assert (j + 1) % POSITION_LIMIT == 0;
    } else {
      assert (j + 1) % POSITION_LIMIT == j + 1;
    }
  }

  /** A straight line of `n` Steps does not fit when n >= 256, and then a single Load goes wrong: it performs one
      Step for every 256 positions begun, and believes to be finished when n is a multiple of 256. */
  lemma {:induction false} StraightLine(env: Environment, n: nat, w: World)
    requires n > 0
    ensures var p := Pass(env, Steps(n), Machine([], [], false, w));
      !p.repeat &&
      Acts(p.world.trace) == Acts(w.trace) + (n + 255) / POSITION_LIMIT &&
      (Finished(p) <==> n % POSITION_LIMIT == 0) &&
      (Acts(p.world.trace) == Acts(w.trace) + 1 && !Finished(p) <==> n < POSITION_LIMIT)
  {
    hide Acts, RunBlock;
    var m := PushContext(Machine([], [], false, w));
    WalkOverSteps(env, n, m, 0);
    var q := RunBlock(env, Steps(n), m);
    assert q.execute[..0] == [] && q.examine[..0] == [];
  }
}
