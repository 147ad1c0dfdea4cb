/** The programs a Sequencer runs, and the world they run in.

    A sequence is written by calling If/While/ForEach/Step/... on the sequencer
    (infra/util/Sequencer.hpp). A well-nested series of such calls is a `Block`.
 */
module SequencerProgram {

  type Action = nat
  type Condition = nat
  type Variable = nat

  const WORD_LIMIT: nat := 0x1_0000_0000
  /** uint32_t */
  type Word = n: nat | n < WORD_LIMIT

  datatype Block = Nil | Cons(head: Statement, tail: Block)

  datatype Statement =
    | Step(action: Action)
    | Execute(body: Block)
    | If(cond: Condition, body: Block, alternative: Alternative)
    | While(cond: Condition, body: Block)
    | DoWhile(body: Block, cond: Condition)
    | ForEach(variable: Variable, from: Word, to: Word, body: Block)

  /** What follows the body of an If or of an ElseIf. */
  datatype Alternative =
    | EndIf
    | Else(body: Block)
    | ElseIf(cond: Condition, body: Block, alternative: Alternative)

  /** Everything that can be seen from outside, in the order in which it happens. */
  datatype Event =
    | Acted(action: Action)
    | Tested(cond: Condition, holds: bool)
    | Assigned(variable: Variable, value: Word)
    | Compared(variable: Variable, value: Word, equal: bool)

  datatype World = World(trace: seq<Event>, variables: map<Variable, Word>)

  /** A deterministic environment: what a condition answers, and what an action does to
      the loop variables, may depend on everything that happened before. */
  datatype Environment = Environment(
    holds: (Condition, World) -> bool,
    effect: (Action, World) -> map<Variable, Word>)

  function Act(env: Environment, action: Action, w: World): World {
    World(w.trace + [Acted(action)], env.effect(action, w))
  }

  function Test(env: Environment, cond: Condition, w: World): World {
    w.(trace := w.trace + [Tested(cond, env.holds(cond, w))])
  }

  function Read(v: Variable, w: World): Word {
    if v in w.variables then w.variables[v] else 0
  }

  /** Assignment to a uint32_t. */
  function Assign(v: Variable, value: nat, w: World): World {
    World(w.trace + [Assigned(v, value % WORD_LIMIT)], w.variables[v := value % WORD_LIMIT])
  }

  function Compare(v: Variable, value: Word, w: World): World {
    w.(trace := w.trace + [Compared(v, value, Read(v, w) == value)])
  }

  /** The number of positions that a statement takes up in its context. */
  function Width(s: Statement): (n: nat)
    ensures n > 0
  {
    match s
    case Step(_) => 1
    case Execute(_) => 1
    case If(_, _, alternative) => 2 + AlternativeWidth(alternative)
    case While(_, _) => 3
    case DoWhile(_, _) => 3
    case ForEach(_, _, _, _) => 4
  }

  function AlternativeWidth(a: Alternative): (n: nat)
    ensures n > 0
  {
    match a
    case EndIf => 1
    case Else(_) => 3
    case ElseIf(_, _, next) => 3 + AlternativeWidth(next)
  }

  function BlockWidth(b: Block): nat {
    match b
    case Nil => 0
    case Cons(s, rest) => Width(s) + BlockWidth(rest)
  }

  /** Positions are held in a uint8_t. */
  const POSITION_LIMIT: nat := 256
  /** Both position vectors are BoundedVector::WithMaxSize<8>. */
  const MAX_CONTEXTS: nat := 8

  /** `b` can be opened as the body of a context with `depth` further contexts available below it;
      a ForEach body has `extra == 1` position more, for the increment. */
  predicate BodyFits(b: Block, extra: nat, depth: nat)
    decreases b, 1
  {
    BlockWidth(b) + extra < POSITION_LIMIT && BlockFits(b, depth)
  }

  predicate BlockFits(b: Block, depth: nat)
    decreases b, 0
  {
    match b
    case Nil => true
    case Cons(s, rest) => StatementFits(s, depth) && BlockFits(rest, depth)
  }

  predicate StatementFits(s: Statement, depth: nat)
    decreases s, 0
  {
    match s
    case Step(_) => true
    case Execute(body) => depth > 0 && BodyFits(body, 0, depth - 1)
    case If(_, body, alternative) => depth > 0 && BodyFits(body, 0, depth - 1) && AlternativeFits(alternative, depth)
    case While(_, body) => depth > 0 && BodyFits(body, 0, depth - 1)
    case DoWhile(body, _) => depth > 0 && BodyFits(body, 0, depth - 1)
    case ForEach(_, _, _, body) => depth > 0 && BodyFits(body, 1, depth - 1)
  }

  predicate AlternativeFits(a: Alternative, depth: nat)
    decreases a, 0
  {
    match a
    case EndIf => true
    case Else(body) => depth > 0 && BodyFits(body, 0, depth - 1)
    case ElseIf(_, body, next) => depth > 0 && BodyFits(body, 0, depth - 1) && AlternativeFits(next, depth)
  }

  /** The programs a Sequencer has room for. The root context takes one of the eight. */
  predicate Fits(program: Block) {
    BodyFits(program, 0, MAX_CONTEXTS - 1)
  }
}

/** Direct structured execution: an abstract machine that keeps what is left to do as a list,
    and knows nothing of positions. */
module StructuredExecution {
  import opened SequencerProgram

  datatype Rest =
    | Halt
    | Do(s: Statement, next: Rest)
    | Again(s: Statement, next: Rest)                            // end of a While body: back to its test
    | Until(s: Statement, next: Rest)                            // end of a DoWhile body: test
    | Iterate(s: Statement, next: Rest)                          // a ForEach whose variable is set: compare
    | Increment(variable: Variable, next: Rest)                  // end of a ForEach body

  datatype Config = Config(rest: Rest, world: World)

  /** Everything in `b`, and then `next`. */
  function Push(b: Block, next: Rest): Rest {
    match b
    case Nil => next
    case Cons(s, t) => Do(s, Push(t, next))
  }

  function Otherwise(a: Alternative, next: Rest): Rest {
    match a
    case EndIf => next
    case Else(body) => Push(body, next)
    case ElseIf(c, body, more) => Do(If(c, body, more), next)
  }

  predicate AtStep(c: Config) {
    c.rest.Do? && c.rest.s.Step?
  }

  predicate AtEnd(c: Config) {
    c.rest.Halt?
  }

  function Micro(env: Environment, c: Config): Config {
    var w := c.world;
    match c.rest
    case Halt => c
    case Do(Step(a), k) => Config(k, Act(env, a, w))
    case Do(Execute(body), k) => Config(Push(body, k), w)
    case Do(If(cond, body, alternative), k) =>
      Config(if env.holds(cond, w) then Push(body, k) else Otherwise(alternative, k), Test(env, cond, w))
    case Do(While(cond, body), k) =>
      Config(if env.holds(cond, w) then Push(body, Again(While(cond, body), k)) else k, Test(env, cond, w))
    case Do(DoWhile(body, cond), k) => Config(Push(body, Until(DoWhile(body, cond), k)), w)
    case Do(ForEach(v, from, to, body), k) =>
      Config(Iterate(ForEach(v, from, to, body), k), Assign(v, from, w))
    case Again(s, k) => Config(Do(s, k), w)
    case Until(s, k) =>
      if s.DoWhile? then
        Config(if env.holds(s.cond, w) then Do(s, k) else k, Test(env, s.cond, w))
      else Config(k, w)
    case Iterate(s, k) =>
      if s.ForEach? then
        Config(
          if Read(s.variable, w) == s.to then k else Push(s.body, Increment(s.variable, Iterate(s, k))),
          Compare(s.variable, s.to, w))
      else Config(k, w)
    case Increment(v, k) => Config(k, Assign(v, Read(v, w) + 1, w))
  }

  /** `n` micro steps, none of which is a Step, lead from `c` to `d`. */
  ghost predicate Quietly(env: Environment, n: nat, c: Config, d: Config)
    decreases n
  {
    if n == 0 then c == d
    else !AtStep(c) && !AtEnd(c) && Quietly(env, n - 1, Micro(env, c), d)
  }

  lemma {:induction false} QuietlyTransitive(env: Environment, n: nat, m: nat, c: Config, d: Config, e: Config)
    requires Quietly(env, n, c, d) && Quietly(env, m, d, e)
    ensures Quietly(env, n + m, c, e)
    decreases n
  {
    if n != 0 {
      QuietlyTransitive(env, n - 1, m, Micro(env, c), d, e);
    }
  }

  /** Direct execution is deterministic: once it has come to a Step or to the end quietly,
      everything it passed through quietly lies on the way. */
  lemma {:induction false} QuietlyOnTheWay(env: Environment, n: nat, m: nat, c: Config, d: Config, e: Config)
    requires Quietly(env, n, c, d)
    requires Quietly(env, m, c, e) && (AtStep(e) || AtEnd(e))
    ensures n <= m && Quietly(env, m - n, d, e)
    decreases n
  {
    if n != 0 {
      assert m != 0;
      QuietlyOnTheWay(env, n - 1, m - 1, Micro(env, c), d, e);
    }
  }

  /** Direct execution reaches a Step or the end within `n` micro steps from `c`. */
  ghost predicate Yields(env: Environment, n: nat, c: Config) {
    exists d :: Quietly(env, n, c, d) && (AtStep(d) || AtEnd(d))
  }
}
