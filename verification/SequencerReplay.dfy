/** The Sequencer itself (infra/util/Sequencer.cpp), on values: every call of the sequence function
    walks over the whole program, and `execute` and `examine` decide what really happens.
 */
module SequencerReplay {
  import opened SequencerProgram

  datatype Machine = Machine(execute: seq<nat>, examine: seq<nat>, repeat: bool, world: World)

  /** ++v.back() and --v.back() on a vector of uint8_t. */
  function Bump(v: seq<nat>): seq<nat> {
    if v == [] then [] else v[..|v| - 1] + [(v[|v| - 1] + 1) % POSITION_LIMIT]
  }

  function Drop(v: seq<nat>): seq<nat> {
    if v == [] then [] else v[..|v| - 1] + [(v[|v| - 1] + POSITION_LIMIT - 1) % POSITION_LIMIT]
  }

  predicate ExecuteCurrentStep(m: Machine) {
    m.execute == m.examine
  }

  predicate Finished(m: Machine) {
    m.execute == []
  }

  function IncreaseCurrentStep(m: Machine): Machine {
    m.(examine := Bump(m.examine))
  }

  function ExecuteNextStep(m: Machine): Machine {
    m.(execute := Bump(m.execute))
  }

  function ExecutePreviousStep(m: Machine): Machine {
    m.(execute := Drop(m.execute), repeat := true)
  }

  function PushContext(m: Machine): Machine {
    m.(execute := if ExecuteCurrentStep(m) then m.execute + [0] else m.execute,
       examine := m.examine + [0])
  }

  function PopContext(m: Machine): Machine {
    if m.examine == [] then m
    else
      m.(execute := if ExecuteCurrentStep(m) then Bump(m.execute[..|m.execute| - 1]) else m.execute,
         examine := Bump(m.examine[..|m.examine| - 1]))
  }

  /** ExecuteWithoutContext: `acted` is `m` after the action. */
  function ExecuteWithoutContext(m: Machine, acted: Machine): Machine {
    IncreaseCurrentStep(if ExecuteCurrentStep(m) then ExecuteNextStep(acted) else m)
  }

  function BackToStart(m: Machine): Machine {
    ExecutePreviousStep(ExecutePreviousStep(ExecutePreviousStep(m)))
  }

  /** The test of an If, ElseIf or While: on failure two further positions are passed over. */
  function TestCondition(env: Environment, cond: Condition, m: Machine): Machine {
    var tested := m.(world := Test(env, cond, m.world));
    ExecuteWithoutContext(m, if env.holds(cond, m.world) then tested else ExecuteNextStep(ExecuteNextStep(tested)))
  }

  function OnStep(env: Environment, action: Action, m: Machine): Machine {
    IncreaseCurrentStep(if ExecuteCurrentStep(m) then m.(world := Act(env, action, m.world)) else m)
  }

  /** The check of Execute: `execute` cut to the length of `examine` equals `examine`. */
  predicate Entered(m: Machine) {
    (if |m.execute| > |m.examine| then m.execute[..|m.examine|] else m.execute) == m.examine
  }

  function OnIf(env: Environment, cond: Condition, m: Machine): Machine {
    PushContext(TestCondition(env, cond, m))
  }

  function OnElseIf(env: Environment, cond: Condition, m: Machine): Machine {
    var closed := PopContext(m);
    var skipped := ExecuteWithoutContext(closed, ExecuteNextStep(ExecuteNextStep(closed)));
    PushContext(TestCondition(env, cond, skipped))
  }

  function OnElse(m: Machine): Machine {
    var closed := PopContext(m);
    PushContext(ExecuteWithoutContext(closed, ExecuteNextStep(closed)))
  }

  function OnEndIf(m: Machine): Machine {
    var closed := PopContext(m);
    ExecuteWithoutContext(closed, closed)
  }

  function OnEndWhile(m: Machine): Machine {
    var closed := PopContext(m);
    ExecuteWithoutContext(closed, BackToStart(closed))
  }

  function OnDoWhile(m: Machine): Machine {
    PushContext(ExecuteWithoutContext(m, m))
  }

  function OnEndDoWhile(env: Environment, cond: Condition, m: Machine): Machine {
    var closed := PopContext(m);
    var tested := closed.(world := Test(env, cond, closed.world));
    ExecuteWithoutContext(closed, if env.holds(cond, closed.world) then BackToStart(tested) else tested)
  }

  function OnForEach(v: Variable, from: Word, to: Word, m: Machine): Machine {
    var started := ExecuteWithoutContext(m, m.(world := Assign(v, from, m.world)));
    var compared := started.(world := Compare(v, to, started.world));
    PushContext(ExecuteWithoutContext(started,
      if Read(v, started.world) == to then ExecuteNextStep(ExecuteNextStep(compared)) else compared))
  }

  function OnEndForEach(v: Variable, m: Machine): Machine {
    var incremented := ExecuteWithoutContext(m, m.(world := Assign(v, Read(v, m.world) + 1, m.world)));
    var closed := PopContext(incremented);
    ExecuteWithoutContext(closed, BackToStart(closed))
  }

  /** One call of the sequence function, or of a part of it. */
  function RunBlock(env: Environment, b: Block, m: Machine): Machine
    decreases b
  {
    match b
    case Nil => m
    case Cons(s, rest) => RunBlock(env, rest, RunStatement(env, s, m))
  }

  function RunStatement(env: Environment, s: Statement, m: Machine): Machine
    decreases s
  {
    match s
    case Step(a) => OnStep(env, a, m)
    case Execute(body) =>
      if Entered(m) then PopContext(RunBlock(env, body, PushContext(m))) else IncreaseCurrentStep(m)
    case If(cond, body, alternative) => RunAlternative(env, alternative, RunBlock(env, body, OnIf(env, cond, m)))
    case While(cond, body) => OnEndWhile(RunBlock(env, body, OnIf(env, cond, m)))
    case DoWhile(body, cond) => OnEndDoWhile(env, cond, RunBlock(env, body, OnDoWhile(m)))
    case ForEach(v, from, to, body) => OnEndForEach(v, RunBlock(env, body, OnForEach(v, from, to, m)))
  }

  function RunAlternative(env: Environment, a: Alternative, m: Machine): Machine
    decreases a
  {
    match a
    case EndIf => OnEndIf(m)
    case Else(body) => OnEndIf(RunBlock(env, body, OnElse(m)))
    case ElseIf(cond, body, next) => RunAlternative(env, next, RunBlock(env, body, OnElseIf(env, cond, m)))
  }

  /** One round of the loop in Continue. */
  function Pass(env: Environment, program: Block, m: Machine): Machine {
    PopContext(RunBlock(env, program, PushContext(m.(repeat := false))))
  }
}
