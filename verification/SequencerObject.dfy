/** The class infra::Sequencer, with its position vectors updated in place. */
module SequencerObject {
  import opened SequencerProgram
  import opened StructuredExecution
  import opened SequencerReplay
  import opened SequencerPoints
  import opened SequencerTheorems
  import SequencerLive

  // ----- no operation changes the number of contexts under examination, except opening and closing one

  lemma PositionKeepsContexts(m: Machine, acted: Machine)
    requires |acted.examine| == |m.examine|
    ensures |ExecuteWithoutContext(m, acted).examine| == |m.examine|
  {}

  lemma PopClosesContext(m: Machine)
    requires m.examine != []
    ensures |PopContext(m).examine| == |m.examine| - 1
  {}

  lemma OpensContext(env: Environment, s: Statement, m: Machine)
    ensures s.If? || s.While? ==> |OnIf(env, s.cond, m).examine| == |m.examine| + 1
    ensures s.DoWhile? ==> |OnDoWhile(m).examine| == |m.examine| + 1
    ensures s.ForEach? ==> |OnForEach(s.variable, s.from, s.to, m).examine| == |m.examine| + 1
  {
    hide Test, Assign, Compare, Read, Bump;
    assert |Bump(m.examine)| == |m.examine| && |Bump(Bump(m.examine))| == |m.examine| by {
      SequencerLive.BumpShape(m.examine);
      SequencerLive.BumpShape(Bump(m.examine));
    }
  }

  lemma ClosesContext(env: Environment, s: Statement, m: Machine)
    requires |m.examine| > 1
    ensures s.While? ==> |OnEndWhile(m).examine| == |m.examine| - 1
    ensures s.DoWhile? ==> |OnEndDoWhile(env, s.cond, m).examine| == |m.examine| - 1
    ensures s.ForEach? ==> |OnEndForEach(s.variable, m).examine| == |m.examine| - 1
  {
    hide Test, Assign, Read, Bump, Drop, PopContext, ExecuteWithoutContext;
    var p := PopContext(m);
    PopClosesContext(m);
    match s
    case While(_, _) => PositionKeepsContexts(p, BackToStart(p));
    case DoWhile(_, cond) =>
      var tested := p.(world := Test(env, cond, p.world));
      PositionKeepsContexts(p, if env.holds(cond, p.world) then BackToStart(tested) else tested);
    case ForEach(v, _, _, _) =>
      var incremented := m.(world := Assign(v, Read(v, m.world) + 1, m.world));
      PositionKeepsContexts(m, incremented);
      var q := ExecuteWithoutContext(m, incremented);
      PopClosesContext(q);
      PositionKeepsContexts(PopContext(q), BackToStart(PopContext(q)));
    case _ =>
  }

  lemma EndsIf(m: Machine)
    requires |m.examine| > 1
    ensures |OnEndIf(m).examine| == |m.examine| - 1
  {
    hide Bump, PopContext, ExecuteWithoutContext;
    PopClosesContext(m);
    PositionKeepsContexts(PopContext(m), PopContext(m));
  }

  lemma ReopensContext(env: Environment, cond: Condition, m: Machine)
    requires |m.examine| > 1
    ensures |OnElse(m).examine| == |m.examine| == |OnElseIf(env, cond, m).examine|
  {
    hide Test, Bump, PopContext, ExecuteWithoutContext;
    var p := PopContext(m);
    PopClosesContext(m);
    PositionKeepsContexts(p, ExecuteNextStep(p));
    PositionKeepsContexts(p, ExecuteNextStep(ExecuteNextStep(p)));
    var q := ExecuteWithoutContext(p, ExecuteNextStep(ExecuteNextStep(p)));
    var tested := q.(world := Test(env, cond, q.world));
    PositionKeepsContexts(q, if env.holds(cond, q.world) then tested else ExecuteNextStep(ExecuteNextStep(tested)));
  }

  lemma {:induction false} BlockKeepsContexts(env: Environment, b: Block, m: Machine)
    requires m.examine != []
    ensures |RunBlock(env, b, m).examine| == |m.examine|
    decreases b
  {
    hide RunStatement, RunAlternative;
    match b
    case Nil =>
    case Cons(s, rest) =>
      StatementKeepsContexts(env, s, m);
      BlockKeepsContexts(env, rest, RunStatement(env, s, m));
  }

  lemma {:induction false} StatementKeepsContexts(env: Environment, s: Statement, m: Machine)
    requires m.examine != []
    ensures |RunStatement(env, s, m).examine| == |m.examine|
    decreases s
  {
    hide RunBlock, RunAlternative, OnIf, OnDoWhile, OnForEach, OnEndWhile, OnEndDoWhile, OnEndForEach, Act;
    OpensContext(env, s, m);
    match s
    case Step(_) =>
    case Execute(body) =>
      if Entered(m) { BlockKeepsContexts(env, body, PushContext(m)); }
    case If(cond, body, alternative) =>
      BlockKeepsContexts(env, body, OnIf(env, cond, m));
      AlternativeKeepsContexts(env, alternative, RunBlock(env, body, OnIf(env, cond, m)));
    case While(cond, body) =>
      BlockKeepsContexts(env, body, OnIf(env, cond, m));
      ClosesContext(env, s, RunBlock(env, body, OnIf(env, cond, m)));
    case DoWhile(body, _) =>
      BlockKeepsContexts(env, body, OnDoWhile(m));
      ClosesContext(env, s, RunBlock(env, body, OnDoWhile(m)));
    case ForEach(v, from, to, body) =>
      BlockKeepsContexts(env, body, OnForEach(v, from, to, m));
      ClosesContext(env, s, RunBlock(env, body, OnForEach(v, from, to, m)));
  }

  lemma {:induction false} AlternativeKeepsContexts(env: Environment, a: Alternative, m: Machine)
    requires |m.examine| > 1
    ensures |RunAlternative(env, a, m).examine| == |m.examine| - 1
    decreases a
  {
    hide RunBlock, RunStatement, OnElse, OnElseIf, OnEndIf;
    match a
    case EndIf => EndsIf(m);
    case Else(body) =>
      ReopensContext(env, 0, m);
      BlockKeepsContexts(env, body, OnElse(m));
      EndsIf(RunBlock(env, body, OnElse(m)));
    case ElseIf(cond, body, next) =>
      ReopensContext(env, cond, m);
      BlockKeepsContexts(env, body, OnElseIf(env, cond, m));
      AlternativeKeepsContexts(env, next, RunBlock(env, body, OnElseIf(env, cond, m)));
  }

  class Sequencer {
    const env: Environment
    var sequence: Block
    var execute: seq<nat>
    var examine: seq<nat>
    var repeat: bool
    var world: World

    constructor (env: Environment, world: World)
      ensures this.env == env && this.world == world && execute == [] && examine == [] && !repeat
    {
      this.env := env;
      sequence := Nil;
      execute, examine, repeat := [], [], false;
      this.world := world;
    }

    ghost function State(): Machine
      reads this
    {
      Machine(execute, examine, repeat, world)
    }

    /** Positions: between the calls of Load and Continue nothing is under examination. */
    ghost predicate Valid()
      reads this
    {
      Fits(sequence) && examine == [] && (execute == [] || InBlock(sequence, execute))
    }

    method PushContext()
      requires |examine| < MAX_CONTEXTS
      modifies this`execute, this`examine
      ensures State() == SequencerReplay.PushContext(old(State()))
    {
      if execute == examine {
        execute := execute + [0];
      }
      examine := examine + [0];
    }

    method PopContext()
      requires examine != []
      modifies this`execute, this`examine
      ensures State() == SequencerReplay.PopContext(old(State()))
      ensures |examine| == |old(examine)| - 1
    {
      if execute == examine {
        execute := execute[..|execute| - 1];
        if execute != [] {
          execute := Bump(execute);
        }
      }
      examine := examine[..|examine| - 1];
      if examine != [] {
        examine := Bump(examine);
      }
    }

    method ExecuteNextStep()
      requires execute != []
      modifies this`execute
      ensures State() == SequencerReplay.ExecuteNextStep(old(State()))
      ensures |execute| == |old(execute)|
    {
      execute := execute[|execute| - 1 := (execute[|execute| - 1] + 1) % POSITION_LIMIT];
    }

    method IncreaseCurrentStep()
      requires examine != []
      modifies this`examine
      ensures State() == SequencerReplay.IncreaseCurrentStep(old(State()))
      ensures |examine| == |old(examine)|
    {
      examine := examine[|examine| - 1 := (examine[|examine| - 1] + 1) % POSITION_LIMIT];
    }

    method ExecutePreviousStep()
      requires execute != []
      modifies this`execute, this`repeat
      ensures State() == SequencerReplay.ExecutePreviousStep(old(State()))
      ensures |execute| == |old(execute)|
    {
      execute := execute[|execute| - 1 := (execute[|execute| - 1] + POSITION_LIMIT - 1) % POSITION_LIMIT];
      repeat := true;
    }

    method BackToStart()
      requires execute != []
      modifies this`execute, this`repeat
      ensures State() == SequencerReplay.BackToStart(old(State()))
      ensures |execute| == |old(execute)|
    {
      ExecutePreviousStep();
      ExecutePreviousStep();
      ExecutePreviousStep();
    }

    method TestCondition(cond: Condition)
      requires examine != []
      modifies this`execute, this`examine, this`world
      ensures State() == SequencerReplay.TestCondition(env, cond, old(State()))
      ensures |examine| == |old(examine)|
    {
      if execute == examine {
        var holds := env.holds(cond, world);
        world := Test(env, cond, world);
        if !holds {
          ExecuteNextStep();
          ExecuteNextStep();
        }
        ExecuteNextStep();
      }
      IncreaseCurrentStep();
    }

    method Step(action: Action)
      requires examine != []
      modifies this`examine, this`world
      ensures State() == OnStep(env, action, old(State()))
    {
      if execute == examine {
        world := Act(env, action, world);
      }
      IncreaseCurrentStep();
    }

    method If(cond: Condition)
      requires 0 < |examine| < MAX_CONTEXTS
      modifies this`execute, this`examine, this`world
      ensures State() == OnIf(env, cond, old(State()))
    {
      TestCondition(cond);
      PushContext();
    }

    method ElseIf(cond: Condition)
      requires 1 < |examine| <= MAX_CONTEXTS
      modifies this`execute, this`examine, this`world
      ensures State() == OnElseIf(env, cond, old(State()))
    {
      PopContext();
      if execute == examine {
        ExecuteNextStep();
        ExecuteNextStep();
        ExecuteNextStep();
      }
      IncreaseCurrentStep();
      TestCondition(cond);
      PushContext();
    }

    method Else()
      requires 1 < |examine| <= MAX_CONTEXTS
      modifies this`execute, this`examine
      ensures State() == OnElse(old(State()))
    {
      PopContext();
      if execute == examine {
        ExecuteNextStep();
        ExecuteNextStep();
      }
      IncreaseCurrentStep();
      PushContext();
    }

    method EndIf()
      requires 1 < |examine|
      modifies this`execute, this`examine
      ensures State() == OnEndIf(old(State()))
    {
      PopContext();
      if execute == examine {
        ExecuteNextStep();
      }
      IncreaseCurrentStep();
    }

    method EndWhile()
      requires 1 < |examine|
      modifies this`execute, this`examine, this`repeat
      ensures State() == OnEndWhile(old(State()))
    {
      PopContext();
      if execute == examine {
        BackToStart();
        ExecuteNextStep();
      }
      IncreaseCurrentStep();
    }

    method DoWhile()
      requires 0 < |examine| < MAX_CONTEXTS
      modifies this`execute, this`examine
      ensures State() == OnDoWhile(old(State()))
    {
      if execute == examine {
        ExecuteNextStep();
      }
      IncreaseCurrentStep();
      PushContext();
    }

    method EndDoWhile(cond: Condition)
      requires 1 < |examine|
      modifies this`execute, this`examine, this`repeat, this`world
      ensures State() == OnEndDoWhile(env, cond, old(State()))
    {
      PopContext();
      if execute == examine {
        var holds := env.holds(cond, world);
        world := Test(env, cond, world);
        if holds {
          BackToStart();
        }
        ExecuteNextStep();
      }
      IncreaseCurrentStep();
    }

    method ForEach(variable: Variable, from: Word, to: Word)
      requires 0 < |examine| < MAX_CONTEXTS
      modifies this`execute, this`examine, this`world
      ensures State() == OnForEach(variable, from, to, old(State()))
    {
      hide Assign, Compare, Read, Bump, Drop;
      if execute == examine {
        world := Assign(variable, from, world);
        ExecuteNextStep();
      }
      IncreaseCurrentStep();
      if execute == examine {
        var equal := Read(variable, world) == to;
        world := Compare(variable, to, world);
        if equal {
          ExecuteNextStep();
          ExecuteNextStep();
        }
        ExecuteNextStep();
      }
      IncreaseCurrentStep();
      PushContext();
    }

    method EndForEach(variable: Variable)
      requires 1 < |examine|
      modifies this`execute, this`examine, this`repeat, this`world
      ensures State() == OnEndForEach(variable, old(State()))
    {
      hide Assign, Compare, Read, Bump, Drop;
      if execute == examine {
        world := Assign(variable, Read(variable, world) + 1, world);
        ExecuteNextStep();
      }
      IncreaseCurrentStep();
      PopContext();
      if execute == examine {
        BackToStart();
        ExecuteNextStep();
      }
      IncreaseCurrentStep();
    }

    /** The sequence function: a well-nested series of calls on this sequencer. It never needs more contexts than
        there is room for. */
    method CallBlock(b: Block)
      requires 0 < |examine| <= MAX_CONTEXTS && BlockFits(b, MAX_CONTEXTS - |examine|)
      modifies this`execute, this`examine, this`repeat, this`world
      ensures State() == RunBlock(env, b, old(State()))
      decreases b
    {
      hide RunStatement, StatementFits;
      match b
      case Nil =>
      case Cons(s, rest) =>
        StatementKeepsContexts(env, s, State());
        CallStatement(s);
        CallBlock(rest);
    }

    method CallStatement(s: Statement)
      requires 0 < |examine| <= MAX_CONTEXTS && StatementFits(s, MAX_CONTEXTS - |examine|)
      modifies this`execute, this`examine, this`repeat, this`world
      ensures State() == RunStatement(env, s, old(State()))
      decreases s
    {
      hide RunBlock, RunAlternative, BlockFits, AlternativeFits, Bump, Test, Act, Assign, Compare, Read;
      match s
      case Step(action) => Step(action);
      case Execute(body) =>
        if (if |execute| > |examine| then execute[..|examine|] else execute) == examine {
          PushContext();
          BlockKeepsContexts(env, body, State());
          CallBlock(body);
          PopContext();
        } else {
          IncreaseCurrentStep();
        }
      case If(cond, body, alternative) =>
        OpensContext(env, s, State());
        If(cond);
        BlockKeepsContexts(env, body, State());
        CallBlock(body);
        CallAlternative(alternative);
      case While(cond, body) =>
        OpensContext(env, s, State());
        If(cond);
        BlockKeepsContexts(env, body, State());
        CallBlock(body);
        EndWhile();
      case DoWhile(body, cond) =>
        OpensContext(env, s, State());
        DoWhile();
        BlockKeepsContexts(env, body, State());
        CallBlock(body);
        EndDoWhile(cond);
      case ForEach(variable, from, to, body) =>
        OpensContext(env, s, State());
        ForEach(variable, from, to);
        BlockKeepsContexts(env, body, State());
        CallBlock(body);
        EndForEach(variable);
    }

    method CallAlternative(a: Alternative)
      requires 1 < |examine| <= MAX_CONTEXTS && AlternativeFits(a, MAX_CONTEXTS - |examine| + 1)
      modifies this`execute, this`examine, this`repeat, this`world
      ensures State() == RunAlternative(env, a, old(State()))
      decreases a
    {
      hide RunBlock, RunStatement, BlockFits, StatementFits, Bump, Test;
      match a
      case EndIf => EndIf();
      case Else(body) =>
        ReopensContext(env, 0, State());
        Else();
        BlockKeepsContexts(env, body, State());
        CallBlock(body);
        EndIf();
      case ElseIf(cond, body, next) =>
        ReopensContext(env, cond, State());
        ElseIf(cond);
        BlockKeepsContexts(env, body, State());
        CallBlock(body);
        CallAlternative(next);
    }

    /** Load and Continue. `bound` is a number of micro steps within which direct execution yields: a Continue that
        runs into a loop without a Step does not return. */
    method Load(newSequence: Block, ghost bound: nat) returns (ghost steps: nat, ghost d: Config)
      requires Fits(newSequence)
      requires Yields(env, bound, Config(Push(newSequence, Halt), world))
      modifies this
      ensures Valid() && sequence == newSequence
      ensures OneStep(env, sequence, Config(Push(newSequence, Halt), old(world)), steps, d, State())
    {
      sequence := newSequence;
      execute := [];
      steps, d := Continue(bound);
    }

    method Continue(ghost bound: nat) returns (ghost steps: nat, ghost d: Config)
      requires Fits(sequence) && Standing(sequence, execute)
      requires Yields(env, bound, Config(Left(sequence, execute), world))
      modifies this`execute, this`examine, this`repeat, this`world
      ensures Valid()
      ensures OneStep(env, sequence, Config(Left(sequence, old(execute)), old(world)), steps, d, State())
    {
      hide RunBlock, InBlock, RestOfBlock, Quietly, Micro, Push, Pass, Bump, BlockFits, SequencerReplay.PushContext,
        SequencerReplay.PopContext;
      examine := [];
      repeat := true;
      ghost var rounds, p := ContinueReturns(env, sequence, State(), bound);
      steps, d := ContinueIsDirect(env, sequence, State(), rounds, p);
      ghost var left, start := rounds, State();
      while repeat
        invariant examine == []
        invariant repeat ==> Settles(env, sequence, State(), left, p)
        invariant !repeat ==> State() == p
        decreases repeat, left
      {
        ghost var before := State();
        Round();
        left := left - 1;
        assert State() == Pass(env, sequence, before);
        assert examine == [] by { PassClearsExamine(env, sequence, before); }
      }
      if execute != [] {
        ExecuteNextStep();
      }
    }

    method Round()
      requires examine == [] && Fits(sequence)
      modifies this`execute, this`examine, this`repeat, this`world
      ensures State() == Pass(env, sequence, old(State()))
    {
      hide RunBlock, BlockFits, Bump;
      repeat := false;
      PushContext();
      BlockKeepsContexts(env, sequence, State());
      CallBlock(sequence);
      PopContext();
    }

    predicate Finished()
      reads this
      ensures Finished() <==> SequencerReplay.Finished(State())
    {
      execute == []
    }
  }

  lemma PassClearsExamine(env: Environment, program: Block, m: Machine)
    requires m.examine == []
    ensures Pass(env, program, m).examine == []
  {
    hide RunBlock;
    BlockKeepsContexts(env, program, PushContext(m.(repeat := false)));
  }
}
