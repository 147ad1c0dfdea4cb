/** What the visitor is called with, and the stack of object and array automata that calls it. */
module JsonMachine {
  import opened Characters
  import opened JsonTokens

  datatype Scalar = Text(text: seq<char>) | Integer(number: int) | Boolean(value: bool) | Nothing

  /** The calls made to a visitor; an array's elements have no tag. */
  datatype Call =
    | VisitValue(tag: seq<char>, value: Scalar)
    | VisitNested(tag: seq<char>, kind: Kind)
    | Overflow | Close | ParseFailed | SemanticFailed

  datatype Event = Event(depth: nat, call: Call)

  /** A visitor either accepts or declines a nested value, and may report semantic errors on the parsers it was
      given: those of the nested values. Everything it does is a function of the calls so far. */
  datatype Reaction = Reaction(accepts: bool, rejected: set<nat>)
  type Visitor = seq<Event> -> Reaction

  datatype Kind = Object | Array

  datatype State =
    | Init | InitialOpen | Opened | TagClosed | ValueExpected | Closed
    | SkipNested(kind: Kind)
    | ParseError | SemanticError

  datatype Parser = Parser(kind: Kind, state: State, tag: seq<char>, skipped: nat, tokens: Tokenizer) {
    /** A string, a number or a nested value may come next. */
    predicate ExpectsValue() {
      if kind.Object? then state.ValueExpected? else state.InitialOpen? || state.Opened?
    }
    /** There is no token left to deal with, and no syntax error left to report. */
    predicate Waits() {
      !tokens.tokenState.Done? && !state.ParseError?
    }
    predicate Saves() {
      !state.SkipNested?
    }
  }

  const NEW_TOKENS := Tokenizer(Open, Error, [], 0, 1, 0, 0)

  datatype Machine = Machine(stack: seq<Parser>, events: seq<Event>) {
    ghost predicate Valid(limits: Limits) {
      && |stack| <= limits.nesting
      && forall i | 0 <= i < |stack| :: stack[i].Waits()
    }

    ghost predicate ValidBelow(limits: Limits) {
      && |stack| <= limits.nesting
      && forall i | 0 <= i < |stack| - 1 :: stack[i].Waits()
    }

    function Top(): Parser
      requires stack != []
    {
      stack[|stack| - 1]
    }

    function WithTop(p: Parser): Machine
      requires stack != []
    {
      this.(stack := stack[|stack| - 1 := p])
    }
  }

  /** The parser of the outermost object is not handed out. */
  function Marked(stack: seq<Parser>, rejected: set<nat>): (r: seq<Parser>)
    ensures |r| == |stack|
  {
    seq(|stack|, i requires 0 <= i < |stack| =>
      if i in rejected && i > 0 then stack[i].(state := SemanticError) else stack[i])
  }

  /** The visitor of the parser at the given depth is called. */
  function EmitAt(m: Machine, depth: nat, call: Call, visitor: Visitor): (n: Machine)
    ensures |n.stack| == |m.stack|
  {
    var events := m.events + [Event(depth, call)];
    Machine(Marked(m.stack, visitor(events).rejected), events)
  }

  function Emit(m: Machine, call: Call, visitor: Visitor): Machine
    requires m.stack != []
  {
    EmitAt(m, |m.stack| - 1, call, visitor)
  }

  /** A visitor changes nothing in the parsers but their state. */
  lemma VisitKeeps(m: Machine, depth: nat, call: Call, visitor: Visitor)
    ensures var n := EmitAt(m, depth, call, visitor);
            |n.stack| == |m.stack| &&
              forall i | 0 <= i < |m.stack| :: n.stack[i] == m.stack[i].(state := n.stack[i].state)
  {
  }

  /** From the innermost visitor outwards. */
  function Failures(depth: nat, call: Call): (r: seq<Event>) {
    if depth == 0 then [] else [Event(depth - 1, call)] + Failures(depth - 1, call)
  }

  function ReportParseError(m: Machine): Machine {
    Machine([], m.events + Failures(|m.stack|, ParseFailed))
  }

  /** The visitor that found the error is not told about it. */
  function ReportSemanticError(m: Machine): Machine
    requires m.stack != []
  {
    Machine([], m.events + Failures(|m.stack| - 1, SemanticFailed))
  }

  function Cleared(m: Machine): Machine
    requires m.stack != []
  {
    m.WithTop(m.Top().(tokens := m.Top().tokens.(value := [], tokenState := Open)))
  }

  function Reported(m: Machine): Machine {
    if m.stack == [] then m
    else if m.Top().state.ParseError? then ReportParseError(m)
    else if m.Top().state.SemanticError? then ReportSemanticError(m)
    else m
  }

  lemma NothingToReport(m: Machine)
    requires m.stack == [] || !(m.Top().state.ParseError? || m.Top().state.SemanticError?)
    ensures Reported(m) == m
  {
  }

  /** The token has been dealt with. */
  function Finished(m: Machine): Machine
    requires m.stack != []
  {
    Reported(Cleared(m))
  }

  function ScalarOf(t: Tokenizer): Scalar {
    match t.token
    case String => Text(t.value)
    case Number => Integer(t.sign * t.number)
    case True => Boolean(true)
    case False => Boolean(false)
    case _ => Nothing
  }

  predicate IsScalar(token: Token) {
    token.String? || token.Number? || token.True? || token.False? || token.Null?
  }

  function NewParser(kind: Kind, tokens: Tokenizer): Parser {
    Parser(kind, InitialOpen, [], 0, NEW_TOKENS.(value := tokens.value))
  }

  /** A nested value is handed to a new parser, or skipped when there is no room or the visitor declines it. */
  function Nested(m: Machine, kind: Kind, limits: Limits, visitor: Visitor): Machine
    requires m.stack != []
  {
    var p, n := m.Top(), |m.stack| - 1;
    var q := p.(state := Closed, tokens := p.tokens.(tokenState := Open));
    var skips := q.(state := SkipNested(kind), tag := []);
    if |m.stack| >= limits.nesting then m.WithTop(skips)
    else
      var pushed := m.WithTop(q).(stack := m.WithTop(q).stack + [NewParser(kind, p.tokens)]);
      var asked := EmitAt(pushed, n, VisitNested(p.tag, kind), visitor);
      if visitor(asked.events).accepts then asked.(stack := asked.stack[n := asked.stack[n].(tag := [])])
      else asked.(stack := asked.stack[..n] + [skips])
  }

  function Skip(p: Parser, kind: Kind): Parser {
    var opening := if kind.Object? then LeftBrace else LeftBracket;
    var closing := if kind.Object? then RightBrace else RightBracket;
    if p.tokens.token == closing then
      if p.skipped == 0 then p.(state := Closed) else p.(skipped := p.skipped - 1)
    else if p.tokens.token == opening then p.(skipped := (p.skipped + 1) % 0x1_0000_0000)
    else p
  }

  /** What the innermost parser does with a token. */
  function OnToken(m: Machine, limits: Limits, visitor: Visitor): Machine
    requires m.stack != []
  {
    var p := m.Top();
    var token := p.tokens.token;
    if p.state.SkipNested? then Finished(m.WithTop(Skip(p, p.state.kind)))
    else if p.state.Init? then Finished(m.WithTop(p.(state := if token.LeftBrace? then InitialOpen else ParseError)))
    else if p.ExpectsValue() && IsScalar(token) then
      Finished(Emit(m.WithTop(p.(state := Closed, tag := [])), VisitValue(p.tag, ScalarOf(p.tokens)), visitor))
    else if p.ExpectsValue() && token.StringOverflow? then
      Finished(Emit(m.WithTop(p.(state := Closed, tag := [])), Overflow, visitor))
    else if p.ExpectsValue() && token.LeftBrace? then Nested(m, Object, limits, visitor)
    else if p.ExpectsValue() && token.LeftBracket? then Nested(m, Array, limits, visitor)
    else if (p.state.InitialOpen? || p.state.Closed?) && token == (if p.kind.Object? then RightBrace else RightBracket) then
      var closed := Emit(m, Close, visitor);
      closed.(stack := closed.stack[..|closed.stack| - 1])
    else if p.state.Closed? && token.Comma? then Finished(m.WithTop(p.(state := Opened)))
    else if p.kind.Object? && (p.state.InitialOpen? || p.state.Opened?) && (token.String? || token.StringOverflow?) then
      var tag := if |p.tokens.value| <= limits.tag then p.tokens.value else p.tokens.value[..limits.tag];
      Finished(m.WithTop(p.(state := TagClosed, tag := tag)))
    else if p.kind.Object? && p.state.TagClosed? && token.Colon? then Finished(m.WithTop(p.(state := ValueExpected)))
    else Finished(m.WithTop(p.(state := ParseError)))
  }

  /** The innermost parser's tokens moved on, which may have completed a token. */
  function Moved(m: Machine, t: Tokenizer, limits: Limits, visitor: Visitor): Machine
    requires m.stack != []
  {
    var n := m.WithTop(m.Top().(tokens := t));
    if t.tokenState.Done? then OnToken(n, limits, visitor) else n
  }

  /** One character. The one that ends a number or a word is looked at twice. */
  function Step(m: Machine, c: char, limits: Limits, visitor: Visitor): Machine {
    if m.stack == [] then m
    else if m.Top().state.SemanticError? then ReportSemanticError(m)
    else if Ends(m.Top().tokens, c) then
      Take(Moved(m, m.Top().tokens.Found(Ended(m.Top().tokens)), limits, visitor), c, limits, visitor)
    else Take(m, c, limits, visitor)
  }

  function Take(m: Machine, c: char, limits: Limits, visitor: Visitor): Machine {
    if m.stack == [] || m.Top().tokens.tokenState.Done? || Ends(m.Top().tokens, c) then m
    else Moved(m, Eaten(m.Top().tokens, c, m.Top().Saves(), limits.value), limits, visitor)
  }

  /** The parser as an automaton over single characters. */
  function Steps(m: Machine, data: seq<char>, limits: Limits, visitor: Visitor): Machine
    decreases |data|
  {
    if data == [] then m else Steps(Step(m, data[0], limits, visitor), data[1..], limits, visitor)
  }

  lemma {:induction false} StepsConcatenate(m: Machine, a: seq<char>, b: seq<char>, limits: Limits, visitor: Visitor)
    ensures Steps(m, a + b, limits, visitor) == Steps(Steps(m, a, limits, visitor), b, limits, visitor)
    decreases |a|
  {
    if a == [] {
      assert a + b == b;
    } else {
      assert (a + b)[1..] == a[1..] + b;
      StepsConcatenate(Step(m, a[0], limits, visitor), a[1..], b, limits, visitor);
    }
  }

  lemma {:induction false} NothingAfterTheEnd(m: Machine, data: seq<char>, limits: Limits, visitor: Visitor)
    requires m.stack == []
    ensures Steps(m, data, limits, visitor) == m
    decreases |data|
  {
    if data != [] {
      NothingAfterTheEnd(m, data[1..], limits, visitor);
    }
  }

  /** An error found while another parser was innermost is reported as soon as there is more data. */
  lemma LateReport(m: Machine, data: seq<char>, limits: Limits, visitor: Visitor)
    requires data != [] && (m.stack == [] || !m.Top().state.ParseError?)
    ensures Steps(m, data, limits, visitor) == Steps(Reported(m), data, limits, visitor)
  {
    if m.stack != [] && m.Top().state.SemanticError? {
      NothingAfterTheEnd(Reported(m), data, limits, visitor);
      NothingAfterTheEnd(Reported(m), data[1..], limits, visitor);
    }
  }

  /** A number or a word does not open or close anything. */
  lemma WordLeavesParser(m: Machine, t: Tokenizer, limits: Limits, visitor: Visitor)
    requires m.stack != [] && !m.Top().state.SemanticError? && t.tokenState.Done?
    requires t.token in {Number, True, False, Null, Error}
    ensures var n := Moved(m, t, limits, visitor);
            n.stack == [] || (n.Top().tokens.tokenState.Open? && !n.Top().state.SemanticError?)
  {
    hide Nested, EmitAt, ScalarOf;
  }

  /** Finding a token in one go, or character by character. */
  lemma {:induction false} RunIsSteps(m: Machine, data: seq<char>, limits: Limits, visitor: Visitor)
    requires m.stack != [] && !m.Top().state.SemanticError? && !m.Top().tokens.tokenState.Done?
    ensures var r := Run(m.Top().tokens, data, m.Top().Saves(), limits.value);
            Steps(m, data, limits, visitor) == Steps(Moved(m, r.0, limits, visitor), r.1, limits, visitor)
    decreases |data|
  {
    hide OnToken;
    var t := m.Top().tokens;
    if data == [] {
      assert m.WithTop(m.Top().(tokens := t)) == m;
    } else if Ends(t, data[0]) {
      var n := Moved(m, t.Found(Ended(t)), limits, visitor);
      WordLeavesParser(m, t.Found(Ended(t)), limits, visitor);
      assert Step(n, data[0], limits, visitor) == Take(n, data[0], limits, visitor);
    } else {
      var u := Eaten(t, data[0], m.Top().Saves(), limits.value);
      var n := m.WithTop(m.Top().(tokens := u));
      if !u.tokenState.Done? {
        RunIsSteps(n, data[1..], limits, visitor);
        var r := Run(u, data[1..], m.Top().Saves(), limits.value);
        assert n.WithTop(n.Top().(tokens := r.0)) == m.WithTop(m.Top().(tokens := r.0));
      }
    }
  }

  lemma EmitKeepsValid(m: Machine, depth: nat, call: Call, limits: Limits, visitor: Visitor)
    ensures m.Valid(limits) ==> EmitAt(m, depth, call, visitor).Valid(limits)
    ensures m.ValidBelow(limits) ==> EmitAt(m, depth, call, visitor).ValidBelow(limits)
  {
  }

  lemma FinishedValid(m: Machine, limits: Limits)
    requires m.stack != [] && m.ValidBelow(limits)
    ensures Finished(m).Valid(limits)
  {
  }

  lemma NestedValid(m: Machine, kind: Kind, limits: Limits, visitor: Visitor)
    requires m.stack != [] && m.ValidBelow(limits)
    ensures Nested(m, kind, limits, visitor).Valid(limits)
  {
    hide EmitAt;
    var p, n := m.Top(), |m.stack| - 1;
    var q := p.(state := Closed, tokens := p.tokens.(tokenState := Open));
    if |m.stack| < limits.nesting {
      var pushed := m.WithTop(q).(stack := m.WithTop(q).stack + [NewParser(kind, p.tokens)]);
      EmitKeepsValid(pushed, n, VisitNested(p.tag, kind), limits, visitor);
      var asked := EmitAt(pushed, n, VisitNested(p.tag, kind), visitor);
      assert asked.stack[n].Waits();
    }
  }

  /** After a token every parser is waiting again. */
  lemma OnTokenValid(m: Machine, limits: Limits, visitor: Visitor)
    requires m.stack != [] && m.ValidBelow(limits)
    ensures OnToken(m, limits, visitor).Valid(limits)
  {
    hide EmitAt, Nested, Finished, ScalarOf, Skip;
    var p := m.Top();
    forall q: Parser ensures Finished(m.WithTop(q)).Valid(limits) {
      FinishedValid(m.WithTop(q), limits);
    }
    forall q: Parser, depth, call ensures Finished(EmitAt(m.WithTop(q), depth, call, visitor)).Valid(limits) {
      EmitKeepsValid(m.WithTop(q), depth, call, limits, visitor);
      VisitKeeps(m.WithTop(q), depth, call, visitor);
      FinishedValid(EmitAt(m.WithTop(q), depth, call, visitor), limits);
    }
    NestedValid(m, Object, limits, visitor);
    NestedValid(m, Array, limits, visitor);
    EmitKeepsValid(m, |m.stack| - 1, Close, limits, visitor);
    VisitKeeps(m, |m.stack| - 1, Close, visitor);
  }

  /** What is reached character by character is always a state in which every parser waits. */
  lemma StepValid(m: Machine, c: char, limits: Limits, visitor: Visitor)
    requires m.Valid(limits)
    ensures Step(m, c, limits, visitor).Valid(limits)
  {
    hide OnToken, Ends, Eaten, Ended;
    if m.stack != [] && !m.Top().state.SemanticError? {
      var t := m.Top().tokens;
      if Ends(t, c) {
        var n := Moved(m, t.Found(Ended(t)), limits, visitor);
        MovedValid(m, t.Found(Ended(t)), limits, visitor);
        TakeValid(n, c, limits, visitor);
      } else {
        TakeValid(m, c, limits, visitor);
      }
    }
  }

  lemma MovedValid(m: Machine, t: Tokenizer, limits: Limits, visitor: Visitor)
    requires m.stack != [] && m.Valid(limits)
    ensures Moved(m, t, limits, visitor).Valid(limits)
  {
    hide OnToken;
    if t.tokenState.Done? {
      OnTokenValid(m.WithTop(m.Top().(tokens := t)), limits, visitor);
    }
  }

  lemma TakeValid(m: Machine, c: char, limits: Limits, visitor: Visitor)
    requires m.Valid(limits)
    ensures Take(m, c, limits, visitor).Valid(limits)
  {
    hide Moved, Eaten, Ends;
    if m.stack != [] && !m.Top().tokens.tokenState.Done? && !Ends(m.Top().tokens, c) {
      MovedValid(m, Eaten(m.Top().tokens, c, m.Top().Saves(), limits.value), limits, visitor);
    }
  }
}
