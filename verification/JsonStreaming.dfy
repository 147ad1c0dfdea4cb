/** The streaming parser itself: loops over whatever part of the text is at hand, on parsers that are updated in
    place. */
module JsonStreaming {
  import opened Characters
  import opened JsonTokens
  import opened JsonMachine

  /** JsonSubObjectParser and JsonSubArrayParser. */
  class SubParser {
    const kind: Kind
    const limits: Limits
    var state: State
    var tag: seq<char>
    var skipped: nat
    var tokenState: TokenState
    var token: Token
    var value: seq<char>
    var number: int
    var sign: int
    var unicodeIndex: nat
    var unicode: nat

    constructor (kind: Kind, limits: Limits, state: State, value: seq<char>)
      ensures this.kind == kind && this.limits == limits
      ensures View() == Parser(kind, state, [], 0, NEW_TOKENS.(value := value))
    {
      this.kind, this.limits, this.state, this.value := kind, limits, state, value;
      tag, skipped := [], 0;
      tokenState, token, number, sign, unicodeIndex, unicode := Open, Error, 0, 1, 0, 0;
    }

    ghost function Tokens(): Tokenizer
      reads this
    {
      Tokenizer(tokenState, token, value, number, sign, unicodeIndex, unicode)
    }

    ghost function View(): Parser
      reads this
    {
      Parser(kind, state, tag, skipped, Tokens())
    }

    method FoundToken(found: Token)
      modifies this`token, this`tokenState
      ensures Tokens() == old(Tokens()).Found(found)
    {
      token := found;
      tokenState := Done;
    }

    method AddToValueBuffer(c: char, save: bool, inString: bool)
      modifies this`token, this`tokenState, this`value
      ensures Tokens() == JsonTokens.AddToValueBuffer(old(Tokens()), c, save, inString, limits.value)
    {
      if |value| >= limits.value {
        if inString {
          tokenState := StringOverflowOpen;
        } else {
          FoundToken(Error);
        }
      } else if save {
        value := value + [c];
      }
    }

    method ProcessEscapedData(c: char, save: bool)
      modifies this`token, this`tokenState, this`value
      ensures Tokens() == JsonTokens.ProcessEscapedData(old(Tokens()), c, save, limits.value)
    {
      if c == 'u' {
        tokenState := UnicodeValueOpen;
      } else if c == 'b' {
        AddToValueBuffer(8 as char, save, true);
      } else if c == 'f' {
        AddToValueBuffer(12 as char, save, true);
      } else if c == 'n' {
        AddToValueBuffer('\n', save, true);
      } else if c == 'r' {
        AddToValueBuffer('\r', save, true);
      } else if c == 't' {
        AddToValueBuffer('\t', save, true);
      } else {
        AddToValueBuffer(c, save, true);
      }
    }

    method StartToken(c: char)
      requires !IsSpace(c)
      modifies this`token, this`tokenState, this`value, this`number, this`sign
      ensures Tokens() == OpenChar(old(Tokens()), c)
    {
      if c == ':' {
        FoundToken(Colon);
      } else if c == ',' {
        FoundToken(Comma);
      } else if c == '{' {
        FoundToken(LeftBrace);
      } else if c == '}' {
        FoundToken(RightBrace);
      } else if c == '[' {
        FoundToken(LeftBracket);
      } else if c == ']' {
        FoundToken(RightBracket);
      } else if c == '"' {
        tokenState := StringOpen;
      } else if c == '-' {
        tokenState, number, sign := NumberOpen, 0, -1;
      } else if IsAlpha(c) {
        tokenState, value := IdentifierOpen, [c];
      } else if IsDigit(c) {
        tokenState, number, sign := NumberOpen, c as int - '0' as int, 1;
      } else {
        FoundToken(Error);
      }
    }

    method UnicodeDigit(c: char, save: bool)
      requires tokenState == UnicodeValueOpen
      modifies this`token, this`tokenState, this`value, this`unicodeIndex, this`unicode
      ensures Tokens() == UnicodeChar(old(Tokens()), c, save, limits.value)
    {
      if '0' <= c <= '9' {
        unicodeIndex := unicodeIndex + 1;
        unicode := (unicode * 16 + (c as int - '0' as int)) % 0x10000;
      } else if 'a' <= c <= 'f' {
        unicodeIndex := unicodeIndex + 1;
        unicode := (unicode * 16 + (c as int - 'a' as int + 10)) % 0x10000;
      } else if 'A' <= c <= 'F' {
        unicodeIndex := unicodeIndex + 1;
        unicode := (unicode * 16 + (c as int - 'A' as int + 10)) % 0x10000;
      } else {
        unicodeIndex, unicode := 0, 0;
        FoundToken(Error);
      }
      if unicodeIndex == 4 {
        tokenState := StringOpen;
        if |value| >= limits.value {
          FoundToken(Error);
        } else {
          AddToValueBuffer((unicode % 256) as char, save, true);
        }
        unicodeIndex, unicode := 0, 0;
      }
    }

    /** A number or a word: `rest` still starts with `c` when that ends it. */
    method ContinueWord(data: seq<char>, save: bool) returns (rest: seq<char>)
      requires data != []
      requires tokenState in {NumberOpen, NumberFractionalOpen, NumberExponentOpen, IdentifierOpen}
      modifies this`token, this`tokenState, this`value, this`number
      ensures if Ends(old(Tokens()), data[0]) then rest == data && Tokens() == old(Tokens()).Found(Ended(old(Tokens())))
              else rest == data[1..] && Tokens() == Eaten(old(Tokens()), data[0], save, limits.value)
    {
      var c := data[0];
      rest := data;
      if tokenState == NumberOpen {
        if IsDigit(c) {
          number := number * 10 + (c as int - '0' as int);
          rest := rest[1..];
        } else if c == '.' {
          tokenState := NumberFractionalOpen;
          rest := rest[1..];
        } else {
          FoundToken(Number);
        }
      } else if tokenState == NumberFractionalOpen {
        if IsDigit(c) {
          rest := rest[1..];
        } else if c == 'e' || c == 'E' {
          tokenState := NumberExponentOpen;
          rest := rest[1..];
        } else {
          FoundToken(Number);
        }
      } else if tokenState == NumberExponentOpen {
        if IsDigit(c) || c == '+' || c == '-' {
          rest := rest[1..];
        } else {
          FoundToken(Number);
        }
      } else if IsAlpha(c) {
        AddToValueBuffer(c, save, false);
        rest := rest[1..];
      } else if value == "true" {
        FoundToken(True);
      } else if value == "false" {
        FoundToken(False);
      } else if value == "null" {
        FoundToken(Null);
      } else {
        FoundToken(Error);
      }
    }

    method SkipSpaces(data: seq<char>, ghost save: bool) returns (rest: seq<char>)
      requires tokenState == Open && data != [] && IsSpace(data[0])
      ensures |rest| < |data|
      ensures Run(Tokens(), data, save, limits.value) == Run(Tokens(), rest, save, limits.value)
    {
      assert Eaten(Tokens(), data[0], save, limits.value) == Tokens();
      rest := data[1..];
      while rest != [] && IsSpace(rest[0])
        invariant Run(Tokens(), data, save, limits.value) == Run(Tokens(), rest, save, limits.value) && |rest| < |data|
      {
        assert Eaten(Tokens(), rest[0], save, limits.value) == Tokens();
        rest := rest[1..];
      }
    }

    method ReadString(data: seq<char>, save: bool) returns (rest: seq<char>)
      requires data != [] && tokenState in {StringOpen, StringOverflowOpen}
      modifies this`token, this`tokenState, this`value
      ensures |rest| < |data|
      ensures Run(old(Tokens()), data, save, limits.value) == Run(Tokens(), rest, save, limits.value)
    {
      var c := data[0];
      rest := data[1..];
      while true
        invariant tokenState in {StringOpen, StringOverflowOpen} && |rest| < |data|
        invariant Run(old(Tokens()), data, save, limits.value) == Run(Tokens(), [c] + rest, save, limits.value)
        decreases |rest|
      {
        ghost var t := Tokens();
        if c == '\\' {
          tokenState := StringOpenAndEscaped;
        } else if c == '"' {
          FoundToken(if tokenState == StringOpen then String else StringOverflow);
        } else {
          AddToValueBuffer(c, save, true);
        }
        assert ([c] + rest)[1..] == rest;
        assert Tokens() == Eaten(t, c, save, limits.value);
        if (tokenState != StringOpen && tokenState != StringOverflowOpen) || rest == [] {
          break;
        }
        assert [rest[0]] + rest[1..] == rest;
        c := rest[0];
        rest := rest[1..];
      }
    }

    method FeedToken(data: seq<char>, save: bool) returns (rest: seq<char>)
      modifies this`token, this`tokenState, this`value, this`number, this`sign, this`unicodeIndex, this`unicode
      ensures (Tokens(), rest) == Run(old(Tokens()), data, save, limits.value)
    {
      hide JsonTokens.AddToValueBuffer, JsonTokens.ProcessEscapedData, OpenChar, UnicodeChar, StringChar;
      rest := data;
      while rest != [] && tokenState != Done
        invariant Run(old(Tokens()), data, save, limits.value) == Run(Tokens(), rest, save, limits.value)
        decreases |rest|, tokenState != Done
      {
        if tokenState == NumberOpen || tokenState == NumberFractionalOpen || tokenState == NumberExponentOpen ||
          tokenState == IdentifierOpen {
          rest := ContinueWord(rest, save);
        } else {
          var c := rest[0];
          if tokenState == Open {
            if IsSpace(c) {
              rest := SkipSpaces(rest, save);
            } else {
              StartToken(c);
              rest := rest[1..];
            }
          } else if tokenState == StringOpenAndEscaped {
            tokenState := StringOpen;
            ProcessEscapedData(c, save);
            rest := rest[1..];
          } else if tokenState == UnicodeValueOpen {
            UnicodeDigit(c, save);
            rest := rest[1..];
          } else {
            rest := ReadString(rest, save);
          }
        }
      }
    }

    method Skip()
      requires state.SkipNested?
      modifies this`state, this`skipped
      ensures View() == JsonMachine.Skip(old(View()), old(state).kind) && state != Init
    {
      if state.kind == Object {
        if token == RightBrace {
          if skipped == 0 {
            state := Closed;
          } else {
            skipped := skipped - 1;
          }
        } else if token == LeftBrace {
          skipped := (skipped + 1) % 0x1_0000_0000;
        }
      } else {
        if token == RightBracket {
          if skipped == 0 {
            state := Closed;
          } else {
            skipped := skipped - 1;
          }
        } else if token == LeftBracket {
          skipped := (skipped + 1) % 0x1_0000_0000;
        }
      }
    }

    method SemanticError()
      modifies this`state
      ensures state == State.SemanticError
    {
      state := State.SemanticError;
    }
  }

  /** JsonStreamingObjectParser with its sub-parsers. */
  class StreamingParser {
    const limits: Limits
    const visitor: Visitor
    var stack: seq<SubParser>
    var events: seq<Event>

    constructor (limits: Limits, visitor: Visitor)
      requires limits.Valid()
      ensures this.limits == limits && this.visitor == visitor && Valid()
      ensures State() == Machine([Parser(Object, Init, [], 0, NEW_TOKENS)], [])
      ensures fresh(stack)
    {
      this.limits, this.visitor := limits, visitor;
      events := [];
      var first := new SubParser(Object, limits, Init, []);
      stack := [first];
    }

    ghost function State(): (m: Machine)
      reads this, stack
      ensures |m.stack| == |stack| && m.events == events
    {
      Machine(seq(|stack|, i requires 0 <= i < |stack| reads this, stack => stack[i].View()), events)
    }

    /** The sub-parsers are different objects, and an array has neither tags nor an opening to wait for. */
    ghost predicate Sound()
      reads this, stack
    {
      && limits.Valid() && |stack| <= limits.nesting
      && (forall i, j | 0 <= i < j < |stack| :: stack[i] != stack[j])
      && forall i | 0 <= i < |stack| :: stack[i].limits == limits &&
           (stack[i].kind.Array? ==> stack[i].tag == [] && stack[i].state != Init)
    }

    ghost predicate Valid()
      reads this, stack
    {
      Sound() && State().Valid(limits)
    }

    /** Calls the innermost visitor, which may mark any of the parsers it knows. */
    method Visit(depth: nat, call: Call) returns (accepts: bool)
      requires Sound()
      modifies this`events, stack
      ensures Sound() && State() == EmitAt(old(State()), depth, call, visitor)
      ensures accepts == visitor(events).accepts
    {
      events := events + [Event(depth, call)];
      var reaction := visitor(events);
      Mark(reaction.rejected);
      accepts := reaction.accepts;
    }

    method Mark(rejected: set<nat>)
      requires Sound()
      modifies stack
      ensures Sound() && State() == old(State()).(stack := Marked(old(State()).stack, rejected))
    {
      ghost var was := State().stack;
      for i := 0 to |stack|
        invariant forall j | 0 <= j < |stack| :: stack[j].View() ==
                                                 if j < i && j in rejected && j > 0
                                                   then was[j].(state := SemanticError) else was[j]
      {
        if i in rejected && i > 0 {
          stack[i].SemanticError();
        }
      }
    }

    method ReportParseError()
      requires Sound()
      modifies this
      ensures Valid() && stack == [] && State() == JsonMachine.ReportParseError(old(State()))
    {
      for i := |stack| downto 0
        invariant events + Failures(i, ParseFailed) == old(events) + Failures(|stack|, ParseFailed) &&
          stack == old(stack)
      {
        assert events + Failures(i + 1, ParseFailed) == events + [Event(i, ParseFailed)] + Failures(i, ParseFailed);
        events := events + [Event(i, ParseFailed)];
      }
      stack := [];
    }

    method ReportSemanticError()
      requires Sound() && stack != []
      modifies this
      ensures Valid() && stack == [] && State() == JsonMachine.ReportSemanticError(old(State()))
    {
      for i := |stack| - 1 downto 0
        invariant stack == old(stack)
        invariant events + Failures(i, SemanticFailed) == old(events) + Failures(|stack| - 1, SemanticFailed)
      {
        assert events + Failures(i + 1, SemanticFailed) == events + [Event(i, SemanticFailed)] +
          Failures(i, SemanticFailed);
        events := events + [Event(i, SemanticFailed)];
      }
      stack := [];
    }

    /** The only parser that changed is the one at `i`. */
    twostate lemma OnlyOneChanged(i: nat)
      requires i < |stack| && stack == old(stack) && events == old(events)
      requires forall j | 0 <= j < |stack| && j != i :: stack[j].View() == old(stack[j].View())
      ensures State() == old(State()).(stack := old(State()).stack[i := stack[i].View()])
    {
    }

    method PushParser(kind: Kind)
      requires Sound() && stack != [] && |stack| < limits.nesting
      modifies this`stack
      ensures Sound() && State() ==
        old(State()).(stack := old(State()).stack + [NewParser(kind, old(State()).Top().tokens)])
      ensures fresh(stack[|stack| - 1]) && stack[..|stack| - 1] == old(stack)
    {
      ghost var m := State();
      var nested := new SubParser(kind, limits, InitialOpen, stack[|stack| - 1].value);
      stack := stack + [nested];
      assert State().stack == m.stack + [nested.View()];
    }

    method PopParser()
      requires Sound() && stack != []
      modifies this`stack
      ensures Sound() && stack == old(stack)[..|old(stack)| - 1]
      ensures State() == old(State()).(stack := old(State()).stack[..|old(stack)| - 1])
    {
      ghost var m := State();
      stack := stack[..|stack| - 1];
      assert State().stack == m.stack[..|m.stack| - 1];
    }

    /** The nested value is passed over. */
    method StartSkipping(kind: Kind)
      requires Sound() && stack != []
      modifies stack[|stack| - 1]
      ensures Sound() && State() == old(State()).WithTop(old(State()).Top().(state := SkipNested(kind), tag := []))
    {
      label before:
      var top := stack[|stack| - 1];
      top.state, top.tag := SkipNested(kind), [];
      OnlyOneChanged@before(|stack| - 1);
    }

    /** The nested value's token is done, and what follows the value is expected next. */
    method ExpectComma()
      requires Sound() && stack != []
      modifies stack[|stack| - 1]
      ensures Sound()
      ensures State() == old(State()).WithTop(old(State()).Top().(state := Closed,
        tokens := old(State()).Top().tokens.(tokenState := Open)))
    {
      label before:
      var top := stack[|stack| - 1];
      top.tokenState, top.state := Open, Closed;
      OnlyOneChanged@before(|stack| - 1);
    }

    method ClearTag(i: nat)
      requires Sound() && i < |stack|
      modifies stack[i]
      ensures Sound() && State() == old(State()).(stack := old(State()).stack[i := old(State()).stack[i].(tag := [])])
    {
      label before:
      stack[i].tag := [];
      OnlyOneChanged@before(i);
    }

    method OpenNested(kind: Kind)
      requires Sound() && stack != []
      modifies this, stack
      ensures Sound() && State() == Nested(old(State()), kind, limits, visitor)
      ensures forall i | 0 <= i < |stack| :: stack[i] in old(stack) || fresh(stack[i])
    {
      hide StreamingParser.State, StreamingParser.Sound, SubParser.View, EmitAt;
      var tag := TopTag();
      ExpectComma();
      if |stack| >= limits.nesting {
        StartSkipping(kind);
      } else {
        PushParser(kind);
        AskVisitor(VisitNested(tag, kind), kind);
      }
    }

    /** The nested value's parser was pushed; it stays when the visitor of the parser below it wants the value. */
    method AskVisitor(call: Call, kind: Kind)
      requires Sound() && |stack| >= 2
      modifies this, stack
      ensures Sound() && (stack == old(stack) || stack == old(stack)[..|old(stack)| - 1])
      ensures var n := |old(stack)| - 2; var asked := EmitAt(old(State()), n, call, visitor);
              State() == if visitor(asked.events).accepts
                then asked.(stack := asked.stack[n := asked.stack[n].(tag := [])])
                         else asked.(stack := asked.stack[..n] + [old(State()).stack[n].(state := SkipNested(kind), tag := [])])
    {
      hide StreamingParser.State, StreamingParser.Sound, SubParser.View, Marked, EmitAt;
      ghost var m, n := State(), |stack| - 2;
      var accepts := Visit(|stack| - 2, call);
      ghost var asked := State();
      VisitKeeps(m, n, call, visitor);
      if !accepts {
        PopParser();
        StartSkipping(kind);
        assert State().stack == asked.stack[..n] + [m.stack[n].(state := SkipNested(kind), tag := [])];
      } else {
        ClearTag(|stack| - 2);
      }
    }

    method TopTag() returns (tag: seq<char>)
      requires stack != []
      ensures tag == State().Top().tag
    {
      tag := stack[|stack| - 1].tag;
    }

    method CloseInnermost()
      requires Sound() && stack != []
      modifies this, stack
      ensures Sound() && stack == old(stack)[..|old(stack)| - 1]
      ensures var m := Emit(old(State()), Close, visitor); State() == m.(stack := m.stack[..|m.stack| - 1])
    {
      hide StreamingParser.State, StreamingParser.Sound, EmitAt;
      var _ := Visit(|stack| - 1, Close);
      PopParser();
    }

    lemma TopIsView()
      requires stack != []
      ensures State().Top() == stack[|stack| - 1].View()
    {
    }

    lemma ArrayTop()
      requires Sound() && stack != [] && stack[|stack| - 1].kind.Array?
      ensures stack[|stack| - 1].tag == [] && stack[|stack| - 1].state != Init
    {
    }

    method Become(state: State, tag: seq<char>)
      requires Sound() && stack != [] && (stack[|stack| - 1].kind.Array? ==> tag == [] && state != Init)
      modifies stack[|stack| - 1]
      ensures Sound() && State() == old(State()).WithTop(old(State()).Top().(state := state, tag := tag))
    {
      label before:
      stack[|stack| - 1].state, stack[|stack| - 1].tag := state, tag;
      OnlyOneChanged@before(|stack| - 1);
    }

    method ClearToken()
      requires Sound() && stack != []
      modifies stack[|stack| - 1]
      ensures Sound() && State() == Cleared(old(State())) && stack[|stack| - 1].tokenState == Open
    {
      label before:
      stack[|stack| - 1].value, stack[|stack| - 1].tokenState := [], Open;
      OnlyOneChanged@before(|stack| - 1);
    }

    /** A value was seen: the tag is used up. */
    method VisitElement(call: Call)
      requires Sound() && stack != []
      modifies this`events, stack
      ensures Sound()
      ensures State() == Emit(old(State()).WithTop(old(State()).Top().(state := Closed, tag := [])), call, visitor)
    {
      hide StreamingParser.State, StreamingParser.Sound, EmitAt;
      Become(Closed, []);
      var _ := Visit(|stack| - 1, call);
    }

    /** The alternatives for a value that is not nested. */
    method ElementToken(tag: seq<char>)
      requires Sound() && stack != [] &&
        (IsScalar(stack[|stack| - 1].token) || stack[|stack| - 1].token == StringOverflow)
      modifies this`events, stack
      ensures Sound()
      ensures var p := old(State()).Top();
              State() == Emit(old(State()).WithTop(p.(state := Closed, tag := [])),
                              if p.tokens.token.StringOverflow? then Overflow
                                else VisitValue(tag, ScalarOf(p.tokens)), visitor)
    {
      hide StreamingParser.State, StreamingParser.Sound, Emit;
      TopIsView();
      var top := stack[|stack| - 1];
      match top.token
      case String => VisitElement(VisitValue(tag, Text(top.value)));
      case StringOverflow => VisitElement(Overflow);
      case Number => VisitElement(VisitValue(tag, Integer(top.sign * top.number)));
      case True => VisitElement(VisitValue(tag, Boolean(true)));
      case False => VisitElement(VisitValue(tag, Boolean(false)));
      case Null => VisitElement(VisitValue(tag, Nothing));
    }

    method SkipToken()
      requires Sound() && stack != [] && stack[|stack| - 1].state.SkipNested?
      modifies stack[|stack| - 1]
      ensures Sound() && State() == old(State()).WithTop(Skip(old(State()).Top(), old(State()).Top().state.kind))
    {
      label before:
      stack[|stack| - 1].Skip();
      OnlyOneChanged@before(|stack| - 1);
    }

    /** The alternatives in JsonSubObjectParser::Feed after which it returns, and then the others. */
    method ObjectToken() returns (leave: bool)
      requires Sound() && stack != [] && stack[|stack| - 1].kind == Object
      modifies this, stack
      ensures Sound() && forall i | 0 <= i < |stack| :: stack[i] in old(stack) || fresh(stack[i])
      ensures leave ==> !IsWord(old(stack[|stack| - 1].token))
      ensures leave ==> State() == OnToken(old(State()), limits, visitor)
      ensures !leave ==> stack == old(stack) && Reported(State()) == OnToken(old(State()), limits, visitor)
      ensures !leave ==> stack[|stack| - 1].tokenState == Open
    {
      hide StreamingParser.State, StreamingParser.Sound, Emit, Finished, Nested, JsonMachine.Skip, ScalarOf;
      TopIsView();
      var state, token := stack[|stack| - 1].state, stack[|stack| - 1].token;
      leave := true;
      if state == ValueExpected && token == LeftBrace {
        OpenNested(Object);
      } else if state == ValueExpected && token == LeftBracket {
        OpenNested(Array);
      } else if (state == InitialOpen || state == Closed) && token == RightBrace {
        CloseInnermost();
      } else {
        leave := false;
        ObjectElement();
      }
    }

    method ObjectElement()
      requires Sound() && stack != [] && stack[|stack| - 1].kind == Object
      requires !(stack[|stack| - 1].state == ValueExpected && stack[|stack| - 1].token in {LeftBrace, LeftBracket})
      requires !(stack[|stack| - 1].state in {InitialOpen, Closed} && stack[|stack| - 1].token == RightBrace)
      modifies this`events, stack
      ensures Sound() && Reported(State()) == OnToken(old(State()), limits, visitor)
      ensures stack[|stack| - 1].tokenState == Open
    {
      hide StreamingParser.State, StreamingParser.Sound, Emit, Reported, Cleared, Nested, JsonMachine.Skip, ScalarOf;
      TopIsView();
      var top := stack[|stack| - 1];
      var state, token, tag, value := top.state, top.token, top.tag, top.value;
      if (state == InitialOpen || state == Opened) && (token == String || token == StringOverflow) {
        Become(TagClosed, if |value| <= limits.tag then value else value[..limits.tag]);
      } else if state == TagClosed && token == Colon {
        Become(ValueExpected, tag);
      } else if state == ValueExpected && (IsScalar(token) || token == StringOverflow) {
        ElementToken(tag);
      } else if state == Closed && token == Comma {
        Become(Opened, tag);
      } else if state == Init {
        Become(if token == LeftBrace then InitialOpen else ParseError, tag);
      } else if state.SkipNested? {
        SkipToken();
      } else {
        Become(ParseError, tag);
      }
      ClearToken();
    }

    /** The alternatives in JsonSubArrayParser::Feed after which it returns, and then the others. */
    method ArrayToken() returns (leave: bool)
      requires Sound() && stack != [] && stack[|stack| - 1].kind == Array
      modifies this, stack
      ensures Sound() && forall i | 0 <= i < |stack| :: stack[i] in old(stack) || fresh(stack[i])
      ensures leave ==> !IsWord(old(stack[|stack| - 1].token))
      ensures leave ==> State() == OnToken(old(State()), limits, visitor)
      ensures !leave ==> stack == old(stack) && Reported(State()) == OnToken(old(State()), limits, visitor)
      ensures !leave ==> stack[|stack| - 1].tokenState == Open
    {
      hide StreamingParser.State, StreamingParser.Sound, Emit, Finished, Nested, JsonMachine.Skip, ScalarOf;
      TopIsView();
      var state, token := stack[|stack| - 1].state, stack[|stack| - 1].token;
      leave := true;
      if (state == InitialOpen || state == Closed) && token == RightBracket {
        CloseInnermost();
      } else if (state == InitialOpen || state == Opened) && token == LeftBrace {
        OpenNested(Object);
      } else if (state == InitialOpen || state == Opened) && token == LeftBracket {
        OpenNested(Array);
      } else {
        leave := false;
        ArrayElement();
      }
    }

    method ArrayElement()
      requires Sound() && stack != [] && stack[|stack| - 1].kind == Array
      requires !(stack[|stack| - 1].state in {InitialOpen, Opened} &&
        stack[|stack| - 1].token in {LeftBrace, LeftBracket})
      requires !(stack[|stack| - 1].state in {InitialOpen, Closed} && stack[|stack| - 1].token == RightBracket)
      modifies this`events, stack
      ensures Sound() && Reported(State()) == OnToken(old(State()), limits, visitor)
      ensures stack[|stack| - 1].tokenState == Open
    {
      hide StreamingParser.State, StreamingParser.Sound, Emit, Reported, Cleared, Nested, JsonMachine.Skip, ScalarOf;
      TopIsView();
      ArrayTop();
      var state, token := stack[|stack| - 1].state, stack[|stack| - 1].token;
      if (state == InitialOpen || state == Opened) && (IsScalar(token) || token == StringOverflow) {
        ElementToken([]);
      } else if state.SkipNested? {
        SkipToken();
      } else if state == Closed && token == Comma {
        Become(Opened, []);
      } else {
        Become(ParseError, []);
      }
      ClearToken();
    }

    method TakeToken(data: seq<char>) returns (rest: seq<char>)
      requires Sound() && stack != []
      modifies stack[|stack| - 1]
      ensures Sound()
      ensures var p := old(State()).Top(); var r := Run(p.tokens, data, p.Saves(), limits.value);
              rest == r.1 && State() == old(State()).WithTop(p.(tokens := r.0))
    {
      label before:
      var top := stack[|stack| - 1];
      rest := top.FeedToken(data, !top.state.SkipNested?);
      OnlyOneChanged@before(|stack| - 1);
    }

    /** Looks for one token, and deals with it when it is complete. */
    method FeedOnce(data: seq<char>) returns (rest: seq<char>, leave: bool)
      requires Valid() && stack != [] && data != [] && !State().Top().state.SemanticError?
      modifies this, stack
      ensures Sound() && forall i | 0 <= i < |stack| :: stack[i] in old(stack) || fresh(stack[i])
      ensures leave ==>
        Valid() && |rest| < |data| &&
        Steps(State(), rest, limits, visitor) == Steps(old(State()), data, limits, visitor)
      ensures !leave ==> stack == old(stack) && Reported(State()).Valid(limits)
      ensures !leave ==> Steps(Reported(State()), rest, limits, visitor) == Steps(old(State()), data, limits, visitor)
      ensures !leave ==>
        |rest| < |data| || (rest == data && stack[|stack| - 1].tokenState == Open &&
        old(stack[|stack| - 1].tokenState) != Open)
    {
      hide StreamingParser.State, StreamingParser.Sound, Steps, OnToken, Run, Reported;
      ghost var m := State();
      TopIsView();
      rest := TakeToken(data);
      TopIsView();
      RunMoves(m.Top().tokens, data, m.Top().Saves(), limits.value);
      RunIsSteps(m, data, limits, visitor);
      MovedValid(m, Run(m.Top().tokens, data, m.Top().Saves(), limits.value).0, limits, visitor);
      var top := stack[|stack| - 1];
      if top.tokenState != Done {
        NothingToReport(State());
        return rest, false;
      }
      if top.kind == Object {
        leave := ObjectToken();
      } else {
        leave := ArrayToken();
      }
    }

    method FeedInnermost(data: seq<char>) returns (rest: seq<char>)
      requires Valid() && stack != [] && data != []
      modifies this, stack
      ensures Valid() && forall i | 0 <= i < |stack| :: stack[i] in old(stack) || fresh(stack[i])
      ensures |rest| < |data| && Steps(State(), rest, limits, visitor) == Steps(old(State()), data, limits, visitor)
    {
      hide StreamingParser.State, StreamingParser.Sound, Steps, OnToken, Run;
      ghost var start := State();
      TopIsView();
      LateReport(start, data, limits, visitor);
      rest := data;
      var top := stack[|stack| - 1];
      while rest != [] && top.state != ParseError && top.state != SemanticError
        invariant Sound() && stack == old(stack)
        invariant Reported(State()).Valid(limits) && State().Top() == top.View()
        invariant Steps(Reported(State()), rest, limits, visitor) == Steps(start, data, limits, visitor)
        invariant |rest| < |data| || (rest == data && (State() == start || top.tokenState == Open))
        decreases |rest|, top.tokenState != Open
      {
        NothingToReport(State());
        var leave;
        rest, leave := FeedOnce(rest);
        if leave {
          return;
        }
        TopIsView();
      }
      if top.state == ParseError {
        NothingAfterTheEnd(Reported(State()), rest, limits, visitor);
        rest := [];
        ReportParseError();
        NothingAfterTheEnd(State(), rest, limits, visitor);
      } else if top.state == SemanticError {
        NothingAfterTheEnd(Reported(State()), rest, limits, visitor);
        rest := [];
        ReportSemanticError();
        NothingAfterTheEnd(State(), rest, limits, visitor);
      }
    }

    /** JsonStreamingObjectParser::Feed: whatever piece of the text is fed, it is as if its characters were fed one
        by one. */
    method Feed(data: seq<char>)
      requires Valid()
      modifies this, stack
      ensures Valid() && forall i | 0 <= i < |stack| :: stack[i] in old(stack) || fresh(stack[i])
      ensures State() == Steps(old(State()), data, limits, visitor)
    {
      hide StreamingParser.State, StreamingParser.Sound;
      var rest := data;
      while rest != [] && stack != []
        invariant Valid() && forall i | 0 <= i < |stack| :: stack[i] in old(stack) || fresh(stack[i])
        invariant Steps(State(), rest, limits, visitor) == Steps(old(State()), data, limits, visitor)
        decreases |rest|
      {
        rest := FeedInnermost(rest);
      }
      if rest != [] {
        NothingAfterTheEnd(State(), rest, limits, visitor);
      }
    }
  }

  /** Two parsers in the same state, one fed a text in two pieces and the other in one, make the same calls and end
      alike. */
  method FeedInPieces(one: StreamingParser, two: StreamingParser, a: seq<char>, b: seq<char>)
    requires one.Valid() && two.Valid() && one.limits == two.limits && one.visitor == two.visitor &&
      one.State() == two.State()
    requires one != two && forall i, j | 0 <= i < |one.stack| && 0 <= j < |two.stack| :: one.stack[i] != two.stack[j]
    modifies one, one.stack, two, two.stack
    ensures one.Valid() && two.Valid() && one.State() == two.State()
  {
    hide StreamingParser.State, StreamingParser.Valid, Steps;
    StepsConcatenate(one.State(), a, b, one.limits, one.visitor);
    two.Feed(a + b);
    one.Feed(a);
    one.Feed(b);
  }
}
