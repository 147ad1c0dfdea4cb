/** Which texts the streaming parser reports as faulty, and what it makes of strings that its buffer cannot hold. */
module JsonVerdict {
  import opened Characters
  import opened JsonTokens
  import opened JsonMachine
  import opened JsonSkip
  import opened JsonSyntax
  import opened JsonMeaning

  // ----- what may come next

  predicate BeginsValue(token: Token) {
    token in {String, StringOverflow, Number, True, False, Token.Null, LeftBrace, LeftBracket}
  }

  function Closer(kind: Kind): Token {
    if kind.Object? then RightBrace else RightBracket
  }

  /** The grammar of JSON: which token may come next. */
  predicate IsLegal(kind: Kind, state: State, token: Token) {
    match state
    case Init => token == LeftBrace
    case InitialOpen =>
      token == Closer(kind) || (if kind.Object? then token in {String, StringOverflow} else BeginsValue(token))
    case Opened => if kind.Object? then token in {String, StringOverflow} else BeginsValue(token)
    case TagClosed => token == Colon
    case ValueExpected => BeginsValue(token)
    case Closed => token == Comma || token == Closer(kind)
    case _ => false
  }

  /** A parser that reads: an array has no keys. */
  predicate IsProper(p: Parser) {
    (p.state.InitialOpen? || p.state.Opened? || p.state.Closed? ||
     (p.kind.Object? && (p.state.Init? || p.state.TagClosed? || p.state.ValueExpected?)))
  }

  /** Every visitor is told, innermost first, and nothing is left. */
  function Failed(m: Machine): Machine {
    Machine([], m.events + Failures(|m.stack|, ParseFailed))
  }

  lemma FailuresBegin(n: nat)
    requires n > 0
    ensures Failures(n, ParseFailed) != [] && Failures(n, ParseFailed)[0] == Event(n - 1, ParseFailed)
  {}

  lemma IllegalFails(m: Machine, t: Tokenizer, limits: Limits, visitor: Visitor)
    requires IsReading(m) && IsProper(m.Top()) && t.tokenState.Done? && !IsLegal(m.Top().kind, m.Top().state, t.token)
    ensures OnToken(With(m, t), limits, visitor) == Failed(m)
  {
    hide EmitAt, Nested, ScalarOf, Failures;
    var p := With(m, t).Top();
    assert With(m, t).WithTop(p.(state := ParseError)).events == m.events;
  }

  lemma LegalGoesOn(m: Machine, t: Tokenizer, limits: Limits, visitor: Visitor)
    requires Agrees(visitor) && IsReading(m) && IsProper(m.Top()) && t.tokenState.Done?
    requires IsLegal(m.Top().kind, m.Top().state, t.token)
    ensures OnToken(With(m, t), limits, visitor) != Failed(m)
  {
    hide ScalarOf, Failures, Agrees, EmitAt, Nested, OnToken;
    if t.token == Closer(m.Top().kind) {
      ClosesOne(m, t, limits, visitor);
      var x, fails := Event(|m.stack| - 1, Close), Failures(|m.stack|, ParseFailed);
      FailuresBegin(|m.stack|);
      assert (m.events + [x])[|m.events|] == x && (m.events + fails)[|m.events|] == fails[0];
    } else {
      KeepsStack(m, t, limits, visitor);
    }
  }

  lemma ClosesOne(m: Machine, t: Tokenizer, limits: Limits, visitor: Visitor)
    requires Agrees(visitor) && IsReading(m) && IsProper(m.Top()) && t.tokenState.Done? &&
      t.token == Closer(m.Top().kind)
    requires m.Top().state.InitialOpen? || m.Top().state.Closed?
    ensures OnToken(With(m, t), limits, visitor).events == m.events + [Event(|m.stack| - 1, Close)]
  {
    hide ScalarOf, Agrees, EmitAt, Nested;
    AgreeableVisit(With(m, t), |m.stack| - 1, Close, visitor);
  }

  lemma KeepsStack(m: Machine, t: Tokenizer, limits: Limits, visitor: Visitor)
    requires Agrees(visitor) && IsReading(m) && IsProper(m.Top()) && t.tokenState.Done? &&
      t.token != Closer(m.Top().kind)
    requires IsLegal(m.Top().kind, m.Top().state, t.token)
    ensures OnToken(With(m, t), limits, visitor).stack != []
  {
    hide ScalarOf, Agrees, EmitAt, Nested;
    var f := With(m, t);
    var p := f.Top();
    var closed := f.WithTop(p.(state := Closed, tag := []));
    NestedHasStack(f, Object, limits, visitor);
    NestedHasStack(f, Array, limits, visitor);
    AgreeableVisit(closed, |m.stack| - 1, VisitValue(p.tag, ScalarOf(t)), visitor);
    AgreeableVisit(closed, |m.stack| - 1, Overflow, visitor);
  }

  lemma NestedHasStack(m: Machine, kind: Kind, limits: Limits, visitor: Visitor)
    requires m.stack != []
    ensures Nested(m, kind, limits, visitor).stack != []
  {
    hide EmitAt;
  }

  /** A token is reported as a syntax error if and only if the grammar does not allow it where it stands. */
  lemma FailsIffIllegal(m: Machine, t: Tokenizer, limits: Limits, visitor: Visitor)
    requires Agrees(visitor) && IsReading(m) && IsProper(m.Top()) && t.tokenState.Done?
    ensures OnToken(With(m, t), limits, visitor) == Failed(m) <==> !IsLegal(m.Top().kind, m.Top().state, t.token)
  {
    hide OnToken, IsLegal, IsProper, Agrees, With, Failed;
    if IsLegal(m.Top().kind, m.Top().state, t.token) {
      LegalGoesOn(m, t, limits, visitor);
    } else {
      IllegalFails(m, t, limits, visitor);
    }
  }

  // ----- single characters as tokens

  /** The tokens of one character. */
  function Mark(token: Token): char
    requires token in {Colon, Comma, LeftBrace, RightBrace, LeftBracket, RightBracket}
  {
    match token
    case Colon => ':'
    case Comma => ','
    case LeftBrace => '{'
    case RightBrace => '}'
    case LeftBracket => '['
    case _ => ']'
  }

  /** A mark where the grammar does not allow it is the end: a trailing comma, a missing colon or value, the wrong
      bracket. */
  lemma {:induction false} MarkFails(m: Machine, token: Token, rest: seq<char>, limits: Limits, visitor: Visitor)
    requires IsReading(m) && IsProper(m.Top()) && IsIdle(m.Top().tokens)
    requires token in {Colon, Comma, LeftBrace, RightBrace, LeftBracket, RightBracket}
    requires !IsLegal(m.Top().kind, m.Top().state, token)
    ensures Steps(m, [Mark(token)] + rest, limits, visitor) == Failed(m)
  {
    hide Steps, OnToken, IsLegal, Failures;
    var t := m.Top().tokens;
    WithItself(m);
    Completes(m, t, Mark(token), rest, token, limits, visitor);
    IllegalFails(m, t.Found(token), limits, visitor);
    NothingAfterTheEnd(Failed(m), rest, limits, visitor);
  }

  /** A comma after which the bracket is closed. */
  lemma {:induction false} TrailingComma(m: Machine, gap: seq<char>, rest: seq<char>, limits: Limits, visitor: Visitor)
    requires m.stack != [] && m.Top().state == Closed && m.Top().skipped == 0 && IsIdle(m.Top().tokens) && IsGap(gap)
    ensures Steps(m, [','] + (gap + ([Mark(Closer(m.Top().kind))] + rest)), limits, visitor) == Failed(m)
  {
    hide Steps, Failures;
    var c := Closer(m.Top().kind);
    var n := CommaIsRead(m, gap, [Mark(c)] + rest, limits, visitor);
    assert n.events == m.events + [] == m.events;
    MarkFails(n, c, rest, limits, visitor);
  }

  /** A character that begins no token. */
  lemma {:induction false} StrayCharacter(m: Machine, c: char, rest: seq<char>, limits: Limits, visitor: Visitor)
    requires IsReading(m) && IsProper(m.Top()) && IsIdle(m.Top().tokens)
    requires !IsSpace(c) && !IsAlpha(c) && !IsDigit(c) && c !in {':', ',', '{', '}', '[', ']', '"', '-'}
    ensures Steps(m, [c] + rest, limits, visitor) == Failed(m)
  {
    hide Steps, OnToken, Failures;
    var t := m.Top().tokens;
    WithItself(m);
    Completes(m, t, c, rest, Error, limits, visitor);
    IllegalFails(m, t.Found(Error), limits, visitor);
    NothingAfterTheEnd(Failed(m), rest, limits, visitor);
  }

  // ----- words and numbers

  function WordToken(w: seq<char>): Token {
    if w == "true" then True else if w == "false" then False else if w == "null" then Token.Null else Error
  }

  /** A word is one of three, and where a value may not come, or if it is none of them, it is the end. */
  lemma {:induction false} WordFails(m: Machine, w: seq<char>, rest: seq<char>, limits: Limits, visitor: Visitor)
    requires IsReading(m) && IsProper(m.Top()) && IsIdle(m.Top().tokens) && w != [] && AllLetters(w)
    requires |w| <= limits.value && rest != [] && !IsAlpha(rest[0])
    requires !IsLegal(m.Top().kind, m.Top().state, WordToken(w))
    ensures Steps(m, w + rest, limits, visitor) == Failed(m)
  {
    hide Steps, OnToken, IsLegal, Failures, With;
    var t := WordIsRead(m, w, rest, limits, visitor);
    IsEnded(m, t, rest, limits, visitor);
    IllegalFails(m, t.Found(WordToken(w)), limits, visitor);
    NothingAfterTheEnd(Failed(m), rest, limits, visitor);
  }

  /** A word that the buffer cannot hold is the end as well. */
  lemma {:induction false} LongWordFails(m: Machine, w: seq<char>, rest: seq<char>, limits: Limits, visitor: Visitor)
    requires IsReading(m) && IsProper(m.Top()) && IsIdle(m.Top().tokens) && AllLetters(w)
    requires |w| == limits.value + 1 > 1
    ensures Steps(m, w + rest, limits, visitor) == Failed(m)
  {
    hide Steps, OnToken, Failures, With;
    var v, c := w[..limits.value], w[limits.value];
    assert w + rest == v + ([c] + rest);
    var t := WordIsRead(m, v, [c] + rest, limits, visitor);
    Completes(m, t, c, rest, Error, limits, visitor);
    IllegalFails(m, t.Found(Error), limits, visitor);
    NothingAfterTheEnd(Failed(m), rest, limits, visitor);
  }

  /** A number where a value may not come. */
  lemma {:induction false} FigureFails(m: Machine, v: Json, rest: seq<char>, limits: Limits, visitor: Visitor)
    requires IsReading(m) && IsProper(m.Top()) && IsIdle(m.Top().tokens) && v.Figure? && IsJson(v) && IsDelimiter(rest)
    requires !IsLegal(m.Top().kind, m.Top().state, Number)
    ensures Steps(m, Print(v) + rest, limits, visitor) == Failed(m)
  {
    hide Steps, OnToken, IsLegal, Failures, With, TailText;
    var more := TailText(v.tail) + rest;
    assert Print(v) + rest == (if v.negative then ['-'] else []) + v.digits + more;
    var t := FigureIsRead(m, v.negative, v.digits, more, limits, visitor);
    var u := TailIsRead(m, t, v.tail, rest, limits, visitor);
    IsEnded(m, u, rest, limits, visitor);
    IllegalFails(m, u.Found(Number), limits, visitor);
    NothingAfterTheEnd(Failed(m), rest, limits, visitor);
  }

  /** A string where neither a key nor a value may come. */
  lemma {:induction false} PhraseFails(m: Machine, s: seq<Piece>, rest: seq<char>, limits: Limits, visitor: Visitor)
    requires IsReading(m) && IsProper(m.Top()) && IsIdle(m.Top().tokens) && AllPieces(s) && |s| <= limits.value
    requires !IsLegal(m.Top().kind, m.Top().state, String)
    ensures Steps(m, ['"'] + PiecesText(s) + ['"'] + rest, limits, visitor) == Failed(m)
  {
    hide Steps, OnToken, IsLegal, Failures, With, PiecesText;
    var t := TextIsRead(m, s, rest, limits, visitor);
    IllegalFails(m, t, limits, visitor);
    NothingAfterTheEnd(Failed(m), rest, limits, visitor);
  }

  // ----- strings that the buffer cannot hold

  /** Between the quotes of a string that fills the buffer. */
  predicate IsFull(t: Tokenizer, max: nat) {
    (t.tokenState.StringOpen? || t.tokenState.StringOverflowOpen?) && |t.value| == max && t.unicodeIndex == 0 &&
      t.unicode == 0
  }

  lemma {:induction false} NoRoomFor(m: Machine, t: Tokenizer, p: Piece, rest: seq<char>, limits: Limits,
      visitor: Visitor)
    requires IsReading(m) && IsFull(t, limits.value) && IsPiece(p) && !p.Unicode?
    ensures Steps(With(m, t), PieceText(p) + rest, limits, visitor) ==
      Steps(With(m, t.(tokenState := StringOverflowOpen)), rest, limits, visitor)
  {
    hide Steps, With;
    var o := t.(tokenState := StringOverflowOpen);
    match p
    case Plain(c) => TakesOn(m, t, c, rest, o, limits, visitor);
    case Escape(c) =>
      var e := t.(tokenState := StringOpenAndEscaped);
      Grouped(['\\'], [c], rest);
      assert ['\\', c] == ['\\'] + [c];
      TakesOn(m, t, '\\', [c] + rest, e, limits, visitor);
      TakesOn(m, e, c, rest, o, limits, visitor);
  }

  lemma {:induction false} NoRoomForAny(m: Machine, t: Tokenizer, s: seq<Piece>, rest: seq<char>, limits: Limits,
      visitor: Visitor)
    requires IsReading(m) && IsFull(t, limits.value) && AllPieces(s) && s != [] &&
      forall i | 0 <= i < |s| :: !s[i].Unicode?
    ensures Steps(With(m, t), PiecesText(s) + rest, limits, visitor) ==
      Steps(With(m, t.(tokenState := StringOverflowOpen)), rest, limits, visitor)
    decreases |s|
  {
    hide Steps, With, PieceText, IsPiece, IsReading;
    var more, o := PiecesText(s[1..]) + rest, t.(tokenState := StringOverflowOpen);
    Grouped(PieceText(s[0]), PiecesText(s[1..]), rest);
    NoRoomFor(m, t, s[0], more, limits, visitor);
    if |s| > 1 {
      NoRoomForAny(m, o, s[1..], rest, limits, visitor);
    } else {
      assert PiecesText(s[1..]) == [];
      NothingBefore(rest);
    }
  }

  /** What the buffer holds of a string that is too long, and how its token ends. */
  lemma {:induction false} LongTextIsRead(m: Machine, kept: seq<Piece>, lost: seq<Piece>, rest: seq<char>,
      limits: Limits,
      visitor: Visitor) returns (t: Tokenizer)
    requires IsReading(m) && IsIdle(m.Top().tokens) && AllPieces(kept) && AllPieces(lost) && |kept| == limits.value
    requires lost != [] && forall i | 0 <= i < |lost| :: !lost[i].Unicode?
    ensures Steps(m, ['"'] + (PiecesText(kept) + (PiecesText(lost) + (['"'] + rest))), limits, visitor) ==
      Steps(OnToken(With(m, t), limits, visitor), rest, limits, visitor)
    ensures t.tokenState.Done? && t.token == StringOverflow && t.value == Meaning(kept)
    ensures t.unicodeIndex == 0 && t.unicode == 0
  {
    hide Steps, With, PiecesText, OnToken, Meaning;
    var i := m.Top().tokens;
    WithItself(m);
    var more := PiecesText(lost) + (['"'] + rest);
    var u := i.(tokenState := StringOpen);
    TakesOn(m, i, '"', PiecesText(kept) + more, u, limits, visitor);
    StringIsKept(m, u, kept, more, limits, visitor);
    NothingBefore(Meaning(kept));
    var v := u.(value := Meaning(kept));
    NoRoomForAny(m, v, lost, ['"'] + rest, limits, visitor);
    var o := v.(tokenState := StringOverflowOpen);
    Completes(m, o, '"', rest, StringOverflow, limits, visitor);
    t := o.Found(StringOverflow);
  }

  /** Such a value is not visited; the visitor is told that it did not fit, and reading goes on. */
  lemma {:induction false} OverflowIsTold(m: Machine, kept: seq<Piece>, lost: seq<Piece>, rest: seq<char>,
      limits: Limits,
      visitor: Visitor) returns (n: Machine)
    requires Agrees(visitor) && AwaitsValue(m) && AllPieces(kept) && AllPieces(lost) && |kept| == limits.value
    requires lost != [] && forall i | 0 <= i < |lost| :: !lost[i].Unicode?
    ensures Steps(m, ['"'] + (PiecesText(kept) + (PiecesText(lost) + (['"'] + rest))), limits, visitor) ==
      Steps(n, rest, limits, visitor)
    ensures IsVisited(m, n, [Event(|m.stack| - 1, Overflow)])
  {
    hide Steps, PiecesText, Agrees, EmitAt, Meaning;
    var t := LongTextIsRead(m, kept, lost, rest, limits, visitor);
    n := OnToken(With(m, t), limits, visitor);
    var closed := With(m, t).WithTop(With(m, t).Top().(state := Closed, tag := []));
    AgreeableVisit(closed, |m.stack| - 1, Overflow, visitor);
  }

  /** A Unicode escape for which the buffer has no room is the end. */
  lemma {:induction false} CodeFails(m: Machine, t: Tokenizer, p: Piece, rest: seq<char>, limits: Limits,
      visitor: Visitor)
    requires IsReading(m) && IsProper(m.Top()) && IsFull(t, limits.value) && IsPiece(p) && p.Unicode?
    ensures Steps(With(m, t), PieceText(p) + rest, limits, visitor) == Failed(m)
  {
    hide Steps, With, HexValue, IsHex, Failures, OnToken;
    var last := [p.d] + rest;
    assert PieceText(p) + rest == ['\\'] + (['u'] + ([p.a] + ([p.b] + ([p.c] + last))));
    var e, f := t.(tokenState := StringOpenAndEscaped), t.(tokenState := UnicodeValueOpen);
    TakesOn(m, t, '\\', ['u'] + ([p.a] + ([p.b] + ([p.c] + last))), e, limits, visitor);
    TakesOn(m, e, 'u', [p.a] + ([p.b] + ([p.c] + last)), f, limits, visitor);
    HexIsSmall(p.a);
    DigitIsKept(m, f, p.a, [p.b] + ([p.c] + last), limits, visitor);
    var x := HexValue(p.a);
    HexIsSmall(p.b);
    DigitIsKept(m, f.(unicodeIndex := 1, unicode := x), p.b, [p.c] + last, limits, visitor);
    var y := x * 16 + HexValue(p.b);
    HexIsSmall(p.c);
    DigitIsKept(m, f.(unicodeIndex := 2, unicode := y), p.c, last, limits, visitor);
    LastCodeFails(m, f.(unicodeIndex := 3, unicode := y * 16 + HexValue(p.c)), p.d, rest, limits, visitor);
  }

  lemma {:induction false} LastCodeFails(m: Machine, t: Tokenizer, d: char, rest: seq<char>, limits: Limits,
      visitor: Visitor)
    requires IsReading(m) && IsProper(m.Top()) && t.tokenState.UnicodeValueOpen? && IsHex(d) && t.unicodeIndex == 3
    requires |t.value| == limits.value
    ensures Steps(With(m, t), [d] + rest, limits, visitor) == Failed(m)
  {
    hide Steps, OnToken, Failures, With;
    var u := Eaten(t, d, true, limits.value);
    assert u.tokenState.Done? && u.token == Error;
    FailsAtOnce(m, t, d, rest, limits, visitor);
  }

  /** A Unicode escape that is not one. */
  lemma {:induction false} BadCodeFails(m: Machine, t: Tokenizer, c: char, rest: seq<char>, limits: Limits,
      visitor: Visitor)
    requires IsReading(m) && IsProper(m.Top()) && t.tokenState.UnicodeValueOpen? && !IsHex(c)
    ensures Steps(With(m, t), [c] + rest, limits, visitor) == Failed(m)
  {
    hide Steps, OnToken, Failures, With;
    FailsAtOnce(m, t, c, rest, limits, visitor);
  }

  lemma {:induction false} FailsAtOnce(m: Machine, t: Tokenizer, c: char, rest: seq<char>, limits: Limits,
      visitor: Visitor)
    requires IsReading(m) && IsProper(m.Top()) && !t.tokenState.Done? && !Ends(t, c)
    requires Eaten(t, c, true, limits.value).tokenState.Done? && Eaten(t, c, true, limits.value).token == Error
    ensures Steps(With(m, t), [c] + rest, limits, visitor) == Failed(m)
  {
    hide Steps, OnToken, Failures, With, Eaten, Step;
    var u := Eaten(t, c, true, limits.value);
    Takes(m, t, c, limits, visitor);
    StepsMore(With(m, t), c, rest, limits, visitor);
    MovedDone(m, u, limits, visitor);
    IllegalFails(m, u, limits, visitor);
    NothingAfterTheEnd(Failed(m), rest, limits, visitor);
  }

  // ----- what visitors are told, and in which order

  /** From the innermost outwards, each once. */
  lemma {:induction false} FailuresAre(n: nat, call: Call, i: nat)
    requires i < n
    ensures |Failures(n, call)| == n && Failures(n, call)[i] == Event(n - 1 - i, call)
    decreases n
  {
    if i > 0 {
      FailuresAre(n - 1, call, i - 1);
    } else if n > 1 {
      FailuresAre(n - 1, call, 0);
    }
  }

  /** A visitor that finds fault with a value ends the parsing; those around it are told, and it is not. */
  lemma {:induction false} RejectedIsTold(m: Machine, t: Tokenizer, limits: Limits, visitor: Visitor)
    requires AwaitsValue(m) && !m.Top().state.Init? && t.tokenState.Done? && IsScalar(t.token) && |m.stack| > 1
    requires |m.stack| - 1 in
      visitor(m.events + [Event(|m.stack| - 1, VisitValue(m.Top().tag, ScalarOf(t)))]).rejected
    ensures OnToken(With(m, t), limits, visitor) ==
      Machine([], m.events + [Event(|m.stack| - 1, VisitValue(m.Top().tag, ScalarOf(t)))] +
        Failures(|m.stack| - 1, SemanticFailed))
  {
    hide ScalarOf, Failures;
    var e := Event(|m.stack| - 1, VisitValue(m.Top().tag, ScalarOf(t)));
    var closed := With(m, t).WithTop(With(m, t).Top().(state := Closed, tag := []));
    var told := Emit(closed, e.call, visitor);
    assert told.events == m.events + [e] && told.Top().state == SemanticError;
  }

  /** The outermost parser is not handed out, so it cannot be rejected; nor can one that was not. */
  lemma MarksOnlyRejected(stack: seq<Parser>, rejected: set<nat>, i: nat)
    requires i < |stack|
    ensures Marked(stack, rejected)[i] ==
      if i > 0 && i in rejected then stack[i].(state := SemanticError) else stack[i]
  {}

  // ----- spaces anywhere between tokens

  /** The innermost parser is between tokens, or in a number or a word that the next character ends. */
  predicate IsBetween(m: Machine, rest: seq<char>) {
    rest != [] &&
    (m.stack == [] || m.Top().state.SemanticError? || m.Top().tokens.tokenState.Open? || Ends(m.Top().tokens, rest[0]))
  }

  /** A space there changes nothing, whatever the text before and behind it, the visitor and the buffers. */
  lemma {:induction false} SpaceChangesNothing(m: Machine, before: seq<char>, c: char, rest: seq<char>, limits: Limits,
      visitor: Visitor)
    requires IsSpace(c) && IsBetween(Steps(m, before, limits, visitor), rest)
    ensures Steps(m, before + ([c] + rest), limits, visitor) == Steps(m, before + rest, limits, visitor)
  {
    hide Steps;
    StepsConcatenate(m, before, [c] + rest, limits, visitor);
    StepsConcatenate(m, before, rest, limits, visitor);
    SpaceIsNothing(Steps(m, before, limits, visitor), c, rest, limits, visitor);
  }

  lemma {:induction false} SpaceIsNothing(m: Machine, c: char, rest: seq<char>, limits: Limits, visitor: Visitor)
    requires IsSpace(c) && IsBetween(m, rest)
    ensures Steps(m, [c] + rest, limits, visitor) == Steps(m, rest, limits, visitor)
  {
    hide Steps, OnToken, Ended;
    StepsMore(m, c, rest, limits, visitor);
    assert rest == [rest[0]] + rest[1..];
    StepsMore(m, rest[0], rest[1..], limits, visitor);
    if m.stack == [] {
    } else if m.Top().state.SemanticError? {
      NothingAfterTheEnd(ReportSemanticError(m), rest, limits, visitor);
      NothingAfterTheEnd(ReportSemanticError(m), rest[1..], limits, visitor);
    } else if m.Top().tokens.tokenState.Open? {
      assert m.WithTop(m.Top().(tokens := m.Top().tokens)) == m;
    } else {
      var t := m.Top().tokens;
      var n := Moved(m, t.Found(Ended(t)), limits, visitor);
      WordEnds(t);
      WordLeavesParser(m, t.Found(Ended(t)), limits, visitor);
      EndsAtSpace(t, c, rest[0]);
      if n.stack != [] {
        assert n.WithTop(n.Top().(tokens := n.Top().tokens)) == n;
      }
      StepsMore(n, rest[0], rest[1..], limits, visitor);
    }
  }

  lemma EndsAtSpace(t: Tokenizer, c: char, d: char)
    requires IsSpace(c) && Ends(t, d)
    ensures Ends(t, c)
  {}

  /** And nothing else is passed over between tokens. */
  lemma OnlySpacesAreSkipped(t: Tokenizer, c: char, save: bool, max: nat)
    requires t.tokenState.Open?
    ensures Eaten(t, c, save, max) == t <==> c as int in {9, 10, 11, 12, 13, 32}
  {}
}
