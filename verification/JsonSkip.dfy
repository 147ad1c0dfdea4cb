/** A nested value that the visitor declines, or for which there is no parser left, is passed over up to its own
    closing bracket. */
module JsonSkip {
  import opened Characters
  import opened JsonTokens
  import opened JsonMachine

  datatype Piece = Plain(c: char) | Escape(c: char) | Unicode(a: char, b: char, c: char, d: char)

  /** What may stand between the brackets of a value: other characters, strings, and more bracketed text of the same
      kind. */
  datatype Inside =
    | End
    | Other(c: char, rest: Inside)
    | Quoted(pieces: seq<Piece>, rest: Inside)
    | Group(inner: Inside, rest: Inside)

  function Opening(kind: Kind): char { if kind.Object? then '{' else '[' }
  function Closing(kind: Kind): char { if kind.Object? then '}' else ']' }

  predicate IsPiece(p: Piece) {
    match p
    case Plain(c) => c != '"' && c != '\\'
    case Escape(c) => c != 'u'
    case Unicode(a, b, c, d) => IsHex(a) && IsHex(b) && IsHex(c) && IsHex(d)
  }

  predicate IsInside(kind: Kind, inside: Inside) {
    match inside
    case End => true
    case Other(c, rest) => c != '"' && c != Opening(kind) && c != Closing(kind) && IsInside(kind, rest)
    case Quoted(pieces, rest) => (forall i | 0 <= i < |pieces| :: IsPiece(pieces[i])) && IsInside(kind, rest)
    case Group(inner, rest) => IsInside(kind, inner) && IsInside(kind, rest)
  }

  function PieceText(p: Piece): seq<char> {
    match p
    case Plain(c) => [c]
    case Escape(c) => ['\\', c]
    case Unicode(a, b, c, d) => ['\\', 'u', a, b, c, d]
  }

  function PiecesText(pieces: seq<Piece>): seq<char> {
    if pieces == [] then [] else PieceText(pieces[0]) + PiecesText(pieces[1..])
  }

  function InsideText(kind: Kind, inside: Inside): seq<char> {
    match inside
    case End => []
    case Other(c, rest) => [c] + InsideText(kind, rest)
    case Quoted(pieces, rest) => ['"'] + PiecesText(pieces) + ['"'] + InsideText(kind, rest)
    case Group(inner, rest) => [Opening(kind)] + InsideText(kind, inner) + [Closing(kind)] + InsideText(kind, rest)
  }

  /** How deep the bracketed text is nested. */
  function Depth(inside: Inside): nat {
    match inside
    case End => 0
    case Other(_, rest) => Depth(rest)
    case Quoted(_, rest) => Depth(rest)
    case Group(inner, rest) => if Depth(inner) + 1 > Depth(rest) then Depth(inner) + 1 else Depth(rest)
  }

  /** The machine while its innermost parser, which skips, is `k` brackets deep. */
  function At(base: Machine, k: nat, t: Tokenizer): Machine
    requires base.stack != []
  {
    base.WithTop(base.Top().(skipped := k, tokens := t))
  }

  /** Between tokens, or in a token that any other character ends. */
  predicate Outside(t: Tokenizer) {
    && t.unicodeIndex == 0 && t.unicode == 0
    && (t.tokenState.IdentifierOpen?
        || (t.value == [] && (t.tokenState.Open? || t.tokenState.NumberOpen? || t.tokenState.NumberFractionalOpen? ||
          t.tokenState.NumberExponentOpen?)))
  }

  /** Between the quotes of a string; nothing of it is kept. */
  predicate InString(t: Tokenizer) {
    t.tokenState.StringOpen? && t.value == [] && t.unicodeIndex == 0 && t.unicode == 0
  }

  predicate IsSkipping(base: Machine, kind: Kind) {
    base.stack != [] && base.Top().state == SkipNested(kind)
  }

  function Forgotten(t: Tokenizer): Tokenizer {
    t.(value := [], tokenState := Open)
  }

  /** What a token does to a parser that skips: brackets of its own kind are counted, everything else is forgotten. */
  lemma SkipMoved(base: Machine, kind: Kind, k: nat, t: Tokenizer, u: Tokenizer, limits: Limits, visitor: Visitor)
    requires IsSkipping(base, kind)
    ensures var n := Moved(At(base, k, t), u, limits, visitor);
            n == if !u.tokenState.Done? then At(base, k, u)
                 else if u.token == Counted(kind, true) then At(base, (k + 1) % 0x1_0000_0000, Forgotten(u))
                 else if u.token != Counted(kind, false) then At(base, k, Forgotten(u))
                 else if k > 0 then At(base, k - 1, Forgotten(u))
                 else At(Resumed(base), 0, Forgotten(u))
  {
  }

  function Counted(kind: Kind, opening: bool): Token {
    if kind.Object? then if opening then LeftBrace else RightBrace
    else if opening then LeftBracket else RightBracket
  }

  /** Skipping is over. */
  function Resumed(base: Machine): Machine
    requires base.stack != []
  {
    base.WithTop(base.Top().(state := Closed))
  }

  /** A number or a word is forgotten when a character ends it. */
  function Settled(t: Tokenizer, c: char): Tokenizer {
    if Ends(t, c) then Forgotten(t.Found(Ended(t))) else t
  }

  lemma OutsideStep(base: Machine, kind: Kind, k: nat, t: Tokenizer, c: char, limits: Limits, visitor: Visitor)
    requires IsSkipping(base, kind) && Outside(t)
    ensures var s := Settled(t, c);
            Outside(s) && !Ends(s, c)
            && Step(At(base, k, t), c, limits, visitor) ==
              Moved(At(base, k, s), Eaten(s, c, false, limits.value), limits, visitor)
  {
    hide Moved, Eaten;
    SkipMoved(base, kind, k, t, t.Found(Ended(t)), limits, visitor);
    WordEnds(t);
  }

  lemma StepOther(base: Machine, kind: Kind, k: nat, t: Tokenizer, c: char, limits: Limits, visitor: Visitor)
      returns (u: Tokenizer)
    requires limits.Valid() && IsSkipping(base, kind) && Outside(t)
    requires c != '"' && c != Opening(kind) && c != Closing(kind)
    ensures Outside(u) && Step(At(base, k, t), c, limits, visitor) == At(base, k, u)
  {
    hide Moved, Step, At;
    OutsideStep(base, kind, k, t, c, limits, visitor);
    var s := Settled(t, c);
    var v := Eaten(s, c, false, limits.value);
    SkipMoved(base, kind, k, s, v, limits, visitor);
    u := if v.tokenState.Done? then Forgotten(v) else v;
  }

  lemma StepQuote(base: Machine, kind: Kind, k: nat, t: Tokenizer, limits: Limits, visitor: Visitor)
      returns (u: Tokenizer)
    requires IsSkipping(base, kind) && Outside(t)
    ensures InString(u) && Step(At(base, k, t), '"', limits, visitor) == At(base, k, u)
  {
    hide Moved, Step, At;
    OutsideStep(base, kind, k, t, '"', limits, visitor);
    var s := Settled(t, '"');
    u := Eaten(s, '"', false, limits.value);
    SkipMoved(base, kind, k, s, u, limits, visitor);
  }

  lemma StepOpening(base: Machine, kind: Kind, k: nat, t: Tokenizer, limits: Limits, visitor: Visitor)
      returns (u: Tokenizer)
    requires IsSkipping(base, kind) && Outside(t) && k + 1 < 0x1_0000_0000
    ensures Outside(u) && Step(At(base, k, t), Opening(kind), limits, visitor) == At(base, k + 1, u)
  {
    hide Moved, Step, At;
    OutsideStep(base, kind, k, t, Opening(kind), limits, visitor);
    var s := Settled(t, Opening(kind));
    var v := Eaten(s, Opening(kind), false, limits.value);
    SkipMoved(base, kind, k, s, v, limits, visitor);
    u := Forgotten(v);
  }

  lemma StepClosing(base: Machine, kind: Kind, k: nat, t: Tokenizer, limits: Limits, visitor: Visitor)
      returns (u: Tokenizer)
    requires IsSkipping(base, kind) && Outside(t)
    ensures Outside(u) && u.tokenState.Open?
    ensures Step(At(base, k, t), Closing(kind), limits, visitor) == if k > 0 then At(base, k - 1, u)
      else At(Resumed(base), 0, u)
  {
    hide Moved, Step, At, Resumed;
    OutsideStep(base, kind, k, t, Closing(kind), limits, visitor);
    var s := Settled(t, Closing(kind));
    var v := Eaten(s, Closing(kind), false, limits.value);
    SkipMoved(base, kind, k, s, v, limits, visitor);
    u := Forgotten(v);
  }

  /** A character that ends no word. */
  lemma PlainStep(base: Machine, kind: Kind, k: nat, t: Tokenizer, c: char, limits: Limits, visitor: Visitor)
    requires IsSkipping(base, kind) && !t.tokenState.Done? && !Ends(t, c)
    requires !t.tokenState.Open?
    ensures var u := Eaten(t, c, false, limits.value);
            Step(At(base, k, t), c, limits, visitor) == At(base, k, if u.tokenState.Done? then Forgotten(u) else u)
  {
    hide Moved;
    SkipMoved(base, kind, k, t, Eaten(t, c, false, limits.value), limits, visitor);
  }

  lemma StepUnquote(base: Machine, kind: Kind, k: nat, t: Tokenizer, limits: Limits, visitor: Visitor)
      returns (u: Tokenizer)
    requires IsSkipping(base, kind) && InString(t)
    ensures Outside(u) && Step(At(base, k, t), '"', limits, visitor) == At(base, k, u)
  {
    hide Step, At;
    PlainStep(base, kind, k, t, '"', limits, visitor);
    u := Forgotten(Eaten(t, '"', false, limits.value));
  }

  /** Nothing in a string, escaped or not, ends it or is kept. */
  lemma StepsPiece(base: Machine, kind: Kind, k: nat, t: Tokenizer, p: Piece, limits: Limits, visitor: Visitor)
    requires limits.Valid() && IsSkipping(base, kind) && InString(t) && IsPiece(p)
    ensures Steps(At(base, k, t), PieceText(p), limits, visitor) == At(base, k, t)
  {
    hide Step, At, Steps;
    match p
    case Plain(c) =>
      PlainStep(base, kind, k, t, c, limits, visitor);
      StepsOne(At(base, k, t), c, limits, visitor);
    case Escape(c) =>
      var e := t.(tokenState := StringOpenAndEscaped);
      PlainStep(base, kind, k, t, '\\', limits, visitor);
      PlainStep(base, kind, k, e, c, limits, visitor);
      StepsOne(At(base, k, e), c, limits, visitor);
      assert PieceText(p) == ['\\'] + [c];
      StepsMore(At(base, k, t), '\\', [c], limits, visitor);
    case Unicode(a, b, c, d) =>
      var e := t.(tokenState := StringOpenAndEscaped);
      var f := t.(tokenState := UnicodeValueOpen);
      PlainStep(base, kind, k, t, '\\', limits, visitor);
      PlainStep(base, kind, k, e, 'u', limits, visitor);
      StepsHex(base, kind, k, f, [a, b, c, d], limits, visitor);
      assert PieceText(p) == ['\\'] + (['u'] + [a, b, c, d]);
      StepsMore(At(base, k, e), 'u', [a, b, c, d], limits, visitor);
      StepsMore(At(base, k, t), '\\', ['u'] + [a, b, c, d], limits, visitor);
  }

  lemma StepsOne(m: Machine, c: char, limits: Limits, visitor: Visitor)
    ensures Steps(m, [c], limits, visitor) == Step(m, c, limits, visitor)
  {
    hide Step;
    StepsMore(m, c, [], limits, visitor);
  }

  lemma StepsMore(m: Machine, c: char, rest: seq<char>, limits: Limits, visitor: Visitor)
    ensures Steps(m, [c] + rest, limits, visitor) == Steps(Step(m, c, limits, visitor), rest, limits, visitor)
  {
    hide Step;
    assert ([c] + rest)[1..] == rest;
  }

  /** The last hexadecimal digits of an escape. */
  lemma {:induction false} StepsHex(base: Machine, kind: Kind, k: nat, t: Tokenizer, s: seq<char>, limits: Limits,
      visitor: Visitor)
    requires limits.Valid() && IsSkipping(base, kind) && (forall i | 0 <= i < |s| :: IsHex(s[i]))
    requires 0 < |s| && t.tokenState.UnicodeValueOpen? && t.value == [] && t.unicodeIndex + |s| == 4
    ensures Steps(At(base, k, t), s, limits, visitor) ==
      At(base, k, t.(tokenState := StringOpen, unicodeIndex := 0, unicode := 0))
    decreases |s|
  {
    hide Step, At, Steps;
    var u := Eaten(t, s[0], false, limits.value);
    PlainStep(base, kind, k, t, s[0], limits, visitor);
    assert [s[0]] + s[1..] == s;
    StepsMore(At(base, k, t), s[0], s[1..], limits, visitor);
    if |s| > 1 {
      StepsHex(base, kind, k, u, s[1..], limits, visitor);
    } else {
      StepsNone(At(base, k, u), limits, visitor);
    }
  }

  lemma StepsNone(m: Machine, limits: Limits, visitor: Visitor)
    ensures Steps(m, [], limits, visitor) == m
  {
  }

  lemma {:induction false} StepsPieces(base: Machine, kind: Kind, k: nat, t: Tokenizer, pieces: seq<Piece>,
      limits: Limits, visitor: Visitor)
    requires limits.Valid() && IsSkipping(base, kind) && InString(t) &&
      forall i | 0 <= i < |pieces| :: IsPiece(pieces[i])
    ensures Steps(At(base, k, t), PiecesText(pieces), limits, visitor) == At(base, k, t)
    decreases |pieces|
  {
    hide Step, At, Steps, PieceText;
    if pieces == [] {
      StepsNone(At(base, k, t), limits, visitor);
    } else {
      StepsPiece(base, kind, k, t, pieces[0], limits, visitor);
      StepsPieces(base, kind, k, t, pieces[1..], limits, visitor);
      StepsConcatenate(At(base, k, t), PieceText(pieces[0]), PiecesText(pieces[1..]), limits, visitor);
    }
  }

  /** Text between brackets, strings and nested brackets included, leaves the count as it was. */
  lemma {:induction false} InsideIsPassedOver(
    base: Machine, kind: Kind, k: nat, t: Tokenizer, inside: Inside, limits: Limits, visitor: Visitor)
      returns (u: Tokenizer)
    requires limits.Valid() && IsSkipping(base, kind) && Outside(t) && IsInside(kind, inside) &&
      k + Depth(inside) < 0x1_0000_0000
    ensures Outside(u) && Steps(At(base, k, t), InsideText(kind, inside), limits, visitor) == At(base, k, u)
    decreases inside
  {
    hide Step, At, Steps, Outside, InString, PiecesText, Opening, Closing;
    match inside
    case End =>
      StepsNone(At(base, k, t), limits, visitor);
      u := t;
    case Other(c, rest) =>
      var v := StepOther(base, kind, k, t, c, limits, visitor);
      u := InsideIsPassedOver(base, kind, k, v, rest, limits, visitor);
      StepsMore(At(base, k, t), c, InsideText(kind, rest), limits, visitor);
    case Quoted(pieces, rest) =>
      var s := StepQuote(base, kind, k, t, limits, visitor);
      StepsPieces(base, kind, k, s, pieces, limits, visitor);
      var v := StepUnquote(base, kind, k, s, limits, visitor);
      u := InsideIsPassedOver(base, kind, k, v, rest, limits, visitor);
      StepsBetween(At(base, k, t), '"', PiecesText(pieces), '"', InsideText(kind, rest), limits, visitor);
    case Group(inner, rest) =>
      var s := StepOpening(base, kind, k, t, limits, visitor);
      var w := InsideIsPassedOver(base, kind, k + 1, s, inner, limits, visitor);
      var v := StepClosing(base, kind, k + 1, w, limits, visitor);
      u := InsideIsPassedOver(base, kind, k, v, rest, limits, visitor);
      StepsBetween(At(base, k, t), Opening(kind), InsideText(kind, inner), Closing(kind), InsideText(kind, rest),
        limits, visitor);
  }

  lemma StepsBetween(m: Machine, first: char, middle: seq<char>, last: char, rest: seq<char>, limits: Limits,
      visitor: Visitor)
    ensures Steps(m, [first] + middle + [last] + rest, limits, visitor) ==
            Steps(Step(Steps(Step(m, first, limits, visitor), middle, limits, visitor), last, limits, visitor), rest,
              limits, visitor)
  {
    hide Step, Steps;
    assert [first] + middle + [last] + rest == [first] + (middle + ([last] + rest));
    StepsMore(m, first, middle + ([last] + rest), limits, visitor);
    var n := Step(m, first, limits, visitor);
    StepsConcatenate(n, middle, [last] + rest, limits, visitor);
    StepsMore(Steps(n, middle, limits, visitor), last, rest, limits, visitor);
  }

  /** The innermost parser waits for a value, and has nothing half read. */
  predicate AwaitsValue(m: Machine) {
    m.stack != [] && m.Top().ExpectsValue() && m.Top().skipped == 0 && IsIdle(m.Top().tokens)
  }

  predicate IsIdle(t: Tokenizer) {
    t.tokenState.Open? && t.value == [] && t.unicodeIndex == 0 && t.unicode == 0
  }

  /** There is no parser left for a nested value, or the visitor does not want it. */
  predicate Declines(m: Machine, kind: Kind, limits: Limits, visitor: Visitor)
    requires m.stack != []
  {
    |m.stack| >= limits.nesting || !visitor(Asked(m, kind, limits)).accepts
  }

  /** The calls made up to and including the question whether the nested value is wanted. */
  function Asked(m: Machine, kind: Kind, limits: Limits): seq<Event>
    requires m.stack != []
  {
    if |m.stack| >= limits.nesting then m.events else m.events + [Event(|m.stack| - 1, VisitNested(m.Top().tag, kind))]
  }

  /** The machine that has found the opening bracket. */
  function Found(m: Machine, kind: Kind): Machine
    requires m.stack != []
  {
    m.WithTop(m.Top().(tokens := m.Top().tokens.Found(Counted(kind, true))))
  }

  lemma OpeningIsNested(m: Machine, kind: Kind, limits: Limits, visitor: Visitor)
    requires AwaitsValue(m)
    ensures Step(m, Opening(kind), limits, visitor) == Nested(Found(m, kind), kind, limits, visitor)
  {
    hide Nested;
    assert Eaten(m.Top().tokens, Opening(kind), m.Top().Saves(), limits.value) ==
      m.Top().tokens.Found(Counted(kind, true));
  }

  lemma DeclinedStep(m: Machine, kind: Kind, limits: Limits, visitor: Visitor) returns (base: Machine, t: Tokenizer)
    requires AwaitsValue(m) && Declines(m, kind, limits, visitor)
    ensures IsSkipping(base, kind) && Outside(t) && Step(m, Opening(kind), limits, visitor) == At(base, 0, t)
    ensures base.events == Asked(m, kind, limits) && |base.stack| == |m.stack|
    ensures base.Top().kind == m.Top().kind && base.Top().tag == []
    ensures forall i | 0 <= i < |m.stack| - 1 :: base.stack[i] == m.stack[i] ||
              base.stack[i] == m.stack[i].(state := SemanticError)
  {
    hide Step, OnToken;
    OpeningIsNested(m, kind, limits, visitor);
    base := Nested(Found(m, kind), kind, limits, visitor);
    t := base.Top().tokens;
    assert At(base, 0, t) == base;
  }

  /** A declined value is passed over exactly: after its closing bracket the innermost parser is where it would be
      after any other value, no call was made about anything inside it, and no other parser has moved. */
  lemma DeclinedValueIsPassedOver(m: Machine, kind: Kind, inside: Inside, limits: Limits, visitor: Visitor)
      returns (n: Machine)
    requires limits.Valid() && AwaitsValue(m) && Declines(m, kind, limits, visitor)
    requires IsInside(kind, inside) && Depth(inside) < 0x1_0000_0000
    ensures n == Steps(m, [Opening(kind)] + InsideText(kind, inside) + [Closing(kind)], limits, visitor)
    ensures n.events == Asked(m, kind, limits) && |n.stack| == |m.stack|
    ensures n.Top().state == Closed && n.Top().kind == m.Top().kind && n.Top().tag == [] && n.Top().skipped == 0 &&
      IsIdle(n.Top().tokens)
    ensures forall i | 0 <= i < |m.stack| - 1 :: n.stack[i] == m.stack[i] ||
              n.stack[i] == m.stack[i].(state := SemanticError)
  {
    hide Step, Steps, Declines, AwaitsValue, Asked, InsideText, IsInside, Depth;
    var base, t := DeclinedStep(m, kind, limits, visitor);
    var u := InsideIsPassedOver(base, kind, 0, t, inside, limits, visitor);
    var v := StepClosing(base, kind, 0, u, limits, visitor);
    n := At(Resumed(base), 0, v);
    StepsBetween(m, Opening(kind), InsideText(kind, inside), Closing(kind), [], limits, visitor);
    StepsNone(n, limits, visitor);
    var text := [Opening(kind)] + InsideText(kind, inside) + [Closing(kind)];
    assert text + [] == text;
  }

  /** What the buffers and counters hold between characters, in whatever pieces the text came. */
  predicate TidyTokens(t: Tokenizer) {
    && (!t.tokenState.UnicodeValueOpen? ==> t.unicodeIndex == 0 && t.unicode == 0)
    && (t.tokenState in {Open, NumberOpen, NumberFractionalOpen, NumberExponentOpen} ==> t.value == [])
    && (t.tokenState.Done? && (t.token.LeftBrace? || t.token.LeftBracket?) ==> t.value == [])
  }

  predicate Tidy(p: Parser) {
    TidyTokens(p.tokens) && (p.state.SkipNested? || p.state.SemanticError? || p.skipped == 0)
  }

  predicate AllTidy(m: Machine) {
    forall i | 0 <= i < |m.stack| :: Tidy(m.stack[i])
  }

  lemma InitiallyTidy()
    ensures AllTidy(Machine([Parser(Object, Init, [], 0, NEW_TOKENS)], []))
  {
  }

  lemma EatenTidy(t: Tokenizer, c: char, save: bool, max: nat)
    requires TidyTokens(t) && !t.tokenState.Done?
    ensures if Ends(t, c) then TidyTokens(t.Found(Ended(t))) else TidyTokens(Eaten(t, c, save, max))
  {
    WordEnds(t);
  }

  lemma EmitTidy(m: Machine, depth: nat, call: Call, visitor: Visitor)
    requires AllTidy(m)
    ensures AllTidy(EmitAt(m, depth, call, visitor))
  {
  }

  lemma FinishedTidy(m: Machine)
    requires m.stack != [] && AllTidy(m) && m.Top().tokens.tokenState.Done?
    ensures AllTidy(Finished(m))
  {
  }

  lemma NestedTidy(m: Machine, kind: Kind, limits: Limits, visitor: Visitor)
    requires m.stack != [] && AllTidy(m) && m.Top().tokens.value == [] && m.Top().skipped == 0 &&
      m.Top().tokens.tokenState.Done?
    ensures AllTidy(Nested(m, kind, limits, visitor))
  {
    hide EmitAt;
    var p, n := m.Top(), |m.stack| - 1;
    var q := p.(state := Closed, tokens := p.tokens.(tokenState := Open));
    var pushed := m.WithTop(q).(stack := m.WithTop(q).stack + [NewParser(kind, p.tokens)]);
    EmitTidy(pushed, n, VisitNested(p.tag, kind), visitor);
    assert Tidy(EmitAt(pushed, n, VisitNested(p.tag, kind), visitor).stack[n]);
  }

  lemma OnTokenTidy(m: Machine, limits: Limits, visitor: Visitor)
    requires m.stack != [] && AllTidy(m) && m.Top().tokens.tokenState.Done? && !m.Top().state.SemanticError?
    ensures AllTidy(OnToken(m, limits, visitor))
  {
    hide EmitAt, Nested, Finished, ScalarOf, TidyTokens;
    var p := m.Top();
    forall q: Parser | Tidy(q) && q.tokens.tokenState.Done? ensures AllTidy(Finished(m.WithTop(q))) {
      FinishedTidy(m.WithTop(q));
    }
    forall q: Parser, depth, call | Tidy(q) && q.tokens.tokenState.Done?
      ensures AllTidy(Finished(EmitAt(m.WithTop(q), depth, call, visitor))) {
      EmitTidy(m.WithTop(q), depth, call, visitor);
      VisitKeeps(m.WithTop(q), depth, call, visitor);
      FinishedTidy(EmitAt(m.WithTop(q), depth, call, visitor));
    }
    if !p.state.SkipNested? && (p.tokens.token.LeftBrace? || p.tokens.token.LeftBracket?) {
      BracketTidy(p.tokens);
      NestedTidy(m, Object, limits, visitor);
      NestedTidy(m, Array, limits, visitor);
    }
    EmitTidy(m, |m.stack| - 1, Close, visitor);
  }

  lemma BracketTidy(t: Tokenizer)
    requires TidyTokens(t) && t.tokenState.Done? && (t.token.LeftBrace? || t.token.LeftBracket?)
    ensures t.value == []
  {
  }

  lemma MovedTidy(m: Machine, t: Tokenizer, limits: Limits, visitor: Visitor)
    requires m.stack != [] && AllTidy(m) && TidyTokens(t) && !m.Top().state.SemanticError?
    ensures AllTidy(Moved(m, t, limits, visitor))
  {
    hide OnToken, TidyTokens;
    var n := m.WithTop(m.Top().(tokens := t));
    assert AllTidy(n);
    if t.tokenState.Done? {
      OnTokenTidy(n, limits, visitor);
    }
  }

  lemma StepTidy(m: Machine, c: char, limits: Limits, visitor: Visitor)
    requires m.Valid(limits) && AllTidy(m)
    ensures AllTidy(Step(m, c, limits, visitor))
  {
    hide Moved, Ends, Eaten, Ended, TidyTokens;
    if m.stack != [] && !m.Top().state.SemanticError? {
      var t := m.Top().tokens;
      assert Tidy(m.Top());
      EatenTidy(t, c, m.Top().Saves(), limits.value);
      if Ends(t, c) {
        var n := Moved(m, t.Found(Ended(t)), limits, visitor);
        MovedTidy(m, t.Found(Ended(t)), limits, visitor);
        WordEnds(t);
        WordLeavesParser(m, t.Found(Ended(t)), limits, visitor);
        if n.stack != [] && !Ends(n.Top().tokens, c) {
          assert Tidy(n.Top());
          EatenTidy(n.Top().tokens, c, n.Top().Saves(), limits.value);
          MovedTidy(n, Eaten(n.Top().tokens, c, n.Top().Saves(), limits.value), limits, visitor);
        }
      } else {
        MovedTidy(m, Eaten(t, c, m.Top().Saves(), limits.value), limits, visitor);
      }
    }
  }

  /** Whatever has been fed so far, a parser that waits for a value with no token begun is ready to pass over a
      nested one. */
  lemma {:induction false} ReachedAwaitsValue(data: seq<char>, m: Machine, limits: Limits, visitor: Visitor)
    requires m.Valid(limits) && AllTidy(m)
    ensures var n := Steps(m, data, limits, visitor);
            n.Valid(limits) && AllTidy(n)
            && (n.stack != [] && n.Top().ExpectsValue() && n.Top().tokens.tokenState.Open? ==> AwaitsValue(n))
    decreases |data|
  {
    hide Step;
    if data == [] {
      if m.stack != [] {
        assert Tidy(m.Top());
      }
    } else {
      StepValid(m, data[0], limits, visitor);
      StepTidy(m, data[0], limits, visitor);
      ReachedAwaitsValue(data[1..], Step(m, data[0], limits, visitor), limits, visitor);
    }
  }
}
