/** What the streaming parser tells its visitor about a JSON text. */
module JsonMeaning {
  import opened Characters
  import opened JsonTokens
  import opened JsonMachine
  import opened JsonSkip
  import opened JsonSyntax
  import L = JsonLexer

  /** A visitor that wants every nested value and finds no fault. */
  ghost predicate Agrees(visitor: Visitor) {
    forall events :: visitor(events) == Reaction(true, {})
  }

  /** The buffers are large enough for a value in a parser at the given depth. */
  predicate Fits(v: Json, limits: Limits, depth: nat)
    decreases v
  {
    match v
    case Flag(_) => true
    case Null => true
    case Figure(_, _, _) => true
    case Phrase(pieces) => |pieces| <= limits.value
    case Bracketed(_, _, members) => depth + 1 < limits.nesting && MembersFit(members, limits, depth + 1)
  }

  predicate MembersFit(members: Members, limits: Limits, depth: nat)
    decreases members
  {
    match members
    case NoMore => true
    case Member(_, key, _, _, value, _, rest) =>
      |key| <= limits.value && Fits(value, limits, depth) && MembersFit(rest, limits, depth)
  }

  /** A tag is cut to the size of its buffer; an element has none. */
  function TagOf(kind: Kind, key: seq<Piece>, limits: Limits): seq<char>
    requires AllPieces(key)
  {
    if kind.Array? then [] else if |key| <= limits.tag then Meaning(key) else Meaning(key)[..limits.tag]
  }

  /** The calls that describe a value with a tag. */
  function CallsFor(v: Json, depth: nat, tag: seq<char>, limits: Limits): seq<Event>
    requires IsJson(v)
    decreases v
  {
    match v
    case Flag(b) => [Event(depth, VisitValue(tag, Boolean(b)))]
    case Null => [Event(depth, VisitValue(tag, Nothing))]
    case Figure(_, _, _) => [Event(depth, VisitValue(tag, Scalar.Integer(NumberOf(v))))]
    case Phrase(pieces) => [Event(depth, VisitValue(tag, Scalar.Text(Meaning(pieces))))]
    case Bracketed(kind, _, members) =>
      [Event(depth, VisitNested(tag, kind))] +
        (CallsForMembers(kind, members, depth + 1, limits) + [Event(depth + 1, Close)])
  }

  function CallsForMembers(kind: Kind, members: Members, depth: nat, limits: Limits): seq<Event>
    requires AreMembers(members)
    decreases members
  {
    match members
    case NoMore => []
    case Member(_, key, _, _, value, _, rest) =>
      CallsFor(value, depth, TagOf(kind, key, limits), limits) + CallsForMembers(kind, rest, depth, limits)
  }

  // ----- single characters

  /** The machine with its innermost parser in the middle of a token. */
  function With(m: Machine, t: Tokenizer): (n: Machine)
    requires m.stack != []
    ensures n.stack != []
  {
    m.WithTop(m.Top().(tokens := t))
  }

  predicate IsReading(m: Machine) {
    m.stack != [] && !m.Top().state.SkipNested? && !m.Top().state.SemanticError?
  }

  lemma {:induction false} Takes(m: Machine, t: Tokenizer, c: char, limits: Limits, visitor: Visitor)
    requires IsReading(m) && !t.tokenState.Done? && !Ends(t, c)
    ensures Step(With(m, t), c, limits, visitor) == Moved(m, Eaten(t, c, true, limits.value), limits, visitor)
  {
    hide OnToken, Eaten;
    WithWith(m, t, Eaten(t, c, true, limits.value));
  }

  lemma {:induction false} WithWith(m: Machine, t: Tokenizer, u: Tokenizer)
    requires m.stack != []
    ensures With(With(m, t), u) == With(m, u) && With(m, t).Top() == m.Top().(tokens := t)
  {
    var n := |m.stack| - 1;
    assert m.stack[n := m.Top().(tokens := t)][n := m.Top().(tokens := u)] == m.stack[n := m.Top().(tokens := u)];
  }

  lemma {:induction false} TakesOn(m: Machine, t: Tokenizer, c: char, rest: seq<char>, u: Tokenizer, limits: Limits,
      visitor: Visitor)
    requires IsReading(m) && !t.tokenState.Done? && !Ends(t, c) && u == Eaten(t, c, true, limits.value) &&
      !u.tokenState.Done?
    ensures Steps(With(m, t), [c] + rest, limits, visitor) == Steps(With(m, u), rest, limits, visitor)
  {
    hide OnToken, Step, Steps, Eaten;
    Takes(m, t, c, limits, visitor);
    StepsMore(With(m, t), c, rest, limits, visitor);
  }

  // ----- strings

  /** Inside a string of which `value` has been read. */
  predicate IsText(t: Tokenizer, value: seq<char>) {
    t.tokenState.StringOpen? && t.value == value && t.unicodeIndex == 0 && t.unicode == 0
  }

  lemma {:induction false} PlainIsKept(m: Machine, t: Tokenizer, c: char, rest: seq<char>, limits: Limits,
      visitor: Visitor)
    requires IsReading(m) && IsText(t, t.value) && c != '"' && c != '\\' && |t.value| < limits.value
    ensures Steps(With(m, t), [c] + rest, limits, visitor) ==
      Steps(With(m, t.(value := t.value + [c])), rest, limits, visitor)
  {
    TakesOn(m, t, c, rest, t.(value := t.value + [c]), limits, visitor);
  }

  lemma {:induction false} ShortIsKept(m: Machine, t: Tokenizer, l: char, rest: seq<char>, limits: Limits,
      visitor: Visitor)
    requires IsReading(m) && IsText(t, t.value) && l != 'u' && |t.value| < limits.value
    ensures Steps(With(m, t), ['\\', l] + rest, limits, visitor) ==
      Steps(With(m, t.(value := t.value + [Unescape(l)])), rest, limits, visitor)
  {
    hide Steps, With;
    var e := t.(tokenState := StringOpenAndEscaped);
    assert ['\\', l] + rest == ['\\'] + ([l] + rest);
    TakesOn(m, t, '\\', [l] + rest, e, limits, visitor);
    TakesOn(m, e, l, rest, t.(value := t.value + [Unescape(l)]), limits, visitor);
  }

  lemma {:induction false} CodeIsKept(m: Machine, t: Tokenizer, p: Piece, rest: seq<char>, limits: Limits,
      visitor: Visitor)
    requires IsReading(m) && IsText(t, t.value) && p.Unicode? && IsPiece(p) && |t.value| < limits.value
    ensures Steps(With(m, t), ['\\', 'u', p.a, p.b, p.c, p.d] + rest, limits, visitor)
            == Steps(With(m, t.(value := t.value + [Meant(p)])), rest, limits, visitor)
  {
    hide Steps, With, Meant, HexValue, IsHex;
    var last := [p.d] + rest;
    assert ['\\', 'u', p.a, p.b, p.c, p.d] + rest == ['\\'] + (['u'] + ([p.a] + ([p.b] + ([p.c] + last))));
    var e, f := t.(tokenState := StringOpenAndEscaped), t.(tokenState := UnicodeValueOpen);
    TakesOn(m, t, '\\', ['u'] + ([p.a] + ([p.b] + ([p.c] + last))), e, limits, visitor);
    TakesOn(m, e, 'u', [p.a] + ([p.b] + ([p.c] + last)), f, limits, visitor);
    var x := HexValue(p.a);
    HexIsSmall(p.a);
    DigitIsKept(m, f, p.a, [p.b] + ([p.c] + last), limits, visitor);
    var y := x * 16 + HexValue(p.b);
    HexIsSmall(p.b);
    DigitIsKept(m, f.(unicodeIndex := 1, unicode := x), p.b, [p.c] + last, limits, visitor);
    HexIsSmall(p.c);
    DigitIsKept(m, f.(unicodeIndex := 2, unicode := y), p.c, last, limits, visitor);
    HexIsSmall(p.d);
    LastDigit(m, f.(unicodeIndex := 3, unicode := y * 16 + HexValue(p.c)), p, y, rest, limits, visitor);
  }

  lemma HexIsSmall(c: char)
    requires IsHex(c)
    ensures 0 <= HexValue(c) < 16
  {}

  lemma {:induction false} DigitIsKept(m: Machine, t: Tokenizer, d: char, rest: seq<char>, limits: Limits,
      visitor: Visitor)
    requires IsReading(m) && t.tokenState.UnicodeValueOpen? && IsHex(d) && t.unicodeIndex < 3 && t.unicode < 0x1000
    ensures Steps(With(m, t), [d] + rest, limits, visitor)
            == Steps(With(m, t.(unicodeIndex := t.unicodeIndex + 1, unicode := t.unicode * 16 + HexValue(d))), rest,
              limits, visitor)
  {
    HexIsSmall(d);
    TakesOn(m, t, d, rest, t.(unicodeIndex := t.unicodeIndex + 1, unicode := t.unicode * 16 + HexValue(d)),
      limits, visitor);
  }

  lemma {:induction false} LastDigit(m: Machine, t: Tokenizer, p: Piece, y: nat, rest: seq<char>, limits: Limits,
      visitor: Visitor)
    requires IsReading(m) && t.tokenState.UnicodeValueOpen? && p.Unicode? && IsPiece(p) && t.unicodeIndex == 3
    requires y < 256 && t.unicode == y * 16 + HexValue(p.c) && |t.value| < limits.value
    ensures Steps(With(m, t), [p.d] + rest, limits, visitor)
            == Steps(With(m, t.(tokenState := StringOpen, value := t.value + [Meant(p)], unicodeIndex := 0,
              unicode := 0)),
              rest, limits, visitor)
  {
    hide Eaten, Meant, Steps, With, IsHex, HexValue;
    var u := t.(tokenState := StringOpen, value := t.value + [Meant(p)], unicodeIndex := 0, unicode := 0);
    LastDigitEaten(t, p, y, limits.value);
    TakesOn(m, t, p.d, rest, u, limits, visitor);
  }

  lemma LastDigitEaten(t: Tokenizer, p: Piece, y: nat, max: nat)
    requires t.tokenState.UnicodeValueOpen? && p.Unicode? && IsPiece(p) && t.unicodeIndex == 3
    requires y < 256 && t.unicode == y * 16 + HexValue(p.c) && |t.value| < max
    ensures !Ends(t, p.d)
    ensures Eaten(t, p.d, true, max) ==
      t.(tokenState := StringOpen, value := t.value + [Meant(p)], unicodeIndex := 0, unicode := 0)
  {
    hide HexValue;
    HexIsSmall(p.c);
    HexIsSmall(p.d);
    LowByte(y, HexValue(p.c), HexValue(p.d));
  }

  lemma LowByte(y: nat, c: nat, d: nat)
    requires y < 256 && c < 16 && d < 16
    ensures var u := (y * 16 + c) * 16 + d; u % 0x10000 == u && u % 256 == c * 16 + d
  {
    assert (y * 16 + c) * 16 + d == 256 * y + (c * 16 + d);
  }

  lemma {:induction false} PieceIsKept(m: Machine, t: Tokenizer, p: Piece, rest: seq<char>, limits: Limits,
      visitor: Visitor)
    requires IsReading(m) && IsText(t, t.value) && IsPiece(p) && |t.value| < limits.value
    ensures Steps(With(m, t), PieceText(p) + rest, limits, visitor) ==
      Steps(With(m, t.(value := t.value + [Meant(p)])), rest, limits, visitor)
  {
    hide Steps, With;
    match p
    case Plain(c) => PlainIsKept(m, t, c, rest, limits, visitor);
    case Escape(c) => ShortIsKept(m, t, c, rest, limits, visitor);
    case Unicode(_, _, _, _) => CodeIsKept(m, t, p, rest, limits, visitor);
  }

  /** The text of a string leaves the string in the buffer, however it is spelled. */
  lemma {:induction false} StringIsKept(m: Machine, t: Tokenizer, s: seq<Piece>, rest: seq<char>,
      limits: Limits, visitor: Visitor)
    requires IsReading(m) && IsText(t, t.value) && AllPieces(s) && |t.value| + |s| <= limits.value
    ensures Steps(With(m, t), PiecesText(s) + rest, limits, visitor) ==
      Steps(With(m, t.(value := t.value + Meaning(s))), rest, limits, visitor)
    decreases |s|
  {
    hide Steps, With, PieceText, Meant, IsPiece, IsReading;
    if s == [] {
      NothingBefore(rest);
      NothingBehind(t.value);
    } else {
      var more, u := PiecesText(s[1..]) + rest, t.(value := t.value + [Meant(s[0])]);
      Grouped(PieceText(s[0]), PiecesText(s[1..]), rest);
      PieceIsKept(m, t, s[0], more, limits, visitor);
      StringIsKept(m, u, s[1..], rest, limits, visitor);
      Grouped(t.value, [Meant(s[0])], Meaning(s[1..]));
    }
  }

  lemma NothingBehind(s: seq<char>)
    ensures s + [] == s
  {}

  // ----- tokens

  /** A character that is a token by itself, or the quote that ends one. */
  lemma {:induction false} Completes(m: Machine, t: Tokenizer, c: char, rest: seq<char>, token: Token, limits: Limits,
      visitor: Visitor)
    requires IsReading(m) && !t.tokenState.Done? && !Ends(t, c) && Eaten(t, c, true, limits.value) == t.Found(token)
    ensures Steps(With(m, t), [c] + rest, limits, visitor) ==
      Steps(OnToken(With(m, t.Found(token)), limits, visitor), rest, limits, visitor)
  {
    hide OnToken, Step, Steps, Eaten, With;
    Takes(m, t, c, limits, visitor);
    StepsMore(With(m, t), c, rest, limits, visitor);
    MovedDone(m, t.Found(token), limits, visitor);
  }

  lemma {:induction false} MovedDone(m: Machine, t: Tokenizer, limits: Limits, visitor: Visitor)
    requires m.stack != [] && t.tokenState.Done?
    ensures Moved(m, t, limits, visitor) == OnToken(With(m, t), limits, visitor)
  {
    hide OnToken;
  }

  /** A number or a word that the next character ends. */
  lemma {:induction false} IsEnded(m: Machine, t: Tokenizer, rest: seq<char>, limits: Limits, visitor: Visitor)
    requires IsReading(m) && rest != [] && Ends(t, rest[0])
    ensures Steps(With(m, t), rest, limits, visitor) ==
      Steps(OnToken(With(m, t.Found(Ended(t))), limits, visitor), rest, limits, visitor)
  {
    hide OnToken, Ended;
    var c, more := rest[0], rest[1..];
    var n := Moved(With(m, t), t.Found(Ended(t)), limits, visitor);
    WordEnds(t);
    WithWith(m, t, t.Found(Ended(t)));
    WordLeavesParser(With(m, t), t.Found(Ended(t)), limits, visitor);
    MovedDone(With(m, t), t.Found(Ended(t)), limits, visitor);
    assert Step(n, c, limits, visitor) == Take(n, c, limits, visitor);
  }

  lemma {:induction false} SpaceIsSkipped(m: Machine, c: char, rest: seq<char>, limits: Limits, visitor: Visitor)
    requires IsReading(m) && IsIdle(m.Top().tokens) && IsSpace(c)
    ensures Steps(m, [c] + rest, limits, visitor) == Steps(m, rest, limits, visitor)
  {
    hide Steps;
    assert With(m, m.Top().tokens) == m;
    TakesOn(m, m.Top().tokens, c, rest, m.Top().tokens, limits, visitor);
  }

  lemma {:induction false} GapIsSkipped(m: Machine, gap: seq<char>, rest: seq<char>, limits: Limits, visitor: Visitor)
    requires IsReading(m) && IsIdle(m.Top().tokens) && IsGap(gap)
    ensures Steps(m, gap + rest, limits, visitor) == Steps(m, rest, limits, visitor)
    decreases |gap|
  {
    hide Steps;
    if gap == [] {
      assert gap + rest == rest;
    } else {
      assert gap + rest == [gap[0]] + (gap[1..] + rest);
      SpaceIsSkipped(m, gap[0], gap[1..] + rest, limits, visitor);
      GapIsSkipped(m, gap[1..], rest, limits, visitor);
    }
  }

  // ----- values

  /** `n` is `m` with nothing changed but its innermost parser, which has nothing half read, and with more calls. */
  ghost predicate Leads(m: Machine, n: Machine, events: seq<Event>) {
    && m.stack != [] && |n.stack| == |m.stack| && n.events == m.events + events
    && (forall i | 0 <= i < |m.stack| - 1 :: n.stack[i] == m.stack[i])
    && n.Top().kind == m.Top().kind && n.Top().skipped == 0 && IsIdle(n.Top().tokens)
  }

  /** A value has been dealt with. */
  ghost predicate IsVisited(m: Machine, n: Machine, events: seq<Event>) {
    Leads(m, n, events) && n.Top().state == Closed && n.Top().tag == []
  }

  lemma {:induction false} AgreeableVisit(m: Machine, depth: nat, call: Call, visitor: Visitor)
    requires Agrees(visitor)
    ensures EmitAt(m, depth, call, visitor) == Machine(m.stack, m.events + [Event(depth, call)])
  {
    assert Marked(m.stack, {}) == m.stack;
  }

  lemma {:induction false} ScalarIsVisited(m: Machine, t: Tokenizer, limits: Limits, visitor: Visitor)
    requires Agrees(visitor) && AwaitsValue(m) && !m.Top().state.Init? && t.tokenState.Done? && IsScalar(t.token)
    requires t.unicodeIndex == 0 && t.unicode == 0
    ensures var n := OnToken(With(m, t), limits, visitor);
            IsVisited(m, n, [Event(|m.stack| - 1, VisitValue(m.Top().tag, ScalarOf(t)))])
  {
    hide EmitAt, ScalarOf, Agrees;
    var closed := With(m, t).WithTop(With(m, t).Top().(state := Closed, tag := []));
    AgreeableVisit(closed, |m.stack| - 1, VisitValue(m.Top().tag, ScalarOf(t)), visitor);
  }

  /** What a number is after further digits. */
  function Grown(x: nat, d: seq<char>): nat
    requires forall i | 0 <= i < |d| :: IsDigit(d[i])
    decreases |d|
  {
    if d == [] then x else Grown(x * 10 + L.DigitValue(d[0]), d[1..])
  }

  lemma {:induction false} GrownByOne(x: nat, d: seq<char>, c: char)
    requires IsDigit(c) && forall i | 0 <= i < |d| :: IsDigit(d[i])
    ensures Grown(x, d + [c]) == Grown(x, d) * 10 + L.DigitValue(c)
    decreases |d|
  {
    if d == [] {
      assert d + [c] == [c] && [c][1..] == [];
    } else {
      assert (d + [c])[1..] == d[1..] + [c];
      GrownByOne(x * 10 + L.DigitValue(d[0]), d[1..], c);
    }
  }

  lemma {:induction false} GrownIsNumber(d: seq<char>)
    requires forall i | 0 <= i < |d| :: IsDigit(d[i])
    ensures Grown(0, d) == L.Number(d)
    decreases |d|
  {
    if d != [] {
      var e := d[..|d| - 1];
      GrownIsNumber(e);
      GrownByOne(0, e, d[|d| - 1]);
      assert e + [d[|d| - 1]] == d;
    }
  }

  lemma {:induction false} DigitsAreRead(m: Machine, t: Tokenizer, d: seq<char>, rest: seq<char>, limits: Limits,
      visitor: Visitor)
    requires IsReading(m) && t.tokenState.NumberOpen? && t.number >= 0 && forall i | 0 <= i < |d| :: IsDigit(d[i])
    ensures Steps(With(m, t), d + rest, limits, visitor) ==
      Steps(With(m, t.(number := Grown(t.number, d))), rest, limits, visitor)
    decreases |d|
  {
    hide Steps, With;
    if d == [] {
      assert d + rest == rest;
    } else {
      var u := t.(number := t.number * 10 + L.DigitValue(d[0]));
      assert d + rest == [d[0]] + (d[1..] + rest);
      TakesOn(m, t, d[0], d[1..] + rest, u, limits, visitor);
      DigitsAreRead(m, u, d[1..], rest, limits, visitor);
    }
  }

  /** The digits of a number leave its value and its sign. */
  lemma {:induction false} FigureIsRead(m: Machine, negative: bool, d: seq<char>, rest: seq<char>, limits: Limits,
      visitor: Visitor) returns (t: Tokenizer)
    requires IsReading(m) && IsIdle(m.Top().tokens) && AllDigits(d) && (d != [] || negative)
    ensures Steps(m, (if negative then ['-'] else []) + d + rest, limits, visitor) ==
      Steps(With(m, t), rest, limits, visitor)
    ensures t.tokenState.NumberOpen? && t.sign * t.number == (if negative then 0 - L.Number(d) else L.Number(d))
    ensures t.value == [] && t.unicodeIndex == 0 && t.unicode == 0
  {
    hide Steps, With, L.Number;
    var s := m.Top().tokens;
    WithItself(m);
    GrownIsNumber(d);
    if negative {
      var u := s.(tokenState := NumberOpen, number := 0, sign := -1);
      assert ['-'] + d + rest == ['-'] + (d + rest);
      TakesOn(m, s, '-', d + rest, u, limits, visitor);
      DigitsAreRead(m, u, d, rest, limits, visitor);
      t := u.(number := Grown(0, d));
    } else {
      var u := s.(tokenState := NumberOpen, number := L.DigitValue(d[0]), sign := 1);
      assert [] + d + rest == [d[0]] + (d[1..] + rest);
      FirstDigit(s, d[0], limits.value);
      TakesOn(m, s, d[0], d[1..] + rest, u, limits, visitor);
      DigitsAreRead(m, u, d[1..], rest, limits, visitor);
      t := u.(number := Grown(L.DigitValue(d[0]), d[1..]));
      assert Grown(0, d) == Grown(L.DigitValue(d[0]), d[1..]);
    }
  }

  /** Characters that a number takes without being changed by them. */
  lemma {:induction false} PassedOver(m: Machine, t: Tokenizer, d: seq<char>, rest: seq<char>, limits: Limits,
      visitor: Visitor)
    requires IsReading(m) && (t.tokenState.NumberFractionalOpen? || t.tokenState.NumberExponentOpen?)
    requires forall i | 0 <= i < |d| :: IsDigit(d[i]) ||
               (t.tokenState.NumberExponentOpen? && (d[i] == '+' || d[i] == '-'))
    ensures Steps(With(m, t), d + rest, limits, visitor) == Steps(With(m, t), rest, limits, visitor)
    decreases |d|
  {
    hide Steps, With;
    if d == [] {
      assert d + rest == rest;
    } else {
      assert d + rest == [d[0]] + (d[1..] + rest);
      TakesOn(m, t, d[0], d[1..] + rest, t, limits, visitor);
      PassedOver(m, t, d[1..], rest, limits, visitor);
    }
  }

  lemma {:induction false} PowerIsRead(m: Machine, f: Tokenizer, d: seq<char>, e: char, power: seq<char>,
      rest: seq<char>,
      limits: Limits, visitor: Visitor) returns (u: Tokenizer)
    requires IsReading(m) && f.tokenState.NumberFractionalOpen? && IsTail(Exponent(d, e, power))
    ensures Steps(With(m, f), d + ([e] + (power + rest)), limits, visitor) == Steps(With(m, u), rest, limits, visitor)
    ensures u == f.(tokenState := NumberExponentOpen)
  {
    hide Steps, With;
    u := f.(tokenState := NumberExponentOpen);
    PassedOver(m, f, d, [e] + (power + rest), limits, visitor);
    TakesOn(m, f, e, power + rest, u, limits, visitor);
    PassedOver(m, u, power, rest, limits, visitor);
  }

  lemma {:induction false} FractionStarts(m: Machine, t: Tokenizer, rest: seq<char>, limits: Limits, visitor: Visitor)
    requires IsReading(m) && t.tokenState.NumberOpen?
    ensures Steps(With(m, t), ['.'] + rest, limits, visitor) ==
      Steps(With(m, t.(tokenState := NumberFractionalOpen)), rest, limits, visitor)
  {
    hide Steps, With;
    TakesOn(m, t, '.', rest, t.(tokenState := NumberFractionalOpen), limits, visitor);
  }

  lemma Grouped(a: seq<char>, b: seq<char>, c: seq<char>)
    ensures a + b + c == a + (b + c)
  {}

  lemma ExponentText(d: seq<char>, e: char, power: seq<char>, rest: seq<char>)
    ensures ['.'] + d + [e] + power + rest == ['.'] + (d + ([e] + (power + rest)))
  {}

  /** Fraction and exponent change nothing of the number. */
  lemma {:induction false} TailIsRead(m: Machine, t: Tokenizer, tail: Tail, rest: seq<char>, limits: Limits,
      visitor: Visitor)
      returns (u: Tokenizer)
    requires IsReading(m) && t.tokenState.NumberOpen? && IsTail(tail)
    ensures Steps(With(m, t), TailText(tail) + rest, limits, visitor) == Steps(With(m, u), rest, limits, visitor)
    ensures u == t.(tokenState := u.tokenState)
    ensures u.tokenState.NumberOpen? || u.tokenState.NumberFractionalOpen? || u.tokenState.NumberExponentOpen?
  {
    hide Steps, With, IsReading;
    var f := t.(tokenState := NumberFractionalOpen);
    match tail
    case NoTail =>
      u := t;
      NothingBefore(rest);
    case Fraction(d) =>
      u := f;
      Grouped(['.'], d, rest);
      FractionStarts(m, t, d + rest, limits, visitor);
      PassedOver(m, f, d, rest, limits, visitor);
    case Exponent(d, e, power) =>
      ExponentText(d, e, power, rest);
      FractionStarts(m, t, d + ([e] + (power + rest)), limits, visitor);
      u := PowerIsRead(m, f, d, e, power, rest, limits, visitor);
  }

  lemma {:induction false} FirstDigit(t: Tokenizer, c: char, max: nat)
    requires IsIdle(t) && IsDigit(c)
    ensures Eaten(t, c, true, max) == t.(tokenState := NumberOpen, number := L.DigitValue(c), sign := 1)
  {
  }

  lemma {:induction false} WithItself(m: Machine)
    requires m.stack != []
    ensures With(m, m.Top().tokens) == m
  {
  }

  lemma {:induction false} LettersAreRead(m: Machine, t: Tokenizer, w: seq<char>, rest: seq<char>, limits: Limits,
      visitor: Visitor)
    requires IsReading(m) && t.tokenState.IdentifierOpen? && (forall i | 0 <= i < |w| :: IsAlpha(w[i])) &&
      |t.value| + |w| <= limits.value
    ensures Steps(With(m, t), w + rest, limits, visitor) ==
      Steps(With(m, t.(value := t.value + w)), rest, limits, visitor)
    decreases |w|
  {
    hide Steps, With;
    if w == [] {
      assert w + rest == rest && t.value + w == t.value;
    } else {
      var u := t.(value := t.value + [w[0]]);
      assert w + rest == [w[0]] + (w[1..] + rest);
      TakesOn(m, t, w[0], w[1..] + rest, u, limits, visitor);
      LettersAreRead(m, u, w[1..], rest, limits, visitor);
      assert t.value + [w[0]] + w[1..] == t.value + w;
    }
  }

  predicate AllLetters(w: seq<char>) {
    forall i | 0 <= i < |w| :: IsAlpha(w[i])
  }

  /** Any word that fits is left in the buffer. */
  lemma {:induction false} WordIsRead(m: Machine, w: seq<char>, rest: seq<char>, limits: Limits, visitor: Visitor)
      returns (t: Tokenizer)
    requires IsReading(m) && IsIdle(m.Top().tokens) && w != [] && AllLetters(w) && |w| <= limits.value
    ensures Steps(m, w + rest, limits, visitor) == Steps(With(m, t), rest, limits, visitor)
    ensures t.tokenState.IdentifierOpen? && t.value == w && t.unicodeIndex == 0 && t.unicode == 0
  {
    hide Steps, With, IsIdle;
    var s := m.Top().tokens;
    WordStarts(m, w[0], w[1..] + rest, limits, visitor);
    var u := s.(tokenState := IdentifierOpen, value := [w[0]]);
    assert w + rest == [w[0]] + (w[1..] + rest) && [w[0]] + w[1..] == w;
    LettersAreRead(m, u, w[1..], rest, limits, visitor);
    IdleIsEmpty(s);
    t := u.(value := w);
  }

  lemma WordStarts(m: Machine, c: char, rest: seq<char>, limits: Limits, visitor: Visitor)
    requires IsReading(m) && IsIdle(m.Top().tokens) && limits.value > 0 && IsAlpha(c)
    ensures var u := m.Top().tokens.(tokenState := IdentifierOpen, value := [c]);
      Steps(m, [c] + rest, limits, visitor) == Steps(With(m, u), rest, limits, visitor)
  {
    hide Steps, With;
    var s := m.Top().tokens;
    WithItself(m);
    TakesOn(m, s, c, rest, s.(tokenState := IdentifierOpen, value := [c]), limits, visitor);
  }

  lemma IdleIsEmpty(t: Tokenizer)
    requires IsIdle(t)
    ensures t.unicodeIndex == 0 && t.unicode == 0
  {}

  /** A string leaves the token with what it means. */
  lemma {:induction false} TextIsRead(m: Machine, s: seq<Piece>, rest: seq<char>, limits: Limits, visitor: Visitor)
      returns (t: Tokenizer)
    requires IsReading(m) && IsIdle(m.Top().tokens) && AllPieces(s) && |s| <= limits.value
    ensures Steps(m, ['"'] + PiecesText(s) + ['"'] + rest, limits, visitor) ==
      Steps(OnToken(With(m, t), limits, visitor), rest, limits, visitor)
    ensures t.tokenState.Done? && t.token == String && t.value == Meaning(s) && t.unicodeIndex == 0 && t.unicode == 0
  {
    hide Steps, With, PiecesText, OnToken, Meaning;
    var i := m.Top().tokens;
    WithItself(m);
    var more := ['"'] + rest;
    assert ['"'] + PiecesText(s) + ['"'] + rest == ['"'] + (PiecesText(s) + more);
    var u := i.(tokenState := StringOpen);
    TakesOn(m, i, '"', PiecesText(s) + more, u, limits, visitor);
    StringIsKept(m, u, s, more, limits, visitor);
    assert [] + Meaning(s) == Meaning(s);
    var v := u.(value := Meaning(s));
    Completes(m, v, '"', rest, String, limits, visitor);
    t := v.Found(String);
  }

  /** What ends a number or a word in a JSON text. */
  predicate IsDelimiter(s: seq<char>) {
    s != [] && (IsSpace(s[0]) || s[0] == ',' || s[0] == '}' || s[0] == ']')
  }

  /** The buffers and the visitor leave nothing to be desired. */
  ghost predicate AllFine(limits: Limits, visitor: Visitor) {
    limits.value >= 5 && Agrees(visitor)
  }

  lemma {:induction false} WordLeads(m: Machine, w: seq<char>, token: Token, rest: seq<char>, limits: Limits,
      visitor: Visitor)
      returns (n: Machine)
    requires AllFine(limits, visitor) && AwaitsValue(m) && IsDelimiter(rest)
    requires (w == "true" && token == True) || (w == "false" && token == False) ||
      (w == "null" && token == JsonTokens.Null)
    ensures Steps(m, w + rest, limits, visitor) == Steps(n, rest, limits, visitor)
    ensures IsVisited(m, n, [Event(|m.stack| - 1, VisitValue(m.Top().tag,
      if w == "null" then Nothing else Boolean(w == "true")))])
  {
    hide Steps, With, OnToken, IsVisited, Agrees;
    var t := WordIsRead(m, w, rest, limits, visitor);
    IsEnded(m, t, rest, limits, visitor);
    ScalarIsVisited(m, t.Found(token), limits, visitor);
    n := OnToken(With(m, t.Found(token)), limits, visitor);
  }

  lemma {:induction false} FigureLeads(m: Machine, v: Json, rest: seq<char>, limits: Limits, visitor: Visitor)
      returns (n: Machine)
    requires AllFine(limits, visitor) && AwaitsValue(m) && IsDelimiter(rest) && v.Figure? && IsJson(v)
    ensures Steps(m, Print(v) + rest, limits, visitor) == Steps(n, rest, limits, visitor)
    ensures IsVisited(m, n, [Event(|m.stack| - 1, VisitValue(m.Top().tag, Scalar.Integer(NumberOf(v))))])
  {
    hide Steps, With, OnToken, IsVisited, Agrees, L.Number, TailText;
    var more := TailText(v.tail) + rest;
    assert Print(v) + rest == (if v.negative then ['-'] else []) + v.digits + more;
    var t := FigureIsRead(m, v.negative, v.digits, more, limits, visitor);
    var u := TailIsRead(m, t, v.tail, rest, limits, visitor);
    IsEnded(m, u, rest, limits, visitor);
    ScalarIsVisited(m, u.Found(Number), limits, visitor);
    n := OnToken(With(m, u.Found(Number)), limits, visitor);
  }

  lemma {:induction false} ScalarLeads(m: Machine, v: Json, rest: seq<char>, limits: Limits, visitor: Visitor)
      returns (n: Machine)
    requires AllFine(limits, visitor) && AwaitsValue(m) && IsDelimiter(rest) && IsJson(v) && !v.Bracketed? &&
      Fits(v, limits, |m.stack| - 1)
    ensures Steps(m, Print(v) + rest, limits, visitor) == Steps(n, rest, limits, visitor)
    ensures IsVisited(m, n, CallsFor(v, |m.stack| - 1, m.Top().tag, limits))
  {
    hide Steps, With, OnToken, IsVisited, Agrees, PiecesText, Meaning;
    match v
    case Flag(b) => n := WordLeads(m, if b then "true" else "false", if b then True else False, rest, limits, visitor);
    case Null => n := WordLeads(m, "null", JsonTokens.Null, rest, limits, visitor);
    case Figure(_, _, _) => n := FigureLeads(m, v, rest, limits, visitor);
    case Phrase(s) =>
      var t := TextIsRead(m, s, rest, limits, visitor);
      ScalarIsVisited(m, t, limits, visitor);
      n := OnToken(With(m, t), limits, visitor);
  }

  /** The opening bracket of a nested value makes a new parser. */
  lemma {:induction false} NestedIsOpened(m: Machine, kind: Kind, rest: seq<char>, limits: Limits, visitor: Visitor)
      returns (n: Machine)
    requires Agrees(visitor) && AwaitsValue(m) && |m.stack| < limits.nesting
    ensures Steps(m, [Opening(kind)] + rest, limits, visitor) == Steps(n, rest, limits, visitor)
    ensures |n.stack| == |m.stack| + 1 && n.events == m.events + [Event(|m.stack| - 1, VisitNested(m.Top().tag, kind))]
    ensures n.Top() == Parser(kind, InitialOpen, [], 0, n.Top().tokens) && IsIdle(n.Top().tokens)
    ensures IsVisited(m, Machine(n.stack[..|m.stack|], m.events), [])
  {
    hide Steps, OnToken, Step, EmitAt, Agrees;
    OpeningIsNested(m, kind, limits, visitor);
    StepsMore(m, Opening(kind), rest, limits, visitor);
    var f := Found(m, kind);
    n := Nested(f, kind, limits, visitor);
    var p, k := f.Top(), |m.stack| - 1;
    var q := p.(state := Closed, tokens := p.tokens.(tokenState := Open));
    var pushed := f.WithTop(q).(stack := f.WithTop(q).stack + [NewParser(kind, p.tokens)]);
    AgreeableVisit(pushed, k, VisitNested(p.tag, kind), visitor);
    VisitorAgrees(pushed.events + [Event(k, VisitNested(p.tag, kind))], visitor);
    assert m.events + [] == m.events;
  }

  lemma {:induction false} VisitorAgrees(events: seq<Event>, visitor: Visitor)
    requires Agrees(visitor)
    ensures visitor(events) == Reaction(true, {})
  {
  }

  /** Its closing bracket ends that parser. */
  lemma {:induction false} NestedIsClosed(m: Machine, kind: Kind, rest: seq<char>, limits: Limits, visitor: Visitor)
      returns (n: Machine)
    requires Agrees(visitor) && IsReading(m) && m.Top().kind == kind && IsIdle(m.Top().tokens)
    requires m.Top().state == InitialOpen || m.Top().state == Closed
    ensures Steps(m, [Closing(kind)] + rest, limits, visitor) == Steps(n, rest, limits, visitor)
    ensures n == Machine(m.stack[..|m.stack| - 1], m.events + [Event(|m.stack| - 1, Close)])
  {
    hide Steps, With, EmitAt, Agrees;
    var t := m.Top().tokens;
    WithItself(m);
    BracketFound(t, kind, limits.value);
    Completes(m, t, Closing(kind), rest, Counted(kind, false), limits, visitor);
    var f := With(m, t.Found(Counted(kind, false)));
    ClosingToken(m, kind, limits, visitor);
    n := OnToken(f, limits, visitor);
  }

  lemma {:induction false} BracketFound(t: Tokenizer, kind: Kind, max: nat)
    requires IsIdle(t)
    ensures Eaten(t, Closing(kind), true, max) == t.Found(Counted(kind, false))
  {
  }

  lemma {:induction false} ClosingToken(m: Machine, kind: Kind, limits: Limits, visitor: Visitor)
    requires Agrees(visitor) && IsReading(m) && m.Top().kind == kind &&
      (m.Top().state == InitialOpen || m.Top().state == Closed)
    ensures OnToken(With(m, m.Top().tokens.Found(Counted(kind, false))), limits, visitor)
            == Machine(m.stack[..|m.stack| - 1], m.events + [Event(|m.stack| - 1, Close)])
  {
    hide EmitAt, Agrees;
    var f := With(m, m.Top().tokens.Found(Counted(kind, false)));
    AgreeableVisit(f, |m.stack| - 1, Close, visitor);
    assert f.stack[..|m.stack| - 1] == m.stack[..|m.stack| - 1];
  }

  /** A comma, and the gap behind it. */
  lemma {:induction false} CommaIsRead(m: Machine, gap: seq<char>, rest: seq<char>, limits: Limits, visitor: Visitor)
      returns (n: Machine)
    requires m.stack != [] && m.Top().state == Closed && m.Top().skipped == 0 && IsIdle(m.Top().tokens) && IsGap(gap)
    ensures Steps(m, [','] + (gap + rest), limits, visitor) == Steps(n, rest, limits, visitor)
    ensures Leads(m, n, []) && n.Top().state == Opened && n.Top().tag == m.Top().tag
  {
    hide Steps;
    var t := m.Top().tokens;
    WithItself(m);
    Completes(m, t, ',', gap + rest, Comma, limits, visitor);
    n := OnToken(With(m, t.Found(Comma)), limits, visitor);
    assert m.events + [] == m.events;
    GapIsSkipped(n, gap, rest, limits, visitor);
  }

  /** A key with its colon and the gaps behind both. */
  lemma {:induction false} TagIsRead(m: Machine, key: seq<Piece>, afterKey: seq<char>, afterColon: seq<char>,
      rest: seq<char>, limits: Limits, visitor: Visitor) returns (n: Machine)
    requires m.stack != [] && m.Top().kind == Object && (m.Top().state == InitialOpen || m.Top().state == Opened)
    requires m.Top().skipped == 0 && IsIdle(m.Top().tokens) && AllPieces(key) && |key| <= limits.value
    requires IsGap(afterKey) && IsGap(afterColon)
    ensures Steps(m, KeyText(Object, key, afterKey, afterColon) + rest, limits, visitor) ==
      Steps(n, rest, limits, visitor)
    ensures Leads(m, n, []) && n.Top().state == ValueExpected && n.Top().tag == TagOf(Object, key, limits)
  {
    hide Steps, OnToken, Meaning, PiecesText;
    var more := afterKey + ([':'] + (afterColon + rest));
    assert KeyText(Object, key, afterKey, afterColon) + rest == ['"'] + PiecesText(key) + ['"'] + more;
    var t := TextIsRead(m, key, more, limits, visitor);
    n := ColonIsRead(m, OnToken(With(m, t), limits, visitor), t, afterKey, afterColon, rest, limits, visitor);
  }

  /** What of a string the buffer for tags holds. */
  function Cut(s: seq<char>, max: nat): seq<char> {
    if |s| <= max then s else s[..max]
  }

  lemma {:induction false} ColonIsRead(m: Machine, k: Machine, t: Tokenizer, afterKey: seq<char>, afterColon: seq<char>,
      rest: seq<char>, limits: Limits, visitor: Visitor) returns (n: Machine)
    requires m.stack != [] && m.Top().kind == Object && (m.Top().state == InitialOpen || m.Top().state == Opened) &&
      m.Top().skipped == 0 && IsGap(afterKey) && IsGap(afterColon)
    requires t.tokenState.Done? && (t.token == String || t.token == StringOverflow) && t.unicodeIndex == 0 &&
      t.unicode == 0
    requires k == OnToken(With(m, t), limits, visitor)
    ensures Steps(k, afterKey + ([':'] + (afterColon + rest)), limits, visitor) == Steps(n, rest, limits, visitor)
    ensures Leads(m, n, []) && n.Top().state == ValueExpected && n.Top().tag == Cut(t.value, limits.tag)
  {
    hide Steps;
    assert k.Top().state == TagClosed && k.Top().tag == Cut(t.value, limits.tag);
    var u := k.Top().tokens;
    WithItself(k);
    GapIsSkipped(k, afterKey, [':'] + (afterColon + rest), limits, visitor);
    Completes(k, u, ':', afterColon + rest, Colon, limits, visitor);
    n := OnToken(With(k, u.Found(Colon)), limits, visitor);
    assert m.events + [] == m.events;
    GapIsSkipped(n, afterColon, rest, limits, visitor);
  }

  // ----- nested values

  lemma {:induction false} LeadsLeads(a: Machine, b: Machine, c: Machine, first: seq<Event>, second: seq<Event>)
    requires Leads(a, b, first) && Leads(b, c, second)
    ensures Leads(a, c, first + second)
  {
  }

  /** Any value is described by its calls, to any depth, and the parser then waits for what follows a value. */
  lemma {:induction false} ValueLeads(m: Machine, v: Json, rest: seq<char>, limits: Limits, visitor: Visitor)
      returns (n: Machine)
    requires AllFine(limits, visitor) && AwaitsValue(m) && IsDelimiter(rest) && IsJson(v) &&
      Fits(v, limits, |m.stack| - 1)
    ensures Steps(m, Print(v) + rest, limits, visitor) == Steps(n, rest, limits, visitor)
    ensures IsVisited(m, n, CallsFor(v, |m.stack| - 1, m.Top().tag, limits))
    decreases v
  {
    hide Steps, PrintMembers, IsIdle, AwaitsValue;
    if !v.Bracketed? {
      n := ScalarLeads(m, v, rest, limits, visitor);
    } else {
      var kind := v.kind;
      var f, end := PrintMembers(kind, v.members, true), [Closing(kind)] + rest;
      assert Print(v) + rest == [Opening(kind)] + (v.gap + (f + end));
      var a := NestedIsOpened(m, kind, v.gap + (f + end), limits, visitor);
      GapIsSkipped(a, v.gap, f + end, limits, visitor);
      var b := MembersLead(a, kind, v.members, true, end, limits, visitor);
      n := NestedIsClosed(b, kind, rest, limits, visitor);
      Together(m, a, b, n, CallsForMembers(kind, v.members, |m.stack|, limits), kind);
    }
  }

  /** Opening, members and closing of a nested value, seen from the parser around it. */
  lemma {:induction false} Together(m: Machine, a: Machine, b: Machine, n: Machine, calls: seq<Event>, kind: Kind)
    requires m.stack != [] && |a.stack| == |m.stack| + 1 &&
      a.events == m.events + [Event(|m.stack| - 1, VisitNested(m.Top().tag, kind))]
    requires IsVisited(m, Machine(a.stack[..|m.stack|], m.events), []) && Leads(a, b, calls)
    requires n == Machine(b.stack[..|b.stack| - 1], b.events + [Event(|b.stack| - 1, Close)])
    ensures IsVisited(m, n, [Event(|m.stack| - 1, VisitNested(m.Top().tag, kind))] +
      (calls + [Event(|m.stack|, Close)]))
  {
    hide IsIdle;
    var k := |m.stack|;
    assert b.stack[..k] == a.stack[..k];
  }

  lemma {:induction false} MembersLead(m: Machine, kind: Kind, members: Members, first: bool, rest: seq<char>,
      limits: Limits, visitor: Visitor)
    returns (n: Machine)
    requires AllFine(limits, visitor) && m.stack != [] && m.Top().kind == kind && m.Top().tag == [] &&
      m.Top().skipped == 0
    requires m.Top().state == (if first then InitialOpen else Closed) && IsIdle(m.Top().tokens)
    requires AreMembers(members) && MembersFit(members, limits, |m.stack| - 1) && IsDelimiter(rest)
    ensures Steps(m, PrintMembers(kind, members, first) + rest, limits, visitor) == Steps(n, rest, limits, visitor)
    ensures Leads(m, n, CallsForMembers(kind, members, |m.stack| - 1, limits)) && n.Top().tag == []
    ensures n.Top().state == InitialOpen || n.Top().state == Closed
    decreases members
  {
    hide Steps, Print, KeyText, PrintMembers, IsJson, CallsFor, Leads, AwaitsValue, IsIdle, AllFine, TagOf;
    if members.NoMore? {
      NoText(kind, first, rest);
      n := m;
      LeadsNowhere(m);
    } else {
      var more := PrintMembers(kind, members.rest, false) + rest;
      var b := MemberStarts(m, kind, members, first, rest, limits, visitor);
      MoreFollows(kind, members.rest, members.after, rest);
      LeadsOn(m, b, []);
      var c := ValueLeads(b, members.value, members.after + more, limits, visitor);
      var calls := CallsFor(members.value, |m.stack| - 1, TagOf(kind, members.key, limits), limits);
      LeadsLeads(m, b, c, [], calls);
      assert [] + calls == calls;
      LeadsOn(m, c, calls);
      GapIsSkipped(c, members.after, more, limits, visitor);
      n := MembersLead(c, kind, members.rest, false, rest, limits, visitor);
      LeadsLeads(m, c, n, calls, CallsForMembers(kind, members.rest, |m.stack| - 1, limits));
    }
  }

  lemma NoText(kind: Kind, first: bool, rest: seq<char>)
    ensures PrintMembers(kind, NoMore, first) + rest == rest
  {}

  lemma {:induction false} LeadsNowhere(m: Machine)
    requires m.stack != [] && m.Top().skipped == 0 && IsIdle(m.Top().tokens)
    ensures Leads(m, m, [])
  {
    assert m.events + [] == m.events;
  }

  lemma {:induction false} LeadsOn(m: Machine, n: Machine, events: seq<Event>)
    requires Leads(m, n, events)
    ensures n.stack != [] && |n.stack| == |m.stack| && n.Top().kind == m.Top().kind && n.Top().skipped == 0 &&
      IsIdle(n.Top().tokens)
  {
  }

  /** The separation and the key, if there are keys: the value is expected next. */
  lemma {:induction false} MemberStarts(m: Machine, kind: Kind, members: Members, first: bool, rest: seq<char>,
      limits: Limits, visitor: Visitor)
    returns (n: Machine)
    requires m.stack != [] && m.Top().kind == kind && m.Top().tag == [] && m.Top().skipped == 0
    requires m.Top().state == (if first then InitialOpen else Closed) && IsIdle(m.Top().tokens)
    requires members.Member? && AreMembers(members) && MembersFit(members, limits, |m.stack| - 1)
    ensures Steps(m, PrintMembers(kind, members, first) + rest, limits, visitor) ==
      Steps(n, Print(members.value) + (members.after + (PrintMembers(kind, members.rest, false) + rest)),
        limits, visitor)
    ensures Leads(m, n, []) && AwaitsValue(n) && n.Top().tag == TagOf(kind, members.key, limits)
  {
    hide Steps, Print, KeyText, PrintMembers, IsJson, Leads, IsIdle, Fits, TagOf;
    var value := Print(members.value) + (members.after + (PrintMembers(kind, members.rest, false) + rest));
    var all := KeyText(kind, members.key, members.afterKey, members.afterColon) + value;
    MemberText(kind, members, first, rest);
    n := m;
    LeadsNowhere(m);
    if first {
      GapIsSkipped(m, members.before, all, limits, visitor);
    } else {
      n := CommaIsRead(m, members.before, all, limits, visitor);
    }
    LeadsOn(m, n, []);
    if kind.Object? {
      var a := n;
      n := TagIsRead(a, members.key, members.afterKey, members.afterColon, value, limits, visitor);
      LeadsLeads(m, a, n, [], []);
      NoCalls();
      LeadsOn(m, n, []);
    } else {
      NoKeyText(members.key, members.afterKey, members.afterColon, value, limits);
    }
  }

  lemma NoCalls()
    ensures var none: seq<Event> := []; none + none == none
  {
  }

  lemma {:induction false} NoKeyText(key: seq<Piece>, a: seq<char>, b: seq<char>, s: seq<char>, limits: Limits)
    requires AllPieces(key)
    ensures KeyText(Array, key, a, b) + s == s && TagOf(Array, key, limits) == []
  {
  }

  lemma {:induction false} MoreFollows(kind: Kind, members: Members, after: seq<char>, rest: seq<char>)
    requires IsDelimiter(rest) && IsGap(after)
    ensures IsDelimiter(after + (PrintMembers(kind, members, false) + rest))
  {
    hide Print, KeyText;
  }

  lemma {:induction false} MemberText(kind: Kind, members: Members, first: bool, rest: seq<char>)
    requires members.Member?
    ensures var all := KeyText(kind, members.key, members.afterKey, members.afterColon) +
              (Print(members.value) + (members.after + (PrintMembers(kind, members.rest, false) + rest)));
            PrintMembers(kind, members, first) + rest ==
              if first then members.before + all else [','] + (members.before + all)
  {
    hide Print, KeyText, PrintMembers;
    MemberTextIs(kind, members, first);
    var k, v, more := KeyText(kind, members.key, members.afterKey, members.afterColon), Print(members.value),
      PrintMembers(kind, members.rest, false);
    Joined(if first then [] else [','], members.before, k, v, members.after, more, rest);
    NothingBefore(members.before + (k + (v + (members.after + (more + rest)))));
  }

  lemma NothingBefore(s: seq<char>)
    ensures [] + s == s
  {}

  lemma MemberTextIs(kind: Kind, members: Members, first: bool)
    requires members.Member?
    ensures PrintMembers(kind, members, first) ==
      (if first then [] else [',']) + members.before +
        KeyText(kind, members.key, members.afterKey, members.afterColon) +
      Print(members.value) + members.after + PrintMembers(kind, members.rest, false)
  {
    hide Print, KeyText;
  }

  lemma Joined(a: seq<char>, b: seq<char>, c: seq<char>, d: seq<char>, e: seq<char>, f: seq<char>, g: seq<char>)
    ensures a + b + c + d + e + f + g == a + (b + (c + (d + (e + (f + g)))))
  {}

  // ----- the whole text

  /** The text of a whole object, fed to a new parser in whatever pieces, makes exactly the calls that describe its
      members, in order, and then Close; and that is the end, whatever follows. */
  lemma {:induction false} ObjectIsDescribed(before: seq<char>, gap: seq<char>, members: Members, rest: seq<char>,
      limits: Limits, visitor: Visitor)
    requires AllFine(limits, visitor) && limits.nesting > 0 && IsGap(before) && IsGap(gap) && AreMembers(members) &&
      MembersFit(members, limits, 0)
    ensures Steps(Machine([Parser(Object, Init, [], 0, NEW_TOKENS)], []),
      before + Print(Bracketed(Object, gap, members)) + rest, limits, visitor)
            == Machine([], CallsForMembers(Object, members, 0, limits) + [Event(0, Close)])
  {
    hide Steps, PrintMembers;
    var start := Machine([Parser(Object, Init, [], 0, NEW_TOKENS)], []);
    var f := PrintMembers(Object, members, true);
    var end := ['}'] + rest;
    assert before + Print(Bracketed(Object, gap, members)) + rest == before + (['{'] + (gap + (f + end)));
    GapIsSkipped(start, before, ['{'] + (gap + (f + end)), limits, visitor);
    Completes(start, NEW_TOKENS, '{', gap + (f + end), LeftBrace, limits, visitor);
    WithItself(start);
    var a := OnToken(With(start, NEW_TOKENS.Found(LeftBrace)), limits, visitor);
    GapIsSkipped(a, gap, f + end, limits, visitor);
    var b := MembersLead(a, Object, members, true, end, limits, visitor);
    var n := NestedIsClosed(b, Object, rest, limits, visitor);
    NothingAfterTheEnd(n, rest, limits, visitor);
    assert [] + CallsForMembers(Object, members, 0, limits) == CallsForMembers(Object, members, 0, limits);
  }
}
