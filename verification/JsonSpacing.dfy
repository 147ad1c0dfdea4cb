/** Spaces between tokens: what is read from a text depends on its tokens alone. */
module JsonSpacing {
  import opened Options
  import opened Characters
  import opened JsonLexer
  import opened JsonEscapes
  import opened JsonIteration
  import opened JsonRoundTrip

  // ----- one space

  /** The characters that are skipped between tokens: blank, tab, line feed, vertical tab, form feed and carriage
      return; and no other. */
  lemma SpacesAre(c: char)
    ensures IsSpace(c) <==> c as int in {9, 10, 11, 12, 13, 32}
  {}

  /** Any of them in front of a text is passed over. */
  lemma LexAfterAnySpace(c: char, s: seq<char>)
    requires c as int in {9, 10, 11, 12, 13, 32}
    ensures Lex([c] + s) == Lexeme(Lex(s).token, Lex(s).size + 1)
  {
    hide LexHere;
    var t := [c] + s;
    assert t[1..] == s;
    assert t[Spaces(t)..] == s[Spaces(s)..];
  }

  /** A text that starts with another character starts with a token, or with what is none. */
  lemma NothingElseIsSkipped(s: seq<char>)
    requires s != [] && s[0] as int !in {9, 10, 11, 12, 13, 32}
    ensures Spaces(s) == 0 && Lex(s) == LexHere(s) && !Lex(s).token.End?
  {
    hide LexText, LexInteger, LexWord;
    assert s[0..] == s;
  }

  // ----- the same tokens

  predicate SameTokens(s: seq<char>, t: seq<char>)
    decreases |s|
  {
    var l, k := Lex(s), Lex(t);
    l.token == k.token && (IsLast(l.token) || SameTokens(s[l.size..], t[k.size..]))
  }

  lemma {:induction false} SameAsItself(s: seq<char>)
    ensures SameTokens(s, s)
    decreases |s|
  {
    hide Lex;
    if !IsLast(Lex(s).token) {
      SameAsItself(s[Lex(s).size..]);
    }
  }

  // ----- what a token depends on

  /** What follows a token does not run on: it starts as before, or with a character that is neither digit nor
      letter. */
  predicate Stops(rest: seq<char>, rest': seq<char>) {
    rest' == [] || (!IsDigit(rest'[0]) && !IsAlpha(rest'[0])) || (rest != [] && rest'[0] == rest[0])
  }

  lemma {:induction false} QuoteLocal(a: seq<char>, escape: bool, rest: seq<char>, rest': seq<char>)
    requires Quote(a + rest, escape).Some? && Quote(a + rest, escape).value < |a|
    ensures Quote(a + rest', escape) == Quote(a + rest, escape)
    decreases |a|
  {
    assert (a + rest)[1..] == a[1..] + rest && (a + rest')[1..] == a[1..] + rest';
    if escape || a[0] != '"' {
      QuoteLocal(a[1..], !escape && a[0] == '\\', rest, rest');
    }
  }

  lemma {:induction false} DigitsLocal(a: seq<char>, rest: seq<char>, rest': seq<char>)
    requires Digits(a + rest) == |a| && Stops(rest, rest')
    ensures Digits(a + rest') == |a|
    decreases |a|
  {
    if a == [] {
      assert a + rest == rest && a + rest' == rest';
    } else {
      assert (a + rest)[1..] == a[1..] + rest && (a + rest')[1..] == a[1..] + rest';
      DigitsLocal(a[1..], rest, rest');
    }
  }

  lemma {:induction false} LettersLocal(a: seq<char>, rest: seq<char>, rest': seq<char>)
    requires Letters(a + rest) == |a| && Stops(rest, rest')
    ensures Letters(a + rest') == |a|
    decreases |a|
  {
    if a == [] {
      assert a + rest == rest && a + rest' == rest';
    } else {
      assert (a + rest)[1..] == a[1..] + rest && (a + rest')[1..] == a[1..] + rest';
      LettersLocal(a[1..], rest, rest');
    }
  }

  lemma {:induction false} SpacesLocal(a: seq<char>, rest: seq<char>, rest': seq<char>)
    requires Spaces(a + rest) < |a|
    ensures Spaces(a + rest') == Spaces(a + rest)
    decreases |a|
  {
    assert (a + rest)[1..] == a[1..] + rest && (a + rest')[1..] == a[1..] + rest';
    if IsSpace(a[0]) {
      SpacesLocal(a[1..], rest, rest');
    }
  }

  lemma {:induction false} TextLocal(a: seq<char>, rest: seq<char>, rest': seq<char>)
    requires a != [] && LexText(a + rest).token.Text? && LexText(a + rest).size == |a|
    ensures LexText(a + rest') == LexText(a + rest)
  {
    hide Quote;
    var s, s' := a + rest, a + rest';
    assert s[1..] == a[1..] + rest && s'[1..] == a[1..] + rest';
    QuoteLocal(a[1..], false, rest, rest');
    var n := Quote(s[1..], false).value;
    assert s[1..n + 1] == a[1..n + 1] == s'[1..n + 1];
  }

  lemma {:induction false} IntegerLocal(a: seq<char>, rest: seq<char>, rest': seq<char>)
    requires a != [] && LexInteger(a + rest).size == |a| && Stops(rest, rest')
    ensures LexInteger(a + rest') == LexInteger(a + rest)
  {
    hide Digits, Number, Wrapped, Stops;
    var s, s' := a + rest, a + rest';
    if a[0] == '-' {
      var b := a[1..];
      assert s[1..] == b + rest && s'[1..] == b + rest';
      DigitsLocal(b, rest, rest');
      assert (b + rest)[..|b|] == b == (b + rest')[..|b|];
    } else {
      DigitsLocal(a, rest, rest');
      assert s[..|a|] == a == s'[..|a|];
    }
  }

  lemma {:induction false} WordLocal(a: seq<char>, rest: seq<char>, rest': seq<char>)
    requires a != [] && LexWord(a + rest).size == |a| && Stops(rest, rest')
    ensures LexWord(a + rest') == LexWord(a + rest)
  {
    hide Letters, Stops;
    LettersLocal(a, rest, rest');
    assert (a + rest)[..|a|] == a == (a + rest')[..|a|];
  }

  lemma {:induction false} HereLocal(a: seq<char>, rest: seq<char>, rest': seq<char>)
    requires a != [] && !IsLast(LexHere(a + rest).token) && LexHere(a + rest).size == |a| && Stops(rest, rest')
    ensures LexHere(a + rest') == LexHere(a + rest)
  {
    hide LexText, LexInteger, LexWord, Stops;
    var c := a[0];
    if c == '"' {
      TextLocal(a, rest, rest');
    } else if IsDigit(c) || c == '-' {
      IntegerLocal(a, rest, rest');
    } else if IsAlpha(c) {
      WordLocal(a, rest, rest');
    }
  }

  /** A token, with the spaces in front of it, is found again whatever follows it that does not run on. */
  lemma {:induction false} LexLocal(a: seq<char>, rest: seq<char>, rest': seq<char>)
    requires !IsLast(Lex(a + rest).token) && Lex(a + rest).size == |a| && Stops(rest, rest')
    ensures Lex(a + rest') == Lex(a + rest)
  {
    hide LexHere, Spaces, Stops;
    var s, s' := a + rest, a + rest';
    var k := Spaces(s);
    SpacesLocal(a, rest, rest');
    assert s[k..] == a[k..] + rest && s'[k..] == a[k..] + rest';
    HereLocal(a[k..], rest, rest');
  }

  // ----- inserting spaces

  /** A place between tokens, or in front of the first one. */
  predicate IsBoundary(s: seq<char>, i: nat)
    decreases |s|
  {
    i == 0 || (!IsLast(Lex(s).token) && Lex(s).size <= i <= |s| && IsBoundary(s[Lex(s).size..], i - Lex(s).size))
  }

  function WithSpace(s: seq<char>, i: nat, c: char): seq<char>
    requires i <= |s|
  {
    s[..i] + [c] + s[i..]
  }

  lemma {:induction false} SpaceKeepsTokens(s: seq<char>, i: nat, c: char)
    requires i <= |s| && IsBoundary(s, i) && IsSpace(c)
    ensures SameTokens(s, WithSpace(s, i, c))
    decreases |s|
  {
    hide Lex;
    var t, l := WithSpace(s, i, c), Lex(s);
    if i == 0 {
      assert t == [c] + s;
      LexAfterAnySpace(c, s);
      if !IsLast(l.token) {
        assert t[l.size + 1..] == s[l.size..];
        SameAsItself(s[l.size..]);
      }
    } else {
      var a, rest := s[..l.size], s[l.size..];
      var rest' := WithSpace(rest, i - l.size, c);
      assert s == a + rest && t == a + rest';
      LexLocal(a, rest, rest');
      SpaceKeepsTokens(rest, i - l.size, c);
      assert t[l.size..] == rest';
    }
  }

  // ----- reading depends on the tokens alone

  /** A token is the same when the text is cut behind it, or anywhere further on. */
  lemma {:induction false} LexOfPrefix(s: seq<char>, a: nat)
    requires !IsLast(Lex(s).token) && Lex(s).size <= a <= |s|
    ensures Lex(s[..a]) == Lex(s)
  {
    hide Lex;
    var n := Lex(s).size;
    var u, rest := s[..n], s[n..];
    assert s == u + rest && s[..a] == u + rest[..a - n];
    LexLocal(u, rest, rest[..a - n]);
  }

  lemma NothingIsTheSame()
    ensures SameTokens([], [])
  {}

  /** The search finds its bracket in both texts or in neither, with the same tokens before it and behind it. */
  lemma {:induction false} SearchSame(s: seq<char>, t: seq<char>, kind: Kind, nested: int)
    requires SameTokens(s, t)
    ensures var x, y := Search(s, kind, nested), Search(t, kind, nested);
      (x.Some? <==> y.Some?) &&
      (x.Some? ==> SameTokens(s[x.value..], t[y.value..]) && SameTokens(s[..x.value], t[..y.value]))
    decreases |s|
  {
    hide Lex;
    var l, k := Lex(s), Lex(t);
    var x, y := Search(s, kind, nested), Search(t, kind, nested);
    if nested == 0 && l.token == JsonIteration.Closing(kind) {
      LexOfPrefix(s, l.size);
      LexOfPrefix(t, k.size);
      assert s[..l.size][l.size..] == [] && t[..k.size][k.size..] == [];
      NothingIsTheSame();
    } else if !IsLast(l.token) {
      var s', t', n := s[l.size..], t[k.size..], Counted(kind, l.token, nested);
      SearchSame(s', t', kind, n);
      if x.Some? {
        var a, b := Search(s', kind, n).value, Search(t', kind, n).value;
        LexOfPrefix(s, x.value);
        LexOfPrefix(t, y.value);
        assert s[x.value..] == s'[a..] && t[y.value..] == t'[b..];
        assert s[..x.value][l.size..] == s'[..a] && t[..y.value][k.size..] == t'[..b];
      }
    }
  }

  predicate SameValue(x: Value, y: Value) {
    if x.Nested? then y.Nested? && x.kind == y.kind && SameTokens(x.text, y.text) else x == y
  }

  predicate SameItems(x: seq<Item>, y: seq<Item>) {
    |x| == |y| && forall i | 0 <= i < |x| :: x[i].key == y[i].key && SameValue(x[i].value, y[i].value)
  }

  predicate SameResult(x: Result, y: Result) {
    x.ok == y.ok && SameItems(x.items, y.items)
  }

  lemma {:induction false} BracketFirst(c: char, s: seq<char>, t: seq<char>)
    requires (c == '{' || c == '[') && SameTokens(s, t)
    ensures SameTokens([c] + s, [c] + t)
  {
    hide LexText, LexInteger, LexWord;
    NothingElseIsSkipped([c] + s);
    NothingElseIsSkipped([c] + t);
    assert ([c] + s)[1..] == s && ([c] + t)[1..] == t;
  }

  lemma {:induction false} ConvertSame(token: Token, s: seq<char>, t: seq<char>)
    requires SameTokens(s, t)
    ensures var x, y := Convert(token, s), Convert(token, t);
      (x.Some? <==> y.Some?) &&
      (x.Some? ==> SameValue(x.value.0, y.value.0) && SameTokens(s[x.value.1..], t[y.value.1..]))
  {
    hide Search, SameTokens;
    if token.LeftBrace? || token.LeftBracket? {
      var kind, c := if token.LeftBrace? then Object else Array, if token.LeftBrace? then '{' else '[';
      SearchSame(s, t, kind, 0);
      if Search(s, kind, 0).Some? {
        BracketFirst(c, s[..Search(s, kind, 0).value], t[..Search(t, kind, 0).value]);
      }
    } else {
      assert s[0..] == s && t[0..] == t;
    }
  }

  lemma {:induction false} WalkSame(kind: Kind, s: seq<char>, t: seq<char>, state: State)
    requires SameTokens(s, t)
    ensures SameResult(Walk(kind, s, state), Walk(kind, t, state))
    decreases |s|, 1
  {
    hide Lex, Convert, Elements;
    var l, k := Lex(s), Lex(t);
    var s', t' := s[l.size..], t[k.size..];
    if IsLast(l.token) {
      ElementsFail(kind, l.token, s', [], s);
      ElementsFail(kind, l.token, t', [], t);
      if state.Element? {
        ElementsFail(kind, l.token, s', state.key, s);
        ElementsFail(kind, l.token, t', state.key, t);
      }
    } else {
      ElementsSame(kind, l.token, s', t', [], s, t);
      match state
      case Start => WalkSame(kind, s', t', FirstOrEnd);
      case FirstOrEnd =>
        if l.token.Text? {
          WalkSame(kind, s', t', State.Colon(l.token.raw));
        }
      case Key =>
        if l.token.Text? {
          WalkSame(kind, s', t', State.Colon(l.token.raw));
        }
      case Colon(key) => WalkSame(kind, s', t', Element(key));
      case Element(key) => ElementsSame(kind, l.token, s', t', key, s, t);
      case CommaOrEnd => WalkSame(kind, s', t', if kind.Object? then Key else Element([]));
    }
  }

  lemma ElementsFail(kind: Kind, token: Token, t: seq<char>, key: seq<char>, s: seq<char>)
    requires IsLast(token) && |t| <= |s|
    ensures Elements(kind, token, t, key, s) == Result([], false)
  {
    hide Walk;
  }

  lemma {:induction false} ElementsSame(kind: Kind, token: Token, s': seq<char>, t': seq<char>, key: seq<char>,
      s: seq<char>, t: seq<char>)
    requires SameTokens(s', t') && |s'| < |s| && |t'| < |t|
    ensures SameResult(Elements(kind, token, s', key, s), Elements(kind, token, t', key, t))
    decreases |s|, 0
  {
    hide Walk, Convert, SameTokens;
    ConvertSame(token, s', t');
    var x, y := Convert(token, s'), Convert(token, t');
    if x.Some? {
      WalkSame(kind, s'[x.value.1..], t'[y.value.1..], CommaOrEnd);
    }
  }

  /** What is read, to any depth, depends on the tokens of the text alone. */
  lemma {:induction false} RecoveredSame(kind: Kind, s: seq<char>, t: seq<char>)
    requires SameTokens(s, t)
    ensures Recovered(kind, s) == Recovered(kind, t)
    decreases |s|, 0
  {
    hide Walk, SameTokens, RecoveredItems;
    var x, y := Walk(kind, s, Start), Walk(kind, t, Start);
    WalkSame(kind, s, t, Start);
    ItemsSame(x.items, y.items, |s|, |t|);
  }

  lemma {:induction false} ItemsSame(x: seq<Item>, y: seq<Item>, a: nat, b: nat)
    requires SameItems(x, y)
    requires (forall i | 0 <= i < |x| :: Size(x[i].value) < a) && (forall i | 0 <= i < |y| :: Size(y[i].value) < b)
    ensures RecoveredItems(x, a) == RecoveredItems(y, b)
    decreases a, 0, |x|
  {
    hide SameTokens, RecoveredValue;
    if x != [] {
      ItemsSame(x[1..], y[1..], a, b);
      if x[0].value.Nested? {
        RecoveredSame(x[0].value.kind, x[0].value.text, y[0].value.text);
        NestedRecovered(x[0].value);
        NestedRecovered(y[0].value);
      }
    }
  }

  lemma NestedRecovered(v: Value)
    requires v.Nested?
    ensures RecoveredValue(v) == Recovered(v.kind, v.text)
  {}

  /** A space inserted between any two tokens changes nothing of what is read, whatever the text. */
  lemma SpaceKeepsReading(kind: Kind, s: seq<char>, i: nat, c: char)
    requires i <= |s| && IsBoundary(s, i) && IsSpace(c)
    ensures Recovered(kind, WithSpace(s, i, c)) == Recovered(kind, s)
  {
    hide Recovered, WithSpace, SameTokens, IsBoundary;
    SpaceKeepsTokens(s, i, c);
    RecoveredSame(kind, s, WithSpace(s, i, c));
  }

  /** Any text with the tokens of a formatted value is read as that value, however it is spaced. */
  lemma SpacedTextIsRead(kind: Kind, members: Members, signed: bool, text: seq<char>)
    requires MembersInDomain(kind, members) && SameTokens(Format(JNested(kind, members), signed), text)
    ensures Recovered(kind, text) == Some(JNested(kind, members))
  {
    hide Recovered, Format, SameTokens;
    ReadingUndoesFormatting(kind, members, signed);
    RecoveredSame(kind, Format(JNested(kind, members), signed), text);
  }
}
