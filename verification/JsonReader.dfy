/** The tokenizer and the iterators as objects with loops. */
module JsonReader {
  import opened Options
  import opened Characters
  import opened JsonLexer
  import opened JsonEscapes
  import opened JsonIteration

  class Tokenizer {
    const text: seq<char>
    var parseIndex: nat

    ghost predicate Valid()
      reads this
    {
      parseIndex <= |text|
    }

    ghost function Left(): seq<char>
      requires Valid()
      reads this
    {
      text[parseIndex..]
    }

    constructor (text: seq<char>)
      ensures Valid() && Left() == text && this.text == text
    {
      this.text := text;
      parseIndex := 0;
    }

    method SkipWhitespace()
      requires Valid()
      modifies this
      ensures Valid() && parseIndex == old(parseIndex) + Spaces(old(Left()))
    {
      while parseIndex != |text| && IsSpace(text[parseIndex])
        invariant Valid() && parseIndex + Spaces(Left()) == old(parseIndex + Spaces(Left()))
        decreases |text| - parseIndex
      {
        assert Left()[1..] == text[parseIndex + 1..];
        parseIndex := parseIndex + 1;
      }
    }

    /** Where nothing follows the opening quote the original looks at a character that is not there; the error of any
        other text without a closing quote stands in for that. */
    method TryCreateStringToken() returns (token: Token)
      requires Valid() && Left() != [] && Left()[0] == '"'
      modifies this
      ensures Valid() && parseIndex >= old(parseIndex) &&
        Lexeme(token, parseIndex - old(parseIndex)) == LexText(old(Left()))
    {
      hide Quote, LexText;
      ghost var s := Left();
      parseIndex := parseIndex + 1;
      var tokenStart := parseIndex;
      assert s[1..] == text[tokenStart..];
      var found := SearchQuote();
      if !found {
        LexUnterminated(s);
        return Error;
      }
      parseIndex := parseIndex + 1;
      token := Text(text[tokenStart..parseIndex - 1]);
      assert s[1..parseIndex - tokenStart] == text[tokenStart..parseIndex - 1];
      TextEndsAtQuote(s, token.raw);
    }

    /** The loop of TryCreateStringToken. */
    method SearchQuote() returns (found: bool)
      requires Valid()
      modifies this
      ensures Valid() && Quote(old(Left()), false) == (if found then Some(parseIndex - old(parseIndex)) else None)
      ensures parseIndex >= old(parseIndex) && (found ==> parseIndex < |text|) && (!found ==> parseIndex == |text|)
    {
      hide Quote;
      ghost var start := parseIndex;
      QuoteStep(Left(), false);
      FurtherNothing(Quote(Left(), false));
      if parseIndex == |text| {
        return false;
      }
      var escape := false;
      while escape || text[parseIndex] != '"'
        invariant Valid() && start <= parseIndex < |text|
        invariant Quote(text[start..], false) == Further(parseIndex - start, Quote(Left(), escape))
        decreases |text| - parseIndex
      {
        assert Left()[1..] == text[parseIndex + 1..];
        QuoteStep(Left(), escape);
        escape := !escape && text[parseIndex] == '\\';
        parseIndex := parseIndex + 1;
        QuoteStep(Left(), escape);
        if parseIndex == |text| {
          return false;
        }
      }
      QuoteStep(Left(), escape);
      found := true;
    }

    /** The number of digits, or of letters, from here on. */
    method SkipDigits()
      requires Valid()
      modifies this
      ensures Valid() && parseIndex == old(parseIndex) + Digits(old(Left()))
    {
      while parseIndex != |text| && IsDigit(text[parseIndex])
        invariant Valid() && parseIndex + Digits(Left()) == old(parseIndex + Digits(Left()))
        decreases |text| - parseIndex
      {
        assert Left()[1..] == text[parseIndex + 1..];
        parseIndex := parseIndex + 1;
      }
    }

    method TryCreateIntegerToken() returns (token: Token)
      requires Valid() && Left() != []
      modifies this
      ensures Valid() && parseIndex >= old(parseIndex) &&
        Lexeme(token, parseIndex - old(parseIndex)) == LexInteger(old(Left()))
    {
      hide Digits, Number, Wrapped;
      ghost var start := parseIndex;
      ghost var s := Left();
      var sign := text[parseIndex] == '-';
      if sign {
        parseIndex := parseIndex + 1;
        assert s[1..] == Left();
      }
      var first := parseIndex;
      ghost var n := Digits(Left());
      assert forall i | 0 <= i < n :: IsDigit(Left()[i]) && Left()[i] == text[first + i];
      SkipDigits();
      var digits := text[first..parseIndex];
      assert digits == (if sign then s[1..][..n] else s[..n]);
      var value := ValueOfDigits(digits);
      if sign {
        WrappedNegation(Number(digits));
        value := Wrapped(value * -1);
      }
      token := Integer(value);
    }

    method TryCreateIdentifierToken() returns (token: Token)
      requires Valid()
      modifies this
      ensures Valid() && parseIndex >= old(parseIndex) &&
        Lexeme(token, parseIndex - old(parseIndex)) == LexWord(old(Left()))
    {
      ghost var s := Left();
      var tokenStart := parseIndex;
      while parseIndex != |text| && IsAlpha(text[parseIndex])
        invariant Valid() && tokenStart <= parseIndex && parseIndex + Letters(Left()) == tokenStart + Letters(s)
        decreases |text| - parseIndex
      {
        assert Left()[1..] == text[parseIndex + 1..];
        parseIndex := parseIndex + 1;
      }
      var identifier := text[tokenStart..parseIndex];
      assert identifier == s[..Letters(s)];
      token := if identifier == "true" then Boolean(true) else if identifier == "false" then Boolean(false) else Error;
    }

    method Token() returns (token: Token)
      requires Valid()
      modifies this
      ensures Valid() && parseIndex >= old(parseIndex) &&
        Lexeme(token, parseIndex - old(parseIndex)) == Lex(old(Left())) &&
        Left() == old(Left())[Lex(old(Left())).size..]
    {
      hide LexText, LexInteger, LexWord, Spaces;
      ghost var s := Left();
      SkipWhitespace();
      ghost var here := Left();
      assert here == s[Spaces(s)..];
      ghost var from := parseIndex;
      if parseIndex == |text| {
        token := End;
      } else {
        var c := text[parseIndex];
        if c == '"' {
          token := TryCreateStringToken();
        } else if c == ':' {
          parseIndex := parseIndex + 1;
          token := JsonLexer.Token.Colon;
        } else if c == ',' {
          parseIndex := parseIndex + 1;
          token := Comma;
        } else if c == '.' {
          parseIndex := parseIndex + 1;
          token := Dot;
        } else if c == '{' {
          parseIndex := parseIndex + 1;
          token := LeftBrace;
        } else if c == '}' {
          parseIndex := parseIndex + 1;
          token := RightBrace;
        } else if c == '[' {
          parseIndex := parseIndex + 1;
          token := LeftBracket;
        } else if c == ']' {
          parseIndex := parseIndex + 1;
          token := RightBracket;
        } else if IsDigit(c) || c == '-' {
          token := TryCreateIntegerToken();
        } else if IsAlpha(c) {
          token := TryCreateIdentifierToken();
        } else {
          token := Error;
        }
      }
      assert Lexeme(token, parseIndex - from) == LexHere(here);
      assert s[Lex(s).size..] == text[parseIndex..];
    }
  }

  lemma SearchNothingYet(s: seq<char>, kind: Kind)
    ensures Search(s, kind, 0) == Further(0, Search(s, kind, 0))
  {
  }

  lemma {:induction false} SearchOnce(s: seq<char>, kind: Kind, nested: int, done: nat)
    requires var l := Lex(s);
      !l.token.End? && !l.token.Error? && (nested != 0 || l.token != JsonIteration.Closing(kind))
    ensures var l := Lex(s);
            Further(done, Search(s, kind, nested)) ==
              Further(done + l.size, Search(s[l.size..], kind, Counted(kind, l.token, nested)))
  {
    hide Lex;
  }

  lemma {:induction false} SearchOver(s: seq<char>, kind: Kind, nested: int)
    requires var l := Lex(s); l.token.End? || l.token.Error? || (nested == 0 && l.token == JsonIteration.Closing(kind))
    ensures Search(s, kind, nested) == if Lex(s).token == JsonIteration.Closing(kind) then Some(Lex(s).size) else None
  {
    hide Lex;
  }

  lemma LexUnterminated(s: seq<char>)
    requires s != [] && Quote(s[1..], false) == None
    ensures LexText(s) == Lexeme(Error, |s|)
  {}

  lemma QuoteStep(s: seq<char>, escape: bool)
    ensures Quote(s, escape) ==
            if s == [] then None
            else if !escape && s[0] == '"' then Some(0)
            else Further(1, Quote(s[1..], !escape && s[0] == '\\'))
  {}

  /** The loop in 32 bits computes the value of all the digits in 32 bits. */
  method ValueOfDigits(digits: seq<char>) returns (value: int)
    requires forall i | 0 <= i < |digits| :: IsDigit(digits[i])
    ensures value == Wrapped(Number(digits))
  {
    hide Wrapped;
    value := 0;
    assert Wrapped(0) == 0;
    for i := 0 to |digits|
      invariant value == Wrapped(Number(digits[..i]))
    {
      assert digits[..i + 1][..i] == digits[..i];
      WrappedStep(Number(digits[..i]), digits[i] as int - '0' as int);
      value := Wrapped(value * 10 + digits[i] as int - '0' as int);
    }
    assert digits[..|digits|] == digits;
  }

  /** Wrapping around changes a value by a multiple of 2^32. */
  lemma WrappedBy(n: int) returns (k: int)
    ensures Wrapped(n) == n + k * 0x1_0000_0000
  {
    k := if n % 0x1_0000_0000 < 0x8000_0000 then -(n / 0x1_0000_0000) else -(n / 0x1_0000_0000) - 1;
  }

  lemma WrappedShift(n: int, k: int)
    ensures Wrapped(n + k * 0x1_0000_0000) == Wrapped(n)
  {
    assert (n + k * 0x1_0000_0000) % 0x1_0000_0000 == n % 0x1_0000_0000;
  }

  lemma WrappedStep(n: int, d: int)
    ensures Wrapped(Wrapped(n) * 10 + d) == Wrapped(n * 10 + d)
  {
    hide Wrapped;
    var k := WrappedBy(n);
    WrappedShift(n * 10 + d, 10 * k);
  }

  lemma WrappedNegation(n: int)
    ensures Wrapped(Wrapped(n) * -1) == Wrapped(0 - n)
  {
    hide Wrapped;
    var k := WrappedBy(n);
    WrappedShift(0 - n, -k);
  }

  lemma NestedText(text: seq<char>, index: nat, end: nat)
    requires index < end <= |text|
    ensures [text[index]] + text[index + 1..][..end - index - 1] == text[index..end]
  {}

  /** JsonObjectIterator and JsonArrayIterator: what they have read, and whether they are at the end. */
  class Iterator {
    const kind: Kind
    const tokenizer: Tokenizer
    var state: State
    var item: Item
    var atEnd: bool
    var error: bool

    ghost predicate Valid()
      reads this, tokenizer
    {
      tokenizer.Valid() && (kind.Array? ==> !state.Key? && !state.Colon?)
    }

    /** What is still to come. */
    ghost function Ahead(): Result
      requires Valid()
      reads this, tokenizer
    {
      if atEnd then Result([], !error) else Walk(kind, tokenizer.Left(), state)
    }

    constructor (kind: Kind, text: seq<char>)
      ensures Valid() && fresh(tokenizer) && this.kind == kind && Ahead() == Walk(kind, text, Start) && !atEnd &&
        !error && state == Start
    {
      hide Walk, Elements, Convert, Lex, Search, Size;
      this.kind := kind;
      tokenizer := new Tokenizer(text);
      state, atEnd, error := Start, false, false;
      item := Item([], Truth(false));
    }

    method SetError()
      modifies this`error, this`atEnd
      ensures error && atEnd
    {
      error, atEnd := true, true;
    }

    /** Goes on behind the matching bracket; returns false when there is none. */
    method SearchEnd(inner: Kind) returns (found: bool)
      requires Valid()
      modifies tokenizer
      ensures Valid() && found == Search(old(tokenizer.Left()), inner, 0).Some?
      ensures found ==>
        tokenizer.parseIndex == old(tokenizer.parseIndex) + Search(old(tokenizer.Left()), inner, 0).value
    {
      hide Lex, Search;
      ghost var all, before, done := tokenizer.Left(), tokenizer.Left(), 0;
      var nested := 0;
      var token := tokenizer.Token();
      SearchNothingYet(all, inner);
      while (nested != 0 || token != JsonIteration.Closing(inner)) && !token.End? && !token.Error?
        invariant Valid() && token == Lex(before).token &&
          tokenizer.parseIndex == old(tokenizer.parseIndex) + done + Lex(before).size
        invariant tokenizer.Left() == before[Lex(before).size..]
        invariant Search(all, inner, 0) == Further(done, Search(before, inner, nested))
        decreases |before|
      {
        SearchOnce(before, inner, nested, done);
        if token == JsonIteration.Opening(inner) {
          nested := nested - 1;
        } else if token == JsonIteration.Closing(inner) {
          nested := nested + 1;
        }
        done, before := done + Lex(before).size, tokenizer.Left();
        token := tokenizer.Token();
      }
      SearchOver(before, inner, nested);
      found := token == JsonIteration.Closing(inner);
    }

    method ConvertValue(token: Token) returns (value: Option<Value>)
      requires Valid() && tokenizer.parseIndex > 0
      requires token.LeftBrace? ==> tokenizer.text[tokenizer.parseIndex - 1] == '{'
      requires token.LeftBracket? ==> tokenizer.text[tokenizer.parseIndex - 1] == '['
      modifies tokenizer
      ensures Valid()
      ensures match Convert(token, old(tokenizer.Left()))
              case None => value == None
              case Some((v, n)) => value == Some(v) && tokenizer.parseIndex == old(tokenizer.parseIndex) + n
    {
      hide Search;
      var index := tokenizer.parseIndex - 1;
      match token
      case Text(raw) => value := Some(Raw(raw));
      case Integer(n) => value := Some(Whole(n));
      case Boolean(b) => value := Some(Truth(b));
      case LeftBrace =>
        ghost var s := tokenizer.Left();
        var found := SearchEnd(Object);
        if found {
          NestedText(tokenizer.text, index, tokenizer.parseIndex);
        }
        value := if found then Some(Nested(Object, tokenizer.text[index..tokenizer.parseIndex])) else None;
      case LeftBracket =>
        ghost var s := tokenizer.Left();
        var found := SearchEnd(Array);
        if found {
          NestedText(tokenizer.text, index, tokenizer.parseIndex);
        }
        value := if found then Some(Nested(Array, tokenizer.text[index..tokenizer.parseIndex])) else None;
      case _ => value := None;
    }

    /** One token, and what it means in the present state. An item has been read when the state is CommaOrEnd. */
    method ParseNextToken()
      requires Valid() && !atEnd && !error
      modifies this`state, this`item, this`atEnd, this`error, tokenizer
      ensures Valid() && (error ==> atEnd)
      ensures !atEnd ==> |tokenizer.Left()| < |old(tokenizer.Left())|
      ensures old(Ahead()) == if !atEnd && state.CommaOrEnd? then Result([item] + Ahead().items, Ahead().ok)
        else Ahead()
    {
      hide Lex, Convert;
      ghost var s := tokenizer.Left();
      var token := tokenizer.Token();
      BracketBefore(s);
      WalkUnfolds(kind, s, state);
      if token.End? || token.Error? {
        NoValue(token, tokenizer.Left());
      }
      match state
      case Start =>
        state := FirstOrEnd;
        if token != JsonIteration.Opening(kind) {
          SetError();
        }
      case FirstOrEnd =>
        if token == JsonIteration.Closing(kind) {
          atEnd := true;
        } else if kind == Array {
          ReadValue(token, []);
        } else {
          ReadKey(token);
        }
      case Key =>
        ReadKey(token);
      case Colon(key) =>
        state := Element(key);
        if token != JsonLexer.Token.Colon {
          SetError();
        }
      case Element(key) =>
        ReadValue(token, key);
      case CommaOrEnd =>
        if token == Comma {
          state := if kind == Object then Key else Element([]);
        } else if token == JsonIteration.Closing(kind) {
          atEnd := true;
        } else {
          SetError();
        }
    }

    method ReadKey(token: Token)
      requires Valid() && kind == Object && !atEnd && !error
      modifies this`state, this`atEnd, this`error
      ensures Valid() && atEnd == error == !token.Text?
      ensures token.Text? ==> state == State.Colon(token.raw)
    {
      if token.Text? {
        state := State.Colon(token.raw);
      } else {
        SetError();
      }
    }

    method ReadValue(token: Token, key: seq<char>)
      requires Valid() && !atEnd && !error && (!token.End? && !token.Error? ==> tokenizer.parseIndex > 0)
      requires token.LeftBrace? ==> tokenizer.text[tokenizer.parseIndex - 1] == '{'
      requires token.LeftBracket? ==> tokenizer.text[tokenizer.parseIndex - 1] == '['
      modifies this`state, this`item, this`atEnd, this`error, tokenizer
      ensures Valid() && atEnd == error == Convert(token, old(tokenizer.Left())).None?
      ensures !atEnd ==>
                var (v, n) := Convert(token, old(tokenizer.Left())).value;
                state == CommaOrEnd && item == Item(key, v) && tokenizer.Left() == old(tokenizer.Left())[n..]
    {
      hide Convert;
      if token.End? || token.Error? {
        NoValue(token, tokenizer.Left());
        SetError();
      } else {
        ghost var s := tokenizer.Left();
        var value := ConvertValue(token);
        if value.Some? {
          state, item := CommaOrEnd, Item(key, value.value);
          assert s[Convert(token, s).value.1..] == tokenizer.Left();
        } else {
          SetError();
        }
      }
    }

    /** operator++ */
    method Increment()
      requires Valid() && !atEnd && !error
      modifies this`state, this`item, this`atEnd, this`error, tokenizer
      ensures Valid() && (error ==> atEnd) &&
        (!atEnd ==> state.CommaOrEnd? && |tokenizer.Left()| < |old(tokenizer.Left())|)
      ensures old(Ahead()) == if atEnd then Ahead() else Result([item] + Ahead().items, Ahead().ok)
    {
      hide Walk;
      ParseNextToken();
      while !state.CommaOrEnd? && !atEnd
        invariant Valid() && (error ==> atEnd) && (!atEnd ==> |tokenizer.Left()| < |old(tokenizer.Left())|)
        invariant old(Ahead()) == if !atEnd && state.CommaOrEnd? then Result([item] + Ahead().items, Ahead().ok)
          else Ahead()
        decreases !atEnd, |tokenizer.Left()|
      {
        ParseNextToken();
      }
    }
  }

  /** What a loop over an object or an array sees. */
  method ReadAll(kind: Kind, text: seq<char>) returns (r: Result)
    ensures r == Walk(kind, text, Start)
  {
    hide Walk;
    var it := new Iterator(kind, text);
    var items: seq<Item> := [];
    it.Increment();
    while !it.atEnd
      invariant it.Valid() && (it.error ==> it.atEnd) && fresh(it) && fresh(it.tokenizer)
      invariant var a := it.Ahead();
        Walk(kind, text, Start) == Result(items + (if it.atEnd then [] else [it.item]) + a.items, a.ok)
      decreases !it.atEnd, |it.tokenizer.Left()|
    {
      items := items + [it.item];
      it.Increment();
    }
    r := Result(items, !it.error);
  }

  lemma {:induction false} NoValue(token: Token, s: seq<char>)
    requires token.End? || token.Error?
    ensures Convert(token, s).None?
  {
  }

  /** A bracket is the last character of its token. */
  lemma {:induction false} BracketBefore(s: seq<char>)
    ensures var l := Lex(s);
            (l.token.LeftBrace? ==> l.size > 0 && s[l.size - 1] == '{') &&
              (l.token.LeftBracket? ==> l.size > 0 && s[l.size - 1] == '[')
  {
    hide LexInteger, Quote, Letters, Spaces;
    var k := Spaces(s);
    if k < |s| {
      assert s[k..][0] == s[k];
    }
  }

  lemma {:induction false} WalkUnfolds(kind: Kind, s: seq<char>, state: State)
    ensures var l := Lex(s); var t := s[l.size..];
            Walk(kind, s, state) ==
            match state
            case Start =>
              if l.token == JsonIteration.Opening(kind) then Walk(kind, t, FirstOrEnd) else Result([], false)
            case FirstOrEnd =>
              if l.token == JsonIteration.Closing(kind) then Result([], true)
              else if kind.Array? then Elements(kind, l.token, t, [], s)
              else if l.token.Text? then Walk(kind, t, State.Colon(l.token.raw))
              else Result([], false)
            case Key => if l.token.Text? then Walk(kind, t, State.Colon(l.token.raw)) else Result([], false)
            case Colon(key) => if l.token.Colon? then Walk(kind, t, Element(key)) else Result([], false)
            case Element(key) => Elements(kind, l.token, t, key, s)
            case CommaOrEnd =>
              if l.token.Comma? then Walk(kind, t, if kind.Object? then Key else Element([]))
              else Result([], l.token == JsonIteration.Closing(kind))
  {
    hide Lex, Convert;
  }
}
