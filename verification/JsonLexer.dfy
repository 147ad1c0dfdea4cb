/** The tokens of a JSON text (JsonTokenizer). */
module JsonLexer {
  import opened Options
  import opened Characters

  datatype Token =
    | End | Error | Colon | Comma | Dot | LeftBrace | RightBrace | LeftBracket | RightBracket
    | Text(raw: seq<char>) | Integer(value: int) | Boolean(truth: bool)

  /** No token follows: the text has ended, or what comes next is none. */
  predicate IsLast(token: Token) {
    token.End? || token.Error?
  }

  /** A token and the number of characters up to its end. */
  datatype Lexeme = Lexeme(token: Token, size: nat)

  function Spaces(s: seq<char>): (n: nat)
    ensures n <= |s| && (n < |s| ==> !IsSpace(s[n]))
  {
    if s != [] && IsSpace(s[0]) then 1 + Spaces(s[1..]) else 0
  }

  function Digits(s: seq<char>): (n: nat)
    ensures n <= |s| && forall i | 0 <= i < n :: IsDigit(s[i])
  {
    if s != [] && IsDigit(s[0]) then 1 + Digits(s[1..]) else 0
  }

  function Letters(s: seq<char>): (n: nat)
    ensures n <= |s|
  {
    if s != [] && IsAlpha(s[0]) then 1 + Letters(s[1..]) else 0
  }

  /** Where the quote is that ends a string, when there is one. */
  function Quote(s: seq<char>, escape: bool): (n: Option<nat>)
    ensures n.Some? ==> n.value < |s|
  {
    if s == [] then None
    else if !escape && s[0] == '"' then Some(0)
    else
      match Quote(s[1..], !escape && s[0] == '\\')
      case None => None
      case Some(n) => Some(n + 1)
  }

  /** What the loop of TryCreateStringToken comes to. */
  datatype Ending = PastEnd | Unterminated | Found(at: nat)

  /** That loop in its own order: a character is looked at first, and only behind it the end of the text is tested. */
  function QuoteLoop(s: seq<char>, escape: bool): Ending {
    if s == [] then PastEnd
    else if !escape && s[0] == '"' then Found(0)
    else if |s| == 1 then Unterminated
    else
      match QuoteLoop(s[1..], !escape && s[0] == '\\')
      case Found(n) => Found(n + 1)
      case other => other
  }

  /** The loop reads past the end of the text if and only if nothing follows the opening quote; otherwise it finds
      the closing quote where there is one. */
  lemma {:induction false} PastEndIffNothingFollows(s: seq<char>, escape: bool)
    ensures QuoteLoop(s, escape).PastEnd? <==> s == []
    ensures forall n: nat :: QuoteLoop(s, escape) == Found(n) <==> Quote(s, escape) == Some(n)
    ensures s != [] ==> (QuoteLoop(s, escape).Unterminated? <==> Quote(s, escape).None?)
    decreases |s|
  {
    if s != [] && (escape || s[0] != '"') {
      PastEndIffNothingFollows(s[1..], !escape && s[0] == '\\');
    }
  }

  function DigitValue(c: char): nat
    requires IsDigit(c)
  {
    c as int - '0' as int
  }

  /** The value of a sequence of digits. */
  function Number(s: seq<char>): nat
    requires forall i | 0 <= i < |s| :: IsDigit(s[i])
  {
    if s == [] then 0 else Number(s[..|s| - 1]) * 10 + DigitValue(s[|s| - 1])
  }

  /** What TryCreateIntegerToken has computed when it has added the character `k` and has not subtracted '0' yet. */
  function BeforeSubtraction(d: seq<char>, k: nat): int
    requires k < |d| && forall i | 0 <= i < |d| :: IsDigit(d[i])
  {
    Number(d[..k]) * 10 + d[k] as int
  }

  lemma {:induction false} NumberGrows(d: seq<char>, k: nat)
    requires k <= |d| && forall i | 0 <= i < |d| :: IsDigit(d[i])
    ensures Number(d[..k]) <= Number(d)
    decreases |d|
  {
    if k == |d| {
      assert d[..k] == d;
    } else {
      var e := d[..|d| - 1];
      assert e[..k] == d[..k];
      NumberGrows(e, k);
    }
  }

  /** The computation stays in 32 bits, and so is defined, if and only if the number is below 2^31 - 48: the last
      numbers short of 2^31 are exceeded before '0' is subtracted. */
  lemma {:induction false} StaysInRange(d: seq<char>)
    requires forall i | 0 <= i < |d| :: IsDigit(d[i])
    ensures (forall k: nat | k < |d| :: BeforeSubtraction(d, k) < 0x8000_0000) <==>
      d == [] || Number(d) + 48 < 0x8000_0000
  {
    hide Number;
    forall k: nat | k < |d| ensures BeforeSubtraction(d, k) == Number(d[..k + 1]) + 48 <= Number(d) + 48 {
      NumberOf(d[..k + 1]);
      assert d[..k + 1][..k] == d[..k];
      NumberGrows(d, k + 1);
    }
    if d != [] {
      assert d[..|d| - 1 + 1] == d;
      assert BeforeSubtraction(d, |d| - 1) == Number(d) + 48;
    }
  }

  lemma NumberOf(d: seq<char>)
    requires d != [] && forall i | 0 <= i < |d| :: IsDigit(d[i])
    ensures Number(d) == Number(d[..|d| - 1]) * 10 + (d[|d| - 1] as int - 48)
  {}

  predicate InRange(n: int) { -0x8000_0000 <= n < 0x8000_0000 }

  /** The value in 32 bits: a sum that does not fit wraps around. */
  function Wrapped(n: int): (r: int)
    ensures InRange(r) && (InRange(n) ==> r == n)
  {
    var m := n % 0x1_0000_0000;
    if m < 0x8000_0000 then m else m - 0x1_0000_0000
  }

  function LexInteger(s: seq<char>): (r: Lexeme)
    requires s != []
    ensures r.token.Integer? && InRange(r.token.value)
    ensures r.size <= |s| && (IsDigit(s[0]) || s[0] == '-' ==> r.size > 0)
  {
    if s[0] == '-' then
      var n := Digits(s[1..]);
      Lexeme(Integer(Wrapped(0 - Number(s[1..][..n]))), n + 1)
    else
      var n := Digits(s);
      Lexeme(Integer(Wrapped(Number(s[..n]))), n)
  }

  function LexWord(s: seq<char>): (r: Lexeme)
    ensures r.size <= |s| && (s != [] && IsAlpha(s[0]) ==> r.size > 0)
    ensures r.token.Error? || (r.token.Boolean? && r.size == if r.token.truth then 4 else 5)
  {
    var n := Letters(s);
    Lexeme(if s[..n] == "true" then Boolean(true) else if s[..n] == "false" then Boolean(false) else Error, n)
  }

  function LexText(s: seq<char>): (r: Lexeme)
    requires s != []
    ensures r.size <= |s| && (r.token.Text? ==> r.size == |r.token.raw| + 2 && r.token.raw == s[1..r.size - 1])
    ensures r.token.Error? || r.token.Text?
  {
    match Quote(s[1..], false)
    case None => Lexeme(Error, |s|)
    case Some(n) => Lexeme(Text(s[1..n + 1]), n + 2)
  }

  /** The token at the start of a text that does not start with a space. */
  function LexHere(s: seq<char>): (r: Lexeme)
    ensures r.size <= |s| && (!r.token.End? && !r.token.Error? ==> r.size > 0)
    ensures r.token.Text? ==> r.size >= |r.token.raw| + 2
    ensures r.token.Integer? ==> InRange(r.token.value)
  {
    if s == [] then Lexeme(End, 0)
    else
      var c := s[0];
      if c == '"' then LexText(s)
      else if c == ':' then Lexeme(Colon, 1)
      else if c == ',' then Lexeme(Comma, 1)
      else if c == '.' then Lexeme(Dot, 1)
      else if c == '{' then Lexeme(LeftBrace, 1)
      else if c == '}' then Lexeme(RightBrace, 1)
      else if c == '[' then Lexeme(LeftBracket, 1)
      else if c == ']' then Lexeme(RightBracket, 1)
      else if IsDigit(c) || c == '-' then LexInteger(s)
      else if IsAlpha(c) then LexWord(s)
      else Lexeme(Error, 0)
  }

  /** JsonTokenizer::Token on what is left of the text. */
  function Lex(s: seq<char>): (r: Lexeme)
    ensures r.size <= |s| && (!r.token.End? && !r.token.Error? ==> r.size > 0)
    ensures r.token.Text? ==> r.size >= |r.token.raw| + 2
    ensures r.token.Integer? ==> InRange(r.token.value)
  {
    var k := Spaces(s);
    var l := LexHere(s[k..]);
    Lexeme(l.token, k + l.size)
  }

  // ----- what is found where

  lemma LexAfterSpace(s: seq<char>)
    ensures Lex([' '] + s) == Lexeme(Lex(s).token, Lex(s).size + 1)
  {
    hide LexHere;
    var t := [' '] + s;
    assert t[1..] == s;
    assert t[Spaces(t)..] == s[Spaces(s)..];
  }

  lemma LexNoSpace(s: seq<char>)
    requires s != [] && !IsSpace(s[0])
    ensures Lex(s) == LexHere(s)
  {
    hide LexHere;
    assert s[0..] == s;
  }

  /** The state of the escape flag behind `raw`, unless a quote ends the string before. */
  function Scanned(raw: seq<char>, escape: bool): Option<bool> {
    if raw == [] then Some(escape)
    else if !escape && raw[0] == '"' then None
    else Scanned(raw[1..], !escape && raw[0] == '\\')
  }

  lemma {:induction false} QuoteBehind(raw: seq<char>, escape: bool, rest: seq<char>)
    ensures Quote(raw + ['"'] + rest, escape) == Some(|raw|) <==> Scanned(raw, escape) == Some(false)
    decreases |raw|
  {
    var s := raw + ['"'] + rest;
    if raw == [] {
      assert s[0] == '"';
    } else {
      assert s[1..] == raw[1..] + ['"'] + rest;
      QuoteBehind(raw[1..], !escape && raw[0] == '\\', rest);
    }
  }

  /** A text between quotes is one token if and only if every quote in it is escaped and its end is not. */
  lemma {:induction false} LexOfText(raw: seq<char>, rest: seq<char>)
    ensures Lex(['"'] + raw + ['"'] + rest) == Lexeme(Text(raw), |raw| + 2) <==> Scanned(raw, false) == Some(false)
  {
    hide Quote, Scanned, Lex, LexHere, LexText;
    var s := ['"'] + raw + ['"'] + rest;
    LexNoSpace(s);
    LexHereText(s);
    assert s[1..] == raw + ['"'] + rest && s[1..|raw| + 1] == raw;
    QuoteBehind(raw, false, rest);
    TextEndsAtQuote(s, raw);
  }

  lemma TextEndsAtQuote(s: seq<char>, raw: seq<char>)
    requires |s| >= |raw| + 2 && s[1..|raw| + 1] == raw
    ensures LexText(s) == Lexeme(Text(raw), |raw| + 2) <==> Quote(s[1..], false) == Some(|raw|)
  {
    hide Quote;
  }

  lemma LexHereText(s: seq<char>)
    requires s != [] && s[0] == '"'
    ensures LexHere(s) == LexText(s)
  {
    hide LexInteger, LexText, LexWord;
  }

  lemma {:induction false} DigitsBefore(s: seq<char>, rest: seq<char>)
    requires (forall i | 0 <= i < |s| :: IsDigit(s[i])) && (rest == [] || !IsDigit(rest[0]))
    ensures Digits(s + rest) == |s|
    decreases |s|
  {
    if s == [] {
      assert s + rest == rest;
    } else {
      assert (s + rest)[1..] == s[1..] + rest;
      DigitsBefore(s[1..], rest);
    }
  }

  lemma LexOfWord(word: bool, rest: seq<char>)
    requires rest == [] || !IsAlpha(rest[0])
    ensures Lex((if word then "true" else "false") + rest) == Lexeme(Boolean(word), if word then 4 else 5)
  {
    var w := if word then "true" else "false";
    var s := w + rest;
    LexNoSpace(s);
    LettersBefore(w, rest);
    assert s[..|w|] == w;
  }

  lemma {:induction false} LettersBefore(s: seq<char>, rest: seq<char>)
    requires (forall i | 0 <= i < |s| :: IsAlpha(s[i])) && (rest == [] || !IsAlpha(rest[0]))
    ensures Letters(s + rest) == |s|
    decreases |s|
  {
    if s == [] {
      assert s + rest == rest;
    } else {
      assert (s + rest)[1..] == s[1..] + rest;
      LettersBefore(s[1..], rest);
    }
  }

  // ----- decimal numbers

  /** The digits that OutputAsDecimal writes. */
  function Decimal(n: nat): (r: seq<char>)
    ensures r != [] && forall i | 0 <= i < |r| :: IsDigit(r[i])
  {
    if n < 10 then [Digit(n)] else Decimal(n / 10) + [Digit(n % 10)]
  }

  function Digit(n: nat): char
    requires n < 10
  {
    (n + '0' as int) as char
  }

  lemma {:induction false} NumberOfDecimal(n: nat)
    ensures Number(Decimal(n)) == n
  {
    var d := Decimal(n);
    if n >= 10 {
      NumberOfDecimal(n / 10);
      assert d[..|d| - 1] == Decimal(n / 10);
    } else {
      assert d[..0] == [];
    }
  }

  function Signed(n: int): seq<char> {
    if n < 0 then ['-'] + Decimal(-n) else Decimal(n)
  }

  /** A printed integer is read in 32 bits. */
  lemma {:induction false} LexOfInteger(n: int, rest: seq<char>)
    requires rest == [] || !IsDigit(rest[0])
    ensures Lex(Signed(n) + rest) == Lexeme(Integer(Wrapped(n)), |Signed(n)|)
  {
    hide LexHere, Decimal, Number, Lex, LexInteger, Wrapped;
    var s, m := Signed(n) + rest, if n < 0 then -n else n;
    LexNoSpace(s);
    LexHereInteger(s);
    NumberOfDecimal(m);
    DigitsAreRead(n < 0, Decimal(m), rest);
    assert s == (if n < 0 then ['-'] else []) + Decimal(m) + rest;
  }

  lemma {:induction false} DigitsAreRead(sign: bool, d: seq<char>, rest: seq<char>)
    requires d != [] && (forall i | 0 <= i < |d| :: IsDigit(d[i])) && (rest == [] || !IsDigit(rest[0]))
    ensures LexInteger((if sign then ['-'] else []) + d + rest) ==
      Lexeme(Integer(Wrapped(if sign then 0 - Number(d) else Number(d))), |d| + if sign then 1 else 0)
  {
    hide Number, Digits, Wrapped;
    var s := (if sign then ['-'] else []) + d + rest;
    DigitsBefore(d, rest);
    assert (d + rest)[..|d|] == d;
    if sign {
      assert s[1..] == d + rest;
    } else {
      assert s == d + rest;
    }
  }

  lemma LexHereInteger(s: seq<char>)
    requires s != [] && (IsDigit(s[0]) || s[0] == '-')
    ensures LexHere(s) == LexInteger(s)
  {
    hide LexInteger, LexText, LexWord;
  }

  // ----- every kind of text

  /** Digits are those of the decimal system. */
  lemma DigitsAre(n: nat, c: char)
    requires n < 10
    ensures Digit(n) == "0123456789"[n] && IsDigit(Digit(n)) && DigitValue(Digit(n)) == n
    ensures IsDigit(c) <==> exists i :: 0 <= i < 10 && "0123456789"[i] == c
  {
    if IsDigit(c) {
      assert "0123456789"[DigitValue(c)] == c;
    }
  }

  /** The tokens of one character. */
  lemma MarksAre(c: char, s: seq<char>)
    requires c in {':', ',', '.', '{', '}', '[', ']'}
    ensures Lex([c] + s).size == 1
    ensures Lex([c] + s).token ==
      if c == ':' then Colon else if c == ',' then Comma else if c == '.' then Dot
      else if c == '{' then LeftBrace else if c == '}' then RightBrace
      else if c == '[' then LeftBracket else RightBracket
  {
    hide LexText, LexInteger, LexWord;
    LexNoSpace([c] + s);
  }

  /** A word is one of two. */
  lemma {:induction false} WordsAre(w: seq<char>, rest: seq<char>)
    requires w != [] && (forall i | 0 <= i < |w| :: IsAlpha(w[i])) && (rest == [] || !IsAlpha(rest[0]))
    ensures Lex(w + rest) ==
      Lexeme(if w == "true" then Boolean(true) else if w == "false" then Boolean(false) else Error, |w|)
  {
    hide Letters, LexHere;
    var s := w + rest;
    LexNoSpace(s);
    LexHereWord(s);
    LettersBefore(w, rest);
    assert s[..|w|] == w;
  }

  lemma LexHereWord(s: seq<char>)
    requires s != [] && IsAlpha(s[0])
    ensures LexHere(s) == LexWord(s)
  {
    hide LexInteger, LexText, LexWord;
  }

  /** Digits with or without a sign are an integer, leading zeros or not. */
  lemma {:induction false} IntegersAre(sign: bool, d: seq<char>, rest: seq<char>)
    requires d != [] && (forall i | 0 <= i < |d| :: IsDigit(d[i])) && (rest == [] || !IsDigit(rest[0]))
    ensures Lex((if sign then ['-'] else []) + d + rest) ==
      Lexeme(Integer(Wrapped(if sign then 0 - Number(d) else Number(d))), |d| + if sign then 1 else 0)
  {
    hide LexHere, LexInteger, Number, Wrapped;
    var s := (if sign then ['-'] else []) + d + rest;
    LexNoSpace(s);
    LexHereInteger(s);
    DigitsAreRead(sign, d, rest);
  }

  /** Nothing else begins a token. */
  lemma OthersAreErrors(c: char, s: seq<char>)
    requires !IsSpace(c) && !IsAlpha(c) && !IsDigit(c) && c !in {':', ',', '.', '{', '}', '[', ']', '"', '-'}
    ensures Lex([c] + s).token.Error?
  {
    hide LexText, LexInteger, LexWord;
    LexNoSpace([c] + s);
  }
}
