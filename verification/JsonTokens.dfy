/** The character automaton that finds the tokens of a JSON text (infra/syntax/JsonStreamingParser.cpp). */
module JsonTokens {
  import opened Characters

  datatype TokenState =
    | Open | Done
    | StringOpen | StringOpenAndEscaped | StringOverflowOpen | UnicodeValueOpen
    | NumberOpen | NumberFractionalOpen | NumberExponentOpen
    | IdentifierOpen

  datatype Token =
    | Error | Colon | Comma | LeftBrace | RightBrace | LeftBracket | RightBracket
    | String | StringOverflow | Number | True | False | Null

  datatype Tokenizer = Tokenizer(
    tokenState: TokenState, token: Token, value: seq<char>, number: int, sign: int, unicodeIndex: nat, unicode: nat)
  {
    function Found(found: Token): Tokenizer {
      this.(token := found, tokenState := Done)
    }
  }

  /** The capacities of the three buffers. A buffer for values holds at least the first letter of an identifier. */
  datatype Limits = Limits(tag: nat, value: nat, nesting: nat) {
    ghost predicate Valid() {
      value > 0 && nesting > 0
    }
  }

  function AddToValueBuffer(t: Tokenizer, c: char, save: bool, inString: bool, max: nat): Tokenizer {
    if |t.value| >= max then
      if inString then t.(tokenState := StringOverflowOpen) else t.Found(Error)
    else if save then t.(value := t.value + [c])
    else t
  }

  function ProcessEscapedData(t: Tokenizer, c: char, save: bool, max: nat): Tokenizer {
    if c == 'u' then t.(tokenState := UnicodeValueOpen)
    else AddToValueBuffer(t, Unescape(c), save, true, max)
  }

  function OpenChar(t: Tokenizer, c: char): Tokenizer {
    if IsSpace(c) then t
    else
      match c
      case ':' => t.Found(Colon)
      case ',' => t.Found(Comma)
      case '{' => t.Found(LeftBrace)
      case '}' => t.Found(RightBrace)
      case '[' => t.Found(LeftBracket)
      case ']' => t.Found(RightBracket)
      case '"' => t.(tokenState := StringOpen)
      case '-' => t.(tokenState := NumberOpen, number := 0, sign := -1)
      case _ =>
        if IsAlpha(c) then t.(tokenState := IdentifierOpen, value := [c])
        else if IsDigit(c) then t.(tokenState := NumberOpen, number := c as int - '0' as int, sign := 1)
        else t.Found(Error)
  }

  function StringChar(t: Tokenizer, c: char, save: bool, max: nat): Tokenizer {
    if c == '\\' then t.(tokenState := StringOpenAndEscaped)
    else if c == '"' then t.Found(if t.tokenState.StringOpen? then String else StringOverflow)
    else AddToValueBuffer(t, c, save, true, max)
  }

  function UnicodeChar(t: Tokenizer, c: char, save: bool, max: nat): Tokenizer {
    if !IsHex(c) then t.(unicodeIndex := 0, unicode := 0).Found(Error)
    else UnicodeDigit(t.(unicodeIndex := t.unicodeIndex + 1, unicode := (t.unicode * 16 + HexValue(c)) % 0x10000), save, max)
  }

  function UnicodeDigit(t: Tokenizer, save: bool, max: nat): Tokenizer {
    if t.unicodeIndex != 4 then t
    else
      var u := t.(tokenState := StringOpen);
      var v := if |u.value| >= max then u.Found(Error)
        else AddToValueBuffer(u, (t.unicode % 256) as char, save, true, max);
      v.(unicodeIndex := 0, unicode := 0)
  }

  /** The token, if any, that a character that is not part of it ends. */
  function Ended(t: Tokenizer): Token {
    if !t.tokenState.IdentifierOpen? then Number
    else if t.value == "true" then True
    else if t.value == "false" then False
    else if t.value == "null" then Null
    else Error
  }

  /** Whether the character is left for the next token. */
  predicate Ends(t: Tokenizer, c: char) {
    match t.tokenState
    case NumberOpen => !IsDigit(c) && c != '.'
    case NumberFractionalOpen => !IsDigit(c) && c != 'e' && c != 'E'
    case NumberExponentOpen => !IsDigit(c) && c != '+' && c != '-'
    case IdentifierOpen => !IsAlpha(c)
    case _ => false
  }

  function Eaten(t: Tokenizer, c: char, save: bool, max: nat): Tokenizer
    requires !t.tokenState.Done? && !Ends(t, c)
  {
    match t.tokenState
    case NumberOpen =>
      if c == '.' then t.(tokenState := NumberFractionalOpen) else t.(number := t.number * 10 + (c as int - '0' as int))
    case NumberFractionalOpen => if IsDigit(c) then t else t.(tokenState := NumberExponentOpen)
    case NumberExponentOpen => t
    case IdentifierOpen => AddToValueBuffer(t, c, save, false, max)
    case Open => OpenChar(t, c)
    case StringOpenAndEscaped => ProcessEscapedData(t.(tokenState := StringOpen), c, save, max)
    case UnicodeValueOpen => UnicodeChar(t, c, save, max)
    case _ => StringChar(t, c, save, max)
  }

  /** Characters are taken until a token is found or none are left. */
  function Run(t: Tokenizer, data: seq<char>, save: bool, max: nat): (r: (Tokenizer, seq<char>))
    ensures |r.1| <= |data|
    ensures r.0.tokenState.Done? || r.1 == []
    ensures data != [] && t.tokenState.Open? ==> |r.1| < |data|
    decreases |data|
  {
    if data == [] || t.tokenState.Done? then (t, data)
    else if Ends(t, data[0]) then (t.Found(Ended(t)), data)
    else Run(Eaten(t, data[0], save, max), data[1..], save, max)
  }

  predicate IsWord(token: Token) {
    token.Number? || token.True? || token.False? || token.Null? || token.Error?
  }

  /** The only tokens found without taking a character are numbers and words. */
  lemma {:induction false} RunMoves(t: Tokenizer, data: seq<char>, save: bool, max: nat)
    requires data != [] && !t.tokenState.Done?
    ensures var r := Run(t, data, save, max);
      |r.1| < |data| || (r.1 == data && r.0.tokenState.Done? && IsWord(r.0.token))
  {
    hide Ends, Eaten, Ended;
    WordEnds(t);
  }

  lemma WordEnds(t: Tokenizer)
    ensures IsWord(Ended(t))
  {
  }
}
