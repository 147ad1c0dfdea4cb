/** JSON texts as they are written: with any spaces between the tokens, any spelling of strings, and numbers with
    fraction and exponent. */
module JsonSyntax {
  import opened Characters
  import opened JsonMachine
  import opened JsonSkip
  import L = JsonLexer

  /** What may follow the digits of a number. */
  datatype Tail = NoTail | Fraction(digits: seq<char>) | Exponent(digits: seq<char>, mark: char, power: seq<char>)

  datatype Json =
    | Flag(truth: bool)
    | Null
    | Figure(negative: bool, digits: seq<char>, tail: Tail)
    | Phrase(pieces: seq<Piece>)
    | Bracketed(kind: Kind, gap: seq<char>, members: Members)

  /** The elements of an array have no key. The gap in front of the first member has no comma before it. */
  datatype Members =
    | NoMore
    | Member(before: seq<char>, key: seq<Piece>, afterKey: seq<char>, afterColon: seq<char>, value: Json,
      after: seq<char>, rest: Members)

  predicate IsGap(s: seq<char>) {
    forall i | 0 <= i < |s| :: IsSpace(s[i])
  }

  predicate AllDigits(s: seq<char>) {
    forall i | 0 <= i < |s| :: IsDigit(s[i])
  }

  predicate AllPieces(s: seq<Piece>) {
    forall i | 0 <= i < |s| :: IsPiece(s[i])
  }

  predicate IsTail(t: Tail) {
    match t
    case NoTail => true
    case Fraction(digits) => AllDigits(digits)
    case Exponent(digits, mark, power) =>
      AllDigits(digits) && (mark == 'e' || mark == 'E') &&
      forall i | 0 <= i < |power| :: IsDigit(power[i]) || power[i] == '+' || power[i] == '-'
  }

  predicate IsJson(v: Json)
    decreases v
  {
    match v
    case Flag(_) => true
    case Null => true
    case Figure(negative, digits, tail) => AllDigits(digits) && (digits != [] || negative) && IsTail(tail)
    case Phrase(pieces) => AllPieces(pieces)
    case Bracketed(kind, gap, members) => IsGap(gap) && AreMembers(members)
  }

  predicate AreMembers(members: Members)
    decreases members
  {
    match members
    case NoMore => true
    case Member(before, key, afterKey, afterColon, value, after, rest) =>
      IsGap(before) && AllPieces(key) && IsGap(afterKey) && IsGap(afterColon) && IsJson(value) && IsGap(after) &&
        AreMembers(rest)
  }

  // ----- the text

  function TailText(t: Tail): seq<char> {
    match t
    case NoTail => []
    case Fraction(digits) => ['.'] + digits
    case Exponent(digits, mark, power) => ['.'] + digits + [mark] + power
  }

  function Print(v: Json): seq<char>
    decreases v
  {
    match v
    case Flag(b) => if b then "true" else "false"
    case Null => "null"
    case Figure(negative, digits, tail) => (if negative then ['-'] else []) + digits + TailText(tail)
    case Phrase(pieces) => ['"'] + PiecesText(pieces) + ['"']
    case Bracketed(kind, gap, members) => [Opening(kind)] + gap + PrintMembers(kind, members, true) + [Closing(kind)]
  }

  function KeyText(kind: Kind, key: seq<Piece>, afterKey: seq<char>, afterColon: seq<char>): seq<char> {
    if kind.Object? then ['"'] + PiecesText(key) + ['"'] + afterKey + [':'] + afterColon else []
  }

  function PrintMembers(kind: Kind, members: Members, first: bool): seq<char>
    decreases members
  {
    match members
    case NoMore => []
    case Member(before, key, afterKey, afterColon, value, after, rest) =>
      (if first then [] else [',']) + before + KeyText(kind, key, afterKey, afterColon) + Print(value) + after +
      PrintMembers(kind, rest, false)
  }

  // ----- what it means

  /** Of a Unicode escape eight bits are kept. */
  function Meant(p: Piece): char
    requires IsPiece(p)
  {
    match p
    case Plain(c) => c
    case Escape(c) => Unescape(c)
    case Unicode(_, _, c, d) => (HexValue(c) * 16 + HexValue(d)) as char
  }

  function Meaning(s: seq<Piece>): (r: seq<char>)
    requires AllPieces(s)
    ensures |r| == |s|
  {
    if s == [] then [] else [Meant(s[0])] + Meaning(s[1..])
  }

  /** A number is its digits; fraction and exponent are passed over. */
  function NumberOf(v: Json): int
    requires v.Figure? && AllDigits(v.digits)
  {
    if v.negative then 0 - L.Number(v.digits) else L.Number(v.digits)
  }
}
