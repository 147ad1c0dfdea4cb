/** Iterating over the text of an object or an array, and what the formatters write. */
module JsonIteration {
  import opened Options
  import opened Characters
  import opened JsonLexer
  import opened JsonEscapes

  datatype Kind = Object | Array

  /** JsonValue: a nested value is the text of it. */
  datatype Value = Truth(truth: bool) | Whole(number: int) | Raw(raw: seq<char>) | Nested(kind: Kind, text: seq<char>)
  datatype Item = Item(key: seq<char>, value: Value)
  datatype Result = Result(items: seq<Item>, ok: bool)

  function Opening(kind: Kind): Token { if kind.Object? then LeftBrace else LeftBracket }
  function Closing(kind: Kind): Token { if kind.Object? then RightBrace else RightBracket }

  /** SearchObjectEnd and SearchArrayEnd: the number of characters up to and including the closing bracket. The
      original counts `nested` below zero for brackets that are open. */
  function Search(s: seq<char>, kind: Kind, nested: int): (r: Option<nat>)
    ensures r.Some? ==> 0 < r.value <= |s|
    decreases |s|
  {
    var l := Lex(s);
    if nested == 0 && l.token == Closing(kind) then Some(l.size)
    else if l.token.End? || l.token.Error? then None
    else Further(l.size, Search(s[l.size..], kind, Counted(kind, l.token, nested)))
  }

  function Counted(kind: Kind, token: Token, nested: int): int {
    if token == Opening(kind) then nested - 1 else if token == Closing(kind) then nested + 1 else nested
  }

  function Further(n: nat, r: Option<nat>): Option<nat> {
    if r.None? then None else Some(n + r.value)
  }

  lemma FurtherNothing(r: Option<nat>)
    ensures Further(0, r) == r
  {}

  /** ConvertValue, for a token and the text behind it, with the number of further characters used. */
  function Convert(token: Token, s: seq<char>): (r: Option<(Value, nat)>)
    ensures r.Some? ==> r.value.1 <= |s| && Size(r.value.0) <= |s| + 1
  {
    match token
    case Text(raw) => Some((Raw(raw), 0))
    case Integer(n) => Some((Whole(n), 0))
    case Boolean(b) => Some((Truth(b), 0))
    case LeftBrace => ConvertNested(Object, '{', s)
    case LeftBracket => ConvertNested(Array, '[', s)
    case _ => None
  }

  function ConvertNested(kind: Kind, c: char, s: seq<char>): (r: Option<(Value, nat)>)
    ensures r.Some? ==> r.value.1 <= |s| && Size(r.value.0) <= |s| + 1
  {
    match Search(s, kind, 0)
    case None => None
    case Some(n) => Some((Nested(kind, [c] + s[..n]), n))
  }

  function Size(v: Value): nat {
    if v.Nested? then |v.text| else 0
  }

  datatype State = Start | FirstOrEnd | Key | Colon(key: seq<char>) | Element(key: seq<char>) | CommaOrEnd

  /** Everything the iterator yields from a state on, and whether it got to the end without an error. */
  function Walk(kind: Kind, s: seq<char>, state: State): (r: Result)
    ensures forall i | 0 <= i < |r.items| :: Size(r.items[i].value) <= |s| &&
              (state.Start? ==> Size(r.items[i].value) < |s|)
    decreases |s|
  {
    var l := Lex(s);
    var t := s[l.size..];
    match state
    case Start => if l.token == Opening(kind) then Walk(kind, t, FirstOrEnd) else Result([], false)
    case FirstOrEnd =>
      if l.token == Closing(kind) then Result([], true)
      else if kind.Array? then Elements(kind, l.token, t, [], s)
      else if l.token.Text? then Walk(kind, t, State.Colon(l.token.raw))
      else Result([], false)
    case Key => if l.token.Text? then Walk(kind, t, State.Colon(l.token.raw)) else Result([], false)
    case Colon(key) => if l.token.Colon? then Walk(kind, t, Element(key)) else Result([], false)
    case Element(key) => Elements(kind, l.token, t, key, s)
    case CommaOrEnd =>
      if l.token.Comma? then Walk(kind, t, if kind.Object? then Key else Element([]))
      else Result([], l.token == Closing(kind))
  }

  function Elements(kind: Kind, token: Token, t: seq<char>, key: seq<char>, ghost s: seq<char>): (r: Result)
    requires |t| <= |s| && (!token.End? && !token.Error? ==> |t| < |s|)
    ensures forall i | 0 <= i < |r.items| :: Size(r.items[i].value) <= |s|
    decreases |s|, 0
  {
    match Convert(token, t)
    case None => Result([], false)
    case Some((v, n)) =>
      var more := Walk(kind, t[n..], CommaOrEnd);
      Result([Item(key, v)] + more.items, more.ok)
  }

  // ----- the values, and their text

  datatype Json = JBool(truth: bool) | JInt(number: int) | JString(text: seq<char>) | JNested(kind: Kind,
    members: Members)
  /** The elements of an array have no key. */
  datatype Members = NoMembers | Member(key: seq<char>, value: Json, rest: Members)

  predicate InDomain(v: Json)
    decreases v
  {
    match v
    case JBool(_) => true
    case JInt(n) => InRange(n)
    case JString(s) => Octets(s) && '\\' !in s
    case JNested(kind, members) => MembersInDomain(kind, members)
  }

  /** A key is written as it is: its quotes are escaped already, and its end is not. */
  predicate IsKey(kind: Kind, key: seq<char>) {
    if kind.Object? then Scanned(key, false) == Some(false) else key == []
  }

  predicate MembersInDomain(kind: Kind, members: Members)
    decreases members
  {
    match members
    case NoMembers => true
    case Member(key, value, rest) =>
      IsKey(kind, key) && InDomain(value) && MembersInDomain(kind, rest)
  }

  function Open(kind: Kind): char { if kind.Object? then '{' else '[' }
  function Shut(kind: Kind): char { if kind.Object? then '}' else ']' }

  function Format(v: Json, signed: bool): (r: seq<char>)
    requires InDomain(v)
    decreases v
  {
    match v
    case JBool(b) => if b then "true" else "false"
    case JInt(n) => Signed(n)
    case JString(s) => ['"'] + Escaped(s, signed) + ['"']
    case JNested(kind, members) => [Open(kind)] + Inside(kind, members, signed)
  }

  /** What follows the opening bracket. */
  function Inside(kind: Kind, members: Members, signed: bool): seq<char>
    requires MembersInDomain(kind, members)
    decreases members, 1
  {
    [' '] + FormatMembers(kind, members, true, signed) + [' ', Shut(kind)]
  }

  function FormatMembers(kind: Kind, members: Members, empty: bool, signed: bool): seq<char>
    requires MembersInDomain(kind, members)
    decreases members, 0
  {
    match members
    case NoMembers => []
    case Member(key, value, rest) =>
      (if empty then [] else [',', ' ']) + FormatKey(kind, key) + Format(value, signed) +
        FormatMembers(kind, rest, false, signed)
  }

  function FormatKey(kind: Kind, key: seq<char>): seq<char> {
    if kind.Object? then ['"'] + key + ['"'] + [':'] else []
  }

  // ----- reading it all

  function Recovered(kind: Kind, text: seq<char>): Option<Json>
    decreases |text|, 0
  {
    var r := Walk(kind, text, Start);
    if !r.ok then None
    else
      match RecoveredItems(r.items, |text|)
      case None => None
      case Some(members) => Some(JNested(kind, members))
  }

  function RecoveredItems(items: seq<Item>, bound: nat): Option<Members>
    requires forall i | 0 <= i < |items| :: Size(items[i].value) < bound
    decreases bound, 0, |items|
  {
    if items == [] then Some(NoMembers)
    else
      match (RecoveredValue(items[0].value), RecoveredItems(items[1..], bound))
      case (Some(v), Some(rest)) => Some(Member(items[0].key, v, rest))
      case _ => None
  }

  function RecoveredValue(v: Value): Option<Json>
    decreases Size(v), 1
  {
    match v
    case Truth(b) => Some(JBool(b))
    case Whole(n) => Some(JInt(n))
    case Raw(raw) => if Decoded(raw).None? then None else Some(JString(Decoded(raw).value))
    case Nested(kind, text) => Recovered(kind, text)
  }
}

