/** Reading what was formatted gives back the value. */
module JsonRoundTrip {
  import opened Options
  import opened Characters
  import opened JsonLexer
  import opened JsonEscapes
  import opened JsonIteration

  /** The characters that follow a formatted value. */
  predicate IsDelimiter(s: seq<char>) {
    s != [] && (s[0] == ',' || s[0] == ' ')
  }

  /** What the iterator yields for a value. */
  function ValueOf(v: Json, signed: bool): Value
    requires InDomain(v)
  {
    match v
    case JBool(b) => Truth(b)
    case JInt(n) => Whole(n)
    case JString(s) => Raw(Escaped(s, signed))
    case JNested(kind, _) => Nested(kind, Format(v, signed))
  }

  function ItemsOf(kind: Kind, members: Members, signed: bool): seq<Item>
    requires MembersInDomain(kind, members)
  {
    match members
    case NoMembers => []
    case Member(key, value, rest) => [Item(key, ValueOf(value, signed))] + ItemsOf(kind, rest, signed)
  }

  lemma LexOfPunctuation(c: char, s: seq<char>)
    requires c in [':', ',', '{', '}', '[', ']']
    ensures Lex([c] + s) == Lexeme(
      if c == ':' then Token.Colon
        else if c == ',' then Comma else if c == '{' then LeftBrace else if c == '}' then RightBrace
      else if c == '[' then LeftBracket else RightBracket, 1)
  {
    LexNoSpace([c] + s);
  }

  /** The first token of a formatted value. */
  function FirstToken(v: Json, signed: bool): Lexeme
    requires InDomain(v)
  {
    match v
    case JBool(b) => Lexeme(Boolean(b), |Format(v, signed)|)
    case JInt(n) => Lexeme(Integer(n), |Format(v, signed)|)
    case JString(s) => Lexeme(Text(Escaped(s, signed)), |Format(v, signed)|)
    case JNested(kind, _) => Lexeme(JsonIteration.Opening(kind), 1)
  }

  lemma LexOfValue(v: Json, rest: seq<char>, signed: bool)
    requires InDomain(v) && IsDelimiter(rest)
    ensures Lex(Format(v, signed) + rest) == FirstToken(v, signed)
  {
    hide Lex, Escaped, Inside, Signed;
    match v
    case JBool(b) => LexOfWord(b, rest);
    case JInt(n) => LexOfInteger(n, rest);
    case JString(s) =>
      DecodeUndoesEscape(s, signed);
      LexOfText(Escaped(s, signed), rest);
    case JNested(kind, members) =>
      var inside := Inside(kind, members, signed);
      assert Format(v, signed) + rest == [Open(kind)] + (inside + rest);
      LexOfPunctuation(Open(kind), inside + rest);
  }

  // ----- searching the closing bracket

  lemma FurtherFurther(a: nat, b: nat, r: Option<nat>)
    ensures Further(a, Further(b, r)) == Further(a + b, r)
  {
  }

  lemma SearchStep(s: seq<char>, kind: Kind, nested: int, token: Token, first: seq<char>, rest: seq<char>)
    requires s == first + rest && Lex(s) == Lexeme(token, |first|) && !token.End? && !token.Error?
    requires nested != 0 || token != JsonIteration.Closing(kind)
    ensures Search(s, kind, nested) == Further(|first|, Search(rest, kind, Counted(kind, token, nested)))
  {
    hide Lex;
    assert s[|first|..] == rest;
  }

  lemma SearchSpace(s: seq<char>, kind: Kind, nested: int)
    ensures Search([' '] + s, kind, nested) == Further(1, Search(s, kind, nested))
  {
    hide Lex;
    LexAfterSpace(s);
    var t := [' '] + s;
    var n := Lex(s).size;
    assert t[n + 1..] == s[n..];
  }

  /** A formatted value contains as many opening as closing brackets, strings not counted. */
  lemma {:induction false} SearchPasses(v: Json, rest: seq<char>, kind: Kind, nested: int, signed: bool)
    requires InDomain(v) && IsDelimiter(rest) && nested <= 0
    ensures Search(Format(v, signed) + rest, kind, nested) == Further(|Format(v, signed)|, Search(rest, kind, nested))
    decreases v
  {
    hide Search, Inside, Escaped, Signed, Lex;
    LexOfValue(v, rest, signed);
    if v.JNested? {
      var inside := Inside(v.kind, v.members, signed);
      assert Format(v, signed) + rest == [Open(v.kind)] + (inside + rest);
      SearchStep(Format(v, signed) + rest, kind, nested, JsonIteration.Opening(v.kind), [Open(v.kind)], inside + rest);
      var deeper := Counted(kind, JsonIteration.Opening(v.kind), nested);
      SearchInside(v.kind, v.members, rest, kind, deeper, signed);
      FurtherFurther(1, |inside|, Search(rest, kind, nested));
    } else {
      SearchStep(Format(v, signed) + rest, kind, nested, FirstToken(v, signed).token, Format(v, signed), rest);
    }
  }

  lemma {:induction false} SearchInside(inner: Kind, members: Members, rest: seq<char>, kind: Kind, nested: int,
      signed: bool)
    requires MembersInDomain(inner, members) && nested <= 0
    ensures inner != kind || nested < 0 ==>
              Search(Inside(inner, members, signed) + rest, kind, nested)
              == Further(|Inside(inner, members, signed)|,
                Search(rest, kind, Counted(kind, JsonIteration.Closing(inner), nested)))
    ensures inner == kind && nested == 0 ==>
              Search(Inside(inner, members, signed) + rest, kind, nested) == Some(|Inside(inner, members, signed)|)
    decreases members, 1
  {
    hide Search, Lex, FormatMembers;
    var f := FormatMembers(inner, members, true, signed);
    var last := [Shut(inner)] + rest;
    assert Inside(inner, members, signed) + rest == [' '] + (f + ([' '] + last));
    SearchSpace(f + ([' '] + last), kind, nested);
    SearchMembers(inner, members, true, [' '] + last, kind, nested, signed);
    SearchSpace(last, kind, nested);
    LexOfPunctuation(Shut(inner), rest);
    FurtherFurther(|f|, 1, Search(last, kind, nested));
    FurtherFurther(1, |f| + 1, Search(last, kind, nested));
    if inner == kind && nested == 0 {
      SearchFound(last, kind);
    } else {
      SearchStep(last, kind, nested, JsonIteration.Closing(inner), [Shut(inner)], rest);
      FurtherFurther(|f| + 2, 1, Search(rest, kind, Counted(kind, JsonIteration.Closing(inner), nested)));
    }
  }

  lemma SearchFound(s: seq<char>, kind: Kind)
    requires Lex(s).token == JsonIteration.Closing(kind)
    ensures Search(s, kind, 0) == Some(Lex(s).size)
  {
  }

  lemma {:induction false} SearchMembers(inner: Kind, members: Members, empty: bool, rest: seq<char>, kind: Kind,
      nested: int, signed: bool)
    requires MembersInDomain(inner, members) && IsDelimiter(rest) && nested <= 0
    ensures Search(FormatMembers(inner, members, empty, signed) + rest, kind, nested)
            == Further(|FormatMembers(inner, members, empty, signed)|, Search(rest, kind, nested))
    decreases members, 0
  {
    hide Search, Lex, Format, FormatKey, FormatMembers, Further;
    MemberText(inner, members, empty, rest, signed);
    if members.NoMembers? {
      FurtherNothing(Search(rest, kind, nested));
    } else {
      var k, v, more := FormatKey(inner, members.key), Format(members.value, signed),
        FormatMembers(inner, members.rest, false, signed);
      SearchMembers(inner, members.rest, false, rest, kind, nested, signed);
      DelimiterFollows(inner, members.rest, rest, signed);
      SearchPasses(members.value, more + rest, kind, nested, signed);
      SearchKey(inner, members.key, v + (more + rest), kind, nested);
      FurtherFurther(|v|, |more|, Search(rest, kind, nested));
      FurtherFurther(|k|, |v| + |more|, Search(rest, kind, nested));
      if !empty {
        SearchComma(k + (v + (more + rest)), kind, nested);
        FurtherFurther(2, |k| + (|v| + |more|), Search(rest, kind, nested));
      }
    }
  }

  /** The text of the first member and of the others. */
  lemma MemberText(kind: Kind, members: Members, empty: bool, rest: seq<char>, signed: bool)
    requires MembersInDomain(kind, members) &&
      (members.Member? ==> InDomain(members.value) && MembersInDomain(kind, members.rest))
    ensures members.NoMembers? ==>
      FormatMembers(kind, members, empty, signed) == [] && FormatMembers(kind, members, empty, signed) + rest == rest
    ensures members.Member? ==>
              var k, v, more := FormatKey(kind, members.key), Format(members.value, signed),
                FormatMembers(kind, members.rest, false, signed);
              var all, f := k + (v + (more + rest)), FormatMembers(kind, members, empty, signed);
              f + rest == (if empty then all else [','] + ([' '] + all)) &&
                |f| == |k| + |v| + |more| + (if empty then 0 else 2)
  {
    hide Format, FormatKey, FormatMembers, MembersInDomain, InDomain;
    MemberTextIs(kind, members, empty, signed);
    if members.Member? {
      Joined(FormatKey(kind, members.key), Format(members.value, signed),
        FormatMembers(kind, members.rest, false, signed), rest);
    } else {
      assert [] + rest == rest;
    }
  }

  lemma MemberTextIs(kind: Kind, members: Members, empty: bool, signed: bool)
    requires MembersInDomain(kind, members)
    ensures members.NoMembers? ==> FormatMembers(kind, members, empty, signed) == []
    ensures members.Member? ==>
              InDomain(members.value) && MembersInDomain(kind, members.rest)
              && FormatMembers(kind, members, empty, signed) ==
                 (if empty then [] else [',', ' ']) + FormatKey(kind, members.key) + Format(members.value, signed)
                 + FormatMembers(kind, members.rest, false, signed)
  {
    hide Format, FormatKey;
  }

  lemma Joined(b: seq<char>, c: seq<char>, d: seq<char>, e: seq<char>)
    ensures [] + b + c + d + e == b + (c + (d + e))
    ensures [',', ' '] + b + c + d + e == [','] + ([' '] + (b + (c + (d + e))))
  {
  }

  lemma SearchComma(s: seq<char>, kind: Kind, nested: int)
    ensures Search([','] + ([' '] + s), kind, nested) == Further(2, Search(s, kind, nested))
  {
    hide Search, Lex;
    LexOfPunctuation(',', [' '] + s);
    SearchStep([','] + ([' '] + s), kind, nested, Comma, [','], [' '] + s);
    SearchSpace(s, kind, nested);
    FurtherFurther(1, 1, Search(s, kind, nested));
  }

  lemma DelimiterFollows(kind: Kind, members: Members, rest: seq<char>, signed: bool)
    requires MembersInDomain(kind, members) && IsDelimiter(rest)
    ensures IsDelimiter(FormatMembers(kind, members, false, signed) + rest)
  {
    hide Format, FormatKey;
  }

  /** A key, if there are keys. */
  lemma SearchKey(inner: Kind, key: seq<char>, rest: seq<char>, kind: Kind, nested: int)
    requires IsKey(inner, key)
    ensures Search(FormatKey(inner, key) + rest, kind, nested) ==
      Further(|FormatKey(inner, key)|, Search(rest, kind, nested))
  {
    hide Search, Lex, Scanned;
    if inner.Object? {
      var quoted := ['"'] + key + ['"'];
      var more := [':'] + rest;
      assert FormatKey(inner, key) + rest == quoted + more;
      LexOfText(key, more);
      LexOfPunctuation(':', rest);
      SearchStep(quoted + more, kind, nested, Text(key), quoted, more);
      SearchStep(more, kind, nested, Token.Colon, [':'], rest);
      FurtherFurther(|quoted|, 1, Search(rest, kind, nested));
    } else {
      assert FormatKey(inner, key) + rest == rest;
      FurtherNothing(Search(rest, kind, nested));
    }
  }

  // ----- iterating

  lemma WalkSpace(kind: Kind, s: seq<char>, state: State)
    ensures Walk(kind, [' '] + s, state) == Walk(kind, s, state)
  {
    hide Lex, Convert;
    LexAfterSpace(s);
    var t := [' '] + s;
    var n := Lex(s).size;
    assert t[n + 1..] == s[n..];
  }

  /** A value where one is expected. */
  lemma ConvertsBack(v: Json, rest: seq<char>, signed: bool)
    requires InDomain(v) && IsDelimiter(rest)
    ensures var s, l := Format(v, signed) + rest, FirstToken(v, signed);
            Lex(s) == l && l.size <= |Format(v, signed)| &&
              Convert(l.token, s[l.size..]) == Some((ValueOf(v, signed), |Format(v, signed)| - l.size))
  {
    hide Lex, Escaped, Inside, Signed, Search;
    LexOfValue(v, rest, signed);
    if v.JNested? {
      var inside := Inside(v.kind, v.members, signed);
      var s := Format(v, signed) + rest;
      SearchInside(v.kind, v.members, rest, v.kind, 0, signed);
      assert s[1..] == inside + rest;
      assert (inside + rest)[..|inside|] == inside;
    }
  }

  /** The iterator yields the value and goes on behind it. */
  lemma ElementIsYielded(kind: Kind, key: seq<char>, v: Json, rest: seq<char>, state: State, signed: bool)
    requires InDomain(v) && IsDelimiter(rest)
    requires state == Element(key) || (state == FirstOrEnd && kind.Array? && key == [])
    ensures var more := Walk(kind, rest, CommaOrEnd);
            Walk(kind, Format(v, signed) + rest, state) == Result([Item(key, ValueOf(v, signed))] + more.items, more.ok)
  {
    hide Lex, Format, Convert;
    ConvertsBack(v, rest, signed);
    NotClosing(kind, v, signed);
    var s, l := Format(v, signed) + rest, FirstToken(v, signed);
    assert s[l.size..][|Format(v, signed)| - l.size..] == rest;
    WalkElement(kind, s, key, state);
  }

  lemma NotClosing(kind: Kind, v: Json, signed: bool)
    requires InDomain(v)
    ensures FirstToken(v, signed).token != JsonIteration.Closing(kind)
  {
  }

  lemma WalkElement(kind: Kind, s: seq<char>, key: seq<char>, state: State)
    requires state == Element(key) ||
      (state == FirstOrEnd && kind.Array? && key == [] && Lex(s).token != JsonIteration.Closing(kind))
    requires Convert(Lex(s).token, s[Lex(s).size..]).Some?
    ensures var l := Lex(s);
      var t := s[l.size..]; var c := Convert(l.token, t).value; var more := Walk(kind, t[c.1..], CommaOrEnd);
            Walk(kind, s, state) == Result([Item(key, c.0)] + more.items, more.ok)
  {
    hide Lex, Convert;
  }

  /** A key where one is expected, with its colon. */
  lemma KeyIsRead(key: seq<char>, rest: seq<char>, state: State)
    requires IsKey(Object, key) && (state == Key || state == FirstOrEnd)
    ensures Walk(Object, FormatKey(Object, key) + rest, state) == Walk(Object, rest, Element(key))
  {
    hide Lex, Scanned;
    var quoted, more := ['"'] + key + ['"'], [':'] + rest;
    assert FormatKey(Object, key) + rest == quoted + more;
    LexOfText(key, more);
    LexOfPunctuation(':', rest);
    assert (quoted + more)[|quoted|..] == more && more[1..] == rest;
    assert Walk(Object, more, State.Colon(key)) == Walk(Object, rest, Element(key));
  }

  lemma WalkEnd(kind: Kind, state: State)
    requires state == FirstOrEnd || state == CommaOrEnd
    ensures Walk(kind, [' ', Shut(kind)], state) == Result([], true)
  {
    hide Lex;
    var s := [Shut(kind)];
    assert [' '] + s == [' ', Shut(kind)] && s + [] == s;
    WalkSpace(kind, s, state);
    LexOfPunctuation(Shut(kind), []);
  }

  lemma WalkComma(kind: Kind, s: seq<char>)
    ensures Walk(kind, [','] + ([' '] + s), CommaOrEnd) == Walk(kind, s, if kind.Object? then Key else Element([]))
  {
    hide Lex;
    var state := if kind.Object? then Key else Element([]);
    LexOfPunctuation(',', [' '] + s);
    assert ([','] + ([' '] + s))[1..] == [' '] + s;
    assert Walk(kind, [','] + ([' '] + s), CommaOrEnd) == Walk(kind, [' '] + s, state);
    WalkSpace(kind, s, state);
  }

  lemma {:induction false} MembersAreYielded(kind: Kind, members: Members, empty: bool, signed: bool)
    requires MembersInDomain(kind, members)
    ensures Walk(kind, FormatMembers(kind, members, empty, signed) + [' ', Shut(kind)], if empty then FirstOrEnd
      else CommaOrEnd)
            == Result(ItemsOf(kind, members, signed), true)
    decreases members
  {
    hide Walk, Format, FormatKey, FormatMembers, ValueOf;
    var end := [' ', Shut(kind)];
    MemberText(kind, members, empty, end, signed);
    if members.NoMembers? {
      WalkEnd(kind, if empty then FirstOrEnd else CommaOrEnd);
    } else {
      var v, rest := Format(members.value, signed), FormatMembers(kind, members.rest, false, signed) + end;
      MembersAreYielded(kind, members.rest, false, signed);
      DelimiterFollows(kind, members.rest, end, signed);
      var all := FormatKey(kind, members.key) + (v + rest);
      if !empty {
        WalkComma(kind, all);
      }
      if kind.Object? {
        KeyIsRead(members.key, v + rest, if empty then FirstOrEnd else Key);
        ElementIsYielded(kind, members.key, members.value, rest, Element(members.key), signed);
      } else {
        NoKey(v + rest);
        ElementIsYielded(kind, [], members.value, rest, if empty then FirstOrEnd else Element([]), signed);
      }
    }
  }

  lemma NoKey(s: seq<char>)
    ensures FormatKey(Array, []) + s == s
  {
  }

  /** Iterating over a formatted object or array yields its members, in order, and ends without an error. */
  lemma IterationYieldsMembers(kind: Kind, members: Members, signed: bool)
    requires MembersInDomain(kind, members)
    ensures Walk(kind, Format(JNested(kind, members), signed), Start) == Result(ItemsOf(kind, members, signed), true)
  {
    hide Lex, FormatMembers, ItemsOf;
    var f := FormatMembers(kind, members, true, signed) + [' ', Shut(kind)];
    var s := Format(JNested(kind, members), signed);
    assert Inside(kind, members, signed) == [' '] + f;
    assert s == [Open(kind)] + Inside(kind, members, signed);
    LexOfPunctuation(Open(kind), [' '] + f);
    assert s[1..] == [' '] + f;
    WalkSpace(kind, f, FirstOrEnd);
    MembersAreYielded(kind, members, true, signed);
  }

  // ----- the round trip

  /** Every object and every array in the domain is recovered from its text, to any depth. */
  lemma {:induction false} ReadingUndoesFormatting(kind: Kind, members: Members, signed: bool)
    requires MembersInDomain(kind, members)
    ensures Recovered(kind, Format(JNested(kind, members), signed)) == Some(JNested(kind, members))
    decreases members, 1
  {
    hide Walk, Format, RecoveredItems, ItemsOf;
    IterationYieldsMembers(kind, members, signed);
    ItemsAreRecovered(kind, members, |Format(JNested(kind, members), signed)|, signed);
  }

  lemma {:induction false} ItemsAreRecovered(kind: Kind, members: Members, bound: nat, signed: bool)
    requires MembersInDomain(kind, members)
    requires forall i | 0 <= i < |ItemsOf(kind, members, signed)| ::
               Size(ItemsOf(kind, members, signed)[i].value) < bound
    ensures RecoveredItems(ItemsOf(kind, members, signed), bound) == Some(members)
    decreases members, 0
  {
    hide Walk, Format, Recovered;
    if members.Member? {
      var items, rest := ItemsOf(kind, members, signed), ItemsOf(kind, members.rest, signed);
      assert items[1..] == rest;
      forall i | 0 <= i < |rest| ensures Size(rest[i].value) < bound {
        assert rest[i] == items[i + 1];
      }
      ItemsAreRecovered(kind, members.rest, bound, signed);
      ValueIsRecovered(members.value, signed);
    }
  }

  lemma {:induction false} ValueIsRecovered(v: Json, signed: bool)
    requires InDomain(v)
    ensures RecoveredValue(ValueOf(v, signed)) == Some(v)
    decreases v
  {
    hide Walk, Format, Recovered;
    match v
    case JBool(_) =>
    case JInt(_) =>
    case JString(s) => DecodeUndoesEscape(s, signed);
    case JNested(kind, members) => ReadingUndoesFormatting(kind, members, signed);
  }
}

