/** The grammar that the iterators accept, on the tokens of a text, and what they yield of it. */
module JsonGrammar {
  import opened Options
  import opened JsonLexer
  import opened JsonIteration
  import opened JsonSpacing

  /** All tokens of a text; the last one is its end, or what is no token. */
  function Stream(s: seq<char>): (r: seq<Token>)
    ensures r != []
    decreases |s|
  {
    var l := Lex(s);
    if IsLast(l.token) then [l.token] else [l.token] + Stream(s[l.size..])
  }

  // ----- the grammar

  /** What follows a group, up to and with its closing bracket; brackets of the other kind are not looked at. */
  function AfterGroup(ts: seq<Token>, kind: Kind): (r: Option<seq<Token>>)
    ensures r.Some? ==> |r.value| < |ts|
    decreases |ts|
  {
    if ts == [] || IsLast(ts[0]) then None
    else if ts[0] == Closing(kind) then Some(ts[1..])
    else if ts[0] == Opening(kind) then
      match AfterGroup(ts[1..], kind)
      case None => None
      case Some(rest) => AfterGroup(rest, kind)
    else AfterGroup(ts[1..], kind)
  }

  function AfterValue(ts: seq<Token>): (r: Option<seq<Token>>)
    ensures r.Some? ==> |r.value| < |ts|
  {
    if ts == [] then None
    else
      match ts[0]
      case Text(_) => Some(ts[1..])
      case Integer(_) => Some(ts[1..])
      case Boolean(_) => Some(ts[1..])
      case LeftBrace => AfterGroup(ts[1..], Object)
      case LeftBracket => AfterGroup(ts[1..], Array)
      case _ => None
  }

  /** In an object a key and a colon come first. */
  predicate HasKey(ts: seq<Token>) {
    |ts| > 2 && ts[0].Text? && ts[1].Colon?
  }

  function AfterItem(kind: Kind, ts: seq<Token>): (r: Option<seq<Token>>)
    ensures r.Some? ==> |r.value| < |ts|
  {
    if kind.Array? then AfterValue(ts) else if HasKey(ts) then AfterValue(ts[2..]) else None
  }

  /** Items with commas between them, and then the closing bracket. */
  predicate IsList(kind: Kind, ts: seq<Token>)
    decreases |ts|
  {
    match AfterItem(kind, ts)
    case None => false
    case Some(rest) =>
      rest != [] && (rest[0] == Closing(kind) || (rest[0].Comma? && IsList(kind, rest[1..])))
  }

  predicate IsSentence(kind: Kind, ts: seq<Token>) {
    |ts| > 1 && ts[0] == Opening(kind) && (ts[1] == Closing(kind) || IsList(kind, ts[1..]))
  }

  /** The keys of the items and the first token of their values, up to the end or the first fault. */
  function Listed(kind: Kind, ts: seq<Token>): seq<(seq<char>, Token)>
    decreases |ts|
  {
    match AfterItem(kind, ts)
    case None => []
    case Some(rest) =>
      [if kind.Array? then ([], ts[0]) else (ts[0].raw, ts[2])] +
      (if rest != [] && rest[0].Comma? then Listed(kind, rest[1..]) else [])
  }

  function HeadOf(v: Value): Token {
    match v
    case Truth(b) => Boolean(b)
    case Whole(n) => Integer(n)
    case Raw(raw) => Text(raw)
    case Nested(kind, _) => Opening(kind)
  }

  function HeadsOf(items: seq<Item>): seq<(seq<char>, Token)> {
    if items == [] then [] else [(items[0].key, HeadOf(items[0].value))] + HeadsOf(items[1..])
  }

  // ----- the search for a bracket

  function AfterGroups(ts: seq<Token>, kind: Kind, depth: nat): Option<seq<Token>>
    decreases depth
  {
    match AfterGroup(ts, kind)
    case None => None
    case Some(rest) => if depth == 0 then Some(rest) else AfterGroups(rest, kind, depth - 1)
  }

  lemma StreamIs(s: seq<char>)
    ensures var l := Lex(s);
      Stream(s)[0] == l.token &&
        (if IsLast(l.token) then Stream(s)[1..] == [] else Stream(s)[1..] == Stream(s[l.size..]))
  {
    hide Lex;
  }

  lemma {:induction false} GroupsFrom(ts: seq<Token>, kind: Kind, depth: nat)
    requires ts != []
    ensures AfterGroups(ts, kind, depth) ==
      if IsLast(ts[0]) then None
      else if ts[0] == JsonIteration.Closing(kind) then
        if depth == 0 then Some(ts[1..]) else AfterGroups(ts[1..], kind, depth - 1)
      else AfterGroups(ts[1..], kind, if ts[0] == JsonIteration.Opening(kind) then depth + 1 else depth)
  {
    if ts[0] == JsonIteration.Opening(kind) {
      assert AfterGroups(ts[1..], kind, depth + 1) ==
             match AfterGroup(ts[1..], kind)
             case None => None
             case Some(rest) => AfterGroups(rest, kind, depth);
    }
  }

  lemma {:induction false} SearchIsGroups(s: seq<char>, kind: Kind, depth: nat)
    ensures var x, y := Search(s, kind, 0 - depth), AfterGroups(Stream(s), kind, depth);
      (x.Some? <==> y.Some?) && (x.Some? ==> Stream(s[x.value..]) == y.value)
    decreases |s|
  {
    hide Lex, Stream, AfterGroups;
    var l, ts := Lex(s), Stream(s);
    StreamIs(s);
    GroupsFrom(ts, kind, depth);
    if !IsLast(l.token) && (depth > 0 || l.token != JsonIteration.Closing(kind)) {
      var d := if l.token == JsonIteration.Closing(kind) then depth - 1
        else if l.token == JsonIteration.Opening(kind) then depth + 1 else depth;
      SearchIsGroups(s[l.size..], kind, d);
      SlicedAgain(s, l.size, Search(s[l.size..], kind, 0 - d));
    }
  }

  lemma SlicedAgain(s: seq<char>, n: nat, r: Option<nat>)
    requires n <= |s| && (r.Some? ==> r.value <= |s| - n)
    ensures r.Some? ==> s[n..][r.value..] == s[n + r.value..]
  {}

  lemma {:induction false} ConvertIsValue(s: seq<char>)
    requires !IsLast(Lex(s).token)
    ensures var l := Lex(s);
      var x, y := Convert(l.token, s[l.size..]), AfterValue(Stream(s));
      (x.Some? <==> y.Some?) &&
      (x.Some? ==> Stream(s[l.size..][x.value.1..]) == y.value && HeadOf(x.value.0) == l.token)
  {
    hide Lex, Stream, Search, AfterGroup;
    var l := Lex(s);
    var t := s[l.size..];
    StreamIs(s);
    assert t[0..] == t;
    SearchIsGroups(t, Object, 0);
    SearchIsGroups(t, Array, 0);
  }

  // ----- the iterators

  /** What an item and the rest of a list amount to. */
  ghost predicate Yields(r: Result, kind: Kind, ts: seq<Token>) {
    (r.ok <==> IsList(kind, ts)) && HeadsOf(r.items) == Listed(kind, ts)
  }

  lemma {:induction false} ElementsYield(kind: Kind, s: seq<char>, key: seq<char>, ts: seq<Token>)
    requires !IsLast(Lex(s).token)
    requires if kind.Array? then ts == Stream(s) && key == []
      else HasKey(ts) && ts[0] == Text(key) && ts[2..] == Stream(s)
    ensures Yields(Elements(kind, Lex(s).token, s[Lex(s).size..], key, s), kind, ts)
    decreases |s|, 2
  {
    hide Lex, Stream, Convert, AfterValue, Walk;
    var l := Lex(s);
    var t := s[l.size..];
    StreamIs(s);
    ConvertIsValue(s);
    var x := Convert(l.token, t);
    if x.Some? {
      var (v, n) := x.value;
      var rest := t[n..];
      var more := Walk(kind, rest, CommaOrEnd);
      AfterItemYields(kind, rest);
      assert ([Item(key, v)] + more.items)[1..] == more.items;
    }
  }

  /** Behind an item: a comma and more of them, or the end. */
  lemma {:induction false} AfterItemYields(kind: Kind, s: seq<char>)
    ensures var r, ts := Walk(kind, s, CommaOrEnd), Stream(s);
      (r.ok <==> ts[0] == JsonIteration.Closing(kind) || (ts[0].Comma? && IsList(kind, ts[1..]))) &&
      HeadsOf(r.items) == if ts[0].Comma? then Listed(kind, ts[1..]) else []
    decreases |s|, 1
  {
    hide Lex, Stream, IsList, Listed, Elements;
    var l := Lex(s);
    StreamIs(s);
    if l.token.Comma? {
      ListYields(kind, s[l.size..], if kind.Object? then Key else Element([]));
    }
  }

  /** A list from its first item on. */
  lemma {:induction false} ListYields(kind: Kind, s: seq<char>, state: State)
    requires (state == if kind.Object? then Key else Element([])) ||
      (state == FirstOrEnd && Lex(s).token != JsonIteration.Closing(kind))
    ensures Yields(Walk(kind, s, state), kind, Stream(s))
    decreases |s|, 3
  {
    hide Lex, Stream, Elements, AfterValue;
    var l, ts := Lex(s), Stream(s);
    StreamIs(s);
    if kind.Array? {
      if IsLast(l.token) {
        ElementsFail(kind, l.token, s[l.size..], [], s);
        NoValueAtEnd(ts);
      } else {
        ElementsYield(kind, s, [], ts);
      }
    } else if l.token.Text? {
      KeyYields(s, l.token.raw);
    }
  }

  lemma NoValueAtEnd(ts: seq<Token>)
    requires ts != [] && IsLast(ts[0])
    ensures AfterValue(ts) == None
  {}

  lemma {:induction false} KeyYields(s: seq<char>, key: seq<char>)
    requires Lex(s).token == Text(key)
    ensures Yields(Walk(Object, s[Lex(s).size..], State.Colon(key)), Object, Stream(s))
    decreases |s|, 2
  {
    hide Lex, Stream, Elements, AfterValue;
    var l, ts := Lex(s), Stream(s);
    StreamIs(s);
    var t := s[l.size..];
    var k := Lex(t);
    StreamIs(t);
    if k.token.Colon? {
      var u := t[k.size..];
      StreamIs(u);
      assert ts[2..] == Stream(u) by { assert ts[1..][1..] == ts[2..]; }
      if IsLast(Lex(u).token) {
        ElementsFail(Object, Lex(u).token, u[Lex(u).size..], key, u);
        NoValueAtEnd(ts[2..]);
      } else {
        ElementsYield(Object, u, key, ts);
      }
    }
  }

  /** Iterating over a text comes to its end without an error if and only if the tokens of the text begin with a
      sentence of the grammar; and the items seen, up to the end or to the first fault, are those that the grammar
      lists. */
  lemma {:induction false} AcceptsIffSentence(kind: Kind, s: seq<char>)
    ensures var r, ts := Walk(kind, s, Start), Stream(s);
      (r.ok <==> IsSentence(kind, ts)) &&
      HeadsOf(r.items) ==
        if |ts| > 1 && ts[0] == JsonIteration.Opening(kind) && ts[1] != JsonIteration.Closing(kind)
          then Listed(kind, ts[1..])
        else []
  {
    hide Lex, Stream, IsList, Listed, Elements;
    var l := Lex(s);
    StreamIs(s);
    if l.token == JsonIteration.Opening(kind) {
      var t := s[l.size..];
      StreamIs(t);
      if Lex(t).token != JsonIteration.Closing(kind) {
        ListYields(kind, t, FirstOrEnd);
      }
    }
  }
}
