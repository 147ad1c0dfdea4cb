/** What the streaming parser tells its visitor about the text that the formatters write. */
module JsonFormatted {
  import opened Options
  import opened Characters
  import opened JsonMachine
  import opened JsonSkip
  import opened JsonTokens
  import opened JsonSyntax
  import opened JsonMeaning
  import L = JsonLexer
  import E = JsonEscapes
  import I = JsonIteration

  function KindOf(kind: I.Kind): Kind {
    if kind.Object? then Object else Array
  }

  // ----- what is to be said about a value

  /** The buffers are large enough; and keys, which the formatters write as they are, have nothing to decode. */
  predicate FitsInto(v: I.Json, limits: Limits, depth: nat)
    decreases v
  {
    match v
    case JBool(_) => true
    case JInt(_) => true
    case JString(s) => |s| <= limits.value
    case JNested(_, members) => depth + 1 < limits.nesting && MembersFitInto(members, limits, depth + 1)
  }

  predicate MembersFitInto(members: I.Members, limits: Limits, depth: nat)
    decreases members
  {
    match members
    case NoMembers => true
    case Member(key, value, rest) =>
      '"' !in key && '\\' !in key && |key| <= limits.value && |key| <= limits.tag && FitsInto(value, limits, depth) &&
      MembersFitInto(rest, limits, depth)
  }

  function CallsAbout(v: I.Json, depth: nat, tag: seq<char>): seq<Event>
    decreases v
  {
    match v
    case JBool(b) => [Event(depth, VisitValue(tag, Boolean(b)))]
    case JInt(n) => [Event(depth, VisitValue(tag, Scalar.Integer(n)))]
    case JString(s) => [Event(depth, VisitValue(tag, Scalar.Text(s)))]
    case JNested(kind, members) =>
      [Event(depth, VisitNested(tag, KindOf(kind)))] +
        (CallsAboutMembers(members, depth + 1) + [Event(depth + 1, Close)])
  }

  function CallsAboutMembers(members: I.Members, depth: nat): seq<Event>
    decreases members
  {
    match members
    case NoMembers => []
    case Member(key, value, rest) => CallsAbout(value, depth, key) + CallsAboutMembers(rest, depth)
  }

  // ----- formatted text as JSON text

  /** How the formatters spell a character. */
  function PieceOf(c: char, signed: bool): Piece
    requires E.IsOctet(c)
  {
    if !E.Stops(c, signed) then Plain(c)
    else if E.Short(c).Some? then Escape(E.Short(c).value)
    else Unicode('0', '0', E.Hex(c as int / 16), E.Hex(c as int % 16))
  }

  function PiecesOf(s: seq<char>, signed: bool): (r: seq<Piece>)
    requires E.Octets(s)
    ensures |r| == |s|
  {
    if s == [] then [] else [PieceOf(s[0], signed)] + PiecesOf(s[1..], signed)
  }

  function Plainly(s: seq<char>): (r: seq<Piece>)
    ensures |r| == |s|
  {
    if s == [] then [] else [Plain(s[0])] + Plainly(s[1..])
  }

  function TreeOf(v: I.Json, signed: bool): Json
    requires I.InDomain(v)
    decreases v
  {
    match v
    case JBool(b) => Flag(b)
    case JInt(n) => Figure(n < 0, L.Decimal(if n < 0 then -n else n), NoTail)
    case JString(s) => Phrase(PiecesOf(s, signed))
    case JNested(kind, members) =>
      Bracketed(KindOf(kind), if members.NoMembers? then [' ', ' '] else [' '], TreesOf(kind, members, true, signed))
  }

  function TreesOf(kind: I.Kind, members: I.Members, first: bool, signed: bool): Members
    requires I.MembersInDomain(kind, members)
    decreases members
  {
    match members
    case NoMembers => NoMore
    case Member(key, value, rest) =>
      Member(if first then [] else [' '], Plainly(key), [], [], TreeOf(value, signed),
             if rest.NoMembers? then [' '] else [], TreesOf(kind, rest, false, signed))
  }

  lemma {:induction false} PieceIsWritten(c: char, signed: bool)
    requires E.IsOctet(c) && c != '\\'
    ensures var p := PieceOf(c, signed); IsPiece(p) && PieceText(p) == E.Written(c, signed) && Meant(p) == c
  {
    E.HexOfHex(c as int / 16);
    E.HexOfHex(c as int % 16);
  }

  lemma {:induction false} PiecesAreWritten(s: seq<char>, signed: bool)
    requires E.Octets(s) && '\\' !in s
    ensures var p := PiecesOf(s, signed); AllPieces(p) && PiecesText(p) == E.Escaped(s, signed) && Meaning(p) == s
    decreases |s|
  {
    hide PieceOf, E.Written, IsPiece, PieceText, Meant;
    if s != [] {
      PieceIsWritten(s[0], signed);
      PiecesAreWritten(s[1..], signed);
    }
  }

  lemma {:induction false} PlainlyIsWritten(s: seq<char>)
    requires '"' !in s && '\\' !in s
    ensures AllPieces(Plainly(s)) && PiecesText(Plainly(s)) == s && Meaning(Plainly(s)) == s
    decreases |s|
  {
    if s != [] {
      PlainlyIsWritten(s[1..]);
    }
  }

  /** The text of a value is a JSON text that fits, and says the same. */
  ghost predicate IsTreeOf(t: Json, v: I.Json, limits: Limits, depth: nat, tag: seq<char>, signed: bool)
    requires I.InDomain(v)
  {
    IsJson(t) && Print(t) == I.Format(v, signed) && Fits(t, limits, depth) &&
    CallsFor(t, depth, tag, limits) == CallsAbout(v, depth, tag)
  }

  lemma {:induction false} TreeIsRight(v: I.Json, limits: Limits, depth: nat, tag: seq<char>, signed: bool)
    requires I.InDomain(v) && FitsInto(v, limits, depth)
    ensures IsTreeOf(TreeOf(v, signed), v, limits, depth, tag, signed)
    decreases v, 1
  {
    hide L.Decimal, L.Number, PiecesOf, E.Escaped, PiecesText;
    match v
    case JBool(_) =>
    case JInt(n) =>
      L.NumberOfDecimal(if n < 0 then -n else n);
    case JString(s) =>
      PiecesAreWritten(s, signed);
    case JNested(kind, members) =>
      NestedIsRight(kind, members, limits, depth, tag, signed);
  }

  lemma {:induction false} NestedIsRight(kind: I.Kind, members: I.Members, limits: Limits, depth: nat, tag: seq<char>,
      signed: bool)
    requires I.InDomain(I.JNested(kind, members)) && FitsInto(I.JNested(kind, members), limits, depth)
    ensures IsTreeOf(TreeOf(I.JNested(kind, members), signed), I.JNested(kind, members), limits, depth, tag, signed)
    decreases members, 2
  {
    hide I.FormatMembers, PrintMembers, CallsForMembers, CallsAboutMembers, TreesOf;
    TreesAreRight(kind, members, true, limits, depth + 1, signed);
    NestedTextIs(kind, members, signed);
  }

  lemma NestedTextIs(kind: I.Kind, members: I.Members, signed: bool)
    requires I.MembersInDomain(kind, members)
    requires PrintMembers(KindOf(kind), TreesOf(kind, members, true, signed), true) +
      (if members.NoMembers? then [' '] else []) == I.FormatMembers(kind, members, true, signed) + [' ']
    ensures Print(TreeOf(I.JNested(kind, members), signed)) == I.Format(I.JNested(kind, members), signed)
  {
    hide I.FormatMembers, PrintMembers, TreesOf;
    var p, f := PrintMembers(KindOf(kind), TreesOf(kind, members, true, signed), true),
      I.FormatMembers(kind, members, true, signed);
    BracketsAgree(kind);
    if members.NoMembers? {
      NoMembersText(kind, signed);
      Emptily(I.Open(kind), I.Shut(kind));
    } else {
      Inward(I.Open(kind), p, f, I.Shut(kind));
    }
  }

  lemma BracketsAgree(kind: I.Kind)
    ensures I.Open(kind) == Opening(KindOf(kind)) && I.Shut(kind) == Closing(KindOf(kind))
  {}

  lemma Emptily(open: char, shut: char)
    ensures [open] + [' ', ' '] + [] + [shut] == [open] + ([' '] + [] + [' ', shut])
  {}

  lemma Inward(open: char, p: seq<char>, f: seq<char>, shut: char)
    requires p + [] == f + [' ']
    ensures [open] + [' '] + p + [shut] == [open] + ([' '] + f + [' ', shut])
  {
    assert p == f + [' '];
  }

  lemma NoMembersText(kind: I.Kind, signed: bool)
    ensures PrintMembers(KindOf(kind), TreesOf(kind, I.NoMembers, true, signed), true) == []
    ensures I.FormatMembers(kind, I.NoMembers, true, signed) == []
  {}

  lemma {:induction false} TreesAreRight(kind: I.Kind, members: I.Members, first: bool, limits: Limits, depth: nat,
      signed: bool)
    requires I.MembersInDomain(kind, members) && MembersFitInto(members, limits, depth)
    ensures var t := TreesOf(kind, members, first, signed);
      AreMembers(t) && MembersFit(t, limits, depth) &&
      CallsForMembers(KindOf(kind), t, depth, limits) == CallsAboutMembers(members, depth) &&
      PrintMembers(KindOf(kind), t, first) + (if members.NoMembers? then [' '] else []) ==
      I.FormatMembers(kind, members, first, signed) + [' ']
    decreases members, 1
  {
    hide TreeOf, I.Format, Print, I.FormatKey, KeyText, I.InDomain, IsJson, CallsFor, CallsAbout, Fits,
      FitsInto, Plainly;
    if members.Member? {
      PlainlyIsWritten(members.key);
      TagIsKey(kind, members.key, limits);
      TreeIsRight(members.value, limits, depth, members.key, signed);
      TreesAreRight(kind, members.rest, false, limits, depth, signed);
      MemberIsRight(kind, members, first, signed);
    }
  }

  lemma {:induction false} MemberIsRight(kind: I.Kind, members: I.Members, first: bool, signed: bool)
    requires I.MembersInDomain(kind, members) && members.Member? && '"' !in members.key && '\\' !in members.key
    requires Print(TreeOf(members.value, signed)) == I.Format(members.value, signed)
    requires PrintMembers(KindOf(kind), TreesOf(kind, members.rest, false, signed), false) +
      (if members.rest.NoMembers? then [' '] else []) == I.FormatMembers(kind, members.rest, false, signed) + [' ']
    ensures PrintMembers(KindOf(kind), TreesOf(kind, members, first, signed), first) ==
      I.FormatMembers(kind, members, first, signed) + [' ']
  {
    hide TreeOf, I.Format, Print, I.FormatKey, KeyText, I.InDomain, Plainly;
    var key, v, t := members.key, members.value, TreesOf(kind, members, first, signed);
    KeyTextIs(kind, key);
    var before, k, value := if first then [] else [','], I.FormatKey(kind, key), I.Format(v, signed);
    var more, tail := I.FormatMembers(kind, members.rest, false, signed), PrintMembers(KindOf(kind), t.rest, false);
    if members.rest.NoMembers? {
      assert tail == [] && more == [];
    } else {
      assert tail + [] == tail && [] + tail == tail;
    }
    Spread(before, t.before, k, value, t.after, tail, more);
    assert (if first then [] else [',', ' ']) == before + t.before;
  }

  lemma Spread(a: seq<char>, b: seq<char>, k: seq<char>, v: seq<char>, after: seq<char>, tail: seq<char>,
      more: seq<char>)
    requires after + tail == more + [' ']
    ensures a + b + k + v + after + tail == a + b + k + v + more + [' ']
  {
    assert a + b + k + v + after + tail == a + b + k + v + (after + tail);
    assert a + b + k + v + (more + [' ']) == a + b + k + v + more + [' '];
  }

  lemma TagIsKey(kind: I.Kind, key: seq<char>, limits: Limits)
    requires '"' !in key && '\\' !in key && |key| <= limits.tag && I.IsKey(kind, key)
    ensures AllPieces(Plainly(key)) && TagOf(KindOf(kind), Plainly(key), limits) == key
  {
    PlainlyIsWritten(key);
  }

  lemma KeyTextIs(kind: I.Kind, key: seq<char>)
    requires '"' !in key && '\\' !in key
    ensures KeyText(KindOf(kind), Plainly(key), [], []) == I.FormatKey(kind, key)
  {
    hide Plainly;
    PlainlyIsWritten(key);
  }

  /** The text that the formatters write for an object, fed to a new parser in whatever pieces, makes exactly the
      calls that describe its members, in order, and then Close; and that is the end. */
  lemma {:induction false} FormattedIsDescribed(members: I.Members, signed: bool, limits: Limits, visitor: Visitor)
    requires AllFine(limits, visitor) && limits.nesting > 0 && I.MembersInDomain(I.Object, members) &&
      MembersFitInto(members, limits, 0)
    ensures Steps(Machine([Parser(Object, Init, [], 0, NEW_TOKENS)], []),
      I.Format(I.JNested(I.Object, members), signed), limits, visitor)
            == Machine([], CallsAboutMembers(members, 0) + [Event(0, Close)])
  {
    hide Steps, I.FormatMembers, PrintMembers, CallsForMembers, CallsAboutMembers, TreesOf, AllFine,
      MembersFit, AreMembers;
    TreesAreRight(I.Object, members, true, limits, 0, signed);
    NestedTextIs(I.Object, members, signed);
    var gap, t := if members.NoMembers? then [' ', ' '] else [' '], TreesOf(I.Object, members, true, signed);
    var text := I.Format(I.JNested(I.Object, members), signed);
    ObjectIsDescribed([], gap, t, [], limits, visitor);
    assert [] + text + [] == text;
  }
}
