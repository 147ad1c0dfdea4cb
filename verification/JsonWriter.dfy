/** The formatters: they write to a stream as the values are added, with nothing to go back to. */
module JsonWriter {
  import opened Division
  import opened Options
  import opened Characters
  import opened JsonLexer
  import opened JsonEscapes
  import opened JsonIteration

  predicate IsPowerOfTen(m: nat) {
    m == 1 || (m > 1 && m % 10 == 0 && IsPowerOfTen(m / 10))
  }

  /** The digits in front, none for zero. */
  function Leading(n: nat): seq<char> {
    if n == 0 then [] else Decimal(n)
  }

  lemma OneMoreDigit(n: nat)
    ensures Leading(n / 10) + [Digit(n % 10)] == Decimal(n)
  {
  }

  lemma Grows(v: nat, mask: nat)
    requires mask > 0 && v / mask >= 10 && IsPowerOfTen(mask)
    ensures mask * 10 <= v && IsPowerOfTen(mask * 10)
  {
    hide IsPowerOfTen;
    TenTimes(v, mask, v / mask);
    PowerTimesTen(mask);
  }

  lemma TenTimes(v: nat, mask: nat, q: nat)
    requires mask > 0 && q == v / mask && q >= 10
    ensures mask * 10 <= v
  {
    assert q * mask <= v;
    Times(q, 10, mask);
  }

  lemma PowerTimesTen(mask: nat)
    requires IsPowerOfTen(mask)
    ensures IsPowerOfTen(mask * 10)
  {
    assert mask * 10 / 10 == mask;
  }

  lemma Times(q: nat, e: nat, m: nat)
    requires q >= e
    ensures q * m >= e * m
  {
  }

  lemma NotZero(v: nat, mask: nat)
    requires 0 < mask <= v
    ensures v / mask > 0
  {
  }

  class TextStream {
    var text: seq<char>

    constructor ()
      ensures text == []
    {
      text := [];
    }

    method Insert(s: seq<char>)
      modifies this
      ensures text == old(text) + s
    {
      text := text + s;
    }

    method OutputAsDecimal(v: nat, negative: bool)
      modifies this
      ensures text == old(text) + (if negative then ['-'] else []) + Decimal(v)
    {
      hide Decimal;
      var mask: nat := HighestMask(v);
      if negative {
        Insert(['-']);
      }
      ghost var base := old(text) + (if negative then ['-'] else []);
      assert text == base;
      while mask != 0
        invariant mask > 1 ==> mask <= v
        invariant mask != 0 ==> IsPowerOfTen(mask) && text == base + Leading(v / mask / 10)
        invariant mask == 0 ==> text == base + Decimal(v)
        decreases mask
      {
        var digit := v / mask % 10;
        NextDigit(base, v, mask);
        Insert([Digit(digit)]);
        mask := mask / 10;
      }
    }

    /** The largest power of ten that is not larger than the value, or one. */
    method HighestMask(v: nat) returns (mask: nat)
      ensures mask > 0 && IsPowerOfTen(mask) && (mask == 1 || mask <= v) && v / mask / 10 == 0
    {
      mask := 1;
      while v / mask >= 10
        invariant mask > 0 && IsPowerOfTen(mask) && (mask == 1 || mask <= v)
        decreases v + 1 - mask
      {
        Grows(v, mask);
        mask := mask * 10;
      }
    }
  }

  /** What is there after another digit. */
  lemma {:induction false} NextDigit(base: seq<char>, v: nat, mask: nat)
    requires mask > 0 && IsPowerOfTen(mask) && (mask > 1 ==> mask <= v)
    ensures var s := base + Leading(v / mask / 10) + [Digit(v / mask % 10)];
            if mask == 1 then s == base + Decimal(v) else mask / 10 > 0 && s == base + Leading(v / (mask / 10) / 10)
  {
    hide Decimal, Leading;
    OneMoreDigit(v / mask);
    if mask > 1 {
      DivideAgain(v, mask / 10, 10);
      assert 10 * (mask / 10) == mask;
      NotZero(v, mask);
      SomeLeading(v / mask);
    }
    assert base + Leading(v / mask / 10) + [Digit(v / mask % 10)] == base +
      (Leading(v / mask / 10) + [Digit(v / mask % 10)]);
  }

  lemma SomeLeading(n: nat)
    requires n > 0
    ensures Leading(n) == Decimal(n)
  {
  }

  /** JsonObjectFormatter and JsonArrayFormatter; Close is the destructor. */
  class Formatter {
    const kind: Kind
    const stream: TextStream
    var empty: bool

    constructor (kind: Kind, stream: TextStream)
      modifies stream
      ensures this.kind == kind && this.stream == stream && empty
      ensures stream.text == old(stream.text) + [Open(kind), ' ']
    {
      this.kind, this.stream, empty := kind, stream, true;
      new;
      stream.Insert([Open(kind), ' ']);
    }

    method Close()
      modifies stream
      ensures stream.text == old(stream.text) + [' ', Shut(kind)]
    {
      stream.Insert([' ', Shut(kind)]);
    }

    method InsertSeparation()
      modifies this, stream
      ensures stream.text == old(stream.text) + (if old(empty) then [] else [',', ' ']) && !empty
    {
      if !empty {
        stream.Insert([',', ' ']);
      }
      empty := false;
    }

    /** The separation and the key, if there are keys. */
    method StartMember(key: seq<char>)
      modifies this, stream
      ensures stream.text == old(stream.text) + (if old(empty) then [] else [',', ' ']) + FormatKey(kind, key) && !empty
    {
      InsertSeparation();
      if kind == Object {
        stream.Insert(['"']);
        stream.Insert(key);
        stream.Insert(['"', ':']);
      }
    }
  }

  method WriteValue(stream: TextStream, v: Json, signed: bool)
    requires InDomain(v)
    modifies stream
    ensures stream.text == old(stream.text) + Format(v, signed)
    decreases v, 1
  {
    hide FormatMembers, Escaped;
    match v
    case JBool(b) => stream.Insert(if b then "true" else "false");
    case JInt(n) => stream.OutputAsDecimal(if n < 0 then -n else n, n < 0);
    case JString(s) =>
      stream.Insert(['"']);
      var text := InsertEscapedTag(stream.text, s, signed);
      stream.text := text;
      stream.Insert(['"']);
    case JNested(kind, members) =>
      ghost var before := stream.text;
      var formatter := new Formatter(kind, stream);
      WriteMembers(formatter, members, signed);
      formatter.Close();
      NestedText(kind, members, before, signed);
  }

  lemma NestedText(kind: Kind, members: Members, before: seq<char>, signed: bool)
    requires MembersInDomain(kind, members)
    ensures before + [Open(kind), ' '] + FormatMembers(kind, members, true, signed) + [' ', Shut(kind)]
            == before + Format(JNested(kind, members), signed)
  {
    hide FormatMembers;
    var f := FormatMembers(kind, members, true, signed);
    assert Inside(kind, members, signed) == [' '] + f + [' ', Shut(kind)];
    assert Format(JNested(kind, members), signed) == [Open(kind)] + Inside(kind, members, signed);
  }

  /** Members added one after the other. */
  method WriteMembers(formatter: Formatter, members: Members, signed: bool)
    requires MembersInDomain(formatter.kind, members)
    modifies formatter, formatter.stream
    ensures formatter.stream.text == old(formatter.stream.text) +
      FormatMembers(formatter.kind, members, old(formatter.empty), signed)
    decreases members, 0
  {
    hide Format, FormatKey;
    match members
    case NoMembers =>
    case Member(key, value, rest) =>
      ghost var before, empty := formatter.stream.text, formatter.empty;
      formatter.StartMember(key);
      WriteValue(formatter.stream, value, signed);
      WriteMembers(formatter, rest, signed);
      Grouped(before, if empty then [] else [',', ' '], FormatKey(formatter.kind, key), Format(value, signed),
              FormatMembers(formatter.kind, rest, false, signed));
  }

  lemma Grouped(a: seq<char>, b: seq<char>, c: seq<char>, d: seq<char>, e: seq<char>)
    ensures a + b + c + d + e == a + (b + c + d + e)
  {
  }
}

