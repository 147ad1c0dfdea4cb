/** Protocol Buffers messages: what is to be written, as a pure recursive encoding, and what a reader that slices its
    input makes of a byte sequence. Neither knows about buffers, markers or limits. */
module ProtoFormat {
  import opened Options

  type Byte = n: nat | n < 256
  const TWO_32: nat := 0x1_0000_0000
  const TWO_64: nat := 0x1_0000_0000_0000_0000
  type UInt32 = n: nat | n < TWO_32
  type UInt64 = n: nat | n < TWO_64

  datatype Field =
    | VarInt(number: UInt32, value: UInt64)
    | Fixed64(number: UInt32, value: UInt64)
    | Fixed32(number: UInt32, word: UInt32)
    | Bytes(number: UInt32, bytes: seq<Byte>)
    | Message(number: UInt32, fields: Fields)

  datatype Fields = NoFields | More(head: Field, tail: Fields)

  /** Seven bits at a time, lowest first; the top bit says that more follow. */
  function EncodeVarInt(value: nat): (r: seq<Byte>)
    ensures |r| > 0
  {
    if value > 127 then [value % 128 + 128] + EncodeVarInt(value / 128) else [value]
  }

  /** The `n` bytes of a little-endian machine. */
  function LittleEndian(value: nat, n: nat): (r: seq<Byte>)
    ensures |r| == n
    decreases n
  {
    if n == 0 then [] else [value % 256] + LittleEndian(value / 256, n - 1)
  }

  function FromLittleEndian(s: seq<Byte>): nat {
    if s == [] then 0 else s[0] + 256 * FromLittleEndian(s[1..])
  }

  /** The shift is done in a uint32_t. */
  function Key(number: UInt32, wireType: nat): UInt32
    requires wireType < 8
  {
    number * 8 % TWO_32 + wireType
  }

  function EncodeField(f: Field): (r: seq<Byte>)
    ensures |r| > 0
  {
    match f
    case VarInt(n, v) => EncodeVarInt(Key(n, 0)) + EncodeVarInt(v)
    case Fixed64(n, v) => EncodeVarInt(Key(n, 1)) + LittleEndian(v, 8)
    case Fixed32(n, v) => EncodeVarInt(Key(n, 5)) + LittleEndian(v, 4)
    case Bytes(n, b) => EncodeVarInt(Key(n, 2)) + EncodeVarInt(|b|) + b
    case Message(n, fields) =>
      var payload := EncodeFields(fields);
      EncodeVarInt(Key(n, 2)) + EncodeVarInt(|payload| % TWO_32) + payload
  }

  function EncodeFields(fields: Fields): seq<Byte> {
    match fields
    case NoFields => []
    case More(f, rest) => EncodeField(f) + EncodeFields(rest)
  }

  /** The exact value of the variable-length integer at the start of `s`, with the number of bytes it takes. */
  function VarIntAt(s: seq<Byte>): (r: Option<(nat, nat)>)
    ensures r.Some? ==> 0 < r.value.1 <= |s|
  {
    if s == [] then None
    else if s[0] < 128 then Some((s[0], 1))
    else
      match VarIntAt(s[1..])
      case None => None
      case Some((v, n)) => Some((s[0] - 128 + 128 * v, n + 1))
  }

  /** What the reader's caller does with the length-delimited field of a given number, in a message of a given kind. */
  datatype Action = Skip | Descend(kind: nat)
  type Kinds = map<(nat, nat), Action>

  /** What the caller is given. The wire types of VarInt and Fixed64 arrive as the same alternative of the variant. */
  datatype Item =
    | Long(number: UInt32, value: UInt64)
    | Short(number: UInt32, word: UInt32)
    | Blob(number: UInt32, bytes: seq<Byte>)
    | Skipped(number: UInt32)
    | Nested(number: UInt32, items: Items)

  datatype Items = NoItems | Cons(head: Item, tail: Items)

  function ParseItems(kinds: Kinds, kind: nat, s: seq<Byte>): Option<Items>
    decreases |s|, 1
  {
    if s == [] then Some(NoItems)
    else
      match ParseItem(kinds, kind, s)
      case None => None
      case Some((item, n)) =>
        match ParseItems(kinds, kind, s[n..])
        case None => None
        case Some(items) => Some(Cons(item, items))
  }

  /** The first field of `s`, with the number of bytes it takes. */
  function ParseItem(kinds: Kinds, kind: nat, s: seq<Byte>): (r: Option<(Item, nat)>)
    ensures r.Some? ==> 0 < r.value.1 <= |s|
    decreases |s|, 0
  {
    match VarIntAt(s)
    case None => None
    case Some((key, n)) => ParseBody(kinds, kind, key, n, s[n..])
  }

  /** What follows the key, which took `n` bytes. */
  function ParseBody(kinds: Kinds, kind: nat, key: nat, n: nat, body: seq<Byte>): (r: Option<(Item, nat)>)
    ensures r.Some? ==> n <= r.value.1 <= n + |body|
    decreases |body|, 4
  {
    var number := key % TWO_32 / 8;
    match key % 8
    case 0 => ParseVarInt(number, n, body)
    case 1 => if |body| < 8 then None else Some((Long(number, FromLittleEndian(body[..8]) % TWO_64), n + 8))
    case 5 => if |body| < 4 then None else Some((Short(number, FromLittleEndian(body[..4]) % TWO_32), n + 4))
    case 2 => ParseDelimited(kinds, kind, number, n, body)
    case _ => None
  }

  function ParseVarInt(number: UInt32, n: nat, body: seq<Byte>): (r: Option<(Item, nat)>)
    ensures r.Some? ==> n < r.value.1 <= n + |body|
  {
    match VarIntAt(body)
    case None => None
    case Some((v, m)) => Some((Long(number, v % TWO_64), n + m))
  }

  function ParseDelimited(kinds: Kinds, kind: nat, number: UInt32, n: nat, body: seq<Byte>): (r: Option<(Item, nat)>)
    ensures r.Some? ==> n < r.value.1 <= n + |body|
    decreases |body|, 3
  {
    match VarIntAt(body)
    case None => None
    case Some((v, m)) =>
      var length := v % TWO_32;
      if |body| - m < length then None
      else
        match ParsePayload(kinds, kind, number, body[m..m + length])
        case None => None
        case Some(item) => Some((item, n + m + length))
  }

  function ParsePayload(kinds: Kinds, kind: nat, number: UInt32, s: seq<Byte>): Option<Item>
    decreases |s|, 2
  {
    if (kind, number) !in kinds then Some(Blob(number, s))
    else
      match kinds[(kind, number)]
      case Skip => Some(Skipped(number))
      case Descend(inner) =>
        match ParseItems(kinds, inner, s)
        case None => None
        case Some(items) => Some(Nested(number, items))
  }

  /** What a caller that knows the message is to be given for a field. */
  function SeenField(kinds: Kinds, kind: nat, f: Field): Item
    decreases f
  {
    match f
    case VarInt(n, v) => Long(n, v)
    case Fixed64(n, v) => Long(n, v)
    case Fixed32(n, v) => Short(n, v)
    case Bytes(n, b) => if (kind, n) in kinds then Skipped(n) else Blob(n, b)
    case Message(n, fields) =>
      if (kind, n) in kinds && kinds[(kind, n)].Descend?
        then Nested(n, SeenFields(kinds, kinds[(kind, n)].kind, fields))
      else if (kind, n) in kinds then Skipped(n)
      else Blob(n, EncodeFields(fields))
  }

  function SeenFields(kinds: Kinds, kind: nat, fields: Fields): Items
    decreases fields
  {
    match fields
    case NoFields => NoItems
    case More(f, rest) => Cons(SeenField(kinds, kind, f), SeenFields(kinds, kind, rest))
  }

  /** Field numbers survive the shift, and the caller does not descend into what was written as plain bytes. */
  predicate Agrees(kinds: Kinds, kind: nat, fields: Fields)
    decreases fields
  {
    match fields
    case NoFields => true
    case More(f, rest) => FieldAgrees(kinds, kind, f) && Agrees(kinds, kind, rest)
  }

  predicate FieldAgrees(kinds: Kinds, kind: nat, f: Field)
    decreases f
  {
    f.number < 0x2000_0000
    && (f.Bytes? && (kind, f.number) in kinds ==> kinds[(kind, f.number)].Skip?)
    && (f.Message? && (kind, f.number) in kinds && kinds[(kind, f.number)].Descend?
        ==> Agrees(kinds, kinds[(kind, f.number)].kind, f.fields))
  }

  /** A caller that descends nowhere agrees with every message whose field numbers survive the shift. */
  lemma {:induction false} AgreesWithAll(kind: nat, fields: Fields)
    ensures Agrees(map[], kind, fields) <==> AllNumbersFit(fields)
    decreases fields
  {
    if fields.More? {
      AgreesWithAll(kind, fields.tail);
    }
  }

  predicate AllNumbersFit(fields: Fields) {
    fields.NoFields? || (fields.head.number < 0x2000_0000 && AllNumbersFit(fields.tail))
  }

  lemma {:induction false} VarIntRoundTrip(v: nat, rest: seq<Byte>)
    ensures VarIntAt(EncodeVarInt(v) + rest) == Some((v, |EncodeVarInt(v)|))
  {
    if v > 127 {
      VarIntRoundTrip(v / 128, rest);
      assert (EncodeVarInt(v) + rest)[1..] == EncodeVarInt(v / 128) + rest;
    }
  }

  /** No shorter prefix of the bytes is a variable-length integer: a reader stops at the right byte. */
  lemma {:induction false} VarIntIsPrefixFree(v: nat, cut: nat)
    requires cut < |EncodeVarInt(v)|
    ensures VarIntAt(EncodeVarInt(v)[..cut]) == None
  {
    if v > 127 && cut > 0 {
      VarIntIsPrefixFree(v / 128, cut - 1);
      assert EncodeVarInt(v)[..cut][1..] == EncodeVarInt(v / 128)[..cut - 1];
    }
  }

  lemma {:induction false} LittleEndianRoundTrip(v: nat, n: nat, bound: nat)
    requires bound == Power256(n) && v < bound
    ensures FromLittleEndian(LittleEndian(v, n)) == v
  {
    if n > 0 {
      LittleEndianRoundTrip(v / 256, n - 1, Power256(n - 1));
      assert LittleEndian(v, n)[1..] == LittleEndian(v / 256, n - 1);
    }
  }

  function Power256(n: nat): nat {
    if n == 0 then 1 else 256 * Power256(n - 1)
  }

  lemma Powers()
    ensures Power256(4) == TWO_32 && Power256(8) == TWO_64
  {
    assert Power256(2) == 65536;
    assert Power256(4) == TWO_32;
    assert Power256(6) == 0x1_0000_0000_0000;
  }

  lemma KeyRoundTrip(number: UInt32, wireType: nat)
    requires wireType < 8
    ensures Key(number, wireType) % 8 == wireType
    ensures Key(number, wireType) / 8 == number <==> number < 0x2000_0000
  {
  }

  /** Reading what was written gives back the message, nested messages included. */
  lemma {:induction false} ParseUndoesEncode(kinds: Kinds, kind: nat, fields: Fields)
    requires Agrees(kinds, kind, fields) && |EncodeFields(fields)| < TWO_32
    ensures ParseItems(kinds, kind, EncodeFields(fields)) == Some(SeenFields(kinds, kind, fields))
    decreases fields
  {
    if fields.More? {
      var rest := EncodeFields(fields.tail);
      ParseFieldUndoesEncode(kinds, kind, fields.head, rest);
      ParseUndoesEncode(kinds, kind, fields.tail);
      assert EncodeFields(fields)[|EncodeField(fields.head)|..] == rest;
    }
  }

  lemma {:induction false} ParseFieldUndoesEncode(kinds: Kinds, kind: nat, f: Field, rest: seq<Byte>)
    requires FieldAgrees(kinds, kind, f) && |EncodeField(f)| < TWO_32
    ensures ParseItem(kinds, kind, EncodeField(f) + rest) == Some((SeenField(kinds, kind, f), |EncodeField(f)|))
    decreases f
  {
    hide ParseItem, ParseDelimited, EncodeVarInt, VarIntAt, Key, LittleEndian, FromLittleEndian, EncodeFields;
    match f
    case VarInt(n, v) =>
      HeadParses(kinds, kind, n, 0, EncodeVarInt(v), rest);
      VarIntRoundTrip(v, rest);
    case Fixed64(n, v) =>
      HeadParses(kinds, kind, n, 1, LittleEndian(v, 8), rest);
      WordParses(v, 8, TWO_64, rest);
    case Fixed32(n, v) =>
      HeadParses(kinds, kind, n, 5, LittleEndian(v, 4), rest);
      WordParses(v, 4, TWO_32, rest);
    case Bytes(n, b) =>
      DelimitedParses(kinds, kind, n, b, rest);
    case Message(n, fields) =>
      if (kind, n) in kinds && kinds[(kind, n)].Descend? {
        ParseUndoesEncode(kinds, kinds[(kind, n)].kind, fields);
      }
      DelimitedParses(kinds, kind, n, EncodeFields(fields), rest);
  }

  lemma WordParses(v: nat, n: nat, bound: nat, rest: seq<Byte>)
    requires (n == 4 && bound == TWO_32) || (n == 8 && bound == TWO_64)
    requires v < bound
    ensures FromLittleEndian((LittleEndian(v, n) + rest)[..n]) % bound == v
  {
    hide LittleEndian, FromLittleEndian;
    Powers();
    LittleEndianRoundTrip(v, n, bound);
    assert (LittleEndian(v, n) + rest)[..n] == LittleEndian(v, n);
  }

  /** The key is recognised, whatever follows it. */
  lemma HeadParses(kinds: Kinds, kind: nat, number: UInt32, wireType: nat, body: seq<Byte>, rest: seq<Byte>)
    requires number < 0x2000_0000 && wireType < 8
    ensures var key := Key(number, wireType);
            ParseItem(kinds, kind, EncodeVarInt(key) + body + rest) ==
              ParseBody(kinds, kind, key, |EncodeVarInt(key)|, body + rest)
            && key % 8 == wireType && key % TWO_32 / 8 == number
  {
    hide EncodeVarInt, VarIntAt, ParseBody;
    var key := EncodeVarInt(Key(number, wireType));
    VarIntRoundTrip(Key(number, wireType), body + rest);
    assert key + (body + rest) == key + body + rest;
    assert (key + body + rest)[|key|..] == body + rest;
  }

  lemma DelimitedParses(kinds: Kinds, kind: nat, number: UInt32, payload: seq<Byte>, rest: seq<Byte>)
    requires number < 0x2000_0000 && |payload| < TWO_32
    ensures var head := EncodeVarInt(Key(number, 2)) + EncodeVarInt(|payload|);
            ParseItem(kinds, kind, head + payload + rest) ==
            match ParsePayload(kinds, kind, number, payload)
            case None => None
            case Some(item) => Some((item, |head + payload|))
  {
    hide EncodeVarInt, VarIntAt, ParsePayload, ParseItem, Key;
    var key, size := EncodeVarInt(Key(number, 2)), EncodeVarInt(|payload|);
    var body := size + payload;
    assert key + size + payload + rest == key + body + rest;
    HeadParses(kinds, kind, number, 2, body, rest);
    VarIntRoundTrip(|payload|, payload + rest);
    assert body + rest == size + (payload + rest);
    assert (body + rest)[|size|..|size| + |payload|] == payload;
  }
}
