/** The bytes of the Protocol Buffers encoding, one by one, against the powers of 128 and 256 that they stand for. */
module ProtoBytes {
  import opened Options
  import opened Division
  import opened ProtoFormat

  function Power(base: nat, n: nat): nat {
    if n == 0 then 1 else base * Power(base, n - 1)
  }

  lemma {:induction false} PowerIsPositive(base: nat, n: nat)
    requires base > 0
    ensures Power(base, n) > 0
  {
    if n > 0 {
      PowerIsPositive(base, n - 1);
    }
  }

  /** The digit of `v` at position `i`, in the given base. */
  function DigitAt(v: nat, base: nat, i: nat): (d: nat)
    requires base > 0
    ensures d < base
  {
    PowerIsPositive(base, i);
    v / Power(base, i) % base
  }

  lemma DigitAtNext(v: nat, base: nat, i: nat)
    requires base > 0 && i > 0
    ensures DigitAt(v, base, i) == DigitAt(v / base, base, i - 1)
  {
    PowerIsPositive(base, i - 1);
    DivideAgain(v, base, Power(base, i - 1));
    assert Power(base, i - 1) * base == Power(base, i);
  }

  lemma DigitAtZero(v: nat, base: nat)
    requires base > 0
    ensures DigitAt(v, base, 0) == v % base
  {
    assert v / 1 == v;
  }

  // ----- words

  /** A word is written lowest byte first. */
  lemma {:induction false} LittleEndianAt(v: nat, n: nat, i: nat)
    requires i < n
    ensures LittleEndian(v, n)[i] == DigitAt(v, 256, i)
    decreases n
  {
    if i == 0 {
      DigitAtZero(v, 256);
    } else {
      LittleEndianAt(v / 256, n - 1, i - 1);
      DigitAtNext(v, 256, i);
    }
  }

  /** And read so: the bytes are the digits of the value. */
  lemma {:induction false} FromLittleEndianAt(s: seq<Byte>, i: nat)
    requires i < |s|
    ensures FromLittleEndian(s) < Power(256, |s|) && DigitAt(FromLittleEndian(s), 256, i) == s[i]
    decreases |s|
  {
    var v, rest := FromLittleEndian(s), FromLittleEndian(s[1..]);
    FromLittleEndianFits(s);
    assert v % 256 == s[0] && v / 256 == rest;
    if i == 0 {
      DigitAtZero(v, 256);
    } else {
      FromLittleEndianAt(s[1..], i - 1);
      DigitAtNext(v, 256, i);
    }
  }

  lemma {:induction false} FromLittleEndianFits(s: seq<Byte>)
    ensures FromLittleEndian(s) < Power(256, |s|)
    decreases |s|
  {
    if s != [] {
      FromLittleEndianFits(s[1..]);
    }
  }

  // ----- variable-length integers

  /** An integer is written seven bits at a time, lowest first, all but the last byte with 128 added. */
  lemma {:induction false} VarIntAtByte(v: nat, i: nat)
    requires i < |EncodeVarInt(v)|
    ensures EncodeVarInt(v)[i] == DigitAt(v, 128, i) + if i < |EncodeVarInt(v)| - 1 then 128 else 0
    decreases v
  {
    if i == 0 {
      DigitAtZero(v, 128);
    } else {
      VarIntAtByte(v / 128, i - 1);
      DigitAtNext(v, 128, i);
    }
  }

  /** The number of bytes is the least that holds the value. */
  lemma {:induction false} VarIntSize(v: nat)
    ensures var n := |EncodeVarInt(v)|; v < Power(128, n) && (n > 1 ==> v >= Power(128, n - 1))
    decreases v
  {
    if v > 127 {
      VarIntSize(v / 128);
      var n := |EncodeVarInt(v / 128)|;
      assert v < 128 * Power(128, n);
      if n > 1 {
        assert v >= 128 * Power(128, n - 1);
      }
    }
    assert Power(128, 1) == 128 * Power(128, 0);
  }

  /** Reading takes the bytes up to the first below 128, and their lower seven bits are the digits of the value. */
  lemma {:induction false} VarIntIsRead(s: seq<Byte>)
    ensures VarIntAt(s).None? <==> forall i :: 0 <= i < |s| ==> s[i] >= 128
    ensures VarIntAt(s).Some? ==>
      var (v, n) := VarIntAt(s).value;
      s[n - 1] < 128 && (forall i :: 0 <= i < n - 1 ==> s[i] >= 128) && v < Power(128, n)
    decreases |s|
  {
    if s != [] && s[0] >= 128 {
      VarIntIsRead(s[1..]);
      assert forall i :: 0 < i < |s| ==> s[i] == s[1..][i - 1];
      assert forall i :: 0 <= i < |s| - 1 ==> s[1..][i] == s[i + 1];
    }
    if s != [] && s[0] < 128 {
      assert Power(128, 1) == 128 * Power(128, 0);
    }
  }

  lemma {:induction false} VarIntDigits(s: seq<Byte>, i: nat)
    requires VarIntAt(s).Some? && i < VarIntAt(s).value.1
    ensures DigitAt(VarIntAt(s).value.0, 128, i) == s[i] % 128
    decreases |s|
  {
    var v := VarIntAt(s).value.0;
    if s[0] >= 128 {
      assert v % 128 == s[0] - 128 && v / 128 == VarIntAt(s[1..]).value.0;
    }
    if i == 0 {
      DigitAtZero(v, 128);
    } else {
      VarIntDigits(s[1..], i - 1);
      DigitAtNext(v, 128, i);
    }
  }

  // ----- fields

  /** The wire types of the Protocol Buffers encoding. */
  function WireType(f: Field): nat {
    match f
    case VarInt(_, _) => 0
    case Fixed64(_, _) => 1
    case Bytes(_, _) => 2
    case Message(_, _) => 2
    case Fixed32(_, _) => 5
  }

  /** What follows the key: the value, the bytes of the word, or the length and that many bytes. */
  ghost predicate IsBody(f: Field, body: seq<Byte>) {
    match f
    case VarInt(_, v) => VarIntAt(body) == Some((v, |body|))
    case Fixed64(_, v) => |body| == 8 && forall i :: 0 <= i < 8 ==> body[i] == DigitAt(v, 256, i)
    case Fixed32(_, v) => |body| == 4 && forall i :: 0 <= i < 4 ==> body[i] == DigitAt(v, 256, i)
    case Bytes(_, b) => IsDelimited(body, b)
    case Message(_, fields) => |EncodeFields(fields)| < TWO_32 ==> IsDelimited(body, EncodeFields(fields))
  }

  /** A field begins with eight times its number plus its wire type, as a variable-length integer: in one byte if the
      number is below 16. */
  lemma FieldIs(f: Field) returns (key: seq<Byte>, body: seq<Byte>)
    ensures EncodeField(f) == key + body && IsBody(f, body)
    ensures f.number < 0x2000_0000 ==> VarIntAt(key) == Some((8 * f.number + WireType(f), |key|))
    ensures f.number < 16 ==> key == [8 * f.number + WireType(f)]
  {
    hide EncodeVarInt, VarIntAt, LittleEndian, EncodeFields, IsBody;
    var k := Key(f.number, WireType(f));
    key := EncodeVarInt(k);
    VarIntRoundTrip(k, []);
    assert key + [] == key;
    if f.number < 16 {
      OneByte(k);
    }
    match f {
      case VarInt(_, v) =>
        body := EncodeVarInt(v);
      case Fixed64(_, v) =>
        body := LittleEndian(v, 8);
      case Fixed32(_, v) =>
        body := LittleEndian(v, 4);
      case Bytes(_, b) =>
        body := EncodeVarInt(|b|) + b;
        Regroup(key, EncodeVarInt(|b|), b);
      case Message(_, fields) =>
        var payload := EncodeFields(fields);
        body := EncodeVarInt(|payload| % TWO_32) + payload;
        Regroup(key, EncodeVarInt(|payload| % TWO_32), payload);
    }
    BodyIs(f, body);
  }

  lemma Regroup(a: seq<Byte>, b: seq<Byte>, c: seq<Byte>)
    ensures a + b + c == a + (b + c)
  {}

  lemma OneByte(v: nat)
    requires v < 128
    ensures EncodeVarInt(v) == [v]
  {}

  lemma BodyIs(f: Field, body: seq<Byte>)
    requires match f
             case VarInt(_, v) => body == EncodeVarInt(v)
             case Fixed64(_, v) => body == LittleEndian(v, 8)
             case Fixed32(_, v) => body == LittleEndian(v, 4)
             case Bytes(_, b) => body == EncodeVarInt(|b|) + b
             case Message(_, fields) => body == EncodeVarInt(|EncodeFields(fields)| % TWO_32) + EncodeFields(fields)
    ensures IsBody(f, body)
  {
    hide EncodeVarInt, VarIntAt, LittleEndian, EncodeFields, DigitAt;
    match f
    case VarInt(_, v) =>
      VarIntRoundTrip(v, []);
      assert EncodeVarInt(v) + [] == EncodeVarInt(v);
    case Fixed64(_, v) =>
      forall i | 0 <= i < 8 ensures LittleEndian(v, 8)[i] == DigitAt(v, 256, i) {
        LittleEndianAt(v, 8, i);
      }
    case Fixed32(_, v) =>
      forall i | 0 <= i < 4 ensures LittleEndian(v, 4)[i] == DigitAt(v, 256, i) {
        LittleEndianAt(v, 4, i);
      }
    case Bytes(_, b) => LengthFirst(body, b);
    case Message(_, fields) =>
      if |EncodeFields(fields)| < TWO_32 {
        LengthFirst(body, EncodeFields(fields));
      }
  }

  /** The length as a variable-length integer, and then the payload. */
  predicate IsDelimited(s: seq<Byte>, payload: seq<Byte>) {
    VarIntAt(s).Some? && var (length, n) := VarIntAt(s).value; length == |payload| && s[n..] == payload
  }

  lemma LengthFirst(s: seq<Byte>, payload: seq<Byte>)
    requires s == EncodeVarInt(|payload|) + payload
    ensures IsDelimited(s, payload)
  {
    hide EncodeVarInt, VarIntAt;
    VarIntRoundTrip(|payload|, payload);
  }

  // ----- what is not read

  /** A field that is not descended into is read iff it is there in full and its wire type is known. */
  lemma ReadsIffThere(kinds: Kinds, kind: nat, s: seq<Byte>)
    requires forall n :: (kind, n) !in kinds
    ensures ParseItem(kinds, kind, s).Some? <==>
      VarIntAt(s).Some? && IsThere(VarIntAt(s).value.0, s[VarIntAt(s).value.1..])
  {
    hide VarIntAt, ParseBody;
    if VarIntAt(s).Some? {
      var (key, n) := VarIntAt(s).value;
      BodyIsThere(kinds, kind, key, n, s[n..]);
    }
  }

  lemma BodyIsThere(kinds: Kinds, kind: nat, key: nat, n: nat, body: seq<Byte>)
    requires forall k :: (kind, k) !in kinds
    ensures ParseBody(kinds, kind, key, n, body).Some? <==> IsThere(key, body)
  {
    hide VarIntAt, FromLittleEndian, ParseDelimited;
    DelimitedIsThere(kinds, kind, key % TWO_32 / 8, n, body);
  }

  lemma DelimitedIsThere(kinds: Kinds, kind: nat, number: UInt32, n: nat, body: seq<Byte>)
    requires forall k :: (kind, k) !in kinds
    ensures ParseDelimited(kinds, kind, number, n, body).Some? <==>
      VarIntAt(body).Some? && VarIntAt(body).value.0 % TWO_32 <= |body| - VarIntAt(body).value.1
  {
    hide VarIntAt, ParsePayload;
    if VarIntAt(body).Some? && VarIntAt(body).value.0 % TWO_32 <= |body| - VarIntAt(body).value.1 {
      var (v, m) := VarIntAt(body).value;
      PayloadIsThere(kinds, kind, number, body[m..m + v % TWO_32]);
    }
  }

  lemma PayloadIsThere(kinds: Kinds, kind: nat, number: UInt32, s: seq<Byte>)
    requires (kind, number) !in kinds
    ensures ParsePayload(kinds, kind, number, s) == Some(Blob(number, s))
  {}

  predicate IsThere(key: nat, body: seq<Byte>) {
    match key % 8
    case 0 => VarIntAt(body).Some?
    case 1 => |body| >= 8
    case 2 => VarIntAt(body).Some? && VarIntAt(body).value.0 % TWO_32 <= |body| - VarIntAt(body).value.1
    case 5 => |body| >= 4
    case _ => false
  }
}
