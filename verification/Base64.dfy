/** Base64 as in section 4 of RFC 4648: the encoder of AsBase64 and the decoder of FromBase64, which carry bits from
    byte to byte, against the definition by groups of three bytes.
 */
module Base64 {

  type Byte = n: nat | n < 256
  type Sextet = n: nat | n < 64

  /** encodeTable: the capitals, the small letters, the digits, plus and slash. */
  function Letter(v: Sextet): char {
    if v < 26 then (v + 'A' as int) as char
    else if v < 52 then (v - 26 + 'a' as int) as char
    else if v < 62 then (v - 52 + '0' as int) as char
    else if v == 62 then '+'
    else '/'
  }

  /** DecodeByte: where the character is in the table, or its size. */
  function Value(c: char): nat {
    if 'A' <= c <= 'Z' then c as int - 'A' as int
    else if 'a' <= c <= 'z' then c as int - 'a' as int + 26
    else if '0' <= c <= '9' then c as int - '0' as int + 52
    else if c == '+' then 62
    else if c == '/' then 63
    else 64
  }

  lemma ValueOfLetter(v: Sextet)
    ensures Value(Letter(v)) == v && Letter(v) != '='
  {
  }

  /** The six-bit parts of three bytes. */
  function First(a: Byte): Sextet { a / 4 }
  function Second(a: Byte, b: Byte): Sextet { a % 4 * 16 + b / 16 }
  function Third(b: Byte, c: Byte): Sextet { b % 16 * 4 + c / 64 }
  function Fourth(c: Byte): Sextet { c % 64 }

  /** Three bytes make four letters; a last group of one or two bytes is filled up. */
  function Encoded(data: seq<Byte>): seq<char> {
    if |data| == 0 then []
    else if |data| == 1 then [Letter(First(data[0])), Letter(Second(data[0], 0)), '=', '=']
    else if |data| == 2 then [Letter(First(data[0])), Letter(Second(data[0], data[1])), Letter(Third(data[1], 0)), '=']
    else
      [Letter(First(data[0])), Letter(Second(data[0], data[1])), Letter(Third(data[1], data[2])),
        Letter(Fourth(data[2]))]
      + Encoded(data[3..])
  }

  lemma {:induction false} EncodedLength(data: seq<Byte>)
    ensures |Encoded(data)| == (|data| + 2) / 3 * 4
    decreases |data|
  {
    hide Letter;
    if |data| > 2 {
      EncodedLength(data[3..]);
    }
  }

  predicate IsCarry(bitIndex: nat, carry: nat) {
    (bitIndex == 2 && carry == 0) || (bitIndex == 4 && carry < 64 && carry % 16 == 0) ||
      (bitIndex == 6 && carry < 64 && carry % 4 == 0)
  }

  /** What is still to be written when `carry` holds the bits left over from the bytes before. */
  function After(bitIndex: nat, carry: nat, data: seq<Byte>): seq<char>
    requires IsCarry(bitIndex, carry)
    decreases |data|
  {
    if bitIndex == 2 then Encoded(data)
    else if bitIndex == 4 then
      if data == [] then [Letter(carry), '=', '=']
      else [Letter(carry + data[0] / 16)] + After(6, Third(data[0], 0), data[1..])
    else if data == [] then [Letter(carry), '=']
    else [Letter(carry + data[0] / 64), Letter(Fourth(data[0]))] + Encoded(data[1..])
  }

  /** The high bits of a byte join what is left of the byte before. */
  lemma PartsJoin(a: Byte, b: Byte)
    ensures Second(a, b) == Second(a, 0) + b / 16 && Third(a, b) == Third(a, 0) + b / 64
    ensures IsCarry(4, Second(a, 0)) && IsCarry(6, Third(a, 0))
  {
  }

  lemma {:induction false} EncodedByBytes(data: seq<Byte>)
    requires data != []
    ensures Encoded(data) == [Letter(First(data[0]))] + After(4, Second(data[0], 0), data[1..])
  {
    hide Letter, After, First, Second, Third, Fourth;
    var a, more := data[0], data[1..];
    PartsJoin(a, 0);
    if |data| == 1 {
      AfterOne(Second(a, 0), more);
    } else {
      var b, rest := data[1], data[2..];
      assert more[0] == b && more[1..] == rest;
      PartsJoin(a, b);
      PartsJoin(b, 0);
      AfterOne(Second(a, 0), more);
      AfterTwo(Third(b, 0), rest);
      if |data| > 2 {
        assert rest[0] == data[2] && rest[1..] == data[3..];
        PartsJoin(b, data[2]);
        Regroup(Letter(First(a)), Letter(Second(a, b)), Letter(Third(b, data[2])), Letter(Fourth(data[2])),
          Encoded(data[3..]), []);
      }
    }
  }

  lemma Regroup(a: char, b: char, c: char, d: char, s: seq<char>, rest: seq<char>)
    ensures [a, b, c, d] + s == [a] + ([b] + ([c, d] + s))
    ensures [a, b, c, d] + s + rest == [a, b] + ([c] + ([d] + (s + rest)))
    ensures [a, b, c, d] + rest == [a, b] + ([c] + ([d] + rest)) == [a, b] + ([c, d] + rest)
  {
  }

  lemma AfterOne(carry: nat, data: seq<Byte>)
    requires IsCarry(4, carry)
    ensures After(4, carry, data) == if data == [] then [Letter(carry), '=', '=']
      else [Letter(carry + data[0] / 16)] + After(6, Third(data[0], 0), data[1..])
  {
    hide Letter, Encoded;
  }

  lemma AfterTwo(carry: nat, data: seq<Byte>)
    requires IsCarry(6, carry)
    ensures After(6, carry, data) == if data == [] then [Letter(carry), '=']
      else [Letter(carry + data[0] / 64), Letter(Fourth(data[0]))] + Encoded(data[1..])
  {
    hide Letter, Encoded;
  }

  /** byte >> bitIndex */
  function Shifted(byte: Byte, bitIndex: nat): nat {
    if bitIndex == 2 then byte / 4 else if bitIndex == 4 then byte / 16 else byte / 64
  }

  /** static_cast<uint8_t>(byte << (8 - bitIndex)) >> 2 */
  function Remaining(byte: Byte, bitIndex: nat): nat {
    var b: nat := byte;
    if bitIndex == 2 then b * 64 % 256 / 4 else if bitIndex == 4 then b * 16 % 256 / 4 else b * 4 % 256 / 4
  }

  lemma RemainingIs(byte: Byte, bitIndex: nat)
    requires bitIndex == 2 || bitIndex == 4 || bitIndex == 6
    ensures Remaining(byte, bitIndex) == if bitIndex == 2 then Second(byte, 0)
      else if bitIndex == 4 then Third(byte, 0) else Fourth(byte)
  {
    if bitIndex == 2 {
      LowBits(byte, byte / 4, byte % 4, 64);
    } else if bitIndex == 4 {
      LowBits(byte, byte / 16, byte % 16, 16);
    } else {
      LowBits(byte, byte / 64, byte % 64, 4);
    }
  }

  lemma LowBits(byte: nat, high: nat, low: nat, weight: nat)
    requires (weight == 64 && byte == 4 * high + low && low < 4) ||
      (weight == 16 && byte == 16 * high + low && low < 16)
             || (weight == 4 && byte == 64 * high + low && low < 64)
    ensures byte * weight % 256 == low * weight
  {
    assert byte * weight == 256 * high + low * weight;
  }

  /** What one byte adds, and the bits it leaves over. */
  lemma OneByte(data: seq<Byte>, bitIndex: nat, carry: nat)
    requires data != [] && IsCarry(bitIndex, carry)
    ensures carry + Shifted(data[0], bitIndex) < 64 && Remaining(data[0], bitIndex) < 64
    ensures var first, left := [Letter(carry + Shifted(data[0], bitIndex))], Remaining(data[0], bitIndex);
            if bitIndex == 6 then After(6, carry, data) == first + [Letter(left)] + After(2, 0, data[1..])
            else IsCarry(bitIndex + 2, left) && After(bitIndex, carry, data) == first + After(bitIndex + 2, left, data[1..])
  {
    hide Letter, Encoded, Remaining;
    RemainingIs(data[0], bitIndex);
    if bitIndex == 2 {
      EncodedByBytes(data);
    }
  }

  method Encode(data: seq<Byte>) returns (out: seq<char>)
    ensures out == Encoded(data)
  {
    hide Letter, Encoded, Shifted, Remaining, After;
    out := [];
    var bitIndex: nat, encodedByte: nat := 2, 0;
    ghost var groups := 0;
    AfterNothing(data);
    for i := 0 to |data|
      invariant IsCarry(bitIndex, encodedByte) && |out| == 4 * groups + (bitIndex - 2) / 2
      invariant out + After(bitIndex, encodedByte, data[i..]) == Encoded(data)
    {
      assert data[i..][1..] == data[i + 1..];
      OneByte(data[i..], bitIndex, encodedByte);
      // the bits of the two operands of |= do not overlap
      encodedByte := encodedByte + Shifted(data[i], bitIndex);
      out := out + [Letter(encodedByte)];
      encodedByte := Remaining(data[i], bitIndex);
      bitIndex := bitIndex + 2;
      if bitIndex == 8 {
        out := out + [Letter(encodedByte)];
        encodedByte, bitIndex := 0, 2;
        groups := groups + 1;
      }
    }
    AfterAll(bitIndex, encodedByte);
    if |out| % 4 != 0 {
      out := out + [Letter(encodedByte)];
    }
    if |out| % 4 != 0 {
      out := out + ['='];
    }
    if |out| % 4 != 0 {
      out := out + ['='];
    }
  }

  lemma AfterNothing(data: seq<Byte>)
    ensures After(2, 0, data[0..]) == Encoded(data)
  {
    hide Encoded;
    assert data[0..] == data;
  }

  lemma AfterAll(bitIndex: nat, carry: nat)
    requires IsCarry(bitIndex, carry)
    ensures After(bitIndex, carry, []) == if bitIndex == 2 then []
      else if bitIndex == 4 then [Letter(carry), '=', '='] else [Letter(carry), '=']
  {
    hide Letter;
  }

  // ----- decoding

  /** The bytes stored, what is left of the text, and whether no failure was reported. */
  datatype Result = Result(bytes: seq<Byte>, rest: seq<char>, ok: bool)

  /** The word after another letter: sixteen bits are kept. */
  function Joined(word: nat, v: nat): nat {
    (word * 64 + v) % 0x10000
  }

  /** The loop for letters, with room for `left` more bytes. */
  function Decoded(text: seq<char>, left: nat, bitIndex: nat, word: nat): Result
    requires bitIndex < 8 && bitIndex % 2 == 0
    decreases |text|
  {
    if left == 0 || text == [] then Padded(text, left == 0, bitIndex)
    else
      var v := Value(text[0]);
      if v >= 64 then Result([], text[1..], false)
      else
        var w := Joined(word, v);
        if bitIndex + 6 < 8 then Decoded(text[1..], left, bitIndex + 6, w)
        else
          var r := Decoded(text[1..], left - 1, bitIndex - 2, w);
          r.(bytes := [Taken(w, bitIndex + 6)] + r.bytes)
  }

  /** decodedWord >> (bitIndex - 8), as a byte */
  function Taken(word: nat, bitIndex: nat): Byte
    requires bitIndex == 8 || bitIndex == 10 || bitIndex == 12
  {
    if bitIndex == 8 then word % 256 else if bitIndex == 10 then word / 4 % 256 else word / 16 % 256
  }

  /** The loop for the characters that fill up. */
  function Padded(text: seq<char>, ok: bool, bitIndex: nat): Result
    requires bitIndex % 2 == 0
  {
    if bitIndex == 0 || text == [] then Result([], text, ok)
    else Padded(text[1..], ok && text[0] == '=', bitIndex - 2)
  }

  method Decode(text: seq<char>, size: nat) returns (r: Result)
    ensures r == Decoded(text, size, 0, 0)
  {
    hide Value, Taken, Padded, Joined, Decoded;
    var bytes: seq<Byte>, rest, left: nat, bitIndex: nat, word: nat := [], text, size, 0, 0;
    while left > 0 && rest != []
      invariant bitIndex < 8 && bitIndex % 2 == 0
      invariant var d := Decoded(rest, left, bitIndex, word); d.(bytes := bytes + d.bytes) == Decoded(text, size, 0, 0)
      decreases |rest|
    {
      DecodedOne(rest, left, bitIndex, word);
      var v := Value(rest[0]);
      rest := rest[1..];
      if v >= 64 {
        return Result(bytes, rest, false);
      }
      word := Joined(word, v);
      bitIndex := bitIndex + 6;
      if bitIndex >= 8 {
        bytes, left := bytes + [Taken(word, bitIndex)], left - 1;
        bitIndex := bitIndex - 8;
      }
    }
    DecodedEnd(rest, left, bitIndex, word);
    var ok := left == 0;
    ghost var start, filled := rest, bitIndex;
    PaddedNothing(rest, ok, bitIndex);
    while bitIndex != 0 && rest != []
      invariant bitIndex % 2 == 0 && Padded(rest, ok, bitIndex) == Padded(start, left == 0, filled)
      decreases bitIndex
    {
      PaddedOne(rest, ok, bitIndex);
      ok := ok && rest[0] == '=';
      rest, bitIndex := rest[1..], bitIndex - 2;
    }
    PaddedNothing(rest, ok, bitIndex);
    r := Result(bytes, rest, ok);
  }

  lemma DecodedOne(text: seq<char>, left: nat, bitIndex: nat, word: nat)
    requires bitIndex < 8 && bitIndex % 2 == 0 && left > 0 && text != []
    ensures var r, v := Decoded(text, left, bitIndex, word), Value(text[0]);
            if v >= 64 then r == Result([], text[1..], false)
            else if bitIndex == 0 then r == Decoded(text[1..], left, 6, Joined(word, v))
            else
              var d := Decoded(text[1..], left - 1, bitIndex - 2, Joined(word, v));
              r == d.(bytes := [Taken(Joined(word, v), bitIndex + 6)] + d.bytes)
  {
    hide Value, Taken, Padded, Joined;
  }

  lemma DecodedEnd(text: seq<char>, left: nat, bitIndex: nat, word: nat)
    requires bitIndex < 8 && bitIndex % 2 == 0 && (left == 0 || text == [])
    ensures Decoded(text, left, bitIndex, word) == Padded(text, left == 0, bitIndex)
  {
  }

  lemma PaddedNothing(text: seq<char>, ok: bool, bitIndex: nat)
    requires bitIndex % 2 == 0
    ensures bitIndex == 0 || text == [] ==> Padded(text, ok, bitIndex) == Result([], text, ok)
    ensures Padded(text, ok, bitIndex).bytes == []
  {
  }

  lemma PaddedOne(text: seq<char>, ok: bool, bitIndex: nat)
    requires bitIndex % 2 == 0 && bitIndex > 0 && text != []
    ensures Padded(text, ok, bitIndex) == Padded(text[1..], ok && text[0] == '=', bitIndex - 2)
  {
  }

  lemma LastTwelveBits(word: nat, u: Sextet, v: Sextet)
    requires word % 64 == u
    ensures Joined(word, v) % 4096 == u * 64 + v && Joined(word, v) % 64 == v
  {
    var a, x := word / 64, u * 64 + v;
    assert word * 64 + v == 4096 * a + x;
    Modulo4096(a, x);
    LastSixBits(Joined(word, v), u, v);
  }

  lemma Modulo4096(a: nat, x: nat)
    requires x < 4096
    ensures (4096 * a + x) % 0x10000 % 4096 == x
  {
    var b, c := a / 16, a % 16;
    assert 4096 * a + x == 0x10000 * b + (4096 * c + x);
    assert (0x10000 * b + (4096 * c + x)) % 0x10000 == 4096 * c + x;
  }

  lemma LastSixBits(w: nat, u: Sextet, v: Sextet)
    requires w % 4096 == u * 64 + v
    ensures w % 64 == v
  {
    var a := w / 4096;
    assert w == 64 * (64 * a + u) + v;
  }

  lemma TakenBits(w: nat, x: nat)
    requires w % 4096 == x
    ensures Taken(w, 12) == x / 16 && Taken(w, 10) == x / 4 % 256 && Taken(w, 8) == x % 256
  {
    MiddleBits(w / 4096, x);
  }

  lemma MiddleBits(a: nat, x: nat)
    requires x < 4096
    ensures var w := 4096 * a + x; w / 16 % 256 == x / 16 && w / 4 % 256 == x / 4 % 256 && w % 256 == x % 256
  {
    var q, r := x / 16, x / 4;
    Modulo256(a, q);
    Modulo256(4 * a, r);
    Modulo256(16 * a, x);
  }

  lemma Modulo256(a: nat, x: nat)
    ensures (256 * a + x) % 256 == x % 256
  {
  }

  lemma OneLetter(v: Sextet, more: seq<char>, left: nat, bitIndex: nat, word: nat)
    requires left > 0 && bitIndex < 8 && bitIndex % 2 == 0
    ensures var r := Decoded([Letter(v)] + more, left, bitIndex, word); var w := Joined(word, v);
            if bitIndex == 0 then r == Decoded(more, left, 6, w)
            else
              var d := Decoded(more, left - 1, bitIndex - 2, w);
              r == d.(bytes := [Taken(w, bitIndex + 6)] + d.bytes)
  {
    hide Letter, Value, Taken, Padded, Joined, Decoded;
    ValueOfLetter(v);
    DecodedOne([Letter(v)] + more, left, bitIndex, word);
    assert ([Letter(v)] + more)[1..] == more;
  }

  /** The first letter of a group. */
  lemma FirstLetter(v: Sextet, more: seq<char>, left: nat, word: nat) returns (w: nat)
    requires left > 0
    ensures w % 64 == v && Decoded([Letter(v)] + more, left, 0, word) == Decoded(more, left, 6, w)
  {
    hide Letter, Decoded;
    OneLetter(v, more, left, 0, word);
    LastTwelveBits(word, word % 64, v);
    w := Joined(word, v);
  }

  /** A further letter completes a byte with the letter `u` before it. */
  lemma NextLetter(u: Sextet, v: Sextet, more: seq<char>, left: nat, bitIndex: nat, word: nat) returns (w: nat)
    requires left > 0 && word % 64 == u && (bitIndex == 6 || bitIndex == 4 || bitIndex == 2)
    ensures w % 64 == v
    ensures var x, d := u * 64 + v, Decoded(more, left - 1, bitIndex - 2, w);
            Decoded([Letter(v)] + more, left, bitIndex, word)
            == d.(bytes := [if bitIndex == 6 then x / 16 else if bitIndex == 4 then x / 4 % 256 else x % 256] + d.bytes)
  {
    hide Letter, Decoded, Taken, Joined;
    OneLetter(v, more, left, bitIndex, word);
    LastTwelveBits(word, u, v);
    TakenBits(Joined(word, v), u * 64 + v);
    w := Joined(word, v);
  }

  lemma Assemble(a: Byte, b: Byte, c: Byte)
    ensures (First(a) * 64 + Second(a, b)) / 16 == a
    ensures (Second(a, b) * 64 + Third(b, c)) / 4 % 256 == b
    ensures (Third(b, c) * 64 + Fourth(c)) % 256 == c
  {
    AssembleFirst(a / 4, a % 4, b / 16);
    AssembleSecond(a % 4, b / 16, b % 16, c / 64);
    AssembleThird(b % 16, c / 64, c % 64);
  }

  lemma AssembleFirst(high: nat, low: nat, more: nat)
    requires low < 4 && more < 16
    ensures (high * 64 + (low * 16 + more)) / 16 == 4 * high + low
  {
  }

  lemma AssembleSecond(before: nat, high: nat, low: nat, more: nat)
    requires before < 4 && high < 16 && low < 16 && more < 4
    ensures ((before * 16 + high) * 64 + (low * 4 + more)) / 4 % 256 == 16 * high + low
  {
    assert ((before * 16 + high) * 64 + (low * 4 + more)) / 4 == 256 * before + (16 * high + low);
    Modulo256(before, 16 * high + low);
  }

  lemma AssembleThird(before: nat, high: nat, low: nat)
    requires before < 16 && high < 4 && low < 64
    ensures ((before * 4 + high) * 64 + low) % 256 == 64 * high + low
  {
    Modulo256(before, 64 * high + low);
  }

  lemma PaddingIsRead(n: nat, rest: seq<char>)
    requires n == 1 || n == 2
    ensures Padded((if n == 1 then ['='] else ['=', '=']) + rest, true, 2 * n) == Result([], rest, true)
  {
    if n == 1 {
      assert (['='] + rest)[1..] == rest;
    } else {
      assert (['=', '='] + rest)[1..] == ['='] + rest;
      PaddingIsRead(1, rest);
    }
  }

  /** The first byte of a group, from its first two letters. */
  lemma FirstByte(a: Byte, v: Sextet, more: seq<char>, left: nat, word: nat) returns (w: nat)
    requires left > 0 && (First(a) * 64 + v) / 16 == a
    ensures w % 64 == v
    ensures var d := Decoded(more, left - 1, 4, w);
            Decoded([Letter(First(a)), Letter(v)] + more, left, 0, word) == d.(bytes := [a] + d.bytes)
  {
    hide Letter, Decoded;
    assert [Letter(First(a)), Letter(v)] + more == [Letter(First(a))] + ([Letter(v)] + more);
    var w1 := FirstLetter(First(a), [Letter(v)] + more, left, word);
    w := NextLetter(First(a), v, more, left, 6, w1);
  }

  /** Decoding undoes encoding, whatever follows: the bytes come back, no failure is reported, and reading stops
      right behind the text. */
  lemma {:induction false} RoundTrip(data: seq<Byte>, rest: seq<char>, word: nat)
    ensures Decoded(Encoded(data) + rest, |data|, 0, word) == Result(data, rest, true)
    decreases |data|
  {
    hide Letter, Decoded, Padded, Encoded;
    EncodedShape(data, rest);
    if data == [] {
      DecodedEnd(rest, 0, 0, word);
      PaddedNothing(rest, true, 0);
    } else if |data| == 1 {
      OneLeft(data[0], rest, word);
      assert data == [data[0]];
    } else if |data| == 2 {
      TwoLeft(data[0], data[1], rest, word);
      assert data == [data[0], data[1]];
    } else {
      var more := Encoded(data[3..]) + rest;
      var w := ThreeOfMore(data[0], data[1], data[2], more, |data|, word);
      RoundTrip(data[3..], rest, w);
      assert data == [data[0]] + ([data[1]] + ([data[2]] + data[3..]));
    }
  }

  /** The text letter by letter. */
  lemma {:induction false} EncodedShape(data: seq<Byte>, rest: seq<char>)
    ensures var text := Encoded(data) + rest;
            if data == [] then text == rest
            else if |data| == 1 then text == [Letter(First(data[0])), Letter(Second(data[0], 0))] + (['=', '='] + rest)
            else if |data| == 2 then
              text == [Letter(First(data[0])), Letter(Second(data[0], data[1]))] +
                ([Letter(Third(data[1], 0))] + (['='] + rest))
            else
              text == [Letter(First(data[0])), Letter(Second(data[0], data[1]))]
                      + ([Letter(Third(data[1], data[2]))] + ([Letter(Fourth(data[2]))] + (Encoded(data[3..]) + rest)))
  {
    hide Letter, First, Second, Third, Fourth;
    if |data| == 1 {
      Regroup(Letter(First(data[0])), Letter(Second(data[0], 0)), '=', '=', [], rest);
    } else if |data| == 2 {
      Regroup(Letter(First(data[0])), Letter(Second(data[0], data[1])), Letter(Third(data[1], 0)), '=', [], rest);
    } else if |data| > 2 {
      Regroup(Letter(First(data[0])), Letter(Second(data[0], data[1])), Letter(Third(data[1], data[2])),
        Letter(Fourth(data[2])),
              Encoded(data[3..]), rest);
    }
  }

  lemma OneLeft(a: Byte, rest: seq<char>, word: nat)
    ensures Decoded([Letter(First(a)), Letter(Second(a, 0))] + (['=', '='] + rest), 1, 0, word) ==
      Result([a], rest, true)
  {
    hide Letter, Decoded, Padded;
    Assemble(a, 0, 0);
    var w := FirstByte(a, Second(a, 0), ['=', '='] + rest, 1, word);
    DecodedEnd(['=', '='] + rest, 0, 4, w);
    PaddingIsRead(2, rest);
  }

  lemma TwoLeft(a: Byte, b: Byte, rest: seq<char>, word: nat)
    ensures Decoded([Letter(First(a)), Letter(Second(a, b))] + ([Letter(Third(b, 0))] + (['='] + rest)), 2, 0, word) ==
            Result([a, b], rest, true)
  {
    hide Letter, Decoded, Padded;
    Assemble(a, b, 0);
    var u, v := Second(a, b), Third(b, 0);
    var w1 := FirstByte(a, u, [Letter(v)] + (['='] + rest), 2, word);
    var w2 := NextLetter(u, v, ['='] + rest, 1, 4, w1);
    DecodedEnd(['='] + rest, 0, 2, w2);
    PaddingIsRead(1, rest);
  }

  lemma ThreeOfMore(a: Byte, b: Byte, c: Byte, more: seq<char>, left: nat, word: nat) returns (w: nat)
    requires left >= 3
    ensures var d := Decoded(more, left - 3, 0, w);
            Decoded([Letter(First(a)), Letter(Second(a, b))] + ([Letter(Third(b, c))] + ([Letter(Fourth(c))] + more)),
              left, 0, word)
            == d.(bytes := [a] + ([b] + ([c] + d.bytes)))
  {
    hide Letter, Decoded, Padded;
    Assemble(a, b, c);
    var u, v := Second(a, b), Third(b, c);
    var w1 := FirstByte(a, u, [Letter(v)] + ([Letter(Fourth(c))] + more), left, word);
    var w2 := NextLetter(u, v, [Letter(Fourth(c))] + more, left - 1, 4, w1);
    w := NextLetter(v, Fourth(c), more, left - 2, 2, w2);
  }

  // ----- the letters, and which texts are in order

  const CAPITALS := "ABCDEFGHIJKLMNOPQRSTUVWXYZ"
  const SMALL := "abcdefghijklmnopqrstuvwxyz"
  const DIGITS := "0123456789"

  /** Table 1 of RFC 4648. */
  lemma LettersAre(v: Sextet)
    ensures |CAPITALS| == |SMALL| == 26 && |DIGITS| == 10
    ensures Letter(v) ==
      if v < 26 then CAPITALS[v] else if v < 52 then SMALL[v - 26] else if v < 62 then DIGITS[v - 52]
      else if v == 62 then '+' else '/'
  {
    if v < 26 {
      InOrder(CAPITALS, 'A', v);
    } else if v < 52 {
      InOrder(SMALL, 'a', v - 26);
    } else if v < 62 {
      InOrder(DIGITS, '0', v - 52);
    }
  }

  /** And no other character has a value. */
  lemma ValuesAre(c: char)
    ensures Value(c) < 64 ==> Letter(Value(c)) == c
    ensures Value(c) == 64 ==> forall v: Sextet :: Letter(v) != c
  {}

  /** Consecutive characters. */
  lemma {:induction false} InOrder(s: string, first: char, i: nat)
    requires i < |s| && s[0] == first && first as int + |s| < 128
    requires forall k | 0 <= k < |s| - 1 :: s[k + 1] as int == s[k] as int + 1
    ensures s[i] == (first as int + i) as char
    decreases i
  {
    if i > 0 {
      InOrder(s, first, i - 1);
    }
  }

  /** Four letters are the 24 bits of three bytes, highest first. */
  lemma SameBits(a: Byte, b: Byte, c: Byte)
    ensures ((First(a) * 64 + Second(a, b)) * 64 + Third(b, c)) * 64 + Fourth(c) == (a * 256 + b) * 256 + c
  {}

  /** How many letters hold `left` bytes when `bitIndex` bits are at hand. */
  function Needed(left: nat, bitIndex: nat): nat
    requires bitIndex < 8
  {
    if left == 0 then 0 else (8 * left - bitIndex + 5) / 6
  }

  predicate IsComplete(text: seq<char>, n: nat, padding: nat) {
    n <= |text| && (forall i | 0 <= i < n :: Value(text[i]) < 64) &&
    forall i | n <= i < |text| && i < n + padding :: text[i] == '='
  }

  lemma OneLetterLess(left: nat, bitIndex: nat)
    requires left > 0 && bitIndex < 8 && bitIndex % 2 == 0
    ensures Needed(left, bitIndex) > 0
    ensures Needed(left, bitIndex) - 1 ==
      if bitIndex == 0 then Needed(left, 6) else Needed(left - 1, bitIndex - 2)
  {}

  /** No failure is reported iff there are letters enough for the destination, and only padding where bits are left
      over. */
  lemma {:induction false} DecodesIffComplete(text: seq<char>, left: nat, bitIndex: nat, word: nat)
    requires bitIndex < 8 && bitIndex % 2 == 0
    ensures var n := Needed(left, bitIndex);
      6 * n - 8 * left + bitIndex >= 0 &&
      (Decoded(text, left, bitIndex, word).ok <==> IsComplete(text, n, (6 * n - 8 * left + bitIndex) / 2))
    decreases |text|
  {
    hide Value, Taken, Padded, Joined, Decoded;
    if left == 0 || text == [] {
      DecodedEnd(text, left, bitIndex, word);
      PaddedIff(text, left == 0, bitIndex);
    } else {
      DecodedOne(text, left, bitIndex, word);
      OneLetterLess(left, bitIndex);
      var w := Joined(word, Value(text[0]));
      if bitIndex == 0 {
        DecodesIffComplete(text[1..], left, 6, w);
        TextFollows(text, Needed(left, bitIndex), (6 * Needed(left, bitIndex) - 8 * left + bitIndex) / 2);
      } else {
        DecodesIffComplete(text[1..], left - 1, bitIndex - 2, w);
        TextFollows(text, Needed(left, bitIndex), (6 * Needed(left, bitIndex) - 8 * left + bitIndex) / 2);
      }
    }
  }

  lemma TextFollows(text: seq<char>, n: nat, padding: nat)
    requires text != [] && n > 0
    ensures IsComplete(text, n, padding) <==> Value(text[0]) < 64 && IsComplete(text[1..], n - 1, padding)
  {
    hide Value;
    assert forall i | 0 < i < |text| :: text[i] == text[1..][i - 1];
    if Value(text[0]) < 64 && IsComplete(text[1..], n - 1, padding) {
      forall i | 0 <= i < n ensures Value(text[i]) < 64 {
        assert i > 0 ==> text[i] == text[1..][i - 1];
      }
    }
    if IsComplete(text, n, padding) {
      forall i | 0 <= i < n - 1 ensures Value(text[1..][i]) < 64 {
        assert text[1..][i] == text[i + 1];
      }
    }
  }

  lemma {:induction false} PaddedIff(text: seq<char>, ok: bool, bitIndex: nat)
    requires bitIndex % 2 == 0
    ensures Padded(text, ok, bitIndex).ok <==> ok && forall i | 0 <= i < |text| && i < bitIndex / 2 :: text[i] == '='
    decreases bitIndex
  {
    if bitIndex > 0 && text != [] {
      PaddedIff(text[1..], ok && text[0] == '=', bitIndex - 2);
      assert forall i | 0 < i < |text| :: text[i] == text[1..][i - 1];
    }
  }
}
