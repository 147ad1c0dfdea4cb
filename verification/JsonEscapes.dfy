/** Strings as they are written in a JSON text, and as they are read from it. */
module JsonEscapes {
  import opened Options
  import opened Characters
  import opened JsonLexer

  /** The characters of the program have eight bits. Whether those from 128 on count as negative, and so as control
      characters, is up to the compiler. */
  predicate IsOctet(c: char) { c as int < 256 }

  predicate IsControl(c: char, signed: bool) {
    c as int < 0x20 || (signed && c as int >= 0x80)
  }

  function Hex(n: nat): char
    requires n < 16
  {
    if n < 10 then (n + '0' as int) as char else (n - 10 + 'a' as int) as char
  }

  /** The letter of an escape that has one. */
  function Short(c: char): Option<char> {
    if c == '"' || c == '\\' then Some(c)
    else if c as int == 8 then Some('b')
    else if c as int == 12 then Some('f')
    else if c == '\n' then Some('n')
    else if c == '\r' then Some('r')
    else if c == '\t' then Some('t')
    else None
  }

  /** InsertEscapedCharacter */
  function Escape(c: char): seq<char>
    requires IsOctet(c)
  {
    if Short(c).Some? then ['\\', Short(c).value] else ['\\', 'u', '0', '0', Hex(c as int / 16), Hex(c as int % 16)]
  }

  /** The characters at which NonEscapedSubString stops; the backslash is not one of them. */
  predicate Stops(c: char, signed: bool) {
    c == '"' || IsControl(c, signed)
  }

  function Written(c: char, signed: bool): seq<char>
    requires IsOctet(c)
  {
    if Stops(c, signed) then Escape(c) else [c]
  }

  predicate Octets(s: seq<char>) {
    forall i | 0 <= i < |s| :: IsOctet(s[i])
  }

  function Escaped(s: seq<char>, signed: bool): seq<char>
    requires Octets(s)
  {
    if s == [] then [] else Written(s[0], signed) + Escaped(s[1..], signed)
  }

  lemma {:induction false} EscapedConcatenates(a: seq<char>, b: seq<char>, signed: bool)
    requires Octets(a) && Octets(b)
    ensures Octets(a + b) && Escaped(a + b, signed) == Escaped(a, signed) + Escaped(b, signed)
    decreases |a|
  {
    hide Written;
    if a == [] {
      assert a + b == b;
    } else {
      assert (a + b)[1..] == a[1..] + b;
      EscapedConcatenates(a[1..], b, signed);
    }
  }

  lemma {:induction false} EscapedPlain(s: seq<char>, signed: bool)
    requires Octets(s) && forall i | 0 <= i < |s| :: !Stops(s[i], signed)
    ensures Escaped(s, signed) == s
    decreases |s|
  {
    if s != [] {
      EscapedPlain(s[1..], signed);
    }
  }

  // ----- writing

  /** The end of the part that is written as it is. */
  method NonEscapedSubString(s: seq<char>, start: nat, signed: bool) returns (escape: nat, plain: seq<char>)
    requires start <= |s|
    ensures start <= escape <= |s| && plain == s[start..escape]
    ensures forall i | start <= i < escape :: !Stops(s[i], signed)
    ensures escape < |s| ==> Stops(s[escape], signed)
  {
    escape := start;
    while escape < |s| && s[escape] !in ['"', 8 as char, 12 as char, '\n', '\r', '\t']
      invariant start <= escape <= |s|
      invariant forall i | start <= i < escape :: s[i] != '"'
    {
      escape := escape + 1;
    }
    plain := s[start..escape];
    var control := start;
    while control != escape
      invariant start <= control <= escape
      invariant forall i | start <= i < control :: !Stops(s[i], signed)
      decreases escape - control
    {
      if IsControl(s[control], signed) {
        escape := control;
        plain := s[start..escape];
        break;
      }
      control := control + 1;
    }
  }

  method InsertEscapedTag(out: seq<char>, tag: seq<char>, signed: bool) returns (r: seq<char>)
    requires Octets(tag)
    ensures r == out + Escaped(tag, signed)
  {
    hide Escape, Stops, Escaped;
    EscapedNothing(signed);
    r := out;
    var start: nat := 0;
    assert tag[0..] == tag;
    while start != |tag|
      invariant start <= |tag| && r + Escaped(tag[start..], signed) == out + Escaped(tag, signed)
      decreases |tag| - start
    {
      var escape, plain := NonEscapedSubString(tag, start, signed);
      SplitAt(tag, start, escape, signed);
      start := escape;
      Regrouped(r, plain, Escaped(tag[escape..], signed));
      if plain != [] {
        r := r + plain;
      }
      if escape != |tag| {
        Regrouped(r, Escape(tag[escape]), Escaped(tag[escape + 1..], signed));
        r := r + Escape(tag[escape]);
        start := start + 1;
      }
    }
    assert tag[start..] == [];
  }

  lemma Regrouped(a: seq<char>, b: seq<char>, c: seq<char>)
    ensures a + (b + c) == a + b + c && (b == [] ==> b + c == c)
  {
  }

  lemma EscapedNothing(signed: bool)
    ensures Escaped([], signed) == []
  {
  }

  /** The text from `start` on is a part written as it is, perhaps an escaped character, and the rest. */
  lemma SplitAt(s: seq<char>, start: nat, escape: nat, signed: bool)
    requires Octets(s) && start <= escape <= |s| && (forall i | start <= i < escape :: !Stops(s[i], signed))
    requires escape < |s| ==> Stops(s[escape], signed)
    ensures Escaped(s[start..], signed) == s[start..escape] + Escaped(s[escape..], signed)
    ensures escape < |s| ==> Escaped(s[escape..], signed) == Escape(s[escape]) + Escaped(s[escape + 1..], signed)
  {
    hide Escape, Stops;
    assert s[start..] == s[start..escape] + s[escape..];
    EscapedConcatenates(s[start..escape], s[escape..], signed);
    EscapedPlain(s[start..escape], signed);
    if escape < |s| {
      assert s[escape..][1..] == s[escape + 1..];
    }
  }

  method JsonEscapedStringSize(s: seq<char>, signed: bool) returns (size: nat)
    requires Octets(s)
    ensures size == |Escaped(s, signed)|
  {
    hide Stops;
    var start := 0;
    size := 0;
    assert s[0..] == s;
    while start != |s|
      invariant start <= |s| && size + |Escaped(s[start..], signed)| == |Escaped(s, signed)|
      decreases |s| - start
    {
      var escape, plain := NonEscapedSubString(s, start, signed);
      SplitAt(s, start, escape, signed);
      start := escape;
      if plain != [] {
        size := size + |plain|;
      }
      if start != |s| {
        size := size + EscapedCharacterSize(s[start]);
        start := start + 1;
      }
    }
  }

  function EscapedCharacterSize(c: char): (n: nat)
    ensures IsOctet(c) ==> n == |Escape(c)|
  {
    if c in ['"', '\\', 8 as char, 12 as char, '\n', '\r', '\t'] then 2 else 6
  }

  // ----- reading

  /** How many of the first `n` characters are hexadecimal digits in a row. */
  function HexRun(s: seq<char>, n: nat): (r: nat)
    ensures r <= |s| && r <= n && forall i | 0 <= i < r :: IsHex(s[i])
  {
    if n > 0 && s != [] && IsHex(s[0]) then 1 + HexRun(s[1..], n - 1) else 0
  }

  /** Eight bits are kept. */
  function HexByte(s: seq<char>): (r: nat)
    requires forall i | 0 <= i < |s| :: IsHex(s[i])
    ensures r < 256
  {
    if s == [] then 0 else (HexByte(s[..|s| - 1]) * 16 + HexValue(s[|s| - 1])) % 256
  }

  /** JsonStringIterator from begin to end. A backslash at the very end fails an assertion. */
  function Decoded(raw: seq<char>): Option<seq<char>>
    decreases |raw|
  {
    if raw == [] then Some([])
    else if raw[0] != '\\' then Prepend(raw[0], Decoded(raw[1..]))
    else if |raw| == 1 then None
    else if raw[1] == 'u' then
      var n := HexRun(raw[2..], 4);
      Prepend(HexByte(raw[2..n + 2]) as char, Decoded(raw[n + 2..]))
    else Prepend(Unescape(raw[1]), Decoded(raw[2..]))
  }

  function Prepend(c: char, s: Option<seq<char>>): Option<seq<char>> {
    if s.None? then None else Some([c] + s.value)
  }

  lemma HexOfHex(n: nat)
    requires n < 16
    ensures IsHex(Hex(n)) && HexValue(Hex(n)) == n
  {
  }

  lemma DecodedCode(c: char, rest: seq<char>)
    requires IsOctet(c)
    ensures Decoded(['\\', 'u', '0', '0', Hex(c as int / 16), Hex(c as int % 16)] + rest) == Prepend(c, Decoded(rest))
  {
    hide Hex, HexRun, HexByte;
    var h, l := Hex(c as int / 16), Hex(c as int % 16);
    var raw := ['\\', 'u', '0', '0', h, l] + rest;
    HexOfHex(c as int / 16);
    HexOfHex(c as int % 16);
    TwoDigits(h, l, rest);
    assert raw[2..] == ['0', '0', h, l] + rest;
    assert raw[2..6] == ['0', '0', h, l];
    assert raw[6..] == rest;
  }

  lemma {:induction false} TwoDigits(h: char, l: char, rest: seq<char>)
    requires IsHex(h) && IsHex(l)
    ensures HexRun(['0', '0', h, l] + rest, 4) == 4
    ensures HexByte(['0', '0', h, l]) == HexValue(h) * 16 + HexValue(l)
  {
    hide HexRun, HexByte;
    RunOfFour('0', '0', h, l, rest);
    ByteOfFour(h, l);
  }

  lemma {:induction false} RunOfFour(a: char, b: char, c: char, d: char, rest: seq<char>)
    requires IsHex(a) && IsHex(b) && IsHex(c) && IsHex(d)
    ensures HexRun([a, b, c, d] + rest, 4) == 4
  {
    hide HexRun, IsHex;
    HexRunNone(rest);
    HexRunOne(d, rest, 1);
    HexRunOne(c, [d] + rest, 2);
    HexRunOne(b, [c] + ([d] + rest), 3);
    HexRunOne(a, [b] + ([c] + ([d] + rest)), 4);
    assert [a, b, c, d] + rest == [a] + ([b] + ([c] + ([d] + rest)));
  }

  lemma {:induction false} ByteOfFour(h: char, l: char)
    requires IsHex(h) && IsHex(l)
    ensures HexByte(['0', '0', h, l]) == HexValue(h) * 16 + HexValue(l)
  {
    hide HexByte;
    HexRunNone([]);
    ByteAfter([], 0, '0');
    assert [] + ['0'] == ['0'];
    ByteAfter(['0'], 0, '0');
    assert ['0'] + ['0'] == ['0', '0'];
    ByteAfter(['0', '0'], 0, h);
    assert ['0', '0'] + [h] == ['0', '0', h];
    ByteAfter(['0', '0', h], HexValue(h), l);
    assert ['0', '0', h] + [l] == ['0', '0', h, l];
  }

  lemma {:induction false} ByteAfter(s: seq<char>, n: nat, c: char)
    requires IsHex(c) && (forall i | 0 <= i < |s| :: IsHex(s[i])) && HexByte(s) == n < 16
    ensures HexByte(s + [c]) == n * 16 + HexValue(c)
  {
    hide HexByte;
    HexByteOne(s, c);
  }

  lemma HexRunNone(s: seq<char>)
    ensures HexRun(s, 0) == 0 && HexByte([]) == 0
  {
  }

  lemma HexRunOne(c: char, s: seq<char>, n: nat)
    requires IsHex(c) && n > 0
    ensures HexRun([c] + s, n) == 1 + HexRun(s, n - 1)
  {
    assert ([c] + s)[1..] == s;
  }

  lemma {:induction false} HexByteOne(s: seq<char>, c: char)
    requires IsHex(c) && forall i | 0 <= i < |s| :: IsHex(s[i])
    ensures HexByte(s + [c]) == (HexByte(s) * 16 + HexValue(c)) % 256
  {
    assert (s + [c])[..|s|] == s;
  }

  lemma DecodedWritten(c: char, rest: seq<char>, signed: bool)
    requires IsOctet(c) && c != '\\'
    ensures Decoded(Written(c, signed) + rest) == Prepend(c, Decoded(rest))
  {
    hide Decoded, Prepend;
    if !Stops(c, signed) {
      DecodedPlain(c, rest);
    } else if Short(c).Some? {
      DecodedShort(Short(c).value, rest);
    } else {
      DecodedCode(c, rest);
    }
  }

  lemma DecodedPlain(c: char, rest: seq<char>)
    requires c != '\\'
    ensures Decoded([c] + rest) == Prepend(c, Decoded(rest))
  {
    assert ([c] + rest)[1..] == rest;
  }

  lemma DecodedShort(c: char, rest: seq<char>)
    requires c != 'u'
    ensures Decoded(['\\', c] + rest) == Prepend(Unescape(c), Decoded(rest))
  {
    assert (['\\', c] + rest)[2..] == rest;
  }

  /** A string without a backslash is read as it was written, and its text ends at its closing quote. */
  lemma {:induction false} DecodeUndoesEscape(s: seq<char>, signed: bool)
    requires Octets(s) && '\\' !in s
    ensures Decoded(Escaped(s, signed)) == Some(s) && Scanned(Escaped(s, signed), false) == Some(false)
    decreases |s|
  {
    hide Written, Decoded, Scanned;
    if s == [] {
      NothingDecoded();
    } else {
      var rest := Escaped(s[1..], signed);
      DecodeUndoesEscape(s[1..], signed);
      DecodedWritten(s[0], rest, signed);
      ScannedWritten(s[0], rest, signed);
      assert s == [s[0]] + s[1..];
    }
  }

  lemma NothingDecoded()
    ensures Decoded([]) == Some([]) && Scanned([], false) == Some(false)
  {
  }

  lemma ScannedWritten(c: char, rest: seq<char>, signed: bool)
    requires IsOctet(c) && c != '\\'
    ensures Scanned(Written(c, signed) + rest, false) == Scanned(rest, false)
  {
    var s := Written(c, signed) + rest;
    if !Stops(c, signed) {
      assert s[1..] == rest;
    } else if Short(c).Some? {
      assert s[1..][1..] == rest;
    } else {
      HexOfHex(c as int / 16);
      HexOfHex(c as int % 16);
      assert s[1..][1..] == ['0', '0', Hex(c as int / 16), Hex(c as int % 16)] + rest;
      PlainScanned(['0', '0', Hex(c as int / 16), Hex(c as int % 16)], rest);
    }
  }

  lemma {:induction false} PlainScanned(s: seq<char>, rest: seq<char>)
    requires '"' !in s && '\\' !in s
    ensures Scanned(s + rest, false) == Scanned(rest, false)
    decreases |s|
  {
    if s == [] {
      assert s + rest == rest;
    } else {
      assert (s + rest)[1..] == s[1..] + rest;
      PlainScanned(s[1..], rest);
    }
  }

  // ----- why there may be no backslash

  function PrependAll(a: seq<char>, s: Option<seq<char>>): Option<seq<char>> {
    if s.None? then None else Some(a + s.value)
  }

  lemma {:induction false} PrefixIsRead(a: seq<char>, t: seq<char>, signed: bool)
    requires Octets(a) && '\\' !in a
    ensures Decoded(Escaped(a, signed) + t) == PrependAll(a, Decoded(t))
    ensures Scanned(Escaped(a, signed) + t, false) == Scanned(t, false)
    decreases |a|
  {
    hide Written, Decoded, Scanned;
    if a == [] {
      assert Escaped(a, signed) + t == t;
      if Decoded(t).Some? {
        assert a + Decoded(t).value == Decoded(t).value;
      }
    } else {
      var rest := Escaped(a[1..], signed) + t;
      assert Escaped(a, signed) + t == Written(a[0], signed) + rest;
      PrefixIsRead(a[1..], t, signed);
      DecodedWritten(a[0], rest, signed);
      ScannedWritten(a[0], rest, signed);
      if Decoded(t).Some? {
        assert [a[0]] + (a[1..] + Decoded(t).value) == a + Decoded(t).value;
      }
    }
  }

  /** Hexadecimal digits are written as they are, and nothing else is written as one. */
  lemma {:induction false} HexIsPlain(b: seq<char>, n: nat, signed: bool)
    requires Octets(b)
    ensures var k := HexRun(Escaped(b, signed), n);
            k <= |b| && Escaped(b, signed)[k..] == Escaped(b[k..], signed)
    decreases |b|
  {
    var s := Escaped(b, signed);
    if HexRun(s, n) > 0 {
      assert Written(b[0], signed) == [b[0]];
      assert s[1..] == Escaped(b[1..], signed);
      HexIsPlain(b[1..], n - 1, signed);
      var k := HexRun(s[1..], n - 1);
      assert s[1..][k..] == s[k + 1..] && b[1..][k..] == b[k + 1..];
    } else {
      assert s[0..] == s && b[0..] == b;
    }
  }

  lemma EscapedParts(s: seq<char>, signed: bool)
    requires Octets(s) && |s| >= 2 && s[0] == '\\'
    ensures Escaped(s, signed) == ['\\'] + (Written(s[1], signed) + Escaped(s[2..], signed))
  {
    hide Escape;
    assert s[1..][1..] == s[2..];
  }

  /** A backslash before a character that is escaped: the backslash of the escape is read as a character, and its
      letters as letters. */
  lemma EscapeAsText(c: char, t: seq<char>, signed: bool)
    requires IsOctet(c) && Stops(c, signed) && c != '"'
    ensures var raw := ['\\'] + (Written(c, signed) + t);
            Decoded(raw) == PrependAll(Escape(c), Decoded(t)) && Scanned(raw, false) == Scanned(t, false)
  {
    hide Decoded, Scanned;
    var letters, raw := Escape(c)[1..], ['\\'] + (Written(c, signed) + t);
    assert '\\' !in letters && '"' !in letters by {
      HexOfHex(c as int / 16);
      HexOfHex(c as int % 16);
    }
    hide Escape;
    assert raw == ['\\', '\\'] + (letters + t);
    DecodedShort('\\', letters + t);
    PlainDecoded(letters, t);
    ScannedPair('\\', letters + t);
    PlainScanned(letters, t);
    if Decoded(t).Some? {
      assert ['\\'] + (letters + Decoded(t).value) == Escape(c) + Decoded(t).value;
    }
  }

  lemma ScannedPair(c: char, t: seq<char>)
    ensures Scanned(['\\', c] + t, false) == Scanned(t, false)
  {
    var raw := ['\\', c] + t;
    assert raw[1..][1..] == t;
  }

  lemma {:induction false} PlainDecoded(s: seq<char>, t: seq<char>)
    requires '\\' !in s
    ensures Decoded(s + t) == PrependAll(s, Decoded(t))
    decreases |s|
  {
    hide Decoded;
    if s == [] {
      assert s + t == t;
      if Decoded(t).Some? {
        assert s + Decoded(t).value == Decoded(t).value;
      }
    } else {
      PlainDecoded(s[1..], t);
      DecodedPlain(s[0], s[1..] + t);
      assert s + t == [s[0]] + (s[1..] + t);
      if Decoded(t).Some? {
        assert [s[0]] + (s[1..] + Decoded(t).value) == s + Decoded(t).value;
      }
    }
  }

  /** The first characters of a string, `n` of them, are read as `out`, and the rest on its own. */
  predicate IsRead(s: seq<char>, n: nat, out: seq<char>, signed: bool)
    requires Octets(s)
  {
    n <= |s| && Decoded(Escaped(s, signed)) == PrependAll(out, Decoded(Escaped(s[n..], signed))) &&
    Scanned(Escaped(s, signed), false) == Scanned(Escaped(s[n..], signed), false)
  }

  /** The text of `s` ends where it should, and is read as `ahead + s`. */
  predicate IsReadBehind(ahead: seq<char>, s: seq<char>, signed: bool)
    requires Octets(s)
  {
    Scanned(Escaped(s, signed), false) == Some(false) && Decoded(Escaped(s, signed)) == Some(ahead + s)
  }

  lemma PlainIsRead(s: seq<char>, signed: bool)
    requires Octets(s) && s != [] && s[0] != '\\'
    ensures IsRead(s, 1, [s[0]], signed)
  {
    hide Written, Decoded, Scanned;
    var t := Escaped(s[1..], signed);
    DecodedWritten(s[0], t, signed);
    ScannedWritten(s[0], t, signed);
  }

  lemma PairIsRead(s: seq<char>, signed: bool)
    requires Octets(s) && |s| >= 2 && s[0] == '\\' && !Stops(s[1], signed) && s[1] != 'u'
    ensures IsRead(s, 2, [Unescape(s[1])], signed)
  {
    hide Decoded, Scanned, Escaped, Unescape;
    var t := Escaped(s[2..], signed);
    EscapedParts(s, signed);
    assert Escaped(s, signed) == ['\\', s[1]] + t;
    DecodedShort(s[1], t);
    ScannedPair(s[1], t);
  }

  lemma EscapeIsRead(s: seq<char>, signed: bool)
    requires Octets(s) && |s| >= 2 && s[0] == '\\' && Stops(s[1], signed) && s[1] != '"'
    ensures IsRead(s, 2, Escape(s[1]), signed)
  {
    hide Decoded, Scanned, Escaped, Escape, Stops;
    EscapedParts(s, signed);
    EscapeAsText(s[1], Escaped(s[2..], signed), signed);
  }

  lemma CodeIsRead(s: seq<char>, signed: bool) returns (n: nat, out: seq<char>)
    requires Octets(s) && |s| >= 2 && s[0] == '\\' && s[1] == 'u'
    ensures 2 <= n <= |s| && |out| == 1 && IsRead(s, n, out, signed)
  {
    hide Escaped, HexByte, Scanned, Decoded, HexRun;
    var t := Escaped(s[2..], signed);
    EscapedParts(s, signed);
    assert Escaped(s, signed) == ['\\', 'u'] + t;
    var k := HexRun(t, 4);
    HexIsPlain(s[2..], 4, signed);
    assert s[2..][k..] == s[k + 2..];
    n, out := k + 2, [HexByte(t[..k]) as char];
    DecodedHex(t);
    ScannedPair('u', t);
    PlainScanned(t[..k], t[k..]);
    assert t == t[..k] + t[k..];
  }

  lemma DecodedHex(t: seq<char>)
    ensures var k := HexRun(t, 4); Decoded(['\\', 'u'] + t) == Prepend(HexByte(t[..k]) as char, Decoded(t[k..]))
  {
    hide HexByte, HexRun;
    var raw, k := ['\\', 'u'] + t, HexRun(t, 4);
    assert raw[2..] == t && raw[2..k + 2] == t[..k] && raw[k + 2..] == t[k..];
  }

  /** What would have to be read of the rest, if the first characters are read as `out`. */
  lemma RestIsNotReadBehind(ahead: seq<char>, s: seq<char>, n: nat, out: seq<char>, signed: bool)
    requires Octets(s) && IsRead(s, n, out, signed) && |out| <= |ahead| + n &&
      !IsReadBehind((ahead + s[..n])[|out|..], s[n..], signed)
    ensures !IsReadBehind(ahead, s, signed)
  {
    hide Decoded, Scanned, Escaped;
    var d := Decoded(Escaped(s[n..], signed));
    assert (ahead + s)[|out|..] == (ahead + s[..n])[|out|..] + s[n..];
    if d.Some? {
      assert (out + d.value)[|out|..] == d.value;
    }
  }

  lemma DiffersAt(ahead: seq<char>, s: seq<char>, n: nat, out: seq<char>, signed: bool, i: nat)
    requires Octets(s) && IsRead(s, n, out, signed) && i < |out| && i < |ahead + s| && out[i] != (ahead + s)[i]
    ensures !IsReadBehind(ahead, s, signed)
  {
    hide Decoded, Scanned, Escaped;
    var d := Decoded(Escaped(s[n..], signed));
    if d.Some? {
      assert (out + d.value)[i] == out[i];
    }
  }

  /** From the first backslash on, reading falls behind: `ahead` has been written and not been read. It never catches
      up, however the string goes on. */
  lemma {:induction false} NeverCaughtUp(ahead: seq<char>, s: seq<char>, signed: bool)
    requires Octets(s) && (ahead != [] || (s != [] && s[0] == '\\'))
    ensures !IsReadBehind(ahead, s, signed)
    decreases |s|
  {
    hide IsRead, IsReadBehind, Escape, Stops;
    if s == [] || (s[0] == '\\' && (|s| == 1 || s[1] == '"')) {
      EndsBadly(ahead, s, signed);
    } else {
      var n: nat, out: seq<char> := 2, [];
      if s[0] != '\\' {
        PlainIsRead(s, signed);
        n, out := 1, [s[0]];
      } else if Stops(s[1], signed) {
        EscapeIsRead(s, signed);
        out := Escape(s[1]);
        EscapeLetters(s[1], signed);
      } else if s[1] == 'u' {
        n, out := CodeIsRead(s, signed);
      } else {
        PairIsRead(s, signed);
        out := [Unescape(s[1])];
      }
      if |out| < |ahead| + n {
        NeverCaughtUp((ahead + s[..n])[|out|..], s[n..], signed);
        RestIsNotReadBehind(ahead, s, n, out, signed);
      } else {
        DiffersAt(ahead, s, n, out, signed, if ahead == [] then 1 else |ahead|);
      }
    }
  }

  lemma EscapeLetters(c: char, signed: bool)
    requires IsOctet(c) && Stops(c, signed) && c != '"'
    ensures var e := Escape(c); |e| >= 2 && e[1] != c && forall i | 1 <= i < |e| :: e[i] != '\\'
  {
    HexOfHex(c as int / 16);
    HexOfHex(c as int % 16);
  }

  /** The string is over, or its text is: a backslash is its last character, or stands before a quote. */
  lemma EndsBadly(ahead: seq<char>, s: seq<char>, signed: bool)
    requires Octets(s) && (if s == [] then ahead != [] else s[0] == '\\' && (|s| == 1 || s[1] == '"'))
    ensures !IsReadBehind(ahead, s, signed)
  {
    hide Decoded, Scanned;
    if s == [] {
      NothingDecoded();
    } else if |s| == 1 {
      EscapedOne('\\', signed);
      LoneBackslash();
      assert s == ['\\'];
    } else {
      var t := Escaped(s[2..], signed);
      EscapedParts(s, signed);
      assert Escaped(s, signed) == ['\\', '\\'] + (['"'] + t);
      ScannedPair('\\', ['"'] + t);
      QuoteEnds(t);
    }
  }

  lemma QuoteEnds(t: seq<char>)
    ensures Scanned(['"'] + t, false) == None
  {}

  lemma LoneBackslash()
    ensures Scanned(['\\'], false) == Some(true)
  {}

  lemma EscapedOne(c: char, signed: bool)
    requires IsOctet(c)
    ensures Escaped([c], signed) == Written(c, signed)
  {
    assert [c][1..] == [];
  }

  /** Exactly the strings without a backslash are read as they were written. For all others, either the text does not
      end at its closing quote, or what is read is something else. */
  lemma ReadBackIffNoBackslash(s: seq<char>, signed: bool)
    requires Octets(s)
    ensures var raw := Escaped(s, signed);
            Scanned(raw, false) == Some(false) && Decoded(raw) == Some(s) <==> '\\' !in s
  {
    hide Decoded, Scanned, Escaped;
    if '\\' !in s {
      DecodeUndoesEscape(s, signed);
    } else {
      var k := FirstBackslash(s);
      var a, b := s[..k], s[k..];
      assert s == a + b;
      EscapedConcatenates(a, b, signed);
      PrefixIsRead(a, Escaped(b, signed), signed);
      NeverCaughtUp([], b, signed);
      assert [] + b == b;
      var d := Decoded(Escaped(b, signed));
      if d.Some? && a + d.value == s {
        assert (a + d.value)[|a|..] == d.value && s[|a|..] == b;
      }
    }
  }

  lemma FirstBackslash(s: seq<char>) returns (k: nat)
    requires '\\' in s
    ensures k < |s| && s[k] == '\\' && '\\' !in s[..k]
  {
    k := 0;
    while s[k] != '\\'
      invariant k < |s| && '\\' !in s[..k] && '\\' in s[k..]
      decreases |s| - k
    {
      k := k + 1;
    }
  }

  // ----- what is written

  /** How each character is written, by its code: as section 7 of RFC 8259 asks, but for the backslash, which is
      written as it is. */
  lemma WrittenIs(c: char, signed: bool)
    requires IsOctet(c)
    ensures c as int == 8 ==> Written(c, signed) == "\\b"
    ensures c as int == 9 ==> Written(c, signed) == "\\t"
    ensures c as int == 10 ==> Written(c, signed) == "\\n"
    ensures c as int == 12 ==> Written(c, signed) == "\\f"
    ensures c as int == 13 ==> Written(c, signed) == "\\r"
    ensures c == '"' ==> Written(c, signed) == "\\\""
    ensures var n := c as int;
      (n < 32 && n !in {8, 9, 10, 12, 13}) || (signed && n >= 128) ==>
        Written(c, signed) == "\\u00" + ["0123456789abcdef"[n / 16], "0123456789abcdef"[n % 16]]
    ensures c != '"' && c as int >= 32 && !(signed && c as int >= 128) ==> Written(c, signed) == [c]
  {
    HexIs(c as int / 16);
    HexIs(c as int % 16);
  }

  lemma HexIs(n: nat)
    requires n < 16
    ensures Hex(n) == "0123456789abcdef"[n]
  {}

  /** How an escape in a text is read: by its letter, or up to four hexadecimal digits, of which eight bits are kept. */
  lemma EscapeIsDecoded(c: char, rest: seq<char>)
    ensures c != 'u' ==> Decoded(['\\', c] + rest) == Prepend(Unescape(c), Decoded(rest))
    ensures c != '\\' ==> Decoded([c] + rest) == Prepend(c, Decoded(rest))
    ensures Decoded(['\\']) == None && Decoded([]) == Some([])
  {
    hide Decoded;
    if c != 'u' {
      DecodedShort(c, rest);
    }
    if c != '\\' {
      DecodedPlain(c, rest);
    }
    NothingMore();
  }

  lemma NothingMore()
    ensures Decoded(['\\']) == None && Decoded([]) == Some([])
  {}

  lemma {:induction false} CodeIsDecoded(a: char, b: char, c: char, d: char, rest: seq<char>)
    requires IsHex(a) && IsHex(b) && IsHex(c) && IsHex(d)
    ensures Decoded(['\\', 'u', a, b, c, d] + rest) == Prepend((HexValue(c) * 16 + HexValue(d)) as char, Decoded(rest))
  {
    hide Decoded, HexRun, HexByte, IsHex, HexValue;
    var t := [a, b, c, d] + rest;
    RunOfFour(a, b, c, d, rest);
    DecodedHex(t);
    assert t[..4] == [a, b, c, d] && t[4..] == rest;
    assert ['\\', 'u', a, b, c, d] + rest == ['\\', 'u'] + t;
    ByteOfAny(a, b, c, d);
  }

  lemma {:induction false} ByteOfAny(a: char, b: char, c: char, d: char)
    requires IsHex(a) && IsHex(b) && IsHex(c) && IsHex(d)
    ensures HexByte([a, b, c, d]) == HexValue(c) * 16 + HexValue(d)
  {
    hide HexByte;
    HexByteOne([a, b, c], d);
    assert [a, b, c] + [d] == [a, b, c, d];
    HexByteOne([a, b], c);
    assert [a, b] + [c] == [a, b, c];
    LowNibble(HexByte([a, b]), HexValue(c), HexValue(d));
  }

  lemma LowNibble(x: nat, c: nat, d: nat)
    requires x < 256 && c < 16 && d < 16
    ensures ((x * 16 + c) % 256 * 16 + d) % 256 == c * 16 + d
  {
    var h, l := x / 16, x % 16;
    LowByte(h, 16 * l + c);
    LowByte(l, 16 * c + d);
  }

  lemma LowByte(h: nat, r: nat)
    requires r < 256
    ensures (256 * h + r) % 256 == r
  {}
}
