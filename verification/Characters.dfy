/** The classes of characters of the C library, and the escapes of JSON. */
module Characters {

  predicate IsDigit(c: char) { '0' <= c <= '9' }
  predicate IsAlpha(c: char) { 'a' <= c <= 'z' || 'A' <= c <= 'Z' }
  predicate IsSpace(c: char) { c == ' ' || 9 as char <= c <= 13 as char }
  predicate IsHex(c: char) { '0' <= c <= '9' || 'a' <= c <= 'f' || 'A' <= c <= 'F' }

  function HexValue(c: char): nat
    requires IsHex(c)
  {
    if '0' <= c <= '9' then c as int - '0' as int
    else if 'a' <= c <= 'f' then c as int - 'a' as int + 10
    else c as int - 'A' as int + 10
  }

  /** The character that a backslash and `c` stand for. */
  function Unescape(c: char): char {
    match c
    case 'b' => 8 as char
    case 'f' => 12 as char
    case 'n' => '\n'
    case 'r' => '\r'
    case 't' => '\t'
    case _ => c
  }

  /** The classes by the codes of their characters. */
  lemma ClassesAre(c: char)
    ensures IsDigit(c) <==> 48 <= c as int <= 57
    ensures IsAlpha(c) <==> 65 <= c as int <= 90 || 97 <= c as int <= 122
    ensures IsSpace(c) <==> c as int == 32 || 9 <= c as int <= 13
    ensures IsHex(c) <==> exists i :: 0 <= i < 22 && "0123456789abcdefABCDEF"[i] == c
  {
    if IsHex(c) {
      assert "0123456789abcdefABCDEF"[if c <= '9' then c as int - 48
        else if c >= 'a' then c as int - 87 else c as int - 49] == c;
    }
  }

  lemma HexValuesAre(i: nat)
    requires i < 22
    ensures var c := "0123456789abcdefABCDEF"[i]; IsHex(c) && HexValue(c) == if i < 16 then i else i - 6
  {}

  /** The escapes of section 7 of RFC 8259, by the codes of their characters; any other character stands for itself. */
  lemma EscapesAre(c: char)
    ensures Unescape('b') as int == 8 && Unescape('t') as int == 9 && Unescape('n') as int == 10
    ensures Unescape('f') as int == 12 && Unescape('r') as int == 13
    ensures c !in {'b', 't', 'n', 'f', 'r'} ==> Unescape(c) == c
  {}
}
