/** CleanJsonContents: the tokens of a text written back without spaces, into the buffer they are read from. */
module JsonClean {
  import opened Options
  import opened Characters
  import opened JsonLexer
  import opened JsonEscapes
  import opened JsonReader

  /** CopyToken */
  function Copied(token: Token): seq<char> {
    match token
    case End => []
    case Error => []
    case Colon => [':']
    case Comma => [',']
    case Dot => ['.']
    case LeftBrace => ['{']
    case RightBrace => ['}']
    case LeftBracket => ['[']
    case RightBracket => [']']
    case Text(raw) => ['"'] + raw + ['"']
    case Integer(n) => Signed(n)
    case Boolean(b) => if b then "true" else "false"
  }

  /** The tokens up to the end, or up to what is not a token. */
  function Tokens(s: seq<char>): seq<Token>
    decreases |s|
  {
    var l := Lex(s);
    if IsLast(l.token) then [] else [l.token] + Tokens(s[l.size..])
  }

  function AllCopied(tokens: seq<Token>): seq<char> {
    if tokens == [] then [] else Copied(tokens[0]) + AllCopied(tokens[1..])
  }

  /** Cleaning into a separate buffer. */
  function Cleaned(s: seq<char>): seq<char> {
    AllCopied(Tokens(s))
  }

  // ----- how many characters a token has, read and copied

  function Ten(k: nat): nat {
    if k == 0 then 1 else 10 * Ten(k - 1)
  }

  lemma {:induction false} DecimalSize(n: nat, k: nat)
    requires k > 0
    ensures |Decimal(n)| <= k <==> n < Ten(k)
    decreases k
  {
    if n >= 10 && k > 1 {
      DecimalSize(n / 10, k - 1);
    } else if k > 1 {
      DecimalSize(n, k - 1);
    }
  }

  lemma {:induction false} NumberSize(d: seq<char>)
    requires forall i | 0 <= i < |d| :: IsDigit(d[i])
    ensures Number(d) < Ten(|d|)
    decreases |d|
  {
    if d != [] {
      NumberSize(d[..|d| - 1]);
    }
  }

  lemma Powers()
    ensures Ten(0) == 1 && Ten(9) == 1_000_000_000 && Ten(10) == 10_000_000_000
  {
  }

  lemma {:induction false} TenGrows(j: nat, k: nat)
    requires j <= k
    ensures Ten(j) <= Ten(k)
    decreases k
  {
    if j < k {
      TenGrows(j, k - 1);
    }
  }

  /** A number without a sign that has ten digits and is negative in 32 bits, with ten digits again. */
  predicate TooLong(s: seq<char>) {
    s != [] && IsDigit(s[0]) && Digits(s) == 10 &&
    0x8000_0000 <= Number(s[..10]) % 0x1_0000_0000 <= 0x1_0000_0000 - 1_000_000_000
  }

  /** A token is copied to more characters than it was read from, not counting spaces, if and only if it is such a
      number, and then to one more. */
  lemma {:induction false} CopiedIsShort(s: seq<char>)
    ensures |Copied(LexHere(s).token)| <= LexHere(s).size <==> !TooLong(s)
    ensures TooLong(s) ==> |Copied(LexHere(s).token)| == LexHere(s).size + 1
  {
    hide LexHere, TooLong, LexText, LexInteger, LexWord, Signed;
    LexHereCases(s);
    if LexHere(s).token.Integer? {
      IntegerIsShort(s);
    } else {
      NotANumber(s);
    }
  }

  lemma NotANumber(s: seq<char>)
    requires !LexHere(s).token.Integer?
    ensures !TooLong(s)
  {
    hide LexText, LexInteger, LexWord, Number, Digits;
  }

  /** How each kind of token is found. */
  lemma {:induction false} LexHereCases(s: seq<char>)
    ensures var l := LexHere(s);
            (l.token.Text? ==> s != [] && s[0] == '"' && l == LexText(s))
            && (l.token.Integer? ==> s != [] && (IsDigit(s[0]) || s[0] == '-') && l == LexInteger(s))
            && (l.token.Boolean? ==> l == LexWord(s))
            && (l.token.Text? || l.token.Integer? || l.token.Boolean? || IsLast(l.token) || l.size == 1)
  {
    hide LexText, LexInteger, LexWord;
  }

  lemma {:induction false} IntegerIsShort(s: seq<char>)
    requires s != [] && (IsDigit(s[0]) || s[0] == '-')
    ensures var l := LexInteger(s);
            (|Copied(l.token)| <= l.size <==> !TooLong(s)) && (TooLong(s) ==> |Copied(l.token)| == l.size + 1)
  {
    hide Decimal, Number, Digits, Wrapped;
    SomeDigitsFirst(s);
    var sign := s[0] == '-';
    var d := if sign then s[1..][..Digits(s[1..])] else s[..Digits(s)];
    NumberSize(d);
    SizeIn32Bits(sign, Number(d), |d|);
  }

  /** The size of a number of `k` digits, read in 32 bits and copied. */
  lemma {:induction false} SizeIn32Bits(sign: bool, n: nat, k: nat)
    requires n < Ten(k) && (k > 0 || sign)
    ensures var v, m := Wrapped(if sign then 0 - n else n), n % 0x1_0000_0000;
            var tooLong := !sign && k == 10 && 0x8000_0000 <= m <= 0x1_0000_0000 - 1_000_000_000;
            var size := if sign then k + 1 else k;
            (|Signed(v)| <= size <==> !tooLong) && (tooLong ==> |Signed(v)| == size + 1)
  {
    hide Decimal, Ten;
    var v := Wrapped(if sign then 0 - n else n);
    var size := if v < 0 then -v else v;
    assert size <= n;
    Powers();
    OneDigit();
    if k > 0 {
      DecimalSize(size, k);
    }
    if v < 0 && !sign {
      if k < 10 {
        TenGrows(k, 9);
      } else {
        DecimalSize(size, 10);
        DecimalSize(size, 9);
      }
    }
  }

  lemma SomeDigitsFirst(s: seq<char>)
    ensures s != [] && IsDigit(s[0]) ==> Digits(s) > 0
  {
  }

  lemma OneDigit()
    ensures |Decimal(0)| == 1
  {
  }

  // ----- in place

  /** `s` written at `w`. */
  function Set(buffer: seq<char>, w: nat, s: seq<char>): (r: seq<char>)
    requires w + |s| <= |buffer|
    ensures |r| == |buffer|
  {
    buffer[..w] + s + buffer[w + |s|..]
  }

  /** What the buffer holds from `from` on written at `w`, character by character. */
  function Forward(buffer: seq<char>, w: nat, from: nat, n: nat): (r: seq<char>)
    requires w + n <= |buffer| && from + n <= |buffer|
    ensures |r| == |buffer|
  {
    if n == 0 then buffer
    else
      var b := Forward(buffer, w, from, n - 1);
      b[w + n - 1 := b[from + n - 1]]
  }

  /** CopyToken, for a token that ends at `end`: the characters of a string are read from the buffer while it is
      written. */
  function Stored(buffer: seq<char>, w: nat, end: nat, token: Token): (r: seq<char>)
    requires w + |Copied(token)| <= |buffer| && end <= |buffer| && (token.Text? ==> |token.raw| + 2 <= end)
    ensures |r| == |buffer|
  {
    if token.Text? then
      var size := |token.raw|;
      Set(Forward(Set(buffer, w, ['"']), w + 1, end - 1 - size, size), w + 1 + size, ['"'])
    else Set(buffer, w, Copied(token))
  }

  datatype Cleaning = Done(buffer: seq<char>, size: nat) | Halts

  /** The loop of CleanJsonContents on a buffer with a text of the given size: `w` characters have been written and `i`
      have been read. A buffer that is too small fails an assertion. */
  function InPlace(buffer: seq<char>, size: nat, w: nat, i: nat): Cleaning
    requires w <= |buffer| && i <= size <= |buffer|
    decreases size - i
  {
    var l := Lex(buffer[i..size]);
    var n, j := w + |Copied(l.token)|, i + l.size;
    if IsLast(l.token) then Done(buffer, w)
    else if n > |buffer| then Halts
    else InPlace(Stored(buffer, w, j, l.token), size, n, j)
  }

  /** In that loop, a character is overwritten that has not been read. */
  predicate OverwritesUnread(buffer: seq<char>, size: nat, w: nat, i: nat)
    requires w <= |buffer| && i <= size <= |buffer|
    decreases size - i
  {
    var l := Lex(buffer[i..size]);
    var n, j := w + |Copied(l.token)|, i + l.size;
    !IsLast(l.token) &&
    ((w < size && j < n && j < size) ||
     (n <= |buffer| && OverwritesUnread(Stored(buffer, w, j, l.token), size, n, j)))
  }

  /** For a text alone: what is to be written never gets ahead of what has been read, `gap` being how far it is behind,
      but for a last token with nothing behind it. */
  predicate KeepsUp(s: seq<char>, gap: nat)
    decreases |s|
  {
    var l := Lex(s);
    IsLast(l.token) || l.size == |s| ||
    (|Copied(l.token)| <= gap + l.size && KeepsUp(s[l.size..], gap + l.size - |Copied(l.token)|))
  }

  /** No number in the text is too long. This holds if all are in range, since one that is too long is at least 2^31. */
  predicate NoneTooLong(s: seq<char>)
    decreases |s|
  {
    var l := Lex(s);
    IsLast(l.token) || (!TooLong(s[Spaces(s)..]) && NoneTooLong(s[l.size..]))
  }

  lemma {:induction false} NoneTooLongKeepsUp(s: seq<char>, gap: nat)
    requires NoneTooLong(s)
    ensures KeepsUp(s, gap)
    decreases |s|
  {
    hide LexHere, TooLong, Copied, Spaces;
    var l := Lex(s);
    if !IsLast(l.token) {
      CopiedIsShort(s[Spaces(s)..]);
      NoneTooLongKeepsUp(s[l.size..], gap + l.size - |Copied(l.token)|);
    }
  }

  lemma {:induction false} ForwardIsSet(buffer: seq<char>, w: nat, from: nat, n: nat)
    requires w <= from && from + n <= |buffer|
    ensures Forward(buffer, w, from, n) == Set(buffer, w, buffer[from..from + n])
    decreases n
  {
    if n > 0 {
      ForwardIsSet(buffer, w, from, n - 1);
    }
  }

  /** While writing is not ahead of reading, the token is written as it was read. */
  lemma {:induction false} StoredIsSet(buffer: seq<char>, size: nat, w: nat, i: nat)
    requires w <= i <= size <= |buffer|
    ensures var l := Lex(buffer[i..size]);
            w + |Copied(l.token)| <= |buffer| ==>
              Stored(buffer, w, i + l.size, l.token) == Set(buffer, w, Copied(l.token))
  {
    hide Lex, Forward, Set;
    var s := buffer[i..size];
    var l := Lex(s);
    if l.token.Text? && w + |Copied(l.token)| <= |buffer| {
      TextIsThere(s);
      var n := |l.token.raw|;
      var from, quoted := i + l.size - 1 - n, Set(buffer, w, ['"']);
      ForwardIsSet(quoted, w + 1, from, n);
      SetKeeps(buffer, w, ['"'], from, from + n);
      Window(buffer, i, size, l.size - 1 - n, n);
      Quoted(buffer, w, l.token.raw);
    }
  }

  lemma Window(buffer: seq<char>, i: nat, size: nat, k: nat, n: nat)
    requires i + k + n <= size <= |buffer|
    ensures buffer[i..size][k..k + n] == buffer[i + k..i + k + n]
  {
    var a, b := buffer[i..size][k..k + n], buffer[i + k..i + k + n];
    assert forall j | 0 <= j < n :: a[j] == b[j];
  }

  lemma Quoted(buffer: seq<char>, w: nat, raw: seq<char>)
    requires w + |raw| + 2 <= |buffer|
    ensures Set(Set(Set(buffer, w, ['"']), w + 1, raw), w + 1 + |raw|, ['"']) ==
      Set(buffer, w, ['"'] + raw + ['"'])
  {
    hide Set;
    SetTwice(buffer, w, ['"'], raw);
    SetTwice(buffer, w, ['"'] + raw, ['"']);
  }

  lemma SetTwice(buffer: seq<char>, w: nat, s: seq<char>, t: seq<char>)
    requires w + |s| + |t| <= |buffer|
    ensures Set(Set(buffer, w, s), w + |s|, t) == Set(buffer, w, s + t)
  {
    var once := Set(buffer, w, s);
    assert once[..w + |s|] == buffer[..w] + s && once[w + |s| + |t|..] == buffer[w + |s| + |t|..];
  }

  lemma {:induction false} TextIsThere(s: seq<char>)
    requires Lex(s).token.Text?
    ensures var l := Lex(s); var raw := l.token.raw; l.size >= |raw| + 2 && raw == s[l.size - 1 - |raw|..l.size - 1]
  {
    hide LexHere, Spaces;
    var k := Spaces(s);
    LexHereCases(s[k..]);
    var l := LexHere(s[k..]);
    assert s[k..][1..l.size - 1] == s[k + 1..k + l.size - 1];
  }

  /** What is behind the written part stays as it was. */
  lemma SetKeeps(buffer: seq<char>, w: nat, s: seq<char>, j: nat, size: nat)
    requires w + |s| <= |buffer|
    ensures Set(buffer, w, s)[..w + |s|] == buffer[..w] + s
    ensures w + |s| <= j <= size <= |buffer| ==> Set(buffer, w, s)[j..size] == buffer[j..size]
  {
  }

  lemma EndOfText(s: seq<char>)
    ensures Lex([]) == Lexeme(End, 0) && Cleaned([]) == [] && Cleaned(s[|s|..]) == []
  {
    assert s[|s|..] == [];
  }

  /** An unread character is overwritten if and only if writing gets ahead of reading. */
  lemma {:induction false} OverwritesIffAhead(buffer: seq<char>, size: nat, w: nat, i: nat)
    requires w <= i <= size <= |buffer|
    ensures OverwritesUnread(buffer, size, w, i) <==> !KeepsUp(buffer[i..size], i - w)
    decreases size - i
  {
    hide Lex, Copied, Stored, Cleaned, Set;
    var s := buffer[i..size];
    var l := Lex(s);
    var n, j := w + |Copied(l.token)|, i + l.size;
    assert s[l.size..] == buffer[j..size];
    EndOfText(s);
    if !IsLast(l.token) && n <= |buffer| && (n <= j || j == size) {
      var next := Stored(buffer, w, j, l.token);
      StoredIsSet(buffer, size, w, i);
      SetKeeps(buffer, w, Copied(l.token), j, size);
      if j == size {
        assert next[j..size] == [];
      } else {
        OverwritesIffAhead(next, size, n, j);
      }
    }
  }

  /** The loop ends with `all` in the buffer, or halts if that does not fit. */
  predicate Gives(r: Cleaning, all: seq<char>, capacity: nat) {
    if |all| > capacity then r.Halts? else r.Done? && r.size <= |r.buffer| && r.buffer[..r.size] == all
  }

  /** One turn of the loop while writing is not ahead of reading. */
  lemma {:induction false} OneTurn(buffer: seq<char>, size: nat, w: nat, i: nat) returns (next: seq<char>)
    requires w <= i <= size <= |buffer| && !IsLast(Lex(buffer[i..size]).token)
    requires w + |Copied(Lex(buffer[i..size]).token)| <= |buffer|
    ensures var l := Lex(buffer[i..size]);
      var n, j := w + |Copied(l.token)|, i + l.size;
      |next| == |buffer| && InPlace(buffer, size, w, i) == InPlace(next, size, n, j) &&
      next[..n] == buffer[..w] + Copied(l.token) && (n <= j ==> next[j..size] == buffer[j..size])
  {
    hide Lex, Copied, Stored, Set;
    var l := Lex(buffer[i..size]);
    next := Stored(buffer, w, i + l.size, l.token);
    StoredIsSet(buffer, size, w, i);
    SetKeeps(buffer, w, Copied(l.token), i + l.size, size);
  }

  lemma NoTurn(buffer: seq<char>, size: nat, w: nat, i: nat)
    requires w <= |buffer| && i <= size <= |buffer|
    ensures var l := Lex(buffer[i..size]);
      (IsLast(l.token) ==> InPlace(buffer, size, w, i) == Done(buffer, w)) &&
      (!IsLast(l.token) && w + |Copied(l.token)| > |buffer| ==> InPlace(buffer, size, w, i) == Halts)
  {
    hide Lex, Copied, Stored;
  }

  /** And if that does not happen, the buffer then holds what cleaning into another one would give, if that fits. */
  lemma {:induction false} InPlaceIsCleaned(buffer: seq<char>, size: nat, w: nat, i: nat)
    requires w <= i <= size <= |buffer| && KeepsUp(buffer[i..size], i - w)
    ensures Gives(InPlace(buffer, size, w, i), buffer[..w] + Cleaned(buffer[i..size]), |buffer|)
    decreases size - i
  {
    hide Lex, Copied, Cleaned, InPlace;
    var s := buffer[i..size];
    var l := Lex(s);
    var n, j := w + |Copied(l.token)|, i + l.size;
    CleanedOnce(s);
    NoTurn(buffer, size, w, i);
    if IsLast(l.token) {
      assert buffer[..w] + [] == buffer[..w];
    } else if n <= |buffer| {
      assert s[l.size..] == buffer[j..size];
      var next := OneTurn(buffer, size, w, i);
      Regrouped(buffer[..w], Copied(l.token), Cleaned(buffer[j..size]));
      if j == size {
        LastTurn(next, size, n);
      } else {
        InPlaceIsCleaned(next, size, n, j);
      }
    }
  }

  lemma LastTurn(buffer: seq<char>, size: nat, w: nat)
    requires w <= |buffer| && size <= |buffer|
    ensures Gives(InPlace(buffer, size, w, size), buffer[..w] + Cleaned(buffer[size..size]), |buffer|)
  {
    assert buffer[size..size] == [];
    assert buffer[..w] + [] == buffer[..w];
  }

  /** Writes `s` at `w`. */
  method Put(a: array<char>, w: nat, s: seq<char>)
    requires w + |s| <= a.Length
    modifies a
    ensures a[..] == Set(old(a[..]), w, s)
  {
    ghost var was := a[..];
    for k := 0 to |s|
      invariant forall j | w <= j < w + k :: a[j] == s[j - w]
      invariant forall j | 0 <= j < a.Length && !(w <= j < w + k) :: a[j] == was[j]
    {
      a[w + k] := s[k];
    }
  }

  /** BoundedString::append, for characters of the same buffer. */
  method Move(a: array<char>, w: nat, from: nat, n: nat)
    requires w + n <= a.Length && from + n <= a.Length
    modifies a
    ensures a[..] == Forward(old(a[..]), w, from, n)
  {
    for k := 0 to n
      invariant a[..] == Forward(old(a[..]), w, from, k)
    {
      a[w + k] := a[from + k];
    }
  }

  method CopyToken(a: array<char>, w: nat, end: nat, token: Token)
    requires w + |Copied(token)| <= a.Length && end <= a.Length && (token.Text? ==> |token.raw| + 2 <= end)
    modifies a
    ensures a[..] == Stored(old(a[..]), w, end, token)
  {
    hide Forward, Set;
    if token.Text? {
      var size := |token.raw|;
      Put(a, w, ['"']);
      Move(a, w + 1, end - 1 - size, size);
      Put(a, w + 1 + size, ['"']);
    } else {
      Put(a, w, Copied(token));
    }
  }

  /** For a text of any kind in a buffer of any size, the loop does what InPlace says. As long as writing does not
      get ahead of reading, the buffer then holds what cleaning into another one would give. None is the failed
      assertion. */
  method CleanJsonContents(a: array<char>, size: nat) returns (cleaned: Option<nat>)
    requires size <= a.Length
    modifies a
    ensures var r := InPlace(old(a[..]), size, 0, 0);
      if r.Done? then cleaned == Some(r.size) && a[..] == r.buffer else cleaned == None
    ensures KeepsUp(old(a[..size]), 0) ==>
      (cleaned.None? <==> |Cleaned(old(a[..size]))| > a.Length) &&
      (cleaned.Some? ==> cleaned.value <= a.Length && a[..cleaned.value] == Cleaned(old(a[..size])))
  {
    hide Lex, Copied, Cleaned, Stored, KeepsUp;
    ghost var was := a[..];
    AsAWhole(was, size);
    var i: nat, w: nat, done := 0, 0, false;
    while !done
      invariant i <= size && w <= a.Length && InPlace(a[..], size, w, i) == InPlace(was, size, 0, 0)
      invariant done ==> InPlace(was, size, 0, 0) == Done(a[..], w)
      decreases !done, size - i
    {
      var tokenizer := new Tokenizer(a[i..size]);
      var token := tokenizer.Token();
      assert a[i..size] == a[..][i..size];
      done := token == End || token == Error;
      if !done {
        i := i + tokenizer.parseIndex;
        if w + |Copied(token)| > a.Length {
          return None;
        }
        CopyToken(a, w, i, token);
        w := w + |Copied(token)|;
      }
    }
    cleaned := Some(w);
  }

  lemma AsAWhole(buffer: seq<char>, size: nat)
    requires size <= |buffer|
    ensures KeepsUp(buffer[..size], 0) ==> Gives(InPlace(buffer, size, 0, 0), Cleaned(buffer[..size]), |buffer|)
  {
    hide InPlace, KeepsUp, Cleaned;
    assert buffer[0..size] == buffer[..size];
    if KeepsUp(buffer[..size], 0) {
      InPlaceIsCleaned(buffer, size, 0, 0);
      assert buffer[..0] + Cleaned(buffer[..size]) == Cleaned(buffer[..size]);
    }
  }

  lemma {:induction false} CleanedOnce(s: seq<char>)
    ensures var l := Lex(s); Cleaned(s) == if IsLast(l.token) then [] else Copied(l.token) + Cleaned(s[l.size..])
  {
    hide Lex, Copied;
    var l := Lex(s);
    if !IsLast(l.token) {
      assert Tokens(s)[1..] == Tokens(s[l.size..]);
    }
  }

  // ----- when writing gets ahead

  /** One turn of the loop, for a token other than a string. */
  lemma Turn(buffer: seq<char>, size: nat, w: nat, i: nat, token: Token, n: nat)
    requires w <= |buffer| && i <= size <= |buffer| && Lex(buffer[i..size]) == Lexeme(token, n)
    requires !IsLast(token) && !token.Text? && w + |Copied(token)| <= |buffer|
    ensures i + n <= size &&
      InPlace(buffer, size, w, i) == InPlace(Set(buffer, w, Copied(token)), size, w + |Copied(token)|, i + n)
  {
    hide Lex, Copied, Set;
  }

  lemma NextDecimal(n: nat, s: seq<char>, k: nat)
    requires n > 0 && k < 10 && Decimal(n) == s
    ensures Decimal(10 * n + k) == s + [Digit(k)]
  {
    assert (10 * n + k) / 10 == n;
  }

  lemma {:induction false} LargeDecimal()
    ensures Decimal(2147483648) == "2147483648"
  {
    hide Decimal;
    SmallDecimal(2);
    NextDecimal(2, "2", 1);
    assert "2" + "1" == "21";
    NextDecimal(21, "21", 4);
    assert "21" + "4" == "214";
    NextDecimal(214, "214", 7);
    assert "214" + "7" == "2147";
    NextDecimal(2147, "2147", 4);
    assert "2147" + "4" == "21474";
    NextDecimal(21474, "21474", 8);
    assert "21474" + "8" == "214748";
    NextDecimal(214748, "214748", 3);
    assert "214748" + "3" == "2147483";
    NextDecimal(2147483, "2147483", 6);
    assert "2147483" + "6" == "21474836";
    NextDecimal(21474836, "21474836", 4);
    assert "21474836" + "4" == "214748364";
    NextDecimal(214748364, "214748364", 8);
    assert "214748364" + "8" == "2147483648";
  }

  lemma SmallDecimal(n: nat)
    requires n < 10
    ensures Decimal(n) == [Digit(n)]
  {
  }

  lemma {:induction false} SomeNumbers()
    ensures Signed(2147483648) == "2147483648" && Wrapped(2147483648) == -2147483648
    ensures Signed(-2147483648) == "-2147483648"
    ensures Signed(87) == "87" && Signed(7) == "7" && Signed(0) == "0"
  {
    hide Decimal;
    LargeDecimal();
    assert ['-'] + "2147483648" == "-2147483648";
    SmallDecimal(0);
    SmallDecimal(7);
    SmallDecimal(8);
    NextDecimal(8, "8", 7);
    assert "8" + "7" == "87";
  }

  /** An integer at the start of what is left is read and copied. */
  lemma {:induction false} NumberTurn(buffer: seq<char>, size: nat, w: nat, i: nat, n: nat, rest: seq<char>)
    requires w <= |buffer| && i <= size <= |buffer| && buffer[i..size] == Signed(n) + rest
    requires (rest == [] || !IsDigit(rest[0])) && w + |Signed(Wrapped(n))| <= |buffer|
    ensures i + |Signed(n)| <= size
    ensures Lex(buffer[i..size]) == Lexeme(Integer(Wrapped(n)), |Signed(n)|)
    ensures var c := Signed(Wrapped(n));
      InPlace(buffer, size, w, i) == InPlace(Set(buffer, w, c), size, w + |c|, i + |Signed(n)|)
  {
    hide Lex, Signed, Wrapped, Set, InPlace;
    LexOfInteger(n, rest);
    Turn(buffer, size, w, i, Integer(Wrapped(n)), |Signed(n)|);
  }

  /** The number is too long by one character, which overwrites the comma, and what is read from there on overwrites the
      closing bracket. */
  lemma {:induction false} CommaIsOverwritten(spare: seq<char>)
    requires spare != []
    ensures InPlace("[2147483648,7]" + spare, 14, 0, 0) == Done("[-2147483648877" + spare[1..], 15)
  {
    hide Lex, Copied, Signed, Wrapped, Set, InPlace;
    var b0 := "[2147483648,7]" + spare;
    BracketTurn(b0, 14);
    var b1 := FirstTurn(b0, spare);
    SecondTurn(b1, spare);
  }

  lemma {:induction false} FirstTurn(buffer: seq<char>, spare: seq<char>) returns (next: seq<char>)
    requires buffer == "[2147483648,7]" + spare
    ensures next == "[-2147483648" + ("7]" + spare) && InPlace(buffer, 14, 1, 1) == InPlace(next, 14, 12, 11)
  {
    hide Lex, Copied, Signed, Wrapped, Set, InPlace;
    SomeNumbers();
    assert buffer[1..14] == "2147483648" + ",7]";
    NumberTurn(buffer, 14, 1, 1, 2147483648, ",7]");
    assert buffer == "[" + "2147483648," + ("7]" + spare);
    SetMiddle("[", "2147483648,", "7]" + spare, "-2147483648");
    assert "[" + "-2147483648" == "[-2147483648";
    next := "[-2147483648" + ("7]" + spare);
  }

  lemma {:induction false} SecondTurn(buffer: seq<char>, spare: seq<char>)
    requires buffer == "[-2147483648" + ("7]" + spare) && spare != []
    ensures InPlace(buffer, 14, 12, 11) == Done("[-2147483648877" + spare[1..], 15)
  {
    hide Lex, Copied, Signed, Wrapped, Set, InPlace;
    SomeNumbers();
    assert buffer[11..14] == "87" + "]";
    NumberTurn(buffer, 14, 12, 11, 87, "]");
    assert buffer == "[-2147483648" + "7]" + spare;
    SetMiddle("[-2147483648", "7]", spare, "87");
    assert "[-2147483648" + "87" == "[-214748364887";
    LastDigit("[-214748364887", spare);
    assert "[-214748364887" + "7" == "[-2147483648877";
  }

  lemma {:induction false} LastDigit(written: seq<char>, spare: seq<char>)
    requires |written| == 14 && written[13] == '7' && spare != []
    ensures InPlace(written + spare, 14, 14, 13) == Done(written + "7" + spare[1..], 15)
  {
    hide Lex, Copied, Signed, Wrapped, Set, InPlace;
    SomeNumbers();
    var buffer := written + spare;
    assert buffer[13..14] == "7" + [];
    NumberTurn(buffer, 14, 14, 13, 7, []);
    assert buffer == written + spare[..1] + spare[1..];
    SetMiddle(written, spare[..1], spare[1..], "7");
    NothingLeft(written + "7" + spare[1..], 14, 15);
  }

  lemma SetMiddle(a: seq<char>, b: seq<char>, c: seq<char>, s: seq<char>)
    requires |b| == |s|
    ensures Set(a + b + c, |a|, s) == a + s + c
  {
  }

  lemma BracketTurn(buffer: seq<char>, size: nat)
    requires 0 < size <= |buffer| && buffer[0] == '['
    ensures InPlace(buffer, size, 0, 0) == InPlace(buffer, size, 1, 1)
  {
    hide Lex, InPlace;
    var s := buffer[0..size];
    LexNoSpace(s);
    OneBracket(s);
    assert Set(buffer, 0, ['[']) == buffer;
    Turn(buffer, size, 0, 0, LeftBracket, 1);
  }

  lemma OneBracket(s: seq<char>)
    requires s != [] && s[0] == '['
    ensures LexHere(s) == Lexeme(LeftBracket, 1) && Copied(LeftBracket) == ['[']
  {
    hide LexText, LexInteger, LexWord;
  }

  lemma SetIs(buffer: seq<char>, w: nat, s: seq<char>, r: seq<char>)
    requires w + |s| <= |buffer| == |r| && r[..w] == buffer[..w] && r[w..w + |s|] == s
    requires r[w + |s|..] == buffer[w + |s|..]
    ensures Set(buffer, w, s) == r
  {
  }

  lemma NothingLeft(buffer: seq<char>, size: nat, w: nat)
    requires w <= |buffer| && size <= |buffer|
    ensures InPlace(buffer, size, w, size) == Done(buffer, w)
  {
    assert buffer[size..size] == [];
  }

  // ----- what cleaning preserves

  /** Written without a space, the two would be read as something else. */
  predicate Clashes(a: Token, b: Token) {
    (a.Integer? && b.Integer? && b.value >= 0) || (a.Boolean? && b.Boolean?)
  }

  predicate HasClash(tokens: seq<Token>) {
    exists i | 0 <= i < |tokens| - 1 :: Clashes(tokens[i], tokens[i + 1])
  }

  predicate IsWhole(token: Token) {
    !IsLast(token) && (token.Text? ==> Scanned(token.raw, false) == Some(false)) &&
    (token.Integer? ==> InRange(token.value))
  }

  predicate AllWhole(tokens: seq<Token>) {
    forall i | 0 <= i < |tokens| :: IsWhole(tokens[i])
  }

  lemma {:induction false} ScannedUpToQuote(s: seq<char>, escape: bool)
    requires Quote(s, escape).Some?
    ensures Scanned(s[..Quote(s, escape).value], escape) == Some(false)
    decreases |s|
  {
    var n := Quote(s, escape).value;
    if escape || s[0] != '"' {
      ScannedUpToQuote(s[1..], !escape && s[0] == '\\');
      assert s[..n][1..] == s[1..][..n - 1];
    }
  }

  lemma {:induction false} TokensAreWhole(s: seq<char>)
    ensures AllWhole(Tokens(s))
    decreases |s|
  {
    hide Lex, Quote, Scanned;
    var l := Lex(s);
    if !IsLast(l.token) {
      TokensAreWhole(s[l.size..]);
      if l.token.Text? {
        TextIsWhole(s);
      }
    }
  }

  lemma {:induction false} TextIsWhole(s: seq<char>)
    requires Lex(s).token.Text?
    ensures Scanned(Lex(s).token.raw, false) == Some(false)
  {
    hide LexHere, Spaces, Quote, Scanned;
    var here := s[Spaces(s)..];
    LexHereCases(here);
    ScannedUpToQuote(here[1..], false);
    var n := Quote(here[1..], false).value;
    assert here[1..][..n] == here[1..n + 1];
  }

  /** A token is found again when what follows does not run on. */
  lemma {:induction false} LexOfCopied(token: Token, rest: seq<char>)
    requires IsWhole(token)
    requires token.Integer? ==> rest == [] || !IsDigit(rest[0])
    requires token.Boolean? ==> rest == [] || !IsAlpha(rest[0])
    ensures Lex(Copied(token) + rest) == Lexeme(token, |Copied(token)|)
  {
    hide Lex, Signed, LexHere;
    if token.Text? {
      LexOfText(token.raw, rest);
    } else if token.Integer? {
      LexOfInteger(token.value, rest);
    } else if token.Boolean? {
      LexOfWord(token.truth, rest);
    } else {
      LexNoSpace(Copied(token) + rest);
      Punctuation(token, rest);
    }
  }

  lemma {:induction false} Punctuation(token: Token, rest: seq<char>)
    requires IsWhole(token) && !token.Text? && !token.Integer? && !token.Boolean?
    ensures LexHere(Copied(token) + rest) == Lexeme(token, 1) && |Copied(token)| == 1 && !IsSpace(Copied(token)[0])
  {
    hide LexText, LexInteger, LexWord;
  }

  /** How a token starts. */
  lemma {:induction false} StartOfCopied(token: Token)
    requires IsWhole(token)
    ensures Copied(token) != []
    ensures IsDigit(Copied(token)[0]) <==> token.Integer? && token.value >= 0
    ensures IsAlpha(Copied(token)[0]) <==> token.Boolean?
  {
    hide Decimal;
  }

  lemma {:induction false} StartOfAll(tokens: seq<Token>)
    requires AllWhole(tokens)
    ensures tokens == [] ==> AllCopied(tokens) == []
    ensures tokens != [] ==> AllCopied(tokens) != [] && AllCopied(tokens)[0] == Copied(tokens[0])[0]
  {
    hide Copied;
    if tokens != [] {
      StartOfCopied(tokens[0]);
    }
  }

  /** The first token is found again unless it clashes with the second. */
  lemma {:induction false} FirstIsFound(tokens: seq<Token>)
    requires AllWhole(tokens) && tokens != [] && (|tokens| > 1 ==> !Clashes(tokens[0], tokens[1]))
    ensures Tokens(AllCopied(tokens)) == [tokens[0]] + Tokens(AllCopied(tokens[1..]))
  {
    hide Lex, Copied, Scanned;
    var first, rest := tokens[0], AllCopied(tokens[1..]);
    StartOfAll(tokens[1..]);
    if |tokens| > 1 {
      StartOfCopied(tokens[1]);
    }
    LexOfCopied(first, rest);
    var s := AllCopied(tokens);
    assert s == Copied(first) + rest && s[|Copied(first)|..] == rest;
  }

  lemma {:induction false} CopiedTokensAreFound(tokens: seq<Token>)
    requires AllWhole(tokens) && !HasClash(tokens)
    ensures Tokens(AllCopied(tokens)) == tokens
    decreases |tokens|
  {
    hide Lex, Copied, Scanned, Clashes;
    if tokens == [] {
      NothingFound();
    } else {
      var rest := tokens[1..];
      forall i | 0 <= i < |rest| - 1 ensures !Clashes(rest[i], rest[i + 1]) {
        assert rest[i] == tokens[i + 1] && rest[i + 1] == tokens[i + 1 + 1];
      }
      FirstIsFound(tokens);
      CopiedTokensAreFound(rest);
      assert tokens == [tokens[0]] + rest;
    }
  }

  lemma NothingFound()
    ensures Tokens([]) == []
  {
  }

  // ----- and what a clash costs

  lemma {:induction false} DigitsThrough(d: seq<char>, rest: seq<char>)
    requires forall i | 0 <= i < |d| :: IsDigit(d[i])
    ensures Digits(d + rest) == |d| + Digits(rest)
    decreases |d|
  {
    if d == [] {
      assert d + rest == rest;
    } else {
      assert (d + rest)[1..] == d[1..] + rest;
      DigitsThrough(d[1..], rest);
    }
  }

  /** Numbers without a sign run into one another: the digits are those of the first `k` tokens. */
  lemma {:induction false} DigitsOfCopied(tokens: seq<Token>) returns (k: nat)
    requires AllWhole(tokens)
    ensures k <= |tokens| && AllCopied(tokens)[Digits(AllCopied(tokens))..] == AllCopied(tokens[k..])
    ensures tokens != [] && tokens[0].Integer? && tokens[0].value >= 0 ==> k > 0
    decreases |tokens|
  {
    hide Digits, Scanned, Copied, AllCopied;
    var s := AllCopied(tokens);
    AllCopiedIs(tokens);
    StartOfAll(tokens);
    if tokens != [] && tokens[0].Integer? && tokens[0].value >= 0 {
      var d, rest := Copied(tokens[0]), AllCopied(tokens[1..]);
      var j := DigitsOfCopied(tokens[1..]);
      NumberCopied(tokens[0]);
      DigitsThrough(d, rest);
      k := j + 1;
      assert s[|d| + Digits(rest)..] == rest[Digits(rest)..];
      assert tokens[1..][j..] == tokens[k..];
    } else {
      k := 0;
      if tokens != [] {
        StartOfCopied(tokens[0]);
      }
      NoDigits(s);
      assert s[0..] == s && tokens[0..] == tokens;
    }
  }

  lemma {:induction false} AllCopiedIs(tokens: seq<Token>)
    ensures tokens != [] ==> AllCopied(tokens) == Copied(tokens[0]) + AllCopied(tokens[1..])
  {
    hide Copied;
  }

  lemma {:induction false} NumberCopied(token: Token)
    requires token.Integer? && token.value >= 0
    ensures forall i | 0 <= i < |Copied(token)| :: IsDigit(Copied(token)[i])
  {
    hide Decimal;
  }

  lemma {:induction false} NoDigits(s: seq<char>)
    requires s == [] || !IsDigit(s[0])
    ensures Digits(s) == 0
  {
  }

  lemma {:induction false} NumbersMerge(n: int, rest: seq<char>)
    ensures Lex(Signed(n) + rest).token.Integer? && Lex(Signed(n) + rest).size == |Signed(n)| + Digits(rest)
  {
    hide Lex, LexHere, Decimal, Number, Digits;
    var s := Signed(n) + rest;
    var d := Decimal(if n < 0 then -n else n);
    LexNoSpace(s);
    LexHereInteger(s);
    DigitsThrough(d, rest);
    if n < 0 {
      assert s[1..] == d + rest;
    }
  }

  lemma {:induction false} WordsMerge(a: bool, b: bool, rest: seq<char>)
    ensures Lex((if a then "true" else "false") + ((if b then "true" else "false") + rest)).token.Error?
  {
    hide Lex, Letters;
    var v, w := if a then "true" else "false", if b then "true" else "false";
    var s := v + (w + rest);
    LexNoSpace(s);
    LettersThrough(v, w + rest);
    LettersThrough(w, rest);
  }

  lemma {:induction false} LettersThrough(d: seq<char>, rest: seq<char>)
    requires forall i | 0 <= i < |d| :: IsAlpha(d[i])
    ensures Letters(d + rest) == |d| + Letters(rest)
    decreases |d|
  {
    if d == [] {
      assert d + rest == rest;
    } else {
      assert (d + rest)[1..] == d[1..] + rest;
      LettersThrough(d[1..], rest);
    }
  }

  /** There are never more tokens than were written, and fewer after a clash. */
  lemma {:induction false} ClashLosesTokens(tokens: seq<Token>)
    requires AllWhole(tokens)
    ensures |Tokens(AllCopied(tokens))| <= |tokens|
    ensures HasClash(tokens) ==> |Tokens(AllCopied(tokens))| < |tokens|
    decreases |tokens|
  {
    hide Lex, Copied, Scanned, Tokens, AllCopied;
    if tokens == [] {
      NothingCopied();
    } else if |tokens| > 1 && Clashes(tokens[0], tokens[1]) {
      if tokens[0].Boolean? {
        TwoWords(tokens);
      } else {
        var k := TwoNumbers(tokens);
        ClashLosesTokens(tokens[k..]);
      }
    } else {
      FirstIsFound(tokens);
      ClashLosesTokens(tokens[1..]);
      if HasClash(tokens) {
        var i :| 0 <= i < |tokens| - 1 && Clashes(tokens[i], tokens[i + 1]);
        assert Clashes(tokens[1..][i - 1], tokens[1..][i - 1 + 1]);
      }
    }
  }

  lemma NothingCopied()
    ensures Tokens(AllCopied([])) == []
  {
  }

  lemma {:induction false} TwoWords(tokens: seq<Token>)
    requires AllWhole(tokens) && |tokens| > 1 && tokens[0].Boolean? && tokens[1].Boolean?
    ensures Tokens(AllCopied(tokens)) == []
  {
    hide Lex;
    WordsMerge(tokens[0].truth, tokens[1].truth, AllCopied(tokens[1..][1..]));
    assert AllCopied(tokens) == Copied(tokens[0]) + (Copied(tokens[1..][0]) + AllCopied(tokens[1..][1..]));
  }

  lemma {:induction false} TwoNumbers(tokens: seq<Token>) returns (k: nat)
    requires AllWhole(tokens) && |tokens| > 1 && tokens[0].Integer? && tokens[1].Integer? && tokens[1].value >= 0
    ensures 1 < k <= |tokens| && |Tokens(AllCopied(tokens))| == 1 + |Tokens(AllCopied(tokens[k..]))|
  {
    hide Lex, Scanned, Digits, Signed;
    var first, rest := tokens[0], tokens[1..];
    var j := DigitsOfCopied(rest);
    NumbersMerge(first.value, AllCopied(rest));
    k := j + 1;
    var s := AllCopied(tokens);
    assert s == Signed(first.value) + AllCopied(rest);
    assert s[Lex(s).size..] == AllCopied(rest)[Digits(AllCopied(rest))..];
    assert rest[j..] == tokens[k..];
  }

  /** The cleaned text has the same tokens iff no two of them clash; and then cleaning it again changes nothing. */
  lemma CleaningKeepsTokens(s: seq<char>)
    ensures Tokens(Cleaned(s)) == Tokens(s) <==> !HasClash(Tokens(s))
    ensures !HasClash(Tokens(s)) ==> Cleaned(Cleaned(s)) == Cleaned(s)
  {
    hide Tokens, AllCopied, HasClash;
    TokensAreWhole(s);
    if HasClash(Tokens(s)) {
      ClashLosesTokens(Tokens(s));
    } else {
      CopiedTokensAreFound(Tokens(s));
    }
  }

  // ----- what an overwritten character does to the result

  lemma {:induction false} CleanedMore(token: Token, rest: seq<char>)
    requires IsWhole(token) && !token.Integer? && !token.Boolean?
    ensures Cleaned(Copied(token) + rest) == Copied(token) + Cleaned(rest)
  {
    hide Lex, Copied, Cleaned, Scanned;
    var s := Copied(token) + rest;
    LexOfCopied(token, rest);
    CleanedOnce(s);
    assert s[|Copied(token)|..] == rest;
  }

  lemma {:induction false} CleanedNumber(n: int, rest: seq<char>)
    requires rest == [] || !IsDigit(rest[0])
    ensures Cleaned(Signed(n) + rest) == Signed(Wrapped(n)) + Cleaned(rest)
  {
    hide Lex, Signed, Wrapped, Cleaned;
    var s := Signed(n) + rest;
    LexOfInteger(n, rest);
    CleanedOnce(s);
    assert s[|Signed(n)|..] == rest;
  }

  /** Writing gets ahead in the text of CommaIsOverwritten, and a separate buffer would hold the number in 32 bits. */
  lemma {:induction false} CommaIsKeptElsewhere()
    ensures !KeepsUp("[2147483648,7]", 0) && Cleaned("[2147483648,7]") == "[-2147483648,7]"
  {
    hide Cleaned, KeepsUp;
    GetsAhead("2147483648,7]");
    CleanedTail();
    assert "[2147483648,7]" == "[" + "2147483648,7]" && "[" + "-2147483648,7]" == "[-2147483648,7]";
    CleanedMore(LeftBracket, "2147483648,7]");
  }

  lemma {:induction false} GetsAhead(rest: seq<char>)
    requires rest == "2147483648,7]"
    ensures !KeepsUp("[" + rest, 0)
  {
    hide Lex, Signed, Wrapped;
    SomeNumbers();
    assert rest == "2147483648" + ",7]" && ("[" + rest)[1..] == rest;
    LexOfInteger(2147483648, ",7]");
    LexOfCopied(LeftBracket, rest);
    TextTooLong(rest);
  }

  lemma {:induction false} CleanedTail()
    ensures Cleaned("2147483648,7]") == "-2147483648,7]"
  {
    hide Signed, Wrapped, Cleaned;
    SomeNumbers();
    EndOfText("");
    CleanedMore(RightBracket, "");
    assert "]" == "]" + "" && "7]" == "7" + "]" && ",7]" == "," + "7]";
    CleanedNumber(7, "]");
    CleanedMore(Comma, "7]");
    CleanedNumber(2147483648, ",7]");
    assert "2147483648,7]" == "2147483648" + ",7]" && "-2147483648" + ",7]" == "-2147483648,7]";
  }

  function Zeros(k: nat): (r: seq<char>)
    ensures |r| == k && forall i | 0 <= i < k :: r[i] == '0'
  {
    if k == 0 then [] else Zeros(k - 1) + ['0']
  }

  lemma {:induction false} NumberOfZeros(k: nat)
    ensures Number(Zeros(k)) == 0
  {
    if k > 0 {
      NumberOfZeros(k - 1);
      assert Zeros(k)[..k - 1] == Zeros(k - 1);
    }
  }

  lemma {:induction false} DecimalOfZeros(n: nat, k: nat)
    requires n > 0
    ensures n * Ten(k) > 0 && Decimal(n * Ten(k)) == Decimal(n) + Zeros(k)
    decreases k
  {
    hide Decimal;
    if k > 0 {
      DecimalOfZeros(n, k - 1);
      NextDecimal(n * Ten(k - 1), Decimal(n) + Zeros(k - 1), 0);
      assert 10 * (n * Ten(k - 1)) + 0 == n * Ten(k);
      assert Decimal(n) + Zeros(k - 1) + ['0'] == Decimal(n) + Zeros(k);
    } else {
      assert Decimal(n) + [] == Decimal(n);
    }
  }

  lemma MultipleOfTwo32()
    ensures Wrapped(8 * Ten(29)) == 0
  {
    assert Ten(10) == 10_000_000_000;
    assert Ten(20) == 100_000_000_000_000_000_000;
    assert Ten(29) == 100_000_000_000_000_000_000_000_000_000;
  }

  /** An overwritten character need not change the result: the space before this number becomes one more digit, of a
      value that is a multiple of 2^32. So writing that keeps up is sufficient for the right result, and not
      necessary. */
  lemma {:induction false} OverwrittenUnnoticed(spare: seq<char>)
    ensures var text := "2147483648" + ([' '] + Zeros(29));
      var r := InPlace(text + spare, |text|, 0, 0);
      !KeepsUp(text, 0) && r.Done? && r.size <= |r.buffer| && r.buffer[..r.size] == Cleaned(text)
  {
    hide Lex, Copied, Signed, Wrapped, InPlace, Zeros, Cleaned, KeepsUp;
    var zeros, minus := Zeros(29), "-2147483648";
    SomeNumbers();
    LexOfInteger(2147483648, [' '] + zeros);
    TextTooLong("2147483648" + ([' '] + zeros));
    SpaceIsOverwritten(zeros, spare);
    CleanedNumber(2147483648, [' '] + zeros);
    CleanedZeros(29);
    assert (minus + zeros + spare)[..12] == minus + "0";
  }

  lemma {:induction false} SpaceIsOverwritten(zeros: seq<char>, spare: seq<char>)
    requires zeros == Zeros(29)
    ensures var text := "2147483648" + ([' '] + zeros);
      InPlace(text + spare, |text|, 0, 0) == Done("-2147483648" + zeros + spare, 12)
  {
    hide Lex, Copied, Signed, Wrapped, Set, InPlace, Zeros, Ten;
    var text := "2147483648" + ([' '] + zeros);
    var b0, b1 := text + spare, "-2147483648" + zeros + spare;
    SomeNumbers();
    assert b0[0..40] == text;
    NumberTurn(b0, 40, 0, 0, 2147483648, [' '] + zeros);
    SetIs(b0, 0, "-2147483648", b1);
    EightIsRead(b1, zeros, spare);
    NothingLeft(b1, 40, 12);
  }

  /** The eight and the zeros behind it. */
  lemma {:induction false} EightIsRead(buffer: seq<char>, zeros: seq<char>, spare: seq<char>)
    requires zeros == Zeros(29) && buffer == "-2147483648" + zeros + spare
    ensures InPlace(buffer, 40, 11, 10) == InPlace(buffer, 40, 12, 40)
  {
    hide Lex, Copied, Signed, Wrapped, Set, InPlace, Zeros, Ten, Decimal;
    MultipleOfTwo32();
    DecimalOfZeros(8, 29);
    SmallDecimal(8);
    SignedNat(8 * Ten(29));
    SomeNumbers();
    assert buffer[10..40] == "8" + zeros + [];
    NumberTurn(buffer, 40, 11, 10, 8 * Ten(29), []);
    SetIs(buffer, 11, "0", buffer);
  }

  lemma SignedNat(n: nat)
    ensures Signed(n) == Decimal(n)
  {
  }

  lemma TextTooLong(text: seq<char>)
    requires Lex(text).token == Integer(-2147483648) && Lex(text).size == 10 < |text|
    ensures !KeepsUp(text, 0)
  {
    hide Lex, Signed;
    SomeNumbers();
  }

  lemma {:induction false} CleanedZeros(k: nat)
    requires k > 0
    ensures Cleaned([' '] + Zeros(k)) == "0"
  {
    hide Lex, Zeros, Number, Wrapped, Cleaned, LexInteger, LexHere, Signed;
    var d, s := Zeros(k), [' '] + Zeros(k);
    LexNoSpace(d);
    LexHereInteger(d);
    NumberOfZeros(k);
    DigitsAreRead(false, d, []);
    assert [] + d + [] == d;
    LexAfterSpace(d);
    CleanedOnce(s);
    EndOfText(s);
    SomeNumbers();
  }
}

