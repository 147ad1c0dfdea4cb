/** Reading a message through a chain of length limits, one for every parser and every length-delimited field being
    read. */
module ProtoReading {
  import opened Options
  import opened ProtoFormat

  /** How many bytes the innermost reader can see. */
  function Least(limits: seq<nat>, remaining: nat): (r: nat)
    ensures r <= remaining && forall i | 0 <= i < |limits| :: r <= limits[i]
  {
    if limits == [] then remaining
    else
      var inner := Least(limits[..|limits| - 1], remaining);
      if limits[|limits| - 1] < inner then limits[|limits| - 1] else inner
  }

  lemma {:induction false} LeastIsReached(limits: seq<nat>, remaining: nat, n: nat)
    requires n <= remaining && forall i | 0 <= i < |limits| :: n <= limits[i]
    ensures n <= Least(limits, remaining)
  {
    if limits != [] {
      LeastIsReached(limits[..|limits| - 1], remaining, n);
    }
  }

  function Lowered(limits: seq<nat>, n: nat): (r: seq<nat>)
    requires forall i | 0 <= i < |limits| :: n <= limits[i]
  {
    seq(|limits|, i requires 0 <= i < |limits| => limits[i] - n)
  }

  lemma IsLowered(limits: seq<nat>, r: seq<nat>, n: nat)
    requires |r| == |limits| && forall i | 0 <= i < |limits| :: n <= limits[i] && r[i] == limits[i] - n
    ensures r == Lowered(limits, n)
  {
  }

  lemma {:induction false} LeastLowered(limits: seq<nat>, remaining: nat, n: nat)
    requires n <= Least(limits, remaining)
    ensures Least(Lowered(limits, n), remaining - n) == Least(limits, remaining) - n
  {
    if limits != [] {
      var outer := limits[..|limits| - 1];
      LeastLowered(outer, remaining, n);
      assert Lowered(limits, n)[..|limits| - 1] == Lowered(outer, n);
    }
  }

  /** The input and the limits on it, outermost first. */
  datatype Input = Input(data: seq<Byte>, offset: nat, limits: seq<nat>) {
    ghost predicate Valid() {
      offset <= |data| < TWO_32
    }
    ghost function Available(): (n: nat)
      requires Valid()
      ensures offset + n <= |data|
    {
      Least(limits, |data| - offset)
    }
    ghost function Visible(): seq<Byte>
      requires Valid()
    {
      data[offset..offset + Available()]
    }
    /** `n` bytes further on: the position moves, and every limit is lowered by just as much. */
    ghost function Advanced(n: nat): (r: Input)
      requires Valid() && n <= Available()
      ensures r.Valid()
    {
      Input(data, offset + n, Lowered(limits, n))
    }
    ghost function Pushed(limit: nat): Input {
      this.(limits := limits + [limit])
    }
  }

  lemma AdvancedSees(s: Input, n: nat)
    requires s.Valid() && n <= s.Available()
    ensures s.Advanced(n).Available() == s.Available() - n && s.Advanced(n).Visible() == s.Visible()[n..]
  {
    LeastLowered(s.limits, |s.data| - s.offset, n);
  }

  lemma AdvancedTwice(s: Input, n: nat, m: nat)
    requires s.Valid() && n + m <= s.Available()
    ensures m <= s.Advanced(n).Available() && s.Advanced(n).Advanced(m) == s.Advanced(n + m)
  {
    AdvancedSees(s, n);
  }

  lemma AdvancedLeaves(s: Input, n: nat)
    requires s.Valid() && n <= s.Available()
    ensures var t := s.Advanced(n);
      t.Available() == s.Available() - n <= |t.data| && (t.Visible() == [] <==> n == s.Available())
  {
    hide Least, Lowered;
    AdvancedSees(s, n);
  }

  lemma AdvancedByNothing(s: Input)
    requires s.Valid()
    ensures s.Advanced(0) == s
  {
    assert Lowered(s.limits, 0) == s.limits;
  }

  /** A new innermost limit hides what is behind it. */
  lemma PushedSees(s: Input, limit: nat)
    requires s.Valid()
    ensures s.Pushed(limit).Valid()
    ensures s.Pushed(limit).Available() == if limit < s.Available() then limit else s.Available()
    ensures s.Pushed(limit).Visible() == s.Visible()[..s.Pushed(limit).Available()]
  {
    var p := s.Pushed(limit);
    assert p.limits[..|s.limits|] == s.limits && p.limits[|s.limits|] == limit;
    assert p.Available() == if limit < s.Available() then limit else s.Available();
    VisiblePrefix(s, p.Available());
  }

  /** The first bytes that can be seen are the next bytes of the data. */
  lemma VisiblePrefix(s: Input, n: nat)
    requires s.Valid() && n <= s.Available()
    ensures s.Visible()[..n] == s.data[s.offset..s.offset + n]
  {
  }

  /** What was consumed under a limit was consumed from under all the limits around it. */
  lemma PoppedIsAdvanced(s: Input, limit: nat, n: nat)
    requires s.Valid() && n <= limit && n <= s.Available()
    ensures n <= s.Pushed(limit).Available()
    ensures s.Pushed(limit).Advanced(n).limits[..|s.limits|] == s.Advanced(n).limits
    ensures s.Pushed(limit).Advanced(n).(limits := s.Advanced(n).limits) == s.Advanced(n)
    ensures |s.Pushed(limit).Advanced(n).limits| == |s.limits| + 1
  {
    PushedSees(s, limit);
  }

  /** What GetField returns. */
  datatype Raw = Word64(number: UInt32, value: UInt64) | Word32(number: UInt32,
    word: UInt32) | Delimited(number: UInt32)

  /** A byte stream under a chain of LimitedStreamReaders, with a soft error policy. */
  class Reader {
    const data: seq<Byte>
    var offset: nat
    var limits: seq<nat>
    var failed: bool

    ghost predicate Valid()
      reads this
    {
      State().Valid()
    }

    ghost function State(): Input
      reads this
    {
      Input(data, offset, limits)
    }

    constructor (data: seq<Byte>)
      requires |data| < TWO_32
      ensures Valid() && State() == Input(data, 0, []) && !failed
    {
      this.data := data;
      offset, limits, failed := 0, [], false;
    }

    method Available() returns (n: nat)
      requires Valid()
      ensures n == State().Available()
    {
      n := |data| - offset;
      for i := 0 to |limits|
        invariant n == Least(limits[..i], |data| - offset)
      {
        assert limits[..i + 1][..i] == limits[..i];
        if limits[i] < n {
          n := limits[i];
        }
      }
      assert limits[..|limits|] == limits;
    }

    method Empty() returns (r: bool)
      requires Valid()
      ensures r == (State().Visible() == [])
    {
      r := offset == |data|;
      for i := 0 to |limits|
        invariant r == (Least(limits[..i], |data| - offset) == 0)
      {
        assert limits[..i + 1][..i] == limits[..i];
        r := limits[i] == 0 || r;
      }
      assert limits[..|limits|] == limits;
    }

    /** Every limit cuts the request down further. */
    method Extract(n: nat) returns (bytes: seq<Byte>)
      requires Valid()
      modifies this
      ensures Valid() && |bytes| <= n && (old(failed) ==> failed)
      ensures n <= old(State().Available()) ==>
                bytes == old(State().Visible())[..n] && State() == old(State()).Advanced(n) && failed == old(failed)
      ensures n > old(State().Available()) ==> failed
    {
      hide Least, Lowered;
      ghost var start := State();
      ghost var was := limits;
      var k: nat := n;
      var i := |limits|;
      while i > 0
        invariant 0 <= i <= |limits| == |was| && k <= n && Valid() && offset == old(offset)
        invariant limits[..i] == was[..i]
        invariant k == n ==>
          failed == old(failed) && forall j | i <= j < |was| :: n <= was[j] && limits[j] == was[j] - n
        invariant old(failed) ==> failed
        invariant k < n ==> failed && exists j | i <= j < |was| :: was[j] < n
      {
        i := i - 1;
        assert limits[i] == was[..i + 1][i];
        if limits[i] < k {
          failed := true;
          k := limits[i];
        }
        limits := limits[i := limits[i] - k];
        assert limits[..i] == was[..i + 1][..i];
      }
      var remaining := |data| - offset;
      if k > remaining {
        failed := true;
        k := remaining;
      }
      bytes := data[offset..offset + k];
      offset := offset + k;
      if k == n {
        LeastIsReached(was, remaining, n);
        VisiblePrefix(start, n);
        IsLowered(was, limits, n);
      }
    }

    method GetVarInt() returns (result: UInt64)
      requires Valid()
      modifies this
      ensures Valid() && (old(failed) ==> failed)
      ensures !old(failed) ==>
              match VarIntAt(old(State().Visible()))
              case None => failed
              case Some((v, n)) =>
                !failed && result == v % TWO_64 && n <= old(State().Available()) && State() == old(State()).Advanced(n)
    {
      hide VarIntAt, Shifted, Least, Lowered, Input.Advanced, Scaled;
      ghost var start := State();
      ghost var sum: nat, n: nat := 0, 0;
      AdvancedByNothing(start);
      NothingRead(start.Visible());
      result := 0;
      var factor: nat := 1;
      var byte: Byte := 0;
      while true
        invariant Valid() && failed == old(failed) && n <= start.Available() && State() == start.Advanced(n)
        invariant result == sum % TWO_64
        invariant VarIntAt(start.Visible()) == Shifted(VarIntAt(start.Visible()[n..]), sum, factor, n)
        decreases start.Available() - n
      {
        AdvancedSees(start, n);
        ReadOne(start.Visible(), sum, factor, n);
        var got := Extract(1);
        if |got| == 1 {
          byte := got[0];
        }
        var more := Scaled(byte, factor);
        SumModulo(sum, more);
        result := (result + more) % TWO_64;
        if failed {
          break;
        }
        AdvancedTwice(start, n, 1);
        sum, n := sum + more, n + 1;
        factor := factor * 128;
        if byte < 128 {
          break;
        }
      }
    }

    method ExtractContiguousRange(max: nat) returns (bytes: seq<Byte>)
      requires Valid()
      modifies this
      ensures Valid() && failed == old(failed)
      ensures |bytes| == if max < old(State().Available()) then max else old(State().Available())
      ensures bytes == old(State().Visible())[..|bytes|] && State() == old(State()).Advanced(|bytes|)
    {
      hide Least, Lowered;
      var n := Available();
      n := if max < n then max else n;
      VisiblePrefix(State(), n);
      bytes := data[offset..offset + n];
      offset, limits := offset + n, Lowered(limits, n);
    }

    method SkipEverything()
      requires Valid()
      modifies this
      ensures Valid() && failed == old(failed) && State() == old(State()).Advanced(old(State().Available()))
    {
      hide Least, Lowered, Input.Advanced, Input.Visible, Input.Available;
      ghost var n := 0;
      ghost var start := State();
      AdvancedByNothing(start);
      var empty := Empty();
      while !empty
        invariant Valid() && failed == old(failed) && n <= start.Available() && State() == start.Advanced(n)
        invariant empty == (State().Visible() == [])
        decreases start.Available() - n
      {
        AdvancedLeaves(start, n);
        var range := ExtractContiguousRange(|data|);
        AdvancedTwice(start, n, |range|);
        n := n + |range|;
        empty := Empty();
      }
      AdvancedLeaves(start, n);
    }

    method PushLimit(limit: nat)
      modifies this
      ensures State() == old(State()).Pushed(limit) && failed == old(failed)
    {
      limits := limits + [limit];
    }

    method PopLimit()
      requires limits != []
      modifies this
      ensures State() == old(State()).(limits := old(limits)[..|old(limits)| - 1]) && failed == old(failed)
    {
      limits := limits[..|limits| - 1];
    }

    /** None when the wire type makes the program abort. A length-delimited field leaves a limit behind. */
    method GetField() returns (r: Option<Raw>)
      requires Valid() && !failed
      modifies this
      ensures Valid()
      ensures match RawAt(old(State().Visible()))
              case None => failed || r == None
              case Some((raw, n, length)) => n <= old(State().Available()) && (
                                             if length > old(State().Available()) - n then failed
                                             else !failed && r == Some(raw)
                                                  && State() == if raw.Delimited?
                                                    then old(State()).Advanced(n).Pushed(length)
                                                                else old(State()).Advanced(n))
    {
      hide VarIntAt, Least, Lowered, Input.Advanced, FromLittleEndian;
      ghost var start := State();
      var key := GetVarInt();
      var x := key % TWO_32;
      var number := x / 8;
      ghost var n := if failed then 0 else VarIntAt(start.Visible()).value.1;
      if !failed {
        AdvancedSees(start, n);
        ModuloTwice(VarIntAt(start.Visible()).value.0);
      }
      match x % 8
      case 0 =>
        var value := GetVarInt();
        r := Some(Word64(number, value));
        if !failed {
          AdvancedTwice(start, n, VarIntAt(start.Visible()[n..]).value.1);
        }
      case 1 =>
        var bytes := Extract(8);
        r := Some(Word64(number, FromLittleEndian(bytes) % TWO_64));
        if !failed {
          AdvancedTwice(start, n, 8);
        }
      case 5 =>
        var bytes := Extract(4);
        r := Some(Word32(number, FromLittleEndian(bytes) % TWO_32));
        if !failed {
          AdvancedTwice(start, n, 4);
        }
      case 2 =>
        var value := GetVarInt();
        var length := value % TWO_32;
        if !failed {
          ModuloTwice(VarIntAt(start.Visible()[n..]).value.0);
          AdvancedTwice(start, n, VarIntAt(start.Visible()[n..]).value.1);
          AdvancedSees(start, n + VarIntAt(start.Visible()[n..]).value.1);
        }
        var available := Available();
        if available < length {
          failed := true;
        }
        PushLimit(length);
        r := Some(Delimited(number));
      case _ =>
        r := if failed then Some(Word32(0, 0)) else None;
    }
  }

  lemma ModuloTwice(v: nat)
    ensures v % TWO_64 % TWO_32 == v % TWO_32 && v % TWO_32 % 8 == v % 8
  {
  }

  /** The field at the start of `s`: its header, the number of bytes consumed, and the length of what is still to be
      read. */
  function RawAt(s: seq<Byte>): (r: Option<(Raw, nat, nat)>)
    ensures r.Some? ==> 0 < r.value.1 <= |s| && (r.value.0.Delimited? || r.value.2 == 0)
  {
    match VarIntAt(s)
    case None => None
    case Some((key, n)) =>
      var number := key % TWO_32 / 8;
      var body := s[n..];
      match key % 8
      case 0 =>
        (match VarIntAt(body)
         case None => None
         case Some((v, m)) => Some((Word64(number, v % TWO_64), n + m, 0)))
      case 1 => if |body| < 8 then None else Some((Word64(number, FromLittleEndian(body[..8]) % TWO_64), n + 8, 0))
      case 5 => if |body| < 4 then None else Some((Word32(number, FromLittleEndian(body[..4]) % TWO_32), n + 4, 0))
      case 2 =>
        (match VarIntAt(body)
         case None => None
         case Some((v, m)) => Some((Delimited(number), n + m, v % TWO_32)))
      case _ => None
  }

  lemma {:induction false} ParseItemByHeader(kinds: Kinds, kind: nat, s: seq<Byte>)
    ensures ParseItem(kinds, kind, s) ==
            match RawAt(s)
            case None => None
            case Some((Word64(number, v), n, _)) => Some((Long(number, v), n))
            case Some((Word32(number, v), n, _)) => Some((Short(number, v), n))
            case Some((Delimited(number), n, length)) =>
              if length > |s| - n then None
              else
                match ParsePayload(kinds, kind, number, s[n..n + length])
                case None => None
                case Some(item) => Some((item, n + length))
  {
    hide VarIntAt, FromLittleEndian, ParsePayload;
    match VarIntAt(s)
    case None =>
    case Some((key, n)) =>
      var body := s[n..];
      assert ParseItem(kinds, kind, s) == ParseBody(kinds, kind, key, n, body);
      match VarIntAt(body)
      case None =>
        assert ParseDelimited(kinds, kind, key % TWO_32 / 8, n, body) == None;
      case Some((v, m)) =>
        var length := v % TWO_32;
        assert m + length > |body| ==> ParseDelimited(kinds, kind, key % TWO_32 / 8, n, body) == None;
        if m + length <= |body| {
          assert body[m..m + length] == s[n + m..n + m + length];
          var item := ParsePayload(kinds, kind, key % TWO_32 / 8, body[m..m + length]);
          assert ParseDelimited(kinds, kind, key % TWO_32 / 8, n, body) ==
                 if item.None? then None else Some((item.value, n + m + length));
        }
  }

  /** A caller that reads fields while there are any. Whatever the bytes, and whatever limits surround them, it sees
      what the slicing reader sees; and after a success every limit around it is lower by exactly what was read. */
  method ReadItems(r: Reader, kinds: Kinds, kind: nat) returns (items: Option<Items>)
    requires r.Valid() && !r.failed
    modifies r
    ensures items == ParseItems(kinds, kind, old(r.State().Visible()))
    ensures items.Some? ==> r.Valid() && !r.failed && r.State() == old(r.State()).Advanced(old(r.State().Available()))
    decreases r.State().Available(), 1
  {
    hide ParseItem, Least, Lowered, Input.Advanced;
    ghost var start := r.State();
    var empty := r.Empty();
    if empty {
      AdvancedByNothing(start);
      items := Some(NoItems);
    } else {
      var item := ReadItem(r, kinds, kind);
      if item == None {
        items := None;
      } else {
        ghost var n := ParseItem(kinds, kind, start.Visible()).value.1;
        AdvancedSees(start, n);
        var rest := ReadItems(r, kinds, kind);
        items := if rest == None then None else Some(Cons(item.value, rest.value));
        if rest.Some? {
          AdvancedTwice(start, n, start.Available() - n);
        }
      }
    }
  }

  method ReadItem(r: Reader, kinds: Kinds, kind: nat) returns (item: Option<Item>)
    requires r.Valid() && !r.failed
    modifies r
    ensures match ParseItem(kinds, kind, old(r.State().Visible()))
            case None => item == None
            case Some((i, n)) => item == Some(i) && r.Valid() && !r.failed && r.State() == old(r.State()).Advanced(n)
    decreases r.State().Available(), 0
  {
    hide ParseItem, RawAt, ParsePayload, Least, Lowered, Input.Advanced;
    ghost var start := r.State();
    ParseItemByHeader(kinds, kind, start.Visible());
    var raw := r.GetField();
    if raw == None || r.failed {
      return None;
    }
    match raw.value
    case Word64(number, v) =>
      item := Some(Long(number, v));
    case Word32(number, v) =>
      item := Some(Short(number, v));
    case Delimited(number) =>
      ghost var n, length := RawAt(start.Visible()).value.1, RawAt(start.Visible()).value.2;
      ghost var outer := start.Advanced(n);
      AdvancedSees(start, n);
      PushedSees(outer, length);
      assert r.State().Visible() == start.Visible()[n..n + length];
      item := ReadPayload(r, kinds, kind, number);
      if item.Some? {
        PoppedIsAdvanced(outer, length, length);
        AdvancedTwice(start, n, length);
        r.PopLimit();
      }
  }

  /** What the caller does with the ProtoLengthDelimited it was given. */
  method ReadPayload(r: Reader, kinds: Kinds, kind: nat, number: UInt32) returns (item: Option<Item>)
    requires r.Valid() && !r.failed
    modifies r
    ensures item == ParsePayload(kinds, kind, number, old(r.State().Visible()))
    ensures item.Some? ==> r.Valid() && !r.failed && r.State() == old(r.State()).Advanced(old(r.State().Available()))
    decreases r.State().Available(), 2
  {
    hide ParseItems, Least, Lowered, Input.Advanced;
    ghost var start := r.State();
    var available := r.Available();
    if (kind, number) !in kinds {
      var bytes := r.Extract(available);
      assert bytes == start.Visible();
      item := Some(Blob(number, bytes));
    } else {
      match kinds[(kind, number)]
      case Skip =>
        r.SkipEverything();
        item := Some(Skipped(number));
      case Descend(inner) =>
        PushedSees(start, available);
        r.PushLimit(available);
        var items := ReadItems(r, kinds, inner);
        if items == None {
          item := None;
        } else {
          PoppedIsAdvanced(start, available, available);
          r.PopLimit();
          item := Some(Nested(number, items.value));
        }
    }
  }

  /** Reading back what was written, at any place within any limits that end where the message ends. */
  method ReadBack(r: Reader, kinds: Kinds, kind: nat, ghost fields: Fields) returns (items: Option<Items>)
    requires r.Valid() && !r.failed && r.State().Visible() == EncodeFields(fields) && Agrees(kinds, kind, fields)
    modifies r
    ensures items == Some(SeenFields(kinds, kind, fields))
    ensures r.Valid() && !r.failed && r.State() == old(r.State()).Advanced(|EncodeFields(fields)|)
  {
    ParseUndoesEncode(kinds, kind, fields);
    items := ReadItems(r, kinds, kind);
  }

  lemma NothingRead(s: seq<Byte>)
    ensures VarIntAt(s) == Shifted(VarIntAt(s[0..]), 0, 1, 0)
  {
    assert s[0..] == s;
  }

  /** A variable-length integer of which `n` bytes, worth `sum`, have been read. */
  function Shifted(r: Option<(nat, nat)>, sum: nat, weight: nat, n: nat): Option<(nat, nat)> {
    match r
    case None => None
    case Some((v, m)) => Some((sum + weight * v, n + m))
  }

  /** The part of the value that a byte holds. */
  function Scaled(byte: Byte, weight: nat): nat {
    byte % 128 * weight
  }

  lemma ReadOne(s: seq<Byte>, sum: nat, weight: nat, n: nat)
    requires n <= |s|
    ensures n == |s| ==> Shifted(VarIntAt(s[n..]), sum, weight, n) == None
    ensures n < |s| && s[n] < 128 ==>
      Shifted(VarIntAt(s[n..]), sum, weight, n) == Some((sum + Scaled(s[n], weight), n + 1))
    ensures n < |s| && s[n] >= 128 ==>
              Shifted(VarIntAt(s[n..]), sum, weight, n) ==
                Shifted(VarIntAt(s[n + 1..]), sum + Scaled(s[n], weight), weight * 128, n + 1)
  {
    if n < |s| && s[n] >= 128 {
      assert s[n..][1..] == s[n + 1..];
      match VarIntAt(s[n + 1..])
      case None =>
      case Some((v, m)) =>
        var low := s[n] - 128;
        assert weight * (low + 128 * v) == low * weight + weight * 128 * v;
    }
  }

  lemma SumModulo(sum: nat, more: nat)
    ensures (sum % TWO_64 + more) % TWO_64 == (sum + more) % TWO_64
  {
  }
}
