/** Writing a message into a buffer. The length of a nested message is known only after its contents have been
    written, so the contents are moved to the end of the buffer, the length is written in the gap, and the contents
    are moved back behind it. */
module ProtoWriting {
  import opened Options
  import opened ProtoFormat

  /** A writer's state: the stream range is memory[begin..end]. */
  datatype Stream = Stream(memory: seq<Byte>, begin: nat, end: nat, offset: nat, failed: bool) {
    ghost predicate Valid() {
      begin + offset <= end <= |memory|
    }
    ghost function Room(): nat
      requires Valid()
    {
      end - begin - offset
    }
    ghost function Written(): seq<Byte>
      requires Valid()
    {
      memory[begin..begin + offset]
    }
  }

  /** `after` differs from `before` in that `bytes` was appended, or, when it does not fit, in that the range is full
      and the failure is recorded. Either way nothing that was there before the offset has changed, nor anything
      outside the range. */
  ghost predicate Puts(before: Stream, after: Stream, bytes: seq<Byte>)
    requires before.Valid()
  {
    && after.Valid()
    && after.begin == before.begin && after.end == before.end
    && KeepsOutside(before, after)
    && (|bytes| <= before.Room() ==>
          after.offset == before.offset + |bytes| && after.failed == before.failed &&
            after.Written() == before.Written() + bytes)
    && (|bytes| > before.Room() ==> after.Room() == 0 && after.failed)
  }

  ghost predicate KeepsOutside(before: Stream, after: Stream)
    requires before.Valid()
  {
    && |after.memory| == |before.memory|
    && after.memory[..before.begin + before.offset] == before.memory[..before.begin + before.offset]
    && after.memory[before.end..] == before.memory[before.end..]
  }

  lemma PutsNothing(s: Stream)
    requires s.Valid()
    ensures Puts(s, s, [])
  {
    assert s.Written() + [] == s.Written();
  }

  /** Appending twice is appending the concatenation, also when one of the two does not fit. */
  lemma PutsPuts(a: Stream, b: Stream, c: Stream, first: seq<Byte>, second: seq<Byte>)
    requires a.Valid() && b.Valid()
    requires Puts(a, b, first) && Puts(b, c, second)
    ensures Puts(a, c, first + second)
  {
    KeepsKeeps(a, b, c);
    if |first + second| <= a.Room() {
      assert a.Written() + (first + second) == a.Written() + first + second;
    }
  }

  lemma KeepsKeeps(a: Stream, b: Stream, c: Stream)
    requires a.Valid() && b.Valid() && a.begin == b.begin && a.end == b.end && a.offset <= b.offset
    requires KeepsOutside(a, b) && KeepsOutside(b, c)
    ensures KeepsOutside(a, c)
  {
    var n := a.begin + a.offset;
    assert c.memory[..n] == c.memory[..b.begin + b.offset][..n];
    assert b.memory[..n] == b.memory[..b.begin + b.offset][..n];
  }

  lemma PutsMovesOn(a: Stream, b: Stream, bytes: seq<Byte>)
    requires a.Valid() && Puts(a, b, bytes)
    ensures b.Valid() && b.offset >= a.offset && b.begin == a.begin && b.end == a.end
    ensures b.Room() == if |bytes| <= a.Room() then a.Room() - |bytes| else 0
    ensures b.failed == (a.failed || |bytes| > a.Room())
  {
  }

  lemma InsertPuts(a: Stream, b: Stream, bytes: seq<Byte>, n: nat)
    requires a.Valid() && n == if |bytes| <= a.Room() then |bytes| else a.Room()
    requires b.begin == a.begin && b.end == a.end && b.offset == a.offset + n && b.failed == (a.failed || n < |bytes|)
    requires |b.memory| == |a.memory|
    requires var at := a.begin + a.offset;
             (forall k | at <= k < at + n :: b.memory[k] == bytes[k - at])
             && (forall k | 0 <= k < |b.memory| && !(at <= k < at + n) :: b.memory[k] == a.memory[k])
    ensures Puts(a, b, bytes)
    ensures b.memory[a.begin + a.offset..b.begin + b.offset] == bytes[..n]
  {
    var at := a.begin + a.offset;
    assert b.memory[at..at + n] == bytes[..n];
    SameHead(a.memory, b.memory, at);
    SameTail(a.memory, b.memory, a.end);
    SameSlice(a.memory, b.memory, at, a.begin);
    SplitSlice(b.memory, a.begin, at, at + n);
    if n == |bytes| {
      assert bytes[..n] == bytes;
    }
  }

  lemma SameHead(a: seq<Byte>, b: seq<Byte>, n: nat)
    requires n <= |a| == |b| && forall k | 0 <= k < n :: b[k] == a[k]
    ensures b[..n] == a[..n]
  {
  }

  lemma SameTail(a: seq<Byte>, b: seq<Byte>, n: nat)
    requires n <= |a| == |b| && forall k | n <= k < |b| :: b[k] == a[k]
    ensures b[n..] == a[n..]
  {
  }

  lemma ShorterHead(a: seq<Byte>, b: seq<Byte>, n: nat, i: nat)
    requires i <= n <= |a| == |b| && b[..n] == a[..n]
    ensures b[..i] == a[..i] && b[i..n] == a[i..n]
  {
    assert b[..i] == b[..n][..i] && a[..i] == a[..n][..i];
    SameSlice(a, b, n, i);
  }

  lemma ShorterTail(a: seq<Byte>, b: seq<Byte>, n: nat, i: nat)
    requires n <= i <= |a| == |b| && b[n..] == a[n..]
    ensures b[i..] == a[i..]
  {
    assert b[i..] == b[n..][i - n..] && a[i..] == a[n..][i - n..];
  }

  lemma SplitSlice(s: seq<Byte>, i: nat, j: nat, k: nat)
    requires i <= j <= k <= |s|
    ensures s[i..k] == s[i..j] + s[j..k]
  {
  }

  lemma SameSlice(a: seq<Byte>, b: seq<Byte>, n: nat, i: nat)
    requires i <= n <= |a| && n <= |b| && a[..n] == b[..n]
    ensures a[i..n] == b[i..n]
  {
    assert a[i..n] == a[..n][i..] && b[i..n] == b[..n][i..];
  }

  /** What a writer that starts in an empty range does to it. */
  lemma PutsInGap(a: Stream, b: Stream, bytes: seq<Byte>)
    requires a.Valid() && a.offset == 0 && !a.failed && Puts(a, b, bytes)
    ensures b.failed == (|bytes| > a.end - a.begin)
    ensures |b.memory| == |a.memory| && b.memory[..a.begin] == a.memory[..a.begin] &&
      b.memory[a.end..] == a.memory[a.end..]
    ensures !b.failed ==> b.offset == |bytes| && b.memory[a.begin..a.begin + |bytes|] == bytes
  {
  }

  /** What was written since the marker is copied to the end of the range. */
  ghost function Saved(s: Stream, marker: nat): seq<Byte>
    requires s.Valid() && marker <= s.offset
  {
    s.memory[..s.end - (s.offset - marker)] + s.memory[s.begin + marker..s.begin + s.offset] + s.memory[s.end..]
  }

  /** memory[to..end] is copied to `from`. */
  ghost function Restored(memory: seq<Byte>, from: nat, to: nat, end: nat): seq<Byte>
    requires from <= to <= end <= |memory|
  {
    memory[..from] + memory[to..end] + memory[from + (end - to)..]
  }

  lemma IsSaved(s: Stream, marker: nat, r: seq<Byte>)
    requires s.Valid() && marker <= s.offset && |r| == |s.memory|
    requires var from, to := s.begin + marker, s.end - (s.offset - marker);
             (forall k | to <= k < s.end :: r[k] == s.memory[k - to + from])
             && (forall k | 0 <= k < |r| && !(to <= k < s.end) :: r[k] == s.memory[k])
    ensures r == Saved(s, marker)
  {
  }

  lemma IsRestored(memory: seq<Byte>, r: seq<Byte>, from: nat, to: nat, end: nat)
    requires from <= to <= end <= |memory| == |r|
    requires forall k | from <= k < from + (end - to) :: r[k] == memory[k - from + to]
    requires forall k | 0 <= k < |r| && !(from <= k < from + (end - to)) :: r[k] == memory[k]
    ensures r == Restored(memory, from, to, end)
  {
  }

  /** ByteOutputStreamWriter with the soft error policy of its stream. */
  class ByteWriter {
    const data: array<Byte>
    const begin: nat
    const end: nat
    var offset: nat
    var failed: bool

    ghost predicate Valid()
      reads this
    {
      begin + offset <= end <= data.Length
    }

    ghost function State(): (s: Stream)
      requires Valid()
      reads this, data
      ensures s.Valid()
    {
      Stream(data[..], begin, end, offset, failed)
    }

    constructor (data: array<Byte>, begin: nat, end: nat)
      requires begin <= end <= data.Length
      ensures this.data == data && Valid() && State() == Stream(data[..], begin, end, 0, false)
    {
      this.data, this.begin, this.end := data, begin, end;
      offset, failed := 0, false;
    }

    /** What does not fit is cut off. */
    method Insert(bytes: seq<Byte>)
      requires Valid()
      modifies this, data
      ensures Valid() && Puts(old(State()), State(), bytes)
      ensures data[begin + old(offset)..begin + offset] <= bytes
    {
      hide Puts;
      ghost var before := State();
      var available := end - begin - offset;
      var n := if |bytes| <= available then |bytes| else available;
      if |bytes| > available {
        failed := true;
      }
      var at := begin + offset;
      for i := 0 to n
        invariant offset == before.offset && failed == (before.failed || n < |bytes|)
        invariant forall k | at <= k < at + i :: data[k] == bytes[k - at]
        invariant forall k | 0 <= k < data.Length && !(at <= k < at + i) :: data[k] == before.memory[k]
      {
        data[at + i] := bytes[i];
      }
      offset := offset + n;
      InsertPuts(before, State(), bytes, n);
    }

    method PutVarInt(value: nat)
      requires Valid()
      modifies this, data
      ensures Valid() && Puts(old(State()), State(), EncodeVarInt(value))
    {
      hide Puts;
      var rest := value;
      ghost var done: seq<Byte> := [];
      PutsNothing(State());
      while true
        invariant Valid() && Puts(old(State()), State(), done)
        invariant done + EncodeVarInt(rest) == EncodeVarInt(value)
        decreases rest
      {
        ghost var before := State();
        var byte: Byte := if rest > 127 then rest % 128 + 128 else rest;
        Insert([byte]);
        PutsPuts(old(State()), before, State(), done, [byte]);
        done := done + [byte];
        assert rest > 127 ==> [byte] + EncodeVarInt(rest / 128) == EncodeVarInt(rest);
        rest := rest / 128;
        if rest == 0 {
          break;
        }
      }
    }

    method PutKey(number: UInt32, wireType: nat)
      requires Valid() && wireType < 8
      modifies this, data
      ensures Valid() && Puts(old(State()), State(), EncodeVarInt(Key(number, wireType)))
    {
      PutVarInt(number * 8 % TWO_32 + wireType);
    }

    /** Moves what was written since the marker to the end of the range; what is in between is free. */
    method SaveState(marker: nat) returns (from: nat, to: nat)
      requires Valid() && marker <= offset
      modifies data
      ensures from == begin + marker && to == end - (offset - marker)
      ensures data[..] == Saved(old(State()), marker)
    {
      hide Saved;
      ghost var was := data[..];
      from := begin + marker;
      var n := offset - marker;
      to := end - n;
      for i := n downto 0
        invariant forall k | to + i <= k < end :: data[k] == was[k - to + from]
        invariant forall k | 0 <= k < data.Length && !(to + i <= k < end) :: data[k] == was[k]
      {
        data[to + i] := data[from + i];
      }
      IsSaved(State().(memory := was), marker, data[..]);
    }

    /** Moves what is behind the still free part data[from..to] of the gap forward. */
    method RestoreState(from: nat, to: nat)
      requires Valid() && begin <= from <= to <= end
      modifies this, data
      ensures Valid() && offset == from - begin + (end - to) && failed == old(failed)
      ensures data[..] == Restored(old(data[..]), from, to, end)
    {
      hide Restored;
      ghost var was := data[..];
      for i := 0 to end - to
        invariant failed == old(failed)
        invariant forall k | from <= k < from + i :: data[k] == was[k - from + to]
        invariant forall k | 0 <= k < data.Length && !(from <= k < from + i) :: data[k] == was[k]
      {
        data[from + i] := data[to + i];
      }
      IsRestored(was, data[..], from, to, end);
      offset := from - begin + (end - to);
    }
  }

  /** Closing a nested message: the payload was written since the marker, and its length is to go in front of it. The
      stream that writes the length has an error policy of its own, which asserts. */
  method PatchLength(w: ByteWriter, marker: nat) returns (halted: bool)
    requires w.Valid() && marker <= w.offset
    modifies w, w.data
    ensures var length := EncodeVarInt((old(w.offset) - marker) % TWO_32);
            halted == (|length| > old(w.State().Room()))
            && (!halted ==> w.Valid() && Patched(old(w.State()), w.State(), marker, length))
    ensures KeptAround(old(w.State()), marker, w.data[..])
  {
    hide EncodeVarInt, Puts, Patched, KeptAround, LengthPut, Saved, Restored;
    ghost var before := w.State();
    var size := (w.offset - marker) % TWO_32;
    var from, to := w.SaveState(marker);
    var saved := new ByteWriter(w.data, from, to);
    ghost var gap := saved.State();
    saved.PutVarInt(size);
    halted := saved.failed;
    ghost var put := saved.State();
    LengthIsPut(before, marker, EncodeVarInt(size), gap, put);
    if !halted {
      w.RestoreState(saved.begin + saved.offset, saved.end);
      PatchPlaces(before, w.State(), marker, EncodeVarInt(size), put.memory);
    }
  }

  /** `length` was inserted at the marker. */
  ghost predicate Patched(before: Stream, after: Stream, marker: nat, length: seq<Byte>)
    requires before.Valid() && after.Valid() && marker <= before.offset
  {
    && after.begin == before.begin && after.end == before.end
    && after.offset == before.offset + |length| && after.failed == before.failed
    && after.Written() == before.Written()[..marker] + length + before.Written()[marker..]
  }

  ghost predicate KeptAround(s: Stream, marker: nat, memory: seq<Byte>)
    requires s.Valid() && marker <= s.offset
  {
    && |memory| == |s.memory| && memory[..s.begin + marker] == s.memory[..s.begin + marker]
    && memory[s.end..] == s.memory[s.end..]
  }

  /** The payload is at the end of the range, and the length, when it fits, is at the marker. */
  ghost predicate LengthPut(s: Stream, marker: nat, length: seq<Byte>, put: seq<Byte>)
    requires s.Valid() && marker <= s.offset
  {
    var from, to := s.begin + marker, s.end - (s.offset - marker);
    && KeptAround(s, marker, put)
    && put[to..s.end] == s.memory[from..s.begin + s.offset]
    && from + |length| <= to && put[from..from + |length|] == length
  }

  lemma LengthIsPut(s: Stream, marker: nat, length: seq<Byte>, gap: Stream, put: Stream)
    requires s.Valid() && marker <= s.offset
    requires gap == Stream(Saved(s, marker), s.begin + marker, s.end - (s.offset - marker), 0, false)
    requires gap.Valid() && Puts(gap, put, length)
    ensures put.failed == (|length| > s.Room())
    ensures |put.memory| == |s.memory| && KeptAround(s, marker, put.memory)
    ensures !put.failed ==> put.offset == |length| && LengthPut(s, marker, length, put.memory)
  {
    PutsInGap(gap, put, length);
    var to, n := gap.end, s.offset - marker;
    assert put.memory[..gap.begin] == gap.memory[..gap.begin] == s.memory[..gap.begin];
    assert gap.memory[to..] == s.memory[gap.begin..s.begin + s.offset] + s.memory[s.end..];
    assert put.memory[s.end..] == put.memory[to..][n..] == s.memory[s.end..];
    assert put.memory[to..s.end] == put.memory[to..][..n];
  }

  lemma PatchPlaces(s: Stream, after: Stream, marker: nat, length: seq<Byte>, put: seq<Byte>)
    requires s.Valid() && after.Valid() && marker <= s.offset && LengthPut(s, marker, length, put)
    requires after.begin == s.begin && after.end == s.end
    requires after.offset == s.offset + |length| && after.failed == s.failed
    requires after.memory == Restored(put, s.begin + marker + |length|, s.end - (s.offset - marker), s.end)
    ensures Patched(s, after, marker, length) && KeptAround(s, marker, after.memory)
  {
    hide Restored, LengthPut, KeptAround, Patched;
    var at, final := s.begin + marker, after.memory;
    var here := at + |length|;
    LengthPutParts(s, marker, length, put);
    RestoredParts(put, here, s.end - (s.offset - marker), s.end);
    ShorterHead(put, final, here, at);
    ShorterTail(put, final, here + (s.offset - marker), s.end);
    SameSlice(s.memory, final, at, s.begin);
    IsPatched(s, after, marker, length);
    IsKeptAround(s, marker, final);
  }

  lemma LengthPutParts(s: Stream, marker: nat, length: seq<Byte>, put: seq<Byte>)
    requires s.Valid() && marker <= s.offset && LengthPut(s, marker, length, put)
    ensures var from, to := s.begin + marker, s.end - (s.offset - marker);
            |put| == |s.memory| && put[..from] == s.memory[..from] && put[s.end..] == s.memory[s.end..] &&
              from + |length| <= to
            && put[to..s.end] == s.memory[from..s.begin + s.offset] && put[from..from + |length|] == length
  {
  }

  lemma IsKeptAround(s: Stream, marker: nat, memory: seq<Byte>)
    requires s.Valid() && marker <= s.offset && |memory| == |s.memory|
    requires memory[..s.begin + marker] == s.memory[..s.begin + marker] && memory[s.end..] == s.memory[s.end..]
    ensures KeptAround(s, marker, memory)
  {
  }

  lemma IsPatched(s: Stream, after: Stream, marker: nat, length: seq<Byte>)
    requires s.Valid() && after.Valid() && marker <= s.offset
    requires after.begin == s.begin && after.end == s.end && after.offset == s.offset + |length| &&
      after.failed == s.failed
    requires var at, m := s.begin + marker, after.memory;
             m[s.begin..at] == s.memory[s.begin..at] && m[at..at + |length|] == length
             && m[at + |length|..s.begin + after.offset] == s.memory[at..s.begin + s.offset]
    ensures Patched(s, after, marker, length)
  {
    var at, here := s.begin + marker, s.begin + marker + |length|;
    SplitSlice(after.memory, s.begin, at, here);
    SplitSlice(after.memory, s.begin, here, s.begin + after.offset);
    WrittenParts(s, marker);
  }

  lemma RestoredParts(memory: seq<Byte>, from: nat, to: nat, end: nat)
    requires from <= to <= end <= |memory|
    ensures var r, n := Restored(memory, from, to, end), from + (end - to);
            |r| == |memory| && r[..from] == memory[..from] && r[from..n] == memory[to..end] && r[n..] == memory[n..]
  {
  }

  lemma WrittenParts(s: Stream, marker: nat)
    requires s.Valid() && marker <= s.offset
    ensures s.Written()[..marker] == s.memory[s.begin..s.begin + marker]
    ensures s.Written()[marker..] == s.memory[s.begin + marker..s.begin + s.offset]
  {
  }

  /** Whether one of the messages does not fit: everything after the first field that does not fit finds the range
      full. */
  predicate Halts(fields: Fields, room: nat) {
    match fields
    case NoFields => false
    case More(f, rest) =>
      if |EncodeField(f)| <= room then Halts(rest, room - |EncodeField(f)|)
      else f.Message? || Halts(rest, 0)
  }

  lemma {:induction false} HaltsOnlyWhenFull(fields: Fields, room: nat)
    requires Halts(fields, room)
    ensures |EncodeFields(fields)| > room
  {
    var f := fields.head;
    if |EncodeField(f)| <= room {
      HaltsOnlyWhenFull(fields.tail, room - |EncodeField(f)|);
    }
  }

  /** What fits is written and is the encoding. What does not fit is a recorded failure, or trips the assertion when
      it is, or is followed by, a nested message. */
  method WriteFields(w: ByteWriter, fields: Fields) returns (halted: bool)
    requires w.Valid()
    modifies w, w.data
    ensures halted == Halts(fields, old(w.State().Room()))
    ensures !halted ==> w.Valid() && Puts(old(w.State()), w.State(), EncodeFields(fields))
    ensures w.data[..w.begin + old(w.offset)] == old(w.data[..w.begin + w.offset])
    ensures w.data[w.end..] == old(w.data[w.end..])
    decreases fields, 0
  {
    hide EncodeField, Puts;
    ghost var before := w.State();
    match fields
    case NoFields =>
      PutsNothing(before);
      halted := false;
    case More(f, rest) =>
      halted := WriteField(w, f);
      if !halted {
        ghost var between := w.State();
        PutsMovesOn(before, between, EncodeField(f));
        halted := WriteFields(w, rest);
        PutsKeeps(before, between, EncodeField(f));
        KeptFurther(before, between, w.data[..]);
        if !halted {
          PutsPuts(before, between, w.State(), EncodeField(f), EncodeFields(rest));
        }
      }
  }

  lemma PutsKeeps(a: Stream, b: Stream, bytes: seq<Byte>)
    requires a.Valid() && Puts(a, b, bytes)
    ensures KeepsOutside(a, b)
  {
  }

  lemma KeptFurther(a: Stream, b: Stream, memory: seq<Byte>)
    requires a.Valid() && b.Valid() && a.begin == b.begin && a.end == b.end && a.offset <= b.offset
    requires KeepsOutside(a, b) && |memory| == |b.memory|
    requires memory[..b.begin + b.offset] == b.memory[..b.begin + b.offset] && memory[b.end..] == b.memory[b.end..]
    ensures memory[..a.begin + a.offset] == a.memory[..a.begin + a.offset] && memory[a.end..] == a.memory[a.end..]
  {
    KeepsKeeps(a, b, b.(memory := memory));
  }

  method WriteField(w: ByteWriter, f: Field) returns (halted: bool)
    requires w.Valid()
    modifies w, w.data
    ensures halted == (f.Message? && |EncodeField(f)| > old(w.State().Room()))
    ensures !halted ==> w.Valid() && Puts(old(w.State()), w.State(), EncodeField(f))
    ensures w.data[..w.begin + old(w.offset)] == old(w.data[..w.begin + w.offset])
    ensures w.data[w.end..] == old(w.data[w.end..])
    decreases f
  {
    hide EncodeVarInt, Puts, Key, EncodeFields;
    ghost var before := w.State();
    halted := false;
    match f
    case VarInt(n, v) =>
      w.PutKey(n, 0);
      ghost var between := w.State();
      w.PutVarInt(v);
      PutsPuts(before, between, w.State(), EncodeVarInt(Key(n, 0)), EncodeVarInt(v));
      PutsKeeps(before, w.State(), EncodeField(f));
    case Fixed64(n, v) =>
      w.PutKey(n, 1);
      ghost var between := w.State();
      w.Insert(LittleEndian(v, 8));
      PutsPuts(before, between, w.State(), EncodeVarInt(Key(n, 1)), LittleEndian(v, 8));
      PutsKeeps(before, w.State(), EncodeField(f));
    case Fixed32(n, v) =>
      w.PutKey(n, 5);
      ghost var between := w.State();
      w.Insert(LittleEndian(v, 4));
      PutsPuts(before, between, w.State(), EncodeVarInt(Key(n, 5)), LittleEndian(v, 4));
      PutsKeeps(before, w.State(), EncodeField(f));
    case Bytes(n, b) =>
      w.PutKey(n, 2);
      ghost var between := w.State();
      w.PutVarInt(|b|);
      PutsPuts(before, between, w.State(), EncodeVarInt(Key(n, 2)), EncodeVarInt(|b|));
      between := w.State();
      w.Insert(b);
      PutsPuts(before, between, w.State(), EncodeVarInt(Key(n, 2)) + EncodeVarInt(|b|), b);
      PutsKeeps(before, w.State(), EncodeField(f));
    case Message(n, fields) =>
      halted := WriteMessage(w, n, fields);
  }

  /** ProtoLengthDelimitedFormatter: its constructor, what its user writes, and its destructor. */
  method WriteMessage(w: ByteWriter, number: UInt32, fields: Fields) returns (halted: bool)
    requires w.Valid()
    modifies w, w.data
    ensures halted == (|EncodeField(Message(number, fields))| > old(w.State().Room()))
    ensures !halted ==> w.Valid() && Puts(old(w.State()), w.State(), EncodeField(Message(number, fields)))
    ensures w.data[..w.begin + old(w.offset)] == old(w.data[..w.begin + w.offset])
    ensures w.data[w.end..] == old(w.data[w.end..])
    decreases fields, 1
  {
    hide EncodeVarInt, Puts, Key, EncodeFields, EncodeField, KeepsOutside, Patched, KeptAround;
    ghost var before := w.State();
    w.PutKey(number, 2);
    ghost var keyed := w.State();
    var marker := w.offset;
    halted := WriteFields(w, fields);
    ghost var key, payload := EncodeVarInt(Key(number, 2)), EncodeFields(fields);
    MessageSize(number, fields);
    PutsMovesOn(before, keyed, key);
    PutsKeeps(before, keyed, key);
    KeptFurther(before, keyed, w.data[..]);
    if halted {
      HaltsOnlyWhenFull(fields, keyed.Room());
    } else {
      ghost var filled := w.State();
      PutsMovesOn(keyed, filled, payload);
      halted := PatchLength(w, marker);
      PatchOutside(before, keyed, filled, payload, w.data[..]);
      if !halted {
        IsKeptAround(before, before.offset, w.State().memory);
        PatchPuts(before, keyed, filled, w.State(), number, fields);
      }
    }
  }

  lemma MessageSize(number: UInt32, fields: Fields)
    ensures EncodeField(Message(number, fields)) ==
            EncodeVarInt(Key(number, 2)) + EncodeVarInt(|EncodeFields(fields)| % TWO_32) + EncodeFields(fields)
  {
  }

  lemma PatchOutside(before: Stream, keyed: Stream, filled: Stream, payload: seq<Byte>, memory: seq<Byte>)
    requires before.Valid() && keyed.Valid() && filled.Valid() && keyed.offset <= filled.offset
    requires before.begin == keyed.begin && before.end == keyed.end && before.offset <= keyed.offset
    requires KeepsOutside(before, keyed) && Puts(keyed, filled, payload) && KeptAround(filled, keyed.offset, memory)
    ensures var at := before.begin + before.offset; |memory| == |before.memory| && memory[..at] == before.memory[..at]
    ensures memory[before.end..] == before.memory[before.end..]
  {
    KeptFurther(before, keyed, memory);
  }

  lemma PatchPuts(before: Stream, keyed: Stream, filled: Stream, after: Stream, number: UInt32, fields: Fields)
    requires before.Valid() && keyed.Valid() && filled.Valid() && after.Valid() && keyed.offset <= filled.offset
    requires var key, payload := EncodeVarInt(Key(number, 2)), EncodeFields(fields);
             Puts(before, keyed, key) && Puts(keyed, filled, payload) &&
               |EncodeField(Message(number, fields))| <= before.Room()
    requires KeptAround(before, before.offset, after.memory)
    requires Patched(filled, after, keyed.offset, EncodeVarInt((filled.offset - keyed.offset) % TWO_32))
    ensures Puts(before, after, EncodeField(Message(number, fields)))
  {
    hide EncodeVarInt, EncodeFields, Key;
    var key, payload := EncodeVarInt(Key(number, 2)), EncodeFields(fields);
    MessageSize(number, fields);
    assert filled.Written() == keyed.Written() + payload;
    assert keyed.Written() == before.Written() + key;
    var length := EncodeVarInt(|payload| % TWO_32);
    assert after.Written() == before.Written() + (key + length + payload);
  }
}
