/** QueueForOneReaderOneIrqWriter: an interrupt appends to a ring while the main program reads from it. An interrupt
    runs to its end, the main program may be interrupted between any two accesses to the shared variables.
 */
module IrqQueue {

  type Element = int

  /** Where the reader is. */
  datatype Reader =
    | Idle
    | Getting(value: Element)                // in Get, after reading the first element
    | Consuming(amount: nat)                 // in Consume, before adding the rest of the amount
    | Sizing(begin: nat)                     // in Size, between the two loads
    | Ranging(end: nat, offset: nat)         // in ContiguousRange, between the two loads

  datatype State = State(
    buffer: seq<Element>, begin: nat, end: nat, scheduled: bool, reader: Reader,
    queued: nat,               // DataAvailable events in the event dispatcher
    starting: bool,            // such an event runs and has not yet cleared notificationScheduled
    written: seq<Element>,     // everything the interrupt has added
    read: seq<Element>,        // everything the reader has moved past, as it was in the buffer then
    announced: nat)            // how much had been written when the callback was last about to be called

  /** The cells from one pointer up to another, going round the end of the buffer. */
  function Between(buffer: seq<Element>, begin: nat, end: nat): seq<Element>
    requires begin < |buffer| && end < |buffer|
  {
    if begin <= end then buffer[begin..end] else buffer[begin..] + buffer[..end]
  }

  function Contents(s: State): seq<Element>
    requires Bounded(s)
  {
    Between(s.buffer, s.begin, s.end)
  }

  /** How many more elements the queue can hold: one cell always stays free. */
  function Free(s: State): nat
    requires Bounded(s)
  {
    |s.buffer| - 1 - |Contents(s)|
  }

  predicate Bounded(s: State) {
    s.begin < |s.buffer| && s.end < |s.buffer|
  }

  // ----- the interrupt

  /** NotifyDataAvailable */
  function Notify(s: State): State {
    if s.begin != s.end && !s.scheduled then s.(scheduled := true, queued := s.queued + 1) else s
  }

  predicate Full(s: State)
    requires Bounded(s)
  {
    (s.end == |s.buffer| - 1 || s.begin == s.end + 1) && (s.end != |s.buffer| - 1 || s.begin == 0)
  }

  /** AssertionFails stands for a failed assertion and for a copy past the end of the buffer. */
  datatype Outcome = Added(state: State) | Dropped | AssertionFails

  function Add(s: State, e: Element): Outcome
    requires Bounded(s)
  {
    if Full(s) then AssertionFails
    else
      Added(Notify(s.(buffer := s.buffer[s.end := e], end := if s.end == |s.buffer| - 1 then 0
        else s.end + 1, written := s.written + [e])))
  }

  /** std::copy to the buffer, from position `at` on. */
  function Copied(buffer: seq<Element>, at: nat, data: seq<Element>): (r: seq<Element>)
    requires at + |data| <= |buffer|
    ensures |r| == |buffer|
  {
    buffer[..at] + data + buffer[at + |data|..]
  }

  function AddAll(s: State, data: seq<Element>): Outcome
    requires Bounded(s)
  {
    var size := |s.buffer|;
    var n := if |data| <= size - s.end then |data| else size - s.end;
    if !(s.begin <= s.end || s.begin > s.end + n) then Dropped
    else
      var first := Copied(s.buffer, s.end, data[..n]);
      var end := if s.end == size - n then 0 else s.end + n;
      var rest := data[n..];
      if !(s.begin <= end || s.begin > end + |rest|) || end + |rest| > size then AssertionFails
      else Added(Notify(s.(buffer := Copied(first, end, rest), end := end + |rest|, written := s.written + data)))
  }

  // ----- the main program

  datatype Step =
    | Write(e: Element)
    | WriteAll(data: seq<Element>)
    | GetFirst | GetMove
    | ConsumeTurn(amount: nat) | ConsumeMove
    | SizeFirst | SizeSecond
    | RangeFirst(offset: nat) | RangeSecond
    | EventStarts | EventClears

  /** What the interrupt and the reader may ask for: a write that fits, a read of what is there. */
  predicate Allowed(s: State, step: Step)
    requires Bounded(s)
  {
    match step
    case Write(e) => Free(s) > 0
    case WriteAll(data) => |data| <= Free(s)
    case GetFirst => s.reader.Idle? && Contents(s) != []
    case ConsumeTurn(amount) => s.reader.Idle? && amount <= |Contents(s)|
    case RangeFirst(offset) => s.reader.Idle? && offset <= |Contents(s)|
    case SizeFirst => s.reader.Idle?
    case GetMove => s.reader.Getting?
    case ConsumeMove => s.reader.Consuming?
    case SizeSecond => s.reader.Sizing?
    case RangeSecond => s.reader.Ranging?
    case EventStarts => s.queued > 0 && !s.starting
    case EventClears => s.starting
  }

  ghost predicate Next(s: State, step: Step, s': State)
    requires Bounded(s)
  {
    match step
    case Write(e) => Add(s, e) == Added(s')
    case WriteAll(data) => AddAll(s, data) == Added(s')
    case GetFirst => s' == s.(reader := Getting(s.buffer[s.begin]))
    case GetMove =>
      s.reader.Getting?
      && s' == s.(begin := if s.begin == |s.buffer| - 1 then 0
        else s.begin + 1, reader := Idle, read := s.read + [s.reader.value])
    case ConsumeTurn(amount) =>
      if s.begin + amount >= |s.buffer| then
        s' == s.(begin := 0, reader := Consuming(amount - (|s.buffer| - s.begin)), read := s.read + s.buffer[s.begin..])
      else s' == s.(reader := Consuming(amount))
    case ConsumeMove =>
      s.reader.Consuming? && s.begin + s.reader.amount <= |s.buffer|
      && s' == s.(begin := s.begin + s.reader.amount, reader := Idle,
        read := s.read + s.buffer[s.begin..s.begin + s.reader.amount])
    case SizeFirst => s' == s.(reader := Sizing(s.begin))
    case RangeFirst(offset) => s' == s.(reader := Ranging(s.end, offset))
    case SizeSecond => s' == s.(reader := Idle)
    case RangeSecond => s' == s.(reader := Idle)
    case EventStarts => s.queued > 0 && s' == s.(queued := s.queued - 1, starting := true)
    case EventClears => s' == s.(scheduled := false, starting := false, announced := |s.written|)
  }

  /** What Size returns, given the first load and the state at the second. */
  function SizeResult(s: State): nat
    requires Bounded(s) && s.reader.Sizing? && s.reader.begin < |s.buffer|
  {
    var begin := s.reader.begin;
    if Full(s.(begin := begin)) then |s.buffer| - 1
    else if s.end >= begin then s.end - begin
    else |s.buffer| - begin + s.end
  }

  /** The bounds of the range that ContiguousRange returns, given the first load and the state at the second. */
  function RangeResult(s: State): (nat, nat)
    requires Bounded(s) && s.reader.Ranging?
  {
    var turns := s.begin + s.reader.offset >= |s.buffer|;
    var begin := if turns then s.reader.offset - (|s.buffer| - s.begin) else s.begin + s.reader.offset;
    (begin, if s.reader.end < begin then |s.buffer| else s.reader.end)
  }

  // ----- the invariant

  predicate ReaderKnows(s: State)
    requires Bounded(s)
  {
    match s.reader
    case Idle => true
    case Getting(v) => Contents(s) != [] && Contents(s)[0] == v
    case Consuming(amount) => amount <= |Contents(s)| && s.begin + amount < |s.buffer|
    case Sizing(begin) => begin == s.begin
    case Ranging(end, offset) =>
      end < |s.buffer| && Between(s.buffer, s.begin, end) <= Contents(s) && offset <= |Between(s.buffer, s.begin, end)|
  }

  predicate Inv(s: State) {
    && Bounded(s)
    && s.written == s.read + Contents(s)
    && ReaderKnows(s)
    && s.queued + (if s.starting then 1 else 0) == (if s.scheduled then 1 else 0)
    && s.announced <= |s.written|
    && (s.announced < |s.written| ==> s.scheduled)
  }

  predicate Initial(s: State) {
    && |s.buffer| > 0 && s.begin == 0 && s.end == 0 && !s.scheduled && s.reader.Idle?
    && s.queued == 0 && !s.starting && s.written == [] && s.read == [] && s.announced == 0
  }

  lemma InitialInv(s: State)
    requires Initial(s)
    ensures Inv(s)
  {
  }

  /** A queue can start with any buffer. */
  lemma StartsEmpty(buffer: seq<Element>)
    requires buffer != []
    ensures Initial(State(buffer, 0, 0, false, Idle, 0, false, [], [], 0))
  {}

  /** One element: it is refused exactly when there is no room. */
  lemma AddAppends(s: State, e: Element)
    requires Bounded(s)
    ensures Add(s, e).AssertionFails? <==> Free(s) == 0
    ensures Free(s) > 0 ==>
              var s' := Add(s, e).state;
              Bounded(s') && Contents(s') == Contents(s) + [e] && Add(s, e).Added?
  {
  }

  /** A range that fits is appended, however it goes round the end. */
  lemma AddAllAppends(s: State, data: seq<Element>)
    requires Bounded(s) && |data| <= Free(s)
    ensures AddAll(s, data).Added? && Bounded(AddAll(s, data).state) &&
      Contents(AddAll(s, data).state) == Contents(s) + data
  {
    if s.begin > s.end || |data| < |s.buffer| - s.end {
      AppendsStraight(s, data);
    } else {
      AppendsAround(s, data);
    }
  }

  /** The data ends before the end of the buffer. */
  lemma AppendsStraight(s: State, data: seq<Element>)
    requires Bounded(s) && |data| <= Free(s) && (s.begin > s.end || |data| < |s.buffer| - s.end)
    ensures AddAll(s, data).Added? && Bounded(AddAll(s, data).state) &&
      Contents(AddAll(s, data).state) == Contents(s) + data
  {
    hide Copied, Between, Notify;
    BetweenLength(s.buffer, s.begin, s.end);
    var n := |data|;
    assert data[..n] == data && data[n..] == [];
    CopiedParts(Copied(s.buffer, s.end, data), s.end + n, []);
    var t := s.(buffer := Copied(s.buffer, s.end, data), end := s.end + n, written := s.written + data);
    NotifyKeeps(t);
    assert AddAll(s, data) == Added(Notify(t));
    StraightContents(s.buffer, s.begin, s.end, data);
  }

  lemma BetweenLength(buffer: seq<Element>, begin: nat, end: nat)
    requires begin < |buffer| && end < |buffer|
    ensures |Between(buffer, begin, end)| == if begin <= end then end - begin else |buffer| - begin + end
  {
  }

  lemma StraightContents(buffer: seq<Element>, begin: nat, end: nat, data: seq<Element>)
    requires begin < |buffer| && end < |buffer| &&
      (if begin <= end then end + |data| < |buffer| else end + |data| < begin)
    ensures Between(Copied(buffer, end, data), begin, end + |data|) == Between(buffer, begin, end) + data
  {
    hide Copied;
    var first, n := Copied(buffer, end, data), |data|;
    CopiedParts(buffer, end, data);
    if begin <= end {
      assert first[begin..end] == first[..end][begin..] && buffer[begin..end] == buffer[..end][begin..];
      assert first[begin..end + n] == first[begin..end] + first[end..end + n];
    } else {
      assert first[begin..] == first[end + n..][begin - (end + n)..] &&
        buffer[begin..] == buffer[end + n..][begin - (end + n)..];
      assert first[..end + n] == first[..end] + first[end..end + n];
    }
  }

  lemma NotifyKeeps(s: State)
    ensures Notify(s) == s.(scheduled := Notify(s).scheduled, queued := Notify(s).queued)
  {
  }

  lemma CopiedParts(buffer: seq<Element>, at: nat, data: seq<Element>)
    requires at + |data| <= |buffer|
    ensures var r := Copied(buffer, at, data);
            r[..at] == buffer[..at] && r[at..at + |data|] == data && r[at + |data|..] == buffer[at + |data|..]
            && (data == [] ==> r == buffer)
  {
  }

  /** The data reaches the end of the buffer, and what is left goes to its start. */
  lemma AppendsAround(s: State, data: seq<Element>)
    requires Bounded(s) && |data| <= Free(s) && s.begin <= s.end && |data| >= |s.buffer| - s.end
    ensures AddAll(s, data).Added? && Bounded(AddAll(s, data).state) &&
      Contents(AddAll(s, data).state) == Contents(s) + data
  {
    hide Copied, Between, Notify;
    BetweenLength(s.buffer, s.begin, s.end);
    var n := |s.buffer| - s.end;
    var last := Copied(Copied(s.buffer, s.end, data[..n]), 0, data[n..]);
    var t := s.(buffer := last, end := |data| - n, written := s.written + data);
    NotifyKeeps(t);
    assert AddAll(s, data) == Added(Notify(t));
    AroundContents(s.buffer, s.begin, s.end, data);
  }

  lemma AroundContents(buffer: seq<Element>, begin: nat, end: nat, data: seq<Element>)
    requires begin <= end < |buffer| && |buffer| - end <= |data| && |data| - (|buffer| - end) < begin
    ensures var n := |buffer| - end;
            Between(Copied(Copied(buffer, end, data[..n]), 0, data[n..]), begin, |data| - n) ==
              Between(buffer, begin, end) + data
  {
    hide Copied, Between;
    var n := |buffer| - end;
    var first, m := Copied(buffer, end, data[..n]), |data| - n;
    var last := Copied(first, 0, data[n..]);
    CopiedParts(buffer, end, data[..n]);
    CopiedParts(first, 0, data[n..]);
    BetweenIs(last, begin, m);
    BetweenIs(buffer, begin, end);
    assert last[begin..] == last[m..][begin - m..] && first[begin..] == first[m..][begin - m..];
    assert first[begin..] == first[begin..end] + first[end..];
    assert first[begin..end] == first[..end][begin..] && buffer[begin..end] == buffer[..end][begin..];
    assert data == data[..n] + data[n..];
  }

  lemma BetweenIs(buffer: seq<Element>, begin: nat, end: nat)
    requires begin < |buffer| && end < |buffer|
    ensures begin <= end ==> Between(buffer, begin, end) == buffer[begin..end]
    ensures begin > end ==> Between(buffer, begin, end) == buffer[begin..] + buffer[..end]
  {
  }

  /** A range that does not fit is never appended, and is not always refused either. */
  lemma AddAllAppendsIffItFits(s: State, data: seq<Element>)
    requires Bounded(s)
    ensures |data| <= Free(s) <==>
            (AddAll(s, data).Added? && Bounded(AddAll(s, data).state) &&
              Contents(AddAll(s, data).state) == Contents(s) + data)
  {
    if |data| <= Free(s) {
      AddAllAppends(s, data);
    }
  }

  /** The queue begins at the start of the buffer, and the data does not fit but ends before the buffer is filled a
      second time. */
  predicate Overwrites(s: State, data: seq<Element>) {
    s.begin == 0 && |s.buffer| - s.end <= |data| <= 2 * |s.buffer| - s.end
  }

  /** A range that does not fit is accepted exactly when the queue begins at the start of the buffer and the data
      does not go round twice. It is passed over without a word exactly when the contents go round the end of the
      buffer, and fails the assertion otherwise. */
  lemma AddAllOutcome(s: State, data: seq<Element>)
    requires Bounded(s)
    ensures AddAll(s, data).Added? <==> |data| <= Free(s) || Overwrites(s, data)
    ensures AddAll(s, data).Dropped? <==> |data| > Free(s) && s.begin > s.end
    ensures AddAll(s, data).AssertionFails? <==>
            |data| > Free(s) && s.begin <= s.end && (s.begin > 0 || |data| > 2 * |s.buffer| - s.end)
  {
    hide Copied, Between, Notify;
    BetweenLength(s.buffer, s.begin, s.end);
  }

  /** What is accepted without room replaces all that was unread and the data that went before the end of the buffer:
      only the rest of the data can be read. Data that fills the buffer once more leaves the end of the queue behind
      the end of the buffer. */
  lemma OversizedReplacesContents(s: State, data: seq<Element>)
    requires Bounded(s) && Overwrites(s, data)
    ensures var t, n := AddAll(s, data), |s.buffer| - s.end;
            |data| > Free(s) && t.Added? &&
            if |data| < n + |s.buffer| then Bounded(t.state) && Contents(t.state) == data[n..]
              else t.state.end == |s.buffer|
  {
    hide Copied, Between, Notify;
    var n := |s.buffer| - s.end;
    AddAllOutcome(s, data);
    BetweenLength(s.buffer, s.begin, s.end);
    var first := Copied(s.buffer, s.end, data[..n]);
    var last := Copied(first, 0, data[n..]);
    CopiedParts(first, 0, data[n..]);
    var t := s.(buffer := last, end := |data| - n, written := s.written + data);
    NotifyKeeps(t);
    assert AddAll(s, data) == Added(Notify(t));
    if |data| < n + |s.buffer| {
      BetweenIs(last, 0, |data| - n);
    }
  }

  /** So filling an empty buffer at its start, the spare cell included, loses everything: nothing is refused or even
      announced. */
  lemma OversizedWriteIsLost(s: State, data: seq<Element>)
    requires Initial(s) && |data| == |s.buffer|
    ensures AddAll(s, data).Added? && Contents(AddAll(s, data).state) == [] && AddAll(s, data).state.queued == 0
  {
    OversizedReplacesContents(s, data);
  }

  /** Fewer cells from the same place are the first of them. */
  lemma BetweenPrefix(buffer: seq<Element>, begin: nat, some: nat, all: nat)
    requires begin < |buffer| && some < |buffer| && all < |buffer|
    requires |Between(buffer, begin, some)| <= |Between(buffer, begin, all)|
    ensures Between(buffer, begin, some) <= Between(buffer, begin, all)
  {
  }

  lemma BetweenSize(a: seq<Element>, b: seq<Element>, begin: nat, end: nat)
    requires |a| == |b| && begin < |a| && end < |a|
    ensures |Between(a, begin, end)| == |Between(b, begin, end)|
  {
  }

  /** What could be seen from the reader's side up to some earlier end stays as it is when the interrupt adds more. */
  lemma EarlierStays(s: State, s': State, data: seq<Element>, end: nat)
    requires Bounded(s) && Bounded(s') && |s'.buffer| == |s.buffer| && s'.begin == s.begin &&
      Contents(s') == Contents(s) + data
    requires end < |s.buffer| && Between(s.buffer, s.begin, end) <= Contents(s)
    ensures Between(s'.buffer, s.begin, end) == Between(s.buffer, s.begin, end)
  {
    hide Between;
    BetweenSize(s.buffer, s'.buffer, s.begin, end);
    BetweenPrefix(s'.buffer, s.begin, end, s'.end);
  }

  lemma WriteKeeps(s: State, step: Step, s': State)
    requires Inv(s) && (step.Write? || step.WriteAll?) && Allowed(s, step) && Next(s, step, s')
    ensures Inv(s')
  {
    hide Between, Full, Copied;
    if step.Write? {
      AddAppends(s, step.e);
      if s.reader.Ranging? {
        EarlierStays(s, s', [step.e], s.reader.end);
      }
      WriteAnnounces(s, s', [step.e]);
    } else {
      AddAllAppends(s, step.data);
      if s.reader.Ranging? {
        EarlierStays(s, s', step.data, s.reader.end);
      }
      WriteAnnounces(s, s', step.data);
    }
  }

  lemma WriteAnnounces(s: State, s': State, data: seq<Element>)
    requires Inv(s) && Bounded(s') && Contents(s') == Contents(s) + data && s'.written == s.written + data
    requires exists t: State :: s' == Notify(t) && t.scheduled == s.scheduled && t.queued == s.queued &&
               t.starting == s.starting && t.announced == s.announced && t.begin == s.begin && t.reader == s.reader &&
               t.read == s.read
    ensures s'.written == s'.read + Contents(s')
    ensures s'.queued + (if s'.starting then 1 else 0) == (if s'.scheduled then 1 else 0)
    ensures s'.announced <= |s'.written| && (s'.announced < |s'.written| ==> s'.scheduled)
  {
  }

  lemma ReadKeeps(s: State, step: Step, s': State)
    requires Inv(s) && !step.Write? && !step.WriteAll? && Allowed(s, step) && Next(s, step, s')
    ensures Inv(s')
  {
    if step.GetMove? {
      GetKeeps(s, s');
    } else if step.ConsumeTurn? {
      TurnKeeps(s, step.amount, s');
    } else if step.ConsumeMove? {
      ConsumeKeeps(s, s');
    }
  }

  lemma GetKeeps(s: State, s': State)
    requires Inv(s) && Allowed(s, GetMove) && Next(s, GetMove, s')
    ensures Inv(s')
  {
    hide Between;
    BetweenFirst(s.buffer, s.begin, s.end);
    assert s'.written == s.read + [s.reader.value] + Contents(s');
  }

  /** The first element, and the others from the next cell on. */
  lemma BetweenFirst(buffer: seq<Element>, begin: nat, end: nat)
    requires begin < |buffer| && end < |buffer| && Between(buffer, begin, end) != []
    ensures Between(buffer, begin, end) == [buffer[begin]] +
      Between(buffer, if begin == |buffer| - 1 then 0 else begin + 1, end)
  {
    hide Between;
    BetweenLength(buffer, begin, end);
    if begin == |buffer| - 1 {
      BetweenTurns(buffer, end);
    } else {
      BetweenSplit(buffer, begin, begin + 1, end);
      assert buffer[begin..begin + 1] == [buffer[begin]];
    }
  }

  lemma BetweenTurns(buffer: seq<Element>, end: nat)
    requires end < |buffer| - 1
    ensures Between(buffer, |buffer| - 1, end) == [buffer[|buffer| - 1]] + Between(buffer, 0, end)
  {
    assert buffer[|buffer| - 1..] == [buffer[|buffer| - 1]];
  }

  /** The elements up to a cell, and the others from there on. */
  lemma BetweenSplit(buffer: seq<Element>, begin: nat, mid: nat, end: nat)
    requires begin <= mid < |buffer| && end < |buffer| && mid - begin <= |Between(buffer, begin, end)|
    ensures Between(buffer, begin, end) == buffer[begin..mid] + Between(buffer, mid, end)
  {
    hide Between;
    BetweenLength(buffer, begin, end);
    BetweenIs(buffer, begin, end);
    BetweenIs(buffer, mid, end);
    if begin <= end {
      assert mid <= end;
      assert buffer[begin..end] == buffer[begin..mid] + buffer[mid..end];
    } else {
      assert end < mid;
      assert buffer[begin..] == buffer[begin..mid] + buffer[mid..];
      assert buffer[begin..] + buffer[..end] == buffer[begin..mid] + (buffer[mid..] + buffer[..end]);
    }
  }

  lemma TurnKeeps(s: State, amount: nat, s': State)
    requires Inv(s) && Allowed(s, ConsumeTurn(amount)) && Next(s, ConsumeTurn(amount), s')
    ensures Inv(s')
  {
  }

  lemma ConsumeKeeps(s: State, s': State)
    requires Inv(s) && Allowed(s, ConsumeMove) && Next(s, ConsumeMove, s')
    ensures Inv(s')
  {
    hide Between;
    BetweenSplit(s.buffer, s.begin, s'.begin, s.end);
    assert s'.written == s.read + s.buffer[s.begin..s'.begin] + Contents(s');
  }

  lemma StepKeeps(s: State, step: Step, s': State)
    requires Inv(s) && Allowed(s, step) && Next(s, step, s')
    ensures Inv(s')
  {
    hide Inv, Allowed, Next;
    if step.Write? || step.WriteAll? {
      WriteKeeps(s, step, s');
    } else {
      ReadKeeps(s, step, s');
    }
  }

  ghost predicate IsRun(run: seq<State>, steps: seq<Step>) {
    && |run| == |steps| + 1 && Initial(run[0])
    && forall i | 0 <= i < |steps| :: Bounded(run[i]) && Allowed(run[i], steps[i]) && Next(run[i], steps[i], run[i + 1])
  }

  lemma {:induction false} RunKeeps(run: seq<State>, steps: seq<Step>, i: nat)
    requires IsRun(run, steps) && i <= |steps|
    ensures Inv(run[i])
  {
    hide Inv, Allowed, Next;
    if i == 0 {
      InitialInv(run[0]);
    } else {
      RunKeeps(run, steps, i - 1);
      StepKeeps(run[i - 1], steps[i - 1], run[i]);
    }
  }

  /** In every interleaving: what was read is what was written, in order and complete up to what is still in the
      queue; and whatever was written since the callback was last about to be called is covered by exactly one event
      that has not got that far. */
  lemma ReadsWhatWasWritten(run: seq<State>, steps: seq<Step>, i: nat)
    requires IsRun(run, steps) && i <= |steps|
    ensures var s := run[i];
            Bounded(s) && s.read <= s.written && Contents(s) == s.written[|s.read|..]
            && (|s.written| > s.announced ==> (s.queued == 1 && !s.starting) || (s.queued == 0 && s.starting))
            && s.queued <= 1
  {
    RunKeeps(run, steps, i);
    var s := run[i];
    assert s.written[|s.read|..] == Contents(s);
  }

  /** Get, Size and ContiguousRange tell the truth about the sequence of elements. */
  lemma ResultsAreTrue(s: State)
    requires Inv(s)
    ensures s.reader.Getting? ==> s.reader.value == s.written[|s.read|]
    ensures s.reader.Sizing? ==> SizeResult(s) == |Contents(s)|
    ensures s.reader.Ranging? ==>
              var (from, to) := RangeResult(s);
              from <= to <= |s.buffer| && s.reader.offset + (to - from) <= |Contents(s)|
              && s.buffer[from..to] == Contents(s)[s.reader.offset..s.reader.offset + (to - from)]
    ensures s.reader.Ranging? && RangeResult(s).0 == RangeResult(s).1 ==>
              s.reader.offset == |Between(s.buffer, s.begin, s.reader.end)|
  {
    hide Between;
    BetweenLength(s.buffer, s.begin, s.end);
    if s.reader.Ranging? {
      var (from, to) := RangeResult(s);
      RangeIsPart(s);
      var some, n := Between(s.buffer, s.begin, s.reader.end), s.reader.offset + (to - from);
      assert some[..n] == Contents(s)[..n];
      assert some[s.reader.offset..n] == some[..n][s.reader.offset..];
      assert Contents(s)[s.reader.offset..n] == Contents(s)[..n][s.reader.offset..];
    }
  }

  lemma RangeIsPart(s: State)
    requires Inv(s) && s.reader.Ranging?
    ensures var (from, to) := RangeResult(s);
      var some, n := Between(s.buffer, s.begin, s.reader.end), s.reader.offset + (to - from);
            from <= to <= |s.buffer| && n <= |some| && s.buffer[from..to] == some[s.reader.offset..n]
            && (from == to ==> s.reader.offset == |some|)
  {
    hide Contents;
    var (from, to) := RangeResult(s);
    var offset, end := s.reader.offset, s.reader.end;
    BetweenLength(s.buffer, s.begin, end);
    if s.begin + offset < |s.buffer| {
      BetweenSplit(s.buffer, s.begin, from, end);
      BetweenLength(s.buffer, from, end);
      assert s.buffer[from..to] == Between(s.buffer, from, end)[..to - from];
    } else {
      assert Between(s.buffer, s.begin, end) == s.buffer[s.begin..] + s.buffer[..end];
      assert s.buffer[from..end] == s.buffer[..end][from..];
    }
  }

  /** What is allowed can be done: no assertion fails and nothing is dropped. */
  lemma NothingIsRefused(s: State, step: Step) returns (s': State)
    requires Inv(s) && Allowed(s, step)
    ensures Next(s, step, s')
  {
    hide Between, Full, Copied;
    match step
    case Write(e) =>
      AddAppends(s, e);
      s' := Add(s, e).state;
    case WriteAll(data) =>
      AddAllAppends(s, data);
      s' := AddAll(s, data).state;
    case GetFirst => s' := s.(reader := Getting(s.buffer[s.begin]));
    case GetMove =>
      s' := s.(begin := if s.begin == |s.buffer| - 1 then 0
        else s.begin + 1, reader := Idle, read := s.read + [s.reader.value]);
    case ConsumeTurn(amount) =>
      if s.begin + amount >= |s.buffer| {
        s' := s.(begin := 0, reader := Consuming(amount - (|s.buffer| - s.begin)),
          read := s.read + s.buffer[s.begin..]);
      } else {
        s' := s.(reader := Consuming(amount));
      }
    case ConsumeMove =>
      s' := s.(begin := s.begin + s.reader.amount, reader := Idle,
        read := s.read + s.buffer[s.begin..s.begin + s.reader.amount]);
    case SizeFirst => s' := s.(reader := Sizing(s.begin));
    case RangeFirst(offset) => s' := s.(reader := Ranging(s.end, offset));
    case SizeSecond => s' := s.(reader := Idle);
    case RangeSecond => s' := s.(reader := Idle);
    case EventStarts => s' := s.(queued := s.queued - 1, starting := true);
    case EventClears => s' := s.(scheduled := false, starting := false, announced := |s.written|);
  }

  // ----- everything can be read

  /** What may be done, in terms of the sequence of elements. */
  lemma WhatIsAllowed(s: State, e: Element, data: seq<Element>, n: nat)
    requires Inv(s)
    ensures Allowed(s, Write(e)) <==> |s.written| - |s.read| < |s.buffer| - 1
    ensures Allowed(s, WriteAll(data)) <==> |s.written| - |s.read| + |data| <= |s.buffer| - 1
    ensures s.reader.Idle? ==> Allowed(s, SizeFirst) && (Allowed(s, GetFirst) <==> |s.read| < |s.written|)
    ensures s.reader.Idle? ==> (Allowed(s, ConsumeTurn(n)) <==> |s.read| + n <= |s.written|)
    ensures s.reader.Idle? ==> (Allowed(s, RangeFirst(n)) <==> |s.read| + n <= |s.written|)
    ensures Allowed(s, GetMove) <==> s.reader.Getting?
    ensures Allowed(s, ConsumeMove) <==> s.reader.Consuming?
    ensures Allowed(s, SizeSecond) <==> s.reader.Sizing?
    ensures Allowed(s, RangeSecond) <==> s.reader.Ranging?
    ensures Allowed(s, EventStarts) <==> s.queued > 0 && !s.starting
    ensures Allowed(s, EventClears) <==> s.starting
  {
    hide Between, ReaderKnows;
    BetweenLength(s.buffer, s.begin, s.end);
  }

  ghost predicate Leads(s: State, t: State, n: nat)
    decreases n
  {
    if n == 0 then s == t
    else Bounded(s) && exists step, u :: LeadsBy(s, step, u) && Leads(u, t, n - 1)
  }

  ghost predicate LeadsBy(s: State, step: Step, u: State)
    requires Bounded(s)
  {
    !step.Write? && !step.WriteAll? && Allowed(s, step) && Next(s, step, u)
  }

  lemma LeadsOn(s: State, step: Step, u: State, t: State, n: nat)
    requires Bounded(s) && LeadsBy(s, step, u) && Leads(u, t, n)
    ensures Leads(s, t, n + 1)
  {
    hide LeadsBy;
  }

  /** One step of the reader: it finishes what it is doing, or begins to get an element. */
  lemma ReaderGoes(s: State) returns (step: Step, u: State)
    requires Inv(s) && (s.reader.Idle? ==> |s.read| < |s.written|)
    ensures LeadsBy(s, step, u) && Inv(u) && u.written == s.written && |u.read| >= |s.read|
    ensures if s.reader.Idle? then u.reader.Getting? && u.read == s.read
      else u.reader.Idle? && (s.reader.Getting? ==> |u.read| == |s.read| + 1)
  {
    hide Between, Inv, Allowed, Next;
    step := if s.reader.Idle? then GetFirst else if s.reader.Getting? then GetMove
      else if s.reader.Consuming? then ConsumeMove else if s.reader.Sizing? then SizeSecond else RangeSecond;
    WhatIsAllowed(s, 0, [], 0);
    u := NothingIsRefused(s, step);
    StepKeeps(s, step, u);
    ReaderMoves(s, step, u);
  }

  lemma ReaderMoves(s: State, step: Step, u: State)
    requires Inv(s) && Next(s, step, u) && step in {GetFirst, GetMove, ConsumeMove, SizeSecond, RangeSecond}
    ensures u.written == s.written && |u.read| >= |s.read|
    ensures step.GetFirst? ==> u.reader.Getting? && u.read == s.read
    ensures !step.GetFirst? ==> u.reader.Idle?
    ensures step.GetMove? ==> |u.read| == |s.read| + 1
  {
    hide Between, ReaderKnows;
  }

  lemma ReadWithin(s: State)
    requires Inv(s)
    ensures |s.read| <= |s.written|
  {}

  lemma AllIsRead(s: State)
    requires Inv(s) && |s.read| >= |s.written|
    ensures s.read == s.written
  {}

  /** From every state the reader can go on until it has read all that was written. */
  lemma {:induction false} EverythingCanBeRead(s: State) returns (t: State, n: nat)
    requires Inv(s)
    ensures Leads(s, t, n) && Inv(t) && t.written == s.written && t.read == t.written && t.reader.Idle?
    decreases |s.written| - |s.read|, if s.reader.Getting? then 1 else if s.reader.Idle? then 2 else 3
  {
    hide Inv, Leads, LeadsBy, Bounded;
    assert Bounded(s) by { IsBounded(s); }
    if s.reader.Idle? && |s.read| >= |s.written| {
      AllIsRead(s);
      t, n := s, 0;
      LeadsNowhere(s);
    } else {
      var step, u := ReaderGoes(s);
      ReadWithin(u);
      t, n := EverythingCanBeRead(u);
      LeadsOn(s, step, u, t, n);
      n := n + 1;
    }
  }

  lemma IsBounded(s: State)
    requires Inv(s)
    ensures Bounded(s)
  {}

  lemma LeadsNowhere(s: State)
    ensures Leads(s, s, 0)
  {}

  /** And what was written since the callback was last about to be called can be announced. */
  lemma CanBeAnnounced(s: State) returns (t: State, n: nat)
    requires Inv(s) && s.announced < |s.written|
    ensures Leads(s, t, n) && Inv(t) && t.written == s.written && t.announced == |t.written| && n <= 2
  {
    hide Between, ReaderKnows, Leads;
    var u := s;
    n := 0;
    if !s.starting {
      u := s.(queued := s.queued - 1, starting := true);
      StepKeeps(s, EventStarts, u);
    }
    t := u.(scheduled := false, starting := false, announced := |u.written|);
    StepKeeps(u, EventClears, t);
    LeadsNowhere(t);
    LeadsOn(u, EventClears, t, t, 0);
    n := 1;
    if !s.starting {
      LeadsOn(s, EventStarts, u, t, 1);
      n := 2;
    }
  }
}
