/** What a vector of positions means: the part of the program that is still to be done from there on. */
module SequencerPoints {
  import opened SequencerProgram
  import opened StructuredExecution
  import opened SequencerReplay

  /** `e` as seen from `n` positions further on in its context. */
  function From(e: seq<nat>, n: nat): seq<nat>
    requires |e| > 0 && e[0] >= n
  {
    [e[0] - n] + e[1..]
  }

  /** `e` lies inside a body that is the context at position `x`. */
  predicate Inside(e: seq<nat>, x: nat) {
    |e| > 1 && e[0] == x
  }

  ghost predicate InBlock(b: Block, e: seq<nat>)
    decreases b
  {
    |e| > 0 &&
    match b
    case Nil => e == [0]
    case Cons(s, rest) => if e[0] < Width(s) then InStatement(s, e) else InBlock(rest, From(e, Width(s)))
  }

  ghost predicate InStatement(s: Statement, e: seq<nat>)
    decreases s
  {
    |e| > 0 &&
    (e == [0] || e == [Width(s)] ||
     match s
     case Step(_) => false
     case Execute(body) => Inside(e, 0) && InBlock(body, e[1..])
     case If(_, body, a) => (Inside(e, 1) && InBlock(body, e[1..])) || (e[0] >= 2 && InAlternative(a, From(e, 2)))
     case While(_, body) => Inside(e, 1) && InBlock(body, e[1..])
     case DoWhile(body, _) => Inside(e, 1) && InBlock(body, e[1..])
     case ForEach(_, _, _, body) => e == [1] || (Inside(e, 2) && InBlock(body, e[1..])))
  }

  ghost predicate InAlternative(a: Alternative, e: seq<nat>)
    decreases a
  {
    |e| > 0 &&
    (e == [0] || e == [1] ||
     match a
     case EndIf => false
     case Else(body) => Inside(e, 1) && InBlock(body, e[1..])
     case ElseIf(_, body, next) =>
       (Inside(e, 2) && InBlock(body, e[1..])) || (e[0] >= 3 && InAlternative(next, From(e, 3))))
  }

  /** What is left of `b`, and then `k`. */
  ghost function RestOfBlock(b: Block, e: seq<nat>, k: Rest): Rest
    requires InBlock(b, e)
    decreases b
  {
    match b
    case Nil => k
    case Cons(s, rest) =>
      if e[0] < Width(s) then RestOfStatement(s, e, Push(rest, k)) else RestOfBlock(rest, From(e, Width(s)), k)
  }

  ghost function RestOfStatement(s: Statement, e: seq<nat>, k: Rest): Rest
    requires InStatement(s, e)
    decreases s
  {
    if e == [0] then Do(s, k)
    else if e == [Width(s)] then k
    else
      match s
      case Step(_) => k
      case Execute(body) => RestOfBlock(body, e[1..], k)
      case If(_, body, a) =>
        if Inside(e, 1) then RestOfBlock(body, e[1..], k) else RestOfAlternative(a, From(e, 2), k)
      case While(_, body) => RestOfBlock(body, e[1..], Again(s, k))
      case DoWhile(body, _) => RestOfBlock(body, e[1..], Until(s, k))
      case ForEach(v, _, _, body) =>
        if e == [1] then Iterate(s, k) else RestOfBlock(body, e[1..], Increment(v, Iterate(s, k)))
  }

  /** Position 0 of an alternative is reached when a branch has been done, position 1 when all tests so far failed. */
  ghost function RestOfAlternative(a: Alternative, e: seq<nat>, k: Rest): Rest
    requires InAlternative(a, e)
    decreases a
  {
    if e == [0] then k
    else if e == [1] then Otherwise(a, k)
    else
      match a
      case EndIf => k
      case Else(body) => RestOfBlock(body, e[1..], k)
      case ElseIf(_, body, next) =>
        if Inside(e, 2) then RestOfBlock(body, e[1..], k) else RestOfAlternative(next, From(e, 3), k)
  }

  lemma {:induction false} RestFromStart(b: Block, k: Rest)
    ensures InBlock(b, [0]) && RestOfBlock(b, [0], k) == Push(b, k)
  {
    hide InAlternative, RestOfAlternative;
    match b
    case Nil =>
    case Cons(s, rest) =>
      assert InStatement(s, [0]);
  }
}
