# Verified models of the infra library

The infra library gives embedded C++ programs their infrastructure without a heap: control flow that is spread over events, sets and
heaps that live inside their elements, streaming parsers and printers, and queues and timers shared with interrupts. This project
models the hardest of that code in Dafny and proves what it is for.

* **Sequencer.** A program of Step, Execute, If, ElseIf, Else, While, DoWhile and ForEach is re-run from its start on every Continue;
  two position vectors tell what has been done already. `StructuredExecution` defines what such a program means by itself, one micro
  step at a time with a continuation; `SequencerReplay` is what the code does to `execute`, `examine` and `repeat`. The main theorem,
  `ReplayIsDirectExecution`, says that the two perform the same Steps and the same tests in the same order, one Step for each
  call. It holds for every program that fits (at most 8 contexts, each with fewer than 256 positions), for every environment and for
  every run; `StraightLine` shows that the limit of 256 is exact. `SequencerMeaning` says what a program comes to by one rule for each
  statement, in terms of its parts alone, and that Load and Continue finish with exactly that. The object itself, with its fields updated in
  place, is `SequencerObject.Sequencer`.
* **Red-black set.** `RedBlackTree` treats the fix-up loops of insertion and removal on a tree with a path back to its root; `TreeLinks`,
  `TreeSurgery` and `TreeRemoval` show that every change of parent, child and colour fields turns the stored form of one tree into
  the stored form of another; `TreeThread` does the same for the list of next and previous links. `IntrusiveSet.Set` is the object,
  with all its fields: its insert and erase keep a red-black tree, a sorted order, a thread that matches it, and leave no link behind
  in an element that has gone. In erase, the node at which rebalancing starts may really be red (infra/util/IntrusiveSet.hpp:253-255
  look at a link that is already cleared); the proof covers this.
* **Event dispatcher.** Any number of producers and one consumer, every access to shared memory a step of its own, the weak
  compare-and-exchange included. While there is room, what is executed is a prefix of what was claimed and no assertion fails. Room is not
  necessary: `EventPatience` proves the same with any number of claims, as long as each producer stores when its slot has been emptied and
  checks when its flag has been cleared; the first check that comes earlier fails. In general, the assertion in Schedule fails if and
  only if the slot still belongs to the claim one turn older and that claim has been published; `OverrunUndetected` is a run in which it
  has not, and an action is lost without a failure. `EventProgress` says which steps can be taken, and that from
  every state of such a run everything scheduled can still be executed.
* **Streaming JSON parser.** `JsonTokens` and `JsonMachine` describe the parser as an automaton over single characters, with a visitor that
  is any function of the calls made to it so far, declining values and reporting semantic errors as it likes. `JsonStreaming` is the
  parser with its loops over whatever text it is given and its stack of parsers updated in place; its Feed is proved to be the automaton,
  so the result does not depend on how the text is cut. `JsonSkip` proves that a nested value that is declined, or for which there is no
  parser left, is passed over exactly to its closing bracket. `JsonSyntax` is JSON as it may be written, with any spaces, any spelling of
  strings, null, fractions and exponents; `JsonMeaning` proves that each such text makes exactly the visitor calls that describe it,
  `JsonFormatted` that the text of the formatters is one of them. `JsonVerdict` says which tokens and texts are reported as errors.
* **JSON text.** `JsonLexer` has the tokens of a text (`Characters` the classes of characters), `JsonEscapes` strings as they are written and read, `JsonIteration` the iterators over
  objects and arrays and the text that the formatters give a value; `JsonReader` and `JsonWriter` are the tokenizer, iterators and
  formatters themselves, with their loops. Reading undoes formatting for every tree of values in the domain. `JsonSpacing`
  proves that what is read depends on the tokens alone, so spaces between them do not matter, and `JsonGrammar` that iterating succeeds for
  exactly the texts of a grammar. `JsonClean` cleans a text
  in the buffer that it is read from, for texts and buffers of any kind, whether or not writing gets ahead of reading.
* **Protocol Buffers.** `ProtoFormat` is the recursive encoding and a reader that slices its input; `ProtoWriting` is the writer that moves a
  nested message to the end of the buffer, writes its length and moves it back; `ProtoReading` is the reader that has a chain of length
  limits instead of slices. The first writes the encoding, the second reads as if it sliced, and slicing undoes the encoding.
  `ProtoBytes` ties the encoding, byte by byte, to the digits of the numbers in base 128 and 256.
* **Interrupts.** `IrqQueue` (a ring filled by an interrupt), `TickTimer` (ticks counted by an interrupt) and `ClaimableResource` (claims
  granted by a dispatched event) are state machines; their theorems are about every run, and say that none of them gets stuck.
* **Heaps.** `HeapLinks` shows that a complete binary tree of up, left and right links is determined by its nodes in level order;
  `PointerHeap.PriorityQueue` is the heap addressed by the bits of its size; `ArrayHeap` erases at any position of an array heap.
* **Base64.** The encoder and the decoder carry bits from byte to byte; both are tied to the definition by groups of three bytes.

Six results are about what the code does not do.

* `TickTimer.NotificationCanBeMissed`: ProcessTicks compares the count with the threshold and only then assigns notificationScheduled. An
  interrupt in between that reaches the threshold schedules nothing, and its notification is lost until the next interrupt,
  although the comment in infra/timer/TickOnInterruptTimerService.cpp:64-68 means to exclude this. `IdleIffLost` says exactly when: the
  main program is idle with the threshold reached iff such an interrupt, or lowering the threshold to the count while nothing is scheduled,
  has happened and no interrupt or higher threshold has made up for it since.
* `IrqQueue.OversizedReplacesContents`: a write that does not fit is accepted when the queue begins at the start of the buffer and the data
  does not fill the buffer a second time; all that was unread is then lost, and so is the first part of the data. `AddAllOutcome` has the
  exact conditions for accepting, for dropping without a word and for the failed assertion, `OversizedWriteIsLost` an instance.
* `JsonEscapes.ReadBackIffNoBackslash`: a backslash in a string is written as it is (it is missing from the set at
  infra/syntax/JsonFormatter.cpp:34, although lines 10 and 22 provide for it). A string is recovered from its text if and only if it
  contains no backslash, so the condition on strings in `JsonIteration.InDomain` is exact.
* `JsonClean.CommaIsOverwritten`: integers have 32 bits, and 2147483648 becomes -2147483648, one character longer, which overwrites the
  character behind it before that is read. `CopiedIsShort` says exactly which numbers are too long, `OverwritesIffAhead` exactly in which
  texts an unread character is overwritten; in all others the buffer ends up as a separate buffer would. `OverwrittenUnnoticed` is a text
  in which the overwritten character makes no difference, so that condition is not necessary for the result.
* `EventDispatcher.OverrunUndetected`: see above.
* `ProtoWriting.WriteField`: a field that does not fit is a recorded failure under a soft error policy, but a nested message that does not fit
  always trips an assertion, because the stream that writes its length has an error policy of its own
  (infra/stream/OutputStream.hpp:308-311).

`dafny verify dfyconfig.toml` checks the project.

## Model

| member | source | states |
|---|---|---|
| SequencerTheorems.ReplayIsDirectExecution | infra/util/Sequencer.cpp:5-244 | in every run, after Load and any number of Continue calls, the sequencer stands exactly where direct structured execution stands after some number of micro steps: same events in the same order, same variables, same rest of the program; each call performed exactly one Step, and the one that finishes none |
| SequencerTheorems.ContinueIsDirect | infra/util/Sequencer.cpp:12-28 | whenever Continue returns it has done what direct execution does up to and including its next Step, or up to the end |
| SequencerTheorems.ContinueReturns | infra/util/Sequencer.cpp:12-28 | Continue returns whenever direct execution reaches a Step or the end, so a loop without a Step is the only way not to return |
| SequencerTheorems.PassIsDirect | infra/util/Sequencer.cpp:12-28 | one walk over the whole program does what direct execution does next, up to the end, up to a Step, or up to a jump back, and repeat and Finished tell which |
| SequencerTheorems.StraightLine | infra/util/Sequencer.hpp:51-52 | with n Steps in a row one Load performs one Step for every 256 positions begun and reports itself finished iff 256 divides n; so it is right iff n is below 256 |
| SequencerMeaning.AssignedIsRead | infra/util/Sequencer.cpp:160-163 | an assignment sets one variable, in 32 bits, and no other |
| SequencerMeaning.LookingChangesNothing | infra/util/Sequencer.cpp:165-172 | tests and comparisons change no variable, and each is seen once with its answer |
| SequencerMeaning.ActedOnce | infra/util/Sequencer.cpp:30-36 | a Step is seen once, and its action alone decides about the variables |
| SequencerMeaning.NothingEnds | infra/util/Sequencer.cpp:12-28 | a program without statements ends where it begins |
| SequencerMeaning.SequenceEnds | infra/util/Sequencer.cpp:12-28 | a sequence comes to its end iff its first statement does, and from there the others |
| SequencerMeaning.StepEnds | infra/util/Sequencer.cpp:30-36 | a Step ends with its action performed |
| SequencerMeaning.ExecuteEnds | infra/util/Sequencer.cpp:38-52 | Execute ends as its sequence does |
| SequencerMeaning.IfEnds | infra/util/Sequencer.cpp:54-104 | If ends as its body does if the condition holds, and as its alternative does otherwise, the condition tested once |
| SequencerMeaning.WhileEnds | infra/util/Sequencer.cpp:106-121 | While ends at once if the condition does not hold, and otherwise iff its body ends and While does from there |
| SequencerMeaning.DoWhileEnds | infra/util/Sequencer.cpp:123-143 | DoWhile ends iff its body does, and from there DoWhile again if the condition holds |
| SequencerMeaning.ForEachEnds | infra/util/Sequencer.cpp:145-189 | with a body that leaves the variable alone, ForEach ends iff the body does once for each value from the first up to the limit, in that order and going round 2^32; and then the variable is the limit |
| SequencerMeaning.EnteredWith | infra/util/Sequencer.cpp:145-189 | the body is entered as many times as there are values, each time with the next value |
| SequencerMeaning.FinishesIffEnds | infra/util/Sequencer.cpp:5-28 | for every program that fits: Load followed by Continue can finish in a world iff the program ends in it by these rules |
| SequencerMeaning.ForEachCalls | infra/util/Sequencer.cpp:145-189 | in every run over a ForEach around one Step, the sequencer is finished after exactly as many calls and Steps as there are values |
| SequencerSkip.SkipBlock | infra/util/Sequencer.cpp:191-205 | a block in which control is not, however nested, is walked over without any effect but that examine moves to its end |
| SequencerLive.LiveBlock | infra/util/Sequencer.cpp:38-189 | a block in which control is: the walk does quietly what direct execution does from that position, then flows out, pauses after one Step, or jumps back, and its new position stands for what is left |
| SequencerLive.LiveStep | infra/util/Sequencer.cpp:30-36 | a Step at the current position is performed once and pauses there |
| SequencerLive.LiveExecute | infra/util/Sequencer.cpp:38-52 | the same of a nested sequence |
| SequencerLive.LiveIf | infra/util/Sequencer.cpp:54-66 | the same of If with its alternatives: the condition is tested once and no alternative is entered after a body |
| SequencerLive.LiveElseIf | infra/util/Sequencer.cpp:68-88 | the same of ElseIf, at each of its three positions |
| SequencerLive.LiveElse | infra/util/Sequencer.cpp:97-104 | the same of Else |
| SequencerLive.LiveWhile | infra/util/Sequencer.cpp:106-121 | the same of While: the end of the body jumps back to the condition |
| SequencerLive.LiveDoWhile | infra/util/Sequencer.cpp:123-143 | the same of DoWhile: the condition is tested after the body |
| SequencerLive.LiveForEach | infra/util/Sequencer.cpp:145-189 | the same of ForEach: the variable is set once, compared before every round and increased after it, in 32 bits |
| SequencerObject.BlockKeepsContexts | infra/util/Sequencer.cpp:223-244 | a walk over a block leaves as many contexts open as it found |
| SequencerObject.Sequencer.Load | infra/util/Sequencer.cpp:5-10 | the object then stands where direct execution stands after its first Step, or at the end |
| SequencerObject.Sequencer.Continue | infra/util/Sequencer.cpp:12-28 | the object goes on as direct execution does to just after its next Step, or to the end |
| SequencerObject.Sequencer.Round | infra/util/Sequencer.cpp:16-23 | one turn of the loop in Continue is one walk over the program |
| SequencerObject.Sequencer.CallBlock | infra/util/Sequencer.cpp:30-189 | calling the member functions of a block one after the other, with at most 8 contexts, is the walk over it |
| RedBlackTree.InsertIsRedBlack | infra/util/IntrusiveSet.hpp:167-228 | putting a new element at any leaf of a red-black tree and restoring the colours gives a red-black tree with the element at that place of the order |
| RedBlackTree.EraseIsRedBlack | infra/util/IntrusiveSet.hpp:231-385 | removing any node of a red-black tree and rebalancing gives a red-black tree whose order is the old one without it |
| RedBlackTree.InsertFixBalanced | infra/util/IntrusiveSet.hpp:177-227 | the loop after an insertion ends with equal black counts, no two reds in line and a black root |
| RedBlackTree.InsertFixKeepsOrder | infra/util/IntrusiveSet.hpp:177-227 | that loop does not change the order |
| RedBlackTree.EraseFixBalanced | infra/util/IntrusiveSet.hpp:291-384 | the loop after a removal makes up for the missing black, whether or not the node it starts at is really black |
| RedBlackTree.EraseFixKeepsOrder | infra/util/IntrusiveSet.hpp:291-384 | that loop does not change the order |
| RedBlackTree.RemoveBalanced | infra/util/IntrusiveSet.hpp:240-289 | after the colours are handed over the tree is balanced, or short of one black at exactly the place where rebalancing starts |
| RedBlackTree.RemoveOrder | infra/util/IntrusiveBinarySearchTree.hpp:572-671 | putting the successor or the only child in the place of a node removes just that node from the order |
| RedBlackTree.InvariantIsExact | infra/util/IntrusiveSet.hpp:123-164 | the library's own check of the colours succeeds iff the tree is red-black |
| TreeLinks.RotateStores | infra/util/IntrusiveBinarySearchTree.hpp:352-387 | a rotation of the links is a rotation of the stored tree, at the root and below it |
| TreeRemoval.RemoveLinksStores | infra/util/IntrusiveBinarySearchTree.hpp:572-671 | the changes of links in remove_from_tree store the tree in which the successor has taken the node's place |
| TreeSurgery.SingleStepStores | infra/util/IntrusiveSet.hpp:299-325 | the single rotation with its colours stores the tree that borrows from the outer nephew |
| TreeSurgery.DoubleStepStores | infra/util/IntrusiveSet.hpp:299-334 | the double rotation with its colours stores the tree that borrows from the inner nephew |
| TreeThread.AttachThreads | infra/util/IntrusiveBinarySearchTree.hpp:516-569 | the next and previous links then run through the order with the new element beside its parent |
| TreeThread.UnthreadThreads | infra/util/IntrusiveBinarySearchTree.hpp:680-689 | the next and previous links then run through the order without the element |
| IntrusiveSet.Set.constructor | infra/util/IntrusiveSet.hpp:91-95 | an empty set |
| IntrusiveSet.Set.LeftRotate | infra/util/IntrusiveBinarySearchTree.hpp:370-387 | the fields afterwards are those of the rotation |
| IntrusiveSet.Set.RightRotate | infra/util/IntrusiveBinarySearchTree.hpp:351-368 | the fields afterwards are those of the mirrored rotation |
| IntrusiveSet.Set.FindPlace | infra/util/IntrusiveBinarySearchTree.hpp:528-553 | the search ends at a free link, with everything before it not greater than the new key and everything after it greater |
| IntrusiveSet.Set.InsertInTree | infra/util/IntrusiveBinarySearchTree.hpp:516-569 | the new element, whose key may be in the set already, is a leaf where its key belongs, the thread runs through the sorted order with it, front, back and the count are right |
| IntrusiveSet.Set.Insert | infra/util/IntrusiveSet.hpp:167-228 | a valid set (red-black, sorted, threaded, counted, no stray links) stays valid, and its order is the old one with the element inserted behind all that are not greater and before all that are |
| IntrusiveSet.Set.RestoreColours | infra/util/IntrusiveSet.hpp:177-227 | the loop on the fields stores exactly the tree of the loop on trees |
| IntrusiveSet.Set.RemoveFromTree | infra/util/IntrusiveBinarySearchTree.hpp:572-671 | the links store the tree without the element, the thread runs through the order without it, and the returned slot is where rebalancing looks |
| IntrusiveSet.Set.EraseFromOrder | infra/util/IntrusiveBinarySearchTree.hpp:680-689 | the element is unlinked from its neighbours and its own thread links are cleared |
| IntrusiveSet.Set.FindMissing | infra/util/IntrusiveSet.hpp:250-276 | a missing black is noticed exactly when there is one or the cleared link hides that there is none, at the place where the tree is short of it |
| IntrusiveSet.Set.CopyColours | infra/util/IntrusiveSet.hpp:250-289 | the same, and the colours are handed over so that the links store the tree without the node |
| IntrusiveSet.Set.Rebalance | infra/util/IntrusiveSet.hpp:291-384 | the loop on the fields stores exactly the tree of the loop on trees |
| IntrusiveSet.Set.Erase | infra/util/IntrusiveSet.hpp:231-385 | a valid set stays valid, and its order is the old one without the element |
| EventDispatcher.StepKeeps | infra/event/EventDispatcher.cpp:16-84 | every step of every producer and of the consumer, each a single access to a shared variable, keeps the invariant that ties slots, flags, indices and tickets together, as long as there is room for a claim |
| EventDispatcher.InvIsSane | infra/event/EventDispatcher.cpp:16-34 | in every state of a run all indices are within the storage |
| EventDispatcher.ExecutedInOrder | infra/event/EventDispatcher.cpp:72-84 | in every interleaving the executed actions are a prefix of the claimed ones in claim order, no assertion fails, and when the dispatcher is idle with no claim in progress all of them have been executed |
| EventDispatcher.ExecuteKeeps | infra/event/EventDispatcher.cpp:74-76 | what the consumer executes is the completely written action of the next ticket |
| EventDispatcher.FailsIffOlderIsPublished | infra/event/EventDispatcher.cpp:16-28 | from any state that satisfies the invariant, in any interleaving and with any number of claims, room or not: the check of the next ticket, when no later one has been checked before it, fails iff the ticket one turn older has been published and its flag has not been cleared |
| EventDispatcher.FailsIffFull | infra/event/EventDispatcher.cpp:16-28 | when no other producer is inside Schedule and nothing else happens between claim, store and check, the assertion fails iff as many slots are claimed and not cleared as the storage has |
| EventDispatcher.OverrunUndetected | infra/event/EventDispatcher.cpp:16-34 | a run from an initial state with one slot in which two producers claim it, both see the flag false, no assertion fails, and of the two actions only the second is ever executed |
| EventDispatcher.CapacityIsLeft | infra/event/EventDispatcher.cpp:30-31 | what minCapacity is compared with lies between one and the size for all indices, so the second assertion never fails, and is the number of free slots at the claim when there was room |
| EventPatience.PatientStepKeeps | infra/event/EventDispatcher.cpp:16-84 | every step keeps the invariant with any number of claims beyond the storage, if a producer stores only when the ticket one turn older has been emptied and checks only when it has been cleared |
| EventPatience.NothingIsLost | infra/event/EventDispatcher.cpp:16-84 | in every such interleaving the executed actions are a prefix of the claimed ones in claim order, no assertion fails, and when the dispatcher is idle with no claim in progress all of them have been executed |
| EventPatience.RoomIsPatience | infra/event/EventDispatcher.cpp:16-34 | every run with room for each claim is such a run |
| EventPatience.ImpatientCheckFails | infra/event/EventDispatcher.cpp:27 | after any such run the assertion fails iff the check comes before the flag of the older ticket has been cleared |
| EventPatience.ImpatientStoreOverwrites | infra/event/EventDispatcher.cpp:26 | after any such run a store that comes too early goes to the slot of the older ticket, which holds that ticket's action or is still to be stored in by its producer |
| EventProgress.ProducerCan | infra/event/EventDispatcher.cpp:16-28 | a producer can take the next step of Schedule, and no other, in every state |
| EventProgress.ConsumerCan | infra/event/EventDispatcher.cpp:72-84 | the consumer can start on an action iff the ticket that is next has been published, and can always go on once it has started |
| EventProgress.CanClaim | infra/event/EventDispatcher.cpp:16-24 | any producer can claim at any time, and its action is then the last one scheduled |
| EventProgress.CanSchedule | infra/event/EventDispatcher.cpp:16-28 | with room a producer can go on to the end of Schedule, leaving all others as they were |
| EventProgress.EverythingCanBeExecuted | infra/event/EventDispatcher.cpp:16-84 | from every state, however many claims are in progress, steps of the code lead to one in which everything scheduled has been executed and no producer is inside Schedule |
| JsonTokens.RunMoves | infra/syntax/JsonStreamingParser.cpp:88-262 | looking for a token takes at least one character unless it ends a number or a word |
| JsonMachine.RunIsSteps | infra/syntax/JsonStreamingParser.cpp:88-262 | finding a token in one go and then dealing with it is the same as going on character by character |
| JsonMachine.StepsConcatenate | infra/syntax/JsonStreamingParser.cpp:721-727 | a text in two pieces leads to the same state and the same visitor calls as the whole text, from any state |
| JsonMachine.LateReport | infra/syntax/JsonStreamingParser.cpp:516-520 | a semantic error marked on a parser that was not innermost is reported as soon as it is innermost and there is data |
| JsonMachine.OnTokenValid | infra/syntax/JsonStreamingParser.cpp:369-508 | after every token no parser has a token or a syntax error left to deal with, and the nesting stays within its storage |
| JsonStreaming.SubParser.FeedToken | infra/syntax/JsonStreamingParser.cpp:88-262 | the loops over the text, for spaces and for strings included, find the token of the automaton and leave the same rest |
| JsonStreaming.SubParser.ReadString | infra/syntax/JsonStreamingParser.cpp:200-217 | the inner loop over a string takes its characters as the automaton would |
| JsonStreaming.SubParser.ContinueWord | infra/syntax/JsonStreamingParser.cpp:94-143 | numbers and words take a character or end without it as the automaton does |
| JsonStreaming.SubParser.UnicodeDigit | infra/syntax/JsonStreamingParser.cpp:222-256 | hexadecimal digits are collected in 16 bits and the fourth adds the character, as in the automaton |
| JsonStreaming.StreamingParser.constructor | infra/syntax/JsonStreamingParser.cpp:714-719 | one parser for the outermost object |
| JsonStreaming.StreamingParser.Visit | infra/syntax/JsonStreamingParser.cpp:381-382 | a visitor is called, and any of the nested parsers may be marked |
| JsonStreaming.StreamingParser.OpenNested | infra/syntax/JsonStreamingParser.cpp:400-451 | a nested value gets a parser of its own, or is to be skipped when the storage is full or the visitor declines it |
| JsonStreaming.StreamingParser.CloseInnermost | infra/syntax/JsonStreamingParser.cpp:472-478 | the visitor is told and the parser is gone |
| JsonStreaming.StreamingParser.ObjectToken | infra/syntax/JsonStreamingParser.cpp:373-504 | the alternatives for a token in an object are those of the automaton |
| JsonStreaming.StreamingParser.ArrayToken | infra/syntax/JsonStreamingParser.cpp:564-680 | the alternatives for a token in an array are those of the automaton |
| JsonStreaming.StreamingParser.ReportParseError | infra/syntax/JsonStreamingParser.cpp:264-277 | every visitor is told, innermost first, and all parsers are gone |
| JsonStreaming.StreamingParser.ReportSemanticError | infra/syntax/JsonStreamingParser.cpp:279-292 | every visitor but the innermost is told, and all parsers are gone |
| JsonStreaming.StreamingParser.FeedInnermost | infra/syntax/JsonStreamingParser.cpp:357-521 | the loop of one parser takes at least one character, and what it leaves still leads to where the whole would have led |
| JsonStreaming.StreamingParser.Feed | infra/syntax/JsonStreamingParser.cpp:721-727 | feeding any text ends, in the state and with the visitor calls of the automaton over its characters |
| JsonStreaming.FeedInPieces | infra/syntax/JsonStreamingParser.cpp:721-727 | of two parsers in the same state, one fed a text in two pieces and one in a single piece end in the same state with the same calls |
| JsonSkip.DeclinedValueIsPassedOver | infra/syntax/JsonStreamingParser.cpp:400-502 | after a declined value, whatever strings and however deep brackets it contains, the innermost parser is where it is after any value, no call was made about its inside, no other parser has moved |
| JsonSkip.InsideIsPassedOver | infra/syntax/JsonStreamingParser.cpp:479-502 | text with balanced brackets of the skipped kind and well-formed strings leaves the count of brackets as it was |
| JsonSkip.StepsPiece | infra/syntax/JsonStreamingParser.cpp:200-256 | while skipping, no character of a string, escaped or not, ends it or is kept |
| JsonSkip.InitiallyTidy | infra/syntax/JsonStreamingParser.cpp:714-719 | a new parser has empty buffers and counters, from where ReachedAwaitsValue starts |
| JsonSkip.ReachedAwaitsValue | infra/syntax/JsonStreamingParser.cpp:357-521 | in every state that any text leads to, a parser that expects a value with no token begun is ready to pass over a nested one |
| JsonEscapes.NonEscapedSubString | infra/syntax/JsonFormatter.cpp:32-46 | the longest part from the start on that has neither a quote nor a control character |
| JsonEscapes.InsertEscapedTag | infra/syntax/JsonFormatter.cpp:48-67 | the loop writes every character as it is or as its escape |
| JsonEscapes.JsonEscapedStringSize | infra/syntax/JsonFormatter.cpp:70-92 | the size is the number of characters that InsertEscapedTag writes, for every string |
| JsonEscapes.DecodeUndoesEscape | infra/syntax/Json.cpp:30-103 | a string without a backslash is read as it was written, and its text ends at its closing quote |
| JsonEscapes.NeverCaughtUp | infra/syntax/Json.cpp:30-103 | once characters were written that have not been read, reading never makes up for it, however the string goes on |
| JsonEscapes.ReadBackIffNoBackslash | infra/syntax/JsonFormatter.cpp:32-46 | for every string: its text ends at its closing quote and is read as it was written iff it contains no backslash |
| JsonEscapes.WrittenIs | infra/syntax/JsonFormatter.cpp:6-46 | how each character is written, by its code |
| JsonEscapes.EscapeIsDecoded | infra/syntax/Json.cpp:30-103 | how a character and an escape by a letter are read |
| JsonEscapes.CodeIsDecoded | infra/syntax/Json.cpp:30-103 | of a Unicode escape with four digits the low eight bits are read |
| JsonLexer.LexOfText | infra/syntax/Json.cpp:518-536 | a text between quotes is one token, whatever follows, iff all its quotes are escaped and its end is not |
| JsonLexer.PastEndIffNothingFollows | infra/syntax/Json.cpp:523-531 | the loop over a string reads past the end of the text iff nothing follows the opening quote, and otherwise stops at the closing quote iff there is one |
| JsonLexer.LexOfInteger | infra/syntax/Json.cpp:538-562 | a printed integer is read as its value in 32 bits, wrapping around, when no digit follows |
| JsonLexer.StaysInRange | infra/syntax/Json.cpp:554-556 | the loop over the digits stays within 32 bits iff the number is below 2^31 - 48, since a digit's character is added before '0' is subtracted |
| JsonLexer.MarksAre | infra/syntax/Json.cpp:460-500 | which characters are tokens by themselves |
| JsonLexer.WordsAre | infra/syntax/Json.cpp:565-580 | a word is true, false, or an error |
| JsonLexer.IntegersAre | infra/syntax/Json.cpp:538-562 | digits with or without a sign, leading zeros included, are their value in 32 bits |
| JsonLexer.OthersAreErrors | infra/syntax/Json.cpp:460-500 | no other character begins a token |
| JsonSpacing.LexAfterAnySpace | infra/syntax/Json.cpp:512-516 | each of the six space characters in front of a text is passed over |
| JsonSpacing.NothingElseIsSkipped | infra/syntax/Json.cpp:512-516 | and no other |
| JsonSpacing.SpaceKeepsTokens | infra/syntax/Json.cpp:460-516 | a space inserted between any two tokens of any text leaves the tokens as they were |
| JsonSpacing.RecoveredSame | infra/syntax/Json.cpp:779-1111 | what is read, to any depth, depends on the tokens of the text alone |
| JsonSpacing.SpaceKeepsReading | infra/syntax/Json.cpp:779-1111 | so a space inserted between tokens changes nothing of what is read |
| JsonSpacing.SpacedTextIsRead | infra/syntax/Json.cpp:779-1111 | any text with the tokens of a formatted value is read as that value |
| JsonGrammar.AcceptsIffSentence | infra/syntax/Json.cpp:855-1111 | iterating over any text comes to its end without an error iff its tokens begin with a sentence of the grammar, and the keys and values seen, up to the end or the first fault, are those that the grammar lists |
| JsonReader.Tokenizer.Token | infra/syntax/Json.cpp:460-500 | for any text: the next token, and the tokenizer is behind it |
| JsonReader.Tokenizer.SearchQuote | infra/syntax/Json.cpp:523-531 | the loop stops at the first quote that is not escaped iff there is one |
| JsonReader.Tokenizer.TryCreateStringToken | infra/syntax/Json.cpp:518-536 | the string up to the first quote that is not escaped, or an error |
| JsonReader.Tokenizer.TryCreateIntegerToken | infra/syntax/Json.cpp:538-562 | the loops, in 32 bits, read all digits and compute the value of the whole number in 32 bits |
| JsonReader.Iterator.SearchEnd | infra/syntax/Json.cpp:815-853 | for any text: the tokenizer is behind the matching bracket iff there is one before an error |
| JsonReader.Iterator.ConvertValue | infra/syntax/Json.cpp:779-813 | a value, which for an object or an array is its text up to the matching bracket |
| JsonReader.Iterator.ParseNextToken | infra/syntax/Json.cpp:911-991 | one token, in every state of the iterator: what was ahead is the item now read and what is ahead now |
| JsonReader.Iterator.Increment | infra/syntax/Json.cpp:901-909 | the loop ends, at the next item or at the end |
| JsonReader.ReadAll | infra/syntax/Json.cpp:855-1111 | for any text, well-formed or not: a loop over an object or array sees all items up to an error, and whether there was one |
| JsonWriter.TextStream.OutputAsDecimal | infra/stream/OutputStream.cpp:231-250 | the two loops write the decimal digits |
| JsonWriter.WriteValue | infra/syntax/JsonFormatter.cpp:94-330 | adding values, to any depth, leaves their text behind what was written before |
| JsonWriter.WriteMembers | infra/syntax/JsonFormatter.cpp:247-253 | members added one after the other are separated, the first one not |
| JsonRoundTrip.SearchInside | infra/syntax/Json.cpp:815-853 | in formatted text the search stops at exactly the bracket that closes the value, and passes over those of nested values |
| JsonRoundTrip.IterationYieldsMembers | infra/syntax/Json.cpp:855-1111 | iterating over a formatted object or array yields its members in order and ends without an error |
| JsonRoundTrip.ReadingUndoesFormatting | infra/syntax/Json.cpp:779-1111 | every tree of booleans, integers, strings, objects and arrays in the domain is recovered from its text, to any depth |
| JsonClean.CopiedIsShort | infra/syntax/Json.cpp:1148-1227 | a token is copied to more characters than it was read from iff it is a number without a sign, of ten digits, whose value modulo 2^32 lies between 2^31 and 2^32 - 10^9; and then to one more |
| JsonClean.NoneTooLongKeepsUp | infra/syntax/Json.cpp:1229-1240 | in a text without such numbers writing never gets ahead of reading |
| JsonClean.OverwritesIffAhead | infra/syntax/Json.cpp:1229-1240 | for any text and buffer: the loop overwrites a character that it has not read iff, in the text alone, some token before the last character ends further on when copied than when read |
| JsonClean.InPlaceIsCleaned | infra/syntax/Json.cpp:1229-1240 | if not, the loop leaves what cleaning into a separate buffer gives, or halts iff that does not fit |
| JsonClean.CommaIsOverwritten | infra/syntax/Json.cpp:1229-1240 | what the loop makes of [2147483648,7] in any larger buffer: the comma and the bracket are overwritten before they are read |
| JsonClean.CommaIsKeptElsewhere | infra/syntax/Json.cpp:1229-1240 | a separate buffer would hold [-2147483648,7], and in that text writing gets ahead |
| JsonClean.OverwrittenUnnoticed | infra/syntax/Json.cpp:1229-1240 | a text in which an unread character is overwritten and the result is that of a separate buffer all the same |
| JsonClean.CopyToken | infra/syntax/Json.cpp:1148-1227 | the buffer afterwards, for any positions of reading and writing: a string is read from the buffer, character by character, while it is written |
| JsonClean.CleanJsonContents | infra/syntax/Json.cpp:1229-1240 | for any text and buffer the loop is InPlace; if writing does not get ahead of reading the buffer then holds what cleaning into a separate buffer gives, and the assertion fails iff that does not fit |
| JsonClean.CleaningKeepsTokens | infra/syntax/Json.cpp:1229-1240 | the cleaned text has the same tokens iff no number is followed by a number without a sign and no word by a word; and then cleaning again changes nothing |
| JsonMeaning.StringIsKept | infra/syntax/JsonStreamingParser.cpp:200-256 | the text of a string, with any escapes, leaves in the buffer the string that it means, of a Unicode escape the low eight bits |
| JsonMeaning.FigureIsRead | infra/syntax/JsonStreamingParser.cpp:94-106 | the digits of a number leave its value and its sign |
| JsonMeaning.TailIsRead | infra/syntax/JsonStreamingParser.cpp:101-127 | fraction and exponent are passed over |
| JsonMeaning.WordIsRead | infra/syntax/JsonStreamingParser.cpp:128-143 | any word that fits is left in the buffer |
| JsonMeaning.ValueLeads | infra/syntax/JsonStreamingParser.cpp:373-508 | any JSON value, true, false, null, a number, a string or nested to any depth within the storage, however it is spaced and spelled, makes exactly the calls that describe it, at the right depths and with the right tags, and the parser then waits for what follows a value |
| JsonMeaning.ObjectIsDescribed | infra/syntax/JsonStreamingParser.cpp:88-727 | any JSON text of an object, in whatever pieces, makes exactly the calls that describe its members, in order, and then Close, and no parser is left, whatever follows |
| JsonFormatted.FormattedIsDescribed | infra/syntax/JsonFormatter.cpp:94-330 | so does the text that the formatters write for an object |
| JsonVerdict.FailsIffIllegal | infra/syntax/JsonStreamingParser.cpp:373-680 | a token is reported as a syntax error, to all visitors, iff the grammar of JSON does not allow it where it stands |
| JsonVerdict.MarkFails | infra/syntax/JsonStreamingParser.cpp:373-680 | a bracket, comma or colon in the text where the grammar does not allow it ends the parsing with ParseFailed, whatever follows: a missing colon, a missing value, the wrong bracket |
| JsonVerdict.TrailingComma | infra/syntax/JsonStreamingParser.cpp:373-680 | so does a comma before a closing bracket |
| JsonVerdict.StrayCharacter | infra/syntax/JsonStreamingParser.cpp:145-198 | so does a character that begins no token |
| JsonVerdict.WordFails | infra/syntax/JsonStreamingParser.cpp:128-143 | so does every word but true, false and null, and these where no value may come |
| JsonVerdict.LongWordFails | infra/syntax/JsonStreamingParser.cpp:128-143 | so does a word that the buffer cannot hold |
| JsonVerdict.FigureFails | infra/syntax/JsonStreamingParser.cpp:373-680 | so does a number where no value may come |
| JsonVerdict.PhraseFails | infra/syntax/JsonStreamingParser.cpp:373-680 | so does a string where neither a key nor a value may come |
| JsonVerdict.OverflowIsTold | infra/syntax/JsonStreamingParser.cpp:200-217 | a string value that the buffer cannot hold is not visited; the visitor is told, and reading goes on behind it |
| JsonVerdict.CodeFails | infra/syntax/JsonStreamingParser.cpp:222-256 | a Unicode escape for which the buffer has no room ends the parsing with ParseFailed |
| JsonVerdict.BadCodeFails | infra/syntax/JsonStreamingParser.cpp:222-256 | so does one that is not hexadecimal |
| JsonVerdict.FailuresAre | infra/syntax/JsonStreamingParser.cpp:264-292 | every visitor is told once, from the innermost outwards |
| JsonVerdict.RejectedIsTold | infra/syntax/JsonStreamingParser.cpp:279-292 | a visitor that finds fault with a value ends the parsing; those around it are told, and it is not |
| JsonVerdict.SpaceChangesNothing | infra/syntax/JsonStreamingParser.cpp:151-153 | a space between tokens, anywhere in any text and with any visitor, changes nothing |
| JsonVerdict.OnlySpacesAreSkipped | infra/syntax/JsonStreamingParser.cpp:151-153 | and no other character is passed over there |
| ProtoFormat.VarIntRoundTrip | infra/syntax/ProtoParser.cpp:54-69 | a variable-length integer is read back whatever follows it |
| ProtoFormat.VarIntIsPrefixFree | infra/syntax/ProtoFormatter.cpp:35-46 | no proper prefix of its bytes is a variable-length integer |
| ProtoFormat.KeyRoundTrip | infra/syntax/ProtoParser.cpp:87-89 | a field number comes back from its key iff it is below 2^29 |
| ProtoFormat.ParseUndoesEncode | infra/syntax/ProtoParser.cpp:85-107 | reading the encoding of any tree of messages shorter than 2^32 bytes gives back the tree, as far as the caller descends into it |
| ProtoBytes.LittleEndianAt | infra/syntax/ProtoFormatter.cpp:55-63 | byte i of a word is its digit i in base 256 |
| ProtoBytes.FromLittleEndianAt | infra/syntax/ProtoParser.cpp:71-83 | a word read from bytes has them as its digits in base 256 |
| ProtoBytes.VarIntAtByte | infra/syntax/ProtoFormatter.cpp:35-46 | byte i of a variable-length integer is its digit i in base 128, plus 128 iff more follow |
| ProtoBytes.VarIntSize | infra/syntax/ProtoFormatter.cpp:35-46 | the number of bytes is the least that holds the value |
| ProtoBytes.VarIntIsRead | infra/syntax/ProtoParser.cpp:54-69 | reading takes the bytes up to the first below 128, and fails iff there is none |
| ProtoBytes.VarIntDigits | infra/syntax/ProtoParser.cpp:54-69 | the value read has the lower seven bits of the bytes as its digits in base 128 |
| ProtoBytes.FieldIs | infra/syntax/ProtoFormatter.cpp:77-118 | a field begins with eight times its number plus its wire type, in one byte if the number is below 16, followed by its value, the bytes of its word, or its length and that many bytes |
| ProtoBytes.ReadsIffThere | infra/syntax/ProtoParser.cpp:85-107 | a field is read iff it is there in full and its wire type is known |
| ProtoWriting.ByteWriter.Insert | infra/stream/ByteOutputStream.cpp:24-30 | the bytes are appended, or cut off at the end of the range with the failure recorded, and nothing else changes |
| ProtoWriting.ByteWriter.PutVarInt | infra/syntax/ProtoFormatter.cpp:35-46 | the loop appends the encoding of the integer |
| ProtoWriting.ByteWriter.SaveState | infra/stream/ByteOutputStream.cpp:47-54 | what was written since the marker is copied, back to front, to the end of the range |
| ProtoWriting.ByteWriter.RestoreState | infra/stream/ByteOutputStream.cpp:56-60 | what is behind the free range is copied forward and the offset is behind it |
| ProtoWriting.PatchLength | infra/stream/SavedMarkerStream.cpp:5-13 | the length is inserted at the marker in front of the payload, nothing before the marker or outside the range changes; it trips the assertion iff the length does not fit |
| ProtoWriting.WriteMessage | infra/syntax/ProtoFormatter.cpp:6-29 | a nested message, to any depth, leaves exactly its encoding behind what was written before; it trips the assertion iff it does not fit |
| ProtoWriting.WriteField | infra/syntax/ProtoFormatter.cpp:77-118 | every kind of field leaves exactly its encoding if it fits, and otherwise a recorded failure or, for a message, the assertion |
| ProtoWriting.WriteFields | infra/syntax/ProtoFormatter.cpp:6-118 | a list of fields leaves exactly its encoding if it fits; the assertion is tripped iff one of the messages does not fit |
| ProtoWriting.HaltsOnlyWhenFull | infra/syntax/ProtoFormatter.cpp:20-29 | the assertion is tripped only if the whole does not fit |
| ProtoReading.Reader.Extract | infra/stream/LimitedInputStream.cpp:15-21 | through any chain of limits: the next bytes are returned and every limit is lowered by their number, or a failure is recorded |
| ProtoReading.Reader.Available | infra/stream/LimitedInputStream.cpp:50-53 | the least of all limits and of what is left |
| ProtoReading.Reader.Empty | infra/stream/LimitedInputStream.cpp:45-48 | true iff nothing can be seen through the limits |
| ProtoReading.Reader.ExtractContiguousRange | infra/stream/LimitedInputStream.cpp:33-38 | as many of the next bytes as can be seen, with every limit lowered by their number |
| ProtoReading.Reader.SkipEverything | infra/syntax/ProtoParser.cpp:19-23 | everything that can be seen is skipped and every limit lowered by its size |
| ProtoReading.Reader.GetVarInt | infra/syntax/ProtoParser.cpp:54-69 | for any bytes: the value of an integer of at most ten bytes in 64 bits, or a recorded failure when it does not end |
| ProtoReading.Reader.GetField | infra/syntax/ProtoParser.cpp:85-107 | for any bytes whose variable-length integers have at most ten bytes: the header that slicing would find, with a new limit for a length-delimited field, a failure when that is longer than what is left, or the abort for an unknown wire type |
| ProtoReading.PushedSees | infra/syntax/ProtoParser.cpp:7-12 | a new limit shows exactly the first bytes of what could be seen |
| ProtoReading.PoppedIsAdvanced | infra/stream/LimitedInputStream.cpp:15-21 | what was consumed under a limit was consumed under all limits around it |
| ProtoReading.ReadItems | infra/syntax/ProtoParser.cpp:25-107 | whatever the limits and the bytes, as long as variable-length integers have at most ten of them: reading fields one after the other sees what slicing sees, and after a success every limit is lower by exactly what was read |
| ProtoReading.ReadPayload | infra/syntax/ProtoParser.cpp:19-42 | a length-delimited field read as bytes, skipped or descended into is consumed exactly |
| ProtoReading.ReadBack | infra/syntax/ProtoParser.cpp:85-107 | reading an encoded message gives back its fields and lowers every enclosing limit by exactly its size |
| IrqQueue.AddAppends | infra/event/QueueForOneReaderOneIrqWriter.hpp:63-75 | one element is appended, and the assertion fails iff there is no room |
| IrqQueue.AddAllAppendsIffItFits | infra/event/QueueForOneReaderOneIrqWriter.hpp:77-99 | a range of elements is appended, around the end of the buffer or not, iff it fits |
| IrqQueue.AddAllOutcome | infra/event/QueueForOneReaderOneIrqWriter.hpp:77-99 | for every state and range: accepted iff it fits, or the queue begins at the start of the buffer and the data ends before the buffer is filled a second time; dropped iff it does not fit and the contents go round the end; otherwise the assertion fails |
| IrqQueue.OversizedReplacesContents | infra/event/QueueForOneReaderOneIrqWriter.hpp:77-99 | a range accepted without room replaces the contents by its own elements from the one that went to the start of the buffer on |
| IrqQueue.OversizedWriteIsLost | infra/event/QueueForOneReaderOneIrqWriter.hpp:77-99 | an instance: a write of the size of the whole buffer, into an empty queue at its start, leaves the queue empty with no notification |
| IrqQueue.StepKeeps | infra/event/QueueForOneReaderOneIrqWriter.hpp:64-219 | every step of interrupt, reader and dispatcher keeps the invariant |
| IrqQueue.ReadsWhatWasWritten | infra/event/QueueForOneReaderOneIrqWriter.hpp:64-219 | in every interleaving the elements passed by the reader followed by the contents are the elements written, and what was written since the last callback is covered by exactly one event that has not reached its callback |
| IrqQueue.ResultsAreTrue | infra/event/QueueForOneReaderOneIrqWriter.hpp:123-200 | Get, Size and ContiguousRange, with interrupts between their loads, agree with the sequence of elements |
| IrqQueue.NothingIsRefused | infra/event/QueueForOneReaderOneIrqWriter.hpp:63-99 | a write that fits and a read of what is there never fail |
| IrqQueue.WhatIsAllowed | infra/event/QueueForOneReaderOneIrqWriter.hpp:63-219 | what the interrupt and the reader may do, in terms of the numbers of elements written and read |
| IrqQueue.EverythingCanBeRead | infra/event/QueueForOneReaderOneIrqWriter.hpp:123-200 | from every state the reader can go on until it has read all that was written |
| IrqQueue.CanBeAnnounced | infra/event/QueueForOneReaderOneIrqWriter.hpp:208-220 | from every state with something unannounced at most two steps of the dispatcher announce it |
| TickTimer.StepKeeps | infra/timer/TickOnInterruptTimerService.cpp:17-72 | every step of the interrupt and of ProcessTicks keeps the invariant |
| TickTimer.TimeIsKept | infra/timer/TickOnInterruptTimerService.cpp:29-72 | in every interleaving system time plus the ticks counted and in flight is the time elapsed, but for counts that wrap around; Now is the time elapsed; at most one ProcessTicks is to come |
| TickTimer.InterruptSchedules | infra/timer/TickOnInterruptTimerService.cpp:52-57 | an interrupt that leaves the count at or above the threshold leaves a ProcessTicks queued or running that will find that out, iff it does not fall between the comparison and the assignment in ProcessTicks |
| TickTimer.LostByStep | infra/timer/TickOnInterruptTimerService.cpp:52-72 | a step turns a state in which the threshold is reached and nothing will find that out on iff it lowers the threshold to the count while nothing is scheduled, or is an interrupt between comparison and assignment; off iff it is an interrupt while nothing is scheduled, a wrap-around or a higher threshold |
| TickTimer.LostIffNotRepaired | infra/timer/TickOnInterruptTimerService.cpp:52-72 | in every run a notification is lost iff such a step has occurred and none since has made up for it |
| TickTimer.IdleIffLost | infra/timer/TickOnInterruptTimerService.cpp:52-72 | in every run, with nothing queued or running, the count is at the threshold iff a notification was lost and nothing has made up for it |
| TickTimer.NotificationCanBeMissed | infra/timer/TickOnInterruptTimerService.cpp:64-71 | from every initial state there is a run that ends idle with a timer due and its threshold reached |
| TickTimer.ThresholdIsNotLate | infra/timer/TickOnInterruptTimerService.cpp:17-27 | the threshold is at most the ticks until the trigger, and equal to it iff that is at most half the range of the count |
| TickTimer.DueIsNoticed | infra/timer/TickOnInterruptTimerService.cpp:17-72 | in every run, when a trigger's time has come the count has reached its threshold, and a ProcessTicks is to come that will handle it iff the notification is not lost |
| TickTimer.ProcessTicksRuns | infra/timer/TickOnInterruptTimerService.cpp:59-72 | ProcessTicks, once queued, can run to its end; without interrupts it turns all ticks into system time, sets the threshold, and is queued again iff that is zero |
| TickTimer.InterruptCounts | infra/timer/TickOnInterruptTimerService.cpp:52-57 | an interrupt can come at any time, counts in 32 bits, and schedules iff the threshold is reached and nothing is scheduled |
| TickTimer.WhatIsEnabled | infra/timer/TickOnInterruptTimerService.cpp:59-72 | the main program can take the next step of ProcessTicks, or start a timer where one may be started, and no other |
| ClaimableResource.HeldByOne | infra/event/ClaimableResource.cpp:13-72 | in every run at most one claimer is granted and it is the current claim, no claimer waits twice, and a free resource with waiting claimers has a re-evaluation to come |
| ClaimableResource.GrantedInOrder | infra/event/ClaimableResource.cpp:13-50 | in every run claims are granted in the order they were made, at most once, and overtaken only when withdrawn |
| ClaimableResource.ClaimKeeps | infra/event/ClaimableResource.hpp:94-101 | claiming, also while holding the resource, keeps the invariant |
| ClaimableResource.GrantedReleaseKeeps | infra/event/ClaimableResource.hpp:104-110 | releasing the resource keeps the invariant and a claim made while holding it |
| ClaimableResource.WaitingReleaseKeeps | infra/event/ClaimableResource.cpp:65-72 | withdrawing a claim, or releasing without one, keeps the invariant |
| ClaimableResource.DispatchKeeps | infra/event/ClaimableResource.cpp:13-21 | a dispatched re-evaluation keeps the invariant |
| ClaimableResource.DestroyKeeps | infra/event/ClaimableResource.cpp:56-63 | a claimer that is destroyed leaves neither a grant nor a claim |
| ClaimableResource.WhatIsEnabled | infra/event/ClaimableResource.hpp:94-110 | a claimer may claim iff it does not wait already, and may let go and be destroyed at any time |
| ClaimableResource.ClaimIsLast | infra/event/ClaimableResource.cpp:23-30 | a claim goes to the end of the list, and is looked at when the resource is free |
| ClaimableResource.LettingGoFrees | infra/event/ClaimableResource.cpp:65-72 | letting go frees the resource, leaves the list alone and has it looked at |
| ClaimableResource.FirstIsGranted | infra/event/ClaimableResource.cpp:13-21 | when the resource is free the first that waits can be granted it, and no other |
| ClaimableResource.AllAreGranted | infra/event/ClaimableResource.cpp:13-72 | from every state, as each holder lets go, everyone that waits is granted the resource, in the order of the list |
| HeapLinks.SwapStores | infra/util/IntrusivePriorityQueue.hpp:152-186 | swapping a node with its parent by their links and those of their neighbours is swapping their positions in level order |
| HeapLinks.ReplaceStores | infra/util/IntrusivePriorityQueue.hpp:250-262 | the links of a node handed to another put that one in its position |
| PointerHeap.PriorityQueue.LastNode | infra/util/IntrusivePriorityQueue.hpp:341-361 | following the bits of the size leads to the last node in level order |
| PointerHeap.PriorityQueue.InsertAsLast | infra/util/IntrusivePriorityQueue.hpp:300-338 | the node is appended in level order, with links both ways |
| PointerHeap.PriorityQueue.SwapChildAndParentNodes | infra/util/IntrusivePriorityQueue.hpp:152-186 | the fields afterwards are those of the swap |
| PointerHeap.PriorityQueue.Push | infra/util/IntrusivePriorityQueue.hpp:189-196 | a complete tree in heap order stays one, with exactly the new node added |
| PointerHeap.PriorityQueue.Erase | infra/util/IntrusivePriorityQueue.hpp:212-289 | erasing any node leaves a complete tree in heap order with exactly that node gone |
| PointerHeap.PriorityQueue.Pop | infra/util/IntrusivePriorityQueue.hpp:199-202 | the same for the node on top |
| PointerHeap.PriorityQueue.Top | infra/util/IntrusivePriorityQueue.hpp:140-149 | no node has a higher priority |
| ArrayHeap.EraseHeap | infra/util/BoundedPriorityQueue.hpp:77-120 | for any position: it ends, the shortened array is a heap with exactly that element gone, and nothing behind the heap changes |
| ArrayHeap.NextHole | infra/util/BoundedPriorityQueue.hpp:85-112 | the hole moves up when the last element is larger than the parent, down to the larger child when it is smaller, and stays iff the last element fits |
| HeapOrder.MoveUp | infra/util/BoundedPriorityQueue.hpp:90-94 | a heap but for one element stays one when that element changes places with a smaller parent, and then fits below |
| HeapOrder.MoveDown | infra/util/BoundedPriorityQueue.hpp:95-112 | a heap but for one element stays one when that element changes places with its largest child |
| Base64.Encode | infra/stream/OutputStream.cpp:404-448 | the letters are those of RFC 4648, section 4, by groups of three bytes with padding |
| Base64.EncodedLength | infra/stream/OutputStream.cpp:431-445 | their number is four for every three bytes begun |
| Base64.LettersAre | infra/stream/OutputStream.cpp:404-448 | the letters are those of Table 1 of RFC 4648 |
| Base64.SameBits | infra/stream/OutputStream.cpp:404-448 | four letters are the 24 bits of three bytes, highest first |
| Base64.ValuesAre | infra/stream/InputStream.cpp:453-460 | a character has the value of its letter, and no other has one |
| Base64.DecodesIffComplete | infra/stream/InputStream.cpp:465-508 | no failure is reported iff there are letters enough for the destination and only padding where bits are left over |
| Base64.Decode | infra/stream/InputStream.cpp:465-508 | the two loops compute the recursive decoding, with what is left of the text and whether a failure was reported, for any text and destination size |
| Base64.RoundTrip | infra/stream/InputStream.cpp:453-508 | decoding an encoding into a destination of the original size gives back the bytes, reports no failure and stops right behind the text, whatever follows |

## Left out

- hal, lwip, the protobuf plugin and the platform-specific parts: they are I/O and foreign calls.
- JsonRoundTrip.ReadingUndoesFormatting: integers have 32 bits (those from 2^31 - 48 on are read back only by wrapping around, as JsonLexer.StaysInRange shows); keys, which are written and read as they are, have their quotes escaped already, as JsonLexer.LexOfText shows to be necessary; strings contain no backslash, as JsonEscapes.ReadBackIffNoBackslash shows to be necessary.
- JsonReader.Tokenizer.TryCreateIntegerToken: a sum that does not fit in 32 bits, which C++ leaves undefined, wraps around in two's complement; JsonLexer.StaysInRange says exactly when that happens.
- JsonReader.Tokenizer.TryCreateStringToken: a text that ends in an opening quote is an error here, where the original looks at a character past the end; JsonLexer.PastEndIffNothingFollows says that it does so for no other text.
- JSON: GetString and the other lookups by key, millifloats, and comparison of texts are left out.
- SequencerObject.Sequencer.Load: requires, as Continue does, that the program reaches a Step or its end, since the original does not return otherwise.
- SequencerObject.Sequencer.Continue: requires that the program reaches a Step or its end, since the original does not return otherwise; ContinueReturns and ContinueIsDirect show that this is exactly when it returns. Calling Continue on a finished sequencer, which starts it again, and plain C++ code between the calls of a sequence are not modelled; the bounds of ForEach are constants of the program.
- IntrusiveSet.Set.Insert: Compare is less-than on whole-number keys. Both mirror images of a case are one case with a side as a parameter. find, assign, swap, clear and the iterators are left out, and so is the library's own check of the order, which is strict and so fails once equal keys have been inserted.
- EventDispatcher: minCapacity, a statistic that nothing but its assertion depends on, is not part of the state, and updates of it by several producers at once are not modelled; EventDispatcher.CapacityIsLeft is about the value it is compared with. RequestExecution is left out; an action is a number.
- JsonStreaming.StreamingParser.Feed: the visitor does not destroy the parser. The value of a number is not limited to 64 bits. The buffer for values has room for at least one character, since the original asserts otherwise at the first letter of a word.
- JsonMeaning.ObjectIsDescribed: the visitor accepts every nested value and finds no fault, and the buffers are large enough for the keys, the strings and the words; JsonVerdict and JsonSkip are about the others.
- JsonFormatted.FormattedIsDescribed: in the domain of JsonRoundTrip.ReadingUndoesFormatting, keys contain neither quote nor backslash, since this parser decodes them and the formatter does not encode them.
- JsonSkip.DeclinedValueIsPassedOver: strings contain no malformed Unicode escape (the parser leaves the string there) and brackets are nested less than 2^32 deep (the counter has 32 bits).
- ProtoWriting.WriteFields: what the buffer holds beyond an overflow is only limited to the range behind the earlier contents. PutSignedVarInt, which only changes the value first, is left out. The machine is little-endian.
- ProtoReading.Reader: the chain of readers is one object with a sequence of limits; its data is shorter than 2^32 bytes, the range of a limit.
- ProtoReading.Reader.GetVarInt: a malformed integer of more than ten bytes is taken modulo 2^64, where the original shifts by more than the width of its type.
- ProtoReading.Reader.GetField: the same of the integers of a field.
- ProtoReading.ReadItems: the same of the integers of all fields.
- IrqQueue.ReadsWhatWasWritten: interrupts write only what fits, as AddAllAppendsIffItFits shows to be necessary; AddAllOutcome says what becomes of the rest. The operator for indexing is left out.
- TickTimer.TimeIsKept: the resolution does not change during a run, and times are whole numbers without a largest.
- ClaimableResource: the function called when a claim is granted is taken as the steps that follow the grant.
- PointerHeap.PriorityQueue: the order is by whole-number priorities. The size never reaches the highest bit of its type. numberOfElements is decreased before the last node moves up instead of after.
- ArrayHeap.EraseHeap: elements are whole numbers under less-than; push and pop of the array heap are those of the C++ library and are left out.
- Timer services other than the tick timer, Function, Optional, SharedPtr, the bounded containers and text output of numbers would only add easier members.
