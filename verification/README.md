# netq: event loop, paths, DBC parser, timers, table, codecs

A Dafny model of the parts of libnetq that keep state or do arithmetic, with proofs about it. `dafny verify
dfyconfig.toml` checks all of it.

Code that works by changing things step by step is modelled by classes and methods with loops (`NetworkLooper.Looper`,
`PathJoin.PathWrite`, `PathJoin.PathRead`, `DBCParser.Parser`, `TimerQueue.Queue`, `KeyValTable.Table`,
`Leb128Stream.Decoder`, `J1939.TPBuilder`, the methods of `IntrusiveList`). Each of these is proved equal to a
specification on values, and the theorems are about the specification, for every input and every run.

| component | files | what is proved |
|---|---|---|
| intrusive rings | List | swap relabels all rings by a transposition in every case; insertion, removal, replacement; what they mean for lists with a head |
| event loop | Looper*, NetworkLooper | every entry is in the one list its state says, over all runs; life cycles of timers, sockets and dispatches; compaction of the poll array while it is walked; no starvation; exactly when timers fire in time and sleeps are right; what each call changes and what it leaves alone; what handlers and polls are told over runs; how long identifiers stay apart |
| path normaliser | Path* | the one-pass reader and writer compute the fold of all segments onto a root and a stack; the text of every kind of result and where it leads; idempotence; the dry run bounds the real run, exactly when nothing is taken back; joining in place over its own input |
| DBC parser | DBC* | independence of how the input is cut; a type discipline for opcode tables, sound for every run, and every table checked; no overflow, exactly when an assertion fails, what is never delivered; strings stay intact; files of messages and signals are read back whatever their layout; the cause of every error |
| timer queue | BitOps, Timer* | sorted, stable, slots shared out; identifiers under 32-bit wrap-around; the drain loop fires each timer exactly as often as it is due, in order, without drift, and calls each callback exactly as often; the order in which identifiers are handed out |
| hash table | Hash, KeyVal, KeyValTable | one chain through all buckets agrees with a finite map; the hash as a number |
| codecs | Leb128*, Base64*, J1939* | round trips, least length, streaming decoder, prefix writes, alphabets and bits, layout of identifiers and transport frames, checksum nibble |
| shared | Words, List (module Seqs) | optional values, bytes, C's conversion to int, sequence operations |
| arithmetic | Gcd, Calendar | binary GCD; calendar conversion against the Gregorian calendar |

## What the code does not do

Several properties one expects fail for some inputs. The code is modelled as it is. For each of these there is the exact
condition under which the property holds, for all inputs, and an input that breaks it where the condition does not
already give one.

- `nextEvent` computes the sleep before it arms the pending interval timers again. The worker wakes up in time if and
  only if none of them comes before the timers already set (`LooperTimeout.SleepIsRight`). A single interval timer on a
  looper that has nothing else to do makes it sleep for ever after the first firing (`LooperClock.IntervalSleepsForever`,
  a run from creation).
- The time difference is cut to 32 bits (`LooperTimeout.FiresWhenDue`). Over runs by one clock with delays of an int no
  timer fires early, and a due timer stays unfired exactly when the first one is overdue by more than 2^31 ms and the
  cut turns the sign (`LooperClock.ClockedFires`); `LooperClock.OverdueTimerMissed` is such a run.
- `removeSocket` stops at the first slot with the descriptor, which may be that of a socket removed before
  (`LooperSafety.RemoveReaches`, `LooperSafety.ReaddedSocketStays`).
- Clearing asserts on the identifier of a timer that is gone exactly when its entry is free and still has the nonce and
  the kind (`LooperEffects.ClearAsserts`); clearing a timer without a destroy handler twice in a row always does
  (`LooperEffects.ClearedTwiceAsserts`).
- A cleared timer with a destroy handler goes through the Destroy state and is freed without the handler being called
  (libnetq/NetworkLooper.c:401-404): in no run does anything follow a clear (`LooperEffects.ClearedNeverFires`).
- A joined path does not lead where its segments lead, one after the other, exactly when behind segments of which nothing
  is left comes one that looks like a drive (`PathMeaning.JoinLeads`), as in "./C:" (`PathMeaning.LateDriveInput`).
- Joining in two steps is not joining at once exactly when the first step had only empty strings and the rest starts with
  a separator (`PathNormal.JoinInTwoSteps`, `PathNormal.RootLostInput`). In the in-place join `pathWritePush` reads the
  first characters of the segment after the memmove; they may be overwritten by then, which does no harm
  (`PathJoin.PathWrite.WriteOut`).
- A path builder refuses a join exactly when its capacity would pass the maximum (`PathBuilder.Builder.JoinPaths`). It
  grows by a quarter with every join, so the 30th join without a clear is refused (`PathBuilder.ThirtiethJoinRefused`).
- `NQTimerQueue_startTimer` can return 0, which means failure, for a timer it has started (`TimerQueueRuns.StartReturnsZero`,
  in numbers `TimerQueueIds.ZeroId`), and such a timer cannot be stopped.
- `NQLooper_performTimer` does not end if and only if the first timer left is a multiple of 2^32 ms away
  (`TimerDrain.LoopEnds`). It then calls the handlers of the timer that fired last again in every round, the destroy
  handler included, and if none has fired it calls through a variable nothing was written to
  (`TimerDrain.PerformTimerDoes`, `TimerDrain.ReadsUnwritten`). Both are reached from a new queue by two calls of
  `NQTimerQueue_startTimer` at most (`TimerDrain.FalseZeroStarted`).
- An assertion of the DBC parser fails exactly when an integer of more than one digit arrives where a byte order is
  expected (`DBCParserSafety.EveryInput`), as in `DBCParserInputs.LongEndianInput`; no other one ever fails.
- Input that ends inside a section is accepted exactly when no token is open or the open token completes the section and
  the callback accepts it (`DBCParserSafety.TruncatedIsAccepted`, `DBCParserInputs.TruncatedInput`).
- EV_ and SIG_VALTYPE_ sections and the reference form of SGTYPE_ are delivered on no input
  (`DBCParserSafety.NeverDelivered`); the table of EV_ would run into a failed assertion if they were
  (`DBCTableChecks.EnvironmentIsMistyped`).
- `NQCStrToUint32` notices an overflow if and only if the 32-bit value falls at some digit (`CStrToNum.OverflowIsNoticed`);
  it misses that of ten nines (`CStrToNum.OverflowIsMissed`).
- `NQLeb128DecodeInt8` reads a second byte past the size exactly when the size is 1 and the only byte announces another
  one, and reports a length past the size exactly when that byte is 0 or 0x7f (`Leb128Codec.DecodeInt`,
  `Leb128Codec.Int8ReadsPastItsSize`).
- `NQLeb128Dec_update` shifts by 64 or more, which C leaves undefined, exactly when a sequence has more than ten bytes
  (`Leb128Stream.Feed`).
- `NQBase64DecodeEx` reads behind its table of 128 entries exactly when the first character outside the alphabet is 128 or
  more (`Base64Codec.DecodeEx`, `Base64Codec.HighByteReadsOutside`).
- With padding, and for a lone character without, `NQBase64DecodeEx` accepts texts that are not the encoding of what it
  decoded (`Base64.FullDecode`, `Base64.LooseBitsInput`).
- `nq_gmtimems` takes every fourth year for a leap year and divides towards zero. It is right exactly from 1970 to
  28 February 2100 and for two milliseconds before 1970 (`Calendar.RightWhen`).

## Model

| member | source | states |
|---|---|---|
| `Rings.ConjugateCycle` | libnetq/List.h:79-116 | exchanging two nodes turns every ring of `next` into the ring relabelled by the transposition, whether the nodes share a ring, are neighbours, alone or equal |
| `Rings.LinkAfterCycle` | libnetq/List.h:52-66 | linking a node in behind position k of a ring inserts it at k + 1 |
| `Rings.UnlinkCycle` | libnetq/List.h:68-77 | removal leaves the node in a ring of its own and the others in their order |
| `Rings.OtherCycles` | libnetq/List.h:52-77 | rings without the two nodes are untouched by linking and unlinking |
| `Rings.LinkInserts` | libnetq/List.h:52-66 | on a list with a head this is insertion at a position, and addBack on the head is an append |
| `Rings.UnlinkRemoves` | libnetq/List.h:68-77 | on a list with a head remove takes out one entry and keeps the order of the others |
| `Rings.SwapExchanges` | libnetq/List.h:79-116 | two entries exchange their places in every list they are in |
| `Rings.OtherLists` | libnetq/List.h:52-77 | lists without the two nodes are untouched |
| `IntrusiveList.AddFront` | libnetq/List.h:52-58 | the pointer writes keep `prev` the inverse of `next` and link the node in behind `thiz`; its old links are not read |
| `IntrusiveList.AddBack` | libnetq/List.h:60-66 | the same before `thiz` |
| `IntrusiveList.Remove` | libnetq/List.h:68-77 | the node is unlinked, alone, and no longer referred to by the rest |
| `IntrusiveList.SwapLinks` | libnetq/List.h:79-116 | in every branch each link is the old link seen through the transposition |
| `IntrusiveList.Swap` | libnetq/List.h:79-116 | next becomes (a b) . next . (a b) and prev stays its inverse |
| `IntrusiveList.Replace` | libnetq/List.h:118-125 | the new node takes the place of the old one, which is left alone, also when it was alone before |
| `LooperRuns.EveryRun` | libnetq/NetworkLooper.c:207-783 | after every run of calls and events from creation each entry is in exactly the list its state names, no timer or socket has done anything its life forbids, and dispatches ran in order |
| `LooperRuns.CreateGood` | libnetq/NetworkLooper.c:207-279 | creation succeeds exactly within the limits and leaves one socket, the wakeup, pending |
| `LooperRuns.NextEventGood` | libnetq/NetworkLooper.c:358-506 | one call of nextEvent keeps the invariant and every life cycle |
| `LooperRuns.DispatchOrder` | libnetq/NetworkLooper.c:449-472 | what has run is a prefix of what was accepted, what was destroyed a prefix of what has run and has a handler, and both are complete when no dispatch is pending |
| `LooperRuns.TimerSilent` | libnetq/NetworkLooper.c:376-404 | nothing is heard of a timer after it was cleared or destroyed |
| `LooperRuns.OneShotFiresOnce` | libnetq/NetworkLooper.c:379-399 | a timer without interval fires at most once |
| `LooperRuns.SocketSilent` | libnetq/NetworkLooper.c:406-447 | the handler of a socket that has ended is never called again, and nothing follows its destroy handler |
| `LooperRuns.SocketDestroyedAfterEnd` | libnetq/NetworkLooper.c:414-441 | a destroy handler runs only if there is one, after the socket ended and not while its action handler runs |
| `LooperEffects.NextEventTells` | libnetq/NetworkLooper.c:358-506 | one call tells one event at most; it leaves pollTimeout 0 exactly after an event, and otherwise the time until the first timer, or -1 |
| `LooperEffects.EventServes` | libnetq/NetworkLooper.c:358-506 | one call takes its work from the front of the pending list and puts everything behind what is there: entries that become free, sockets that go back |
| `LooperEffects.FiringIsRight` | libnetq/NetworkLooper.c:360-399 | a timer fires only while it is set, at or after its time and before all timers set for later, and is due again one interval later |
| `LooperEffects.IdleMeansDone` | libnetq/NetworkLooper.c:358-506 | when nextEvent has no event every timer that has to fire is set, every open socket is polled, and every destroy handler that was due and every dispatch has run |
| `LooperEffects.TimerStays` | libnetq/NetworkLooper.c:376-404 | over a whole history all events of a timer carry the registration it was set with |
| `LooperEffects.SocketStays` | libnetq/NetworkLooper.c:406-447 | all events of a socket carry the registration it was added with |
| `LooperTold.HandlersAreTold` | libnetq/NetworkLooper.c:406-447 | over every run from creation, polls included: a socket handler is told what the last poll reported for its socket and has not been passed on, and a poll asks for what the handler answered last |
| `LooperTold.PollReaches` | libnetq/NetworkLooper.c:574-587 | the report of a slot goes to the socket that is live in it |
| `LooperTold.WaitIsShort` | libnetq/NetworkLooper.c:574-587 | a poll waits no longer than the first timer and the caller allow, and for ever only when both do |
| `LooperEffects.CreateDoes` | libnetq/NetworkLooper.c:206-279 | the whole state after creation |
| `LooperEffects.SetTimerDoes` | libnetq/NetworkLooper.c:609-638 | the whole effect: the first free entry with the arguments and a new nonce, linked behind all timers not later, its identifier, and nothing else |
| `LooperEffects.ClearTimerDoes` | libnetq/NetworkLooper.c:640-669 | true exactly when nonce and kind match; the entry leaves the list it is in and is free, or pending for its destruction; nothing else changes, and the clear is on record |
| `LooperEffects.AddSocketDoes` | libnetq/NetworkLooper.c:691-725 | the whole effect: the slot at pollSize with the arguments and no events |
| `LooperEffects.RemoveSocketDoes` | libnetq/NetworkLooper.c:727-756 | true exactly when a slot has the descriptor; the first such slot ends if it is in use, and nothing else changes |
| `LooperEffects.DispatchDoes` | libnetq/NetworkLooper.c:758-783 | the whole effect: the first free entry with the arguments, last in the pending list |
| `LooperEffects.ClearedNeverFires` | libnetq/NetworkLooper.c:640-669 | after a clear that answered true no run whatever holds another event of that timer |
| `LooperEffects.ClearAsserts` | libnetq/NetworkLooper.c:649-655 | clearing asserts exactly on an entry that is free and has the nonce and the kind |
| `LooperEffects.ClearedTwiceAsserts` | libnetq/NetworkLooper.c:649-655 | set without destroy handler, clear, clear again |
| `LooperEffects.IdsTellApart` | libnetq/NetworkLooper.c:53-59 | slot and nonce come back out of an identifier, which is never 0 |
| `LooperEffects.IdentifierLasts` | libnetq/NetworkLooper.c:199-204 | over every run an identifier is accepted exactly while its entry has been reused a multiple of 65535 times and holds a timer of that kind |
| `LooperEffects.IdentifiersDiffer` | libnetq/NetworkLooper.c:53-59 | the entries have different identifiers at any time |
| `LooperSafety.ApplyInv` | libnetq/NetworkLooper.c:358-783 | every operation keeps every entry in the list its state says |
| `LooperSafety.SetTimerInv` | libnetq/NetworkLooper.c:609-638 | a timer is refused exactly when no entry is free, and the lists stay right |
| `LooperSafety.ClearTimerInv` | libnetq/NetworkLooper.c:640-669 | clearing keeps the lists right wherever the timer is linked |
| `LooperSafety.AddSocketInv` | libnetq/NetworkLooper.c:691-725 | a socket is accepted exactly while pollSize is below the limit; the first free entry is the one at pollSize |
| `LooperSafety.DispatchStepInv` | libnetq/NetworkLooper.c:758-783 | a dispatch is accepted exactly when an entry is free |
| `LooperSafety.RemoveReaches` | libnetq/NetworkLooper.c:727-756 | a removal ends a live socket if and only if no earlier slot has its descriptor |
| `LooperSafety.ReaddedSocketStays` | libnetq/NetworkLooper.c:691-756 | add, remove, add and remove again before a compaction: the last removal reports success and does nothing |
| `LooperSteps.PopInv` | libnetq/NetworkLooper.c:376-472 | one turn of the pending loop keeps the invariant and, without an event, lowers the weight (sockets in Action, length of the list) |
| `LooperSteps.NextEventInv` | libnetq/NetworkLooper.c:358-506 | nextEvent keeps the invariant |
| `LooperInvariant.InsertTimerSorted` | libnetq/NetworkLooper.c:346-356 | insertion keeps the used timers in the order of their times |
| `LooperInvariant.DropTombstoneInv` | libnetq/NetworkLooper.c:481-498 | overwriting a tombstone by the last slot keeps both socket lists and the free list right |
| `LooperCompaction.DropKeepsLive` | libnetq/NetworkLooper.c:481-498 | the move of the last slot into a tombstone loses no live record of a list and keeps its order |
| `LooperCompaction.CompactService` | libnetq/NetworkLooper.c:474-505 | the whole walk keeps the service order: pending first, then what was still to be walked |
| `LooperCompaction.Compaction` | libnetq/NetworkLooper.c:474-505 | exactly the tombstones go; live records, their order and the slots from 0 stay; revents are 0; the free list is the remaining slots in order |
| `LooperProgress.NoStarvation` | libnetq/NetworkLooper.c:360-472 | whatever is at position k is handled within (k + 1) * (timerLimit + 1) calls, untouched until then, whatever the clock and the handlers do |
| `LooperProgress.HandledWithin` | libnetq/NetworkLooper.c:360-472 | the measure behind it: entries ahead and used timers fall with every call |
| `LooperProgress.EventuallyRun` | libnetq/NetworkLooper.c:406-472 | an accepted dispatch is run, and a removed socket destroyed, within that bound |
| `LooperTimeout.FiresWhenDue` | libnetq/NetworkLooper.c:360-374 | a timer fires just when one is due if and only if cutting the difference to an int leaves its sign alone |
| `LooperTimeout.SleepIsRight` | libnetq/NetworkLooper.c:358-506 | the sleep is short enough for every timer if and only if the first one is not overdue and no pending interval timer is armed for an earlier time |
| `LooperClock.ClockedFires` | libnetq/NetworkLooper.c:360-374 | over every run from creation by one clock, with delays that are ints, no timer fires early, and a due timer is left waiting exactly when the first one is overdue by more than 2^31 ms and the cut difference is positive |
| `LooperClock.OverdueTimerMissed` | libnetq/NetworkLooper.c:360-374 | a timeout set after creation and looked at 2^31 + 1 ms later does not fire |
| `LooperClock.IntervalSleepsForever` | libnetq/NetworkLooper.c:358-506 | from creation: one interval, three calls of nextEvent when it is due, and the timer is armed for the next time while the worker is told to sleep for ever |
| `LooperHistory.PopTimerHistory` | libnetq/NetworkLooper.c:379-404 | the timer cases of nextEvent continue the life of the timer as allowed |
| `LooperHistory.PopSocketHistory` | libnetq/NetworkLooper.c:406-447 | the socket cases do, and lose no live socket |
| `LooperHistory.PopDispatchHistory` | libnetq/NetworkLooper.c:449-472 | the dispatch cases keep accepted = run + waiting and run = destroyed + to be destroyed |
| `NetworkLooper.Looper.constructor` | libnetq/NetworkLooper.c:250-272 | fresh entries, each in its free list in order |
| `NetworkLooper.Looper.InsertTimer` | libnetq/NetworkLooper.c:346-356 | the walk finds the place behind all timers not later |
| `NetworkLooper.Looper.PopHead` | libnetq/NetworkLooper.c:376-472 | one turn of the pending loop on the arrays is the step Pop |
| `NetworkLooper.Looper.DropSlot` | libnetq/NetworkLooper.c:485-497 | the writes into entries, poll array and lists are the renaming of two slots |
| `NetworkLooper.Looper.NextEvent` | libnetq/NetworkLooper.c:358-506 | nextEvent on arrays and lists is the specified step, with its event |
| `NetworkLooper.Looper.SetTimer` | libnetq/NetworkLooper.c:609-638 | state and identifier are those of the specified step |
| `NetworkLooper.Looper.ClearTimer` | libnetq/NetworkLooper.c:640-669 | the same for clearing, for an identifier that is not that of a free entry |
| `NetworkLooper.Looper.AddSocket` | libnetq/NetworkLooper.c:691-725 | the same for adding a socket |
| `NetworkLooper.Looper.RemoveSocket` | libnetq/NetworkLooper.c:727-756 | the same for removing one, by the loop over the poll array |
| `NetworkLooper.Looper.Dispatch` | libnetq/NetworkLooper.c:758-783 | the same for a dispatch |
| `NetworkLooper.Looper.Poll` | libnetq/NetworkLooper.c:574-587 | the reports are written into the polled slots; how long the call waits |
| `NetworkLooper.Looper.PerformOnce2` | libnetq/NetworkLooper.c:508-562 | one event and the answer of its socket handler |
| `PathNormal.JoinIdempotent` | libnetq/fs/Path.c:201-220 | joining a joined path returns it unchanged |
| `PathNormal.JoinNormalForm` | libnetq/fs/Path.c:62-145 | the result is ".", a drive root, or a path without empty and "." segments in which ".." only leads relative paths |
| `PathMeaning.JoinText` | libnetq/fs/Path.c:62-145 | the text of each kind of result: "." for nothing, the names with separators between them, "/" or the drive and a separator in front |
| `PathMeaning.JoinLeads` | libnetq/fs/Path.c:62-145 | the joined path leads from every directory where the segments lead one after the other, if and only if no drive comes late |
| `PathMeaning.LateDriveInput` | libnetq/fs/Path.c:62-145 | "./C:" becomes "C:/" |
| `PathMeaning.NoBareDrive` | libnetq/fs/Path.c:134-138 | no result is a bare drive |
| `PathNormal.JoinInTwoSteps` | libnetq/fs/Path.c:201-220 | joining in two steps is joining at once if and only if the first step is not all empty before a rooted rest |
| `PathNormal.RootLostInput` | libnetq/fs/Path.c:201-220 | an empty string first and then "/a" lose the root |
| `PathNormal.FinishReadsBack` | libnetq/fs/Path.c:127-145 | the text of a normal stack reads back as that stack |
| `PathSpec.JoinNormal` | libnetq/fs/Path.c:62-125 | folding the segments always leaves a normal stack |
| `PathSpec.TokensOfText` | libnetq/fs/Path.c:169-199 | reading the text of a stack delivers its root and its segments |
| `PathDryRun.CoversPush` | libnetq/fs/Path.c:62-125 | with one more segment the count of the dry run still covers the real stack, although it takes nothing back |
| `PathDryRun.DryJoinCovers` | libnetq/fs/Path.c:201-220 | at every point and at the end the real run needs no more space than the dry run counted |
| `PathDryRun.DryGrows` | libnetq/fs/Path.c:80-92 | the dry run never takes anything back |
| `PathDryRun.DryIsExact` | libnetq/fs/Path.c:201-220 | when no ".." takes a name back the dry run tells exactly the length of the joined path |
| `PathJoin.PathWrite.Push` | libnetq/fs/Path.c:62-125 | the buffer holds the text of the stack after one more segment, copied intact even from inside the buffer |
| `PathJoin.PathWrite.TakeBack` | libnetq/fs/Path.c:85-92 | going back to the last separator removes exactly the last segment |
| `PathJoin.PathWrite.WriteOut` | libnetq/fs/Path.c:100-124 | separator and segment are appended; the two remembered characters stay good enough to recognise a root |
| `PathJoin.PathWrite.Finish` | libnetq/fs/Path.c:127-145 | the finished text and its length, NUL-terminated when there is room |
| `PathJoin.PathRead.Next` | libnetq/fs/Path.c:169-199 | the next segment lies in memory where it is said to, and what is unread continues the list of segments |
| `PathBuilder.JoinPath` | libnetq/fs/Path.c:201-220 | NQPathJoin writes exactly the fold of all segments; the dry run returns its count and writes nothing |
| `PathBuilder.PathJoinExact` | libnetq/fs/Path.c:243-252 | with the size the dry run asked for nothing is cut off |
| `PathBuilder.JoinInPlace` | libnetq/fs/Path.c:324-336 | the join whose first input is the output buffer gives the same text as one with separate memory |
| `PathBuilder.Builder.JoinPaths` | libnetq/fs/Path.c:324-336 | a builder holds the join of its old text and the new paths, or refuses and keeps its text, exactly when the capacity would pass 65535; the capacity grows by more than a quarter, and by no more unless it has to |
| `PathBuilder.JoinWithoutNul` | libnetq/fs/Path.c:201-220 | a joined path is a C string |
| `PathBuilder.ThirtiethJoinRefused` | libnetq/fs/Path.c:279-336 | the capacity grows with every join, and the 30th asks for too much |
| `BitOps.GetClz` | libnetq/BitOps.h:39-85 | the loop counts the zeros above the highest bit |
| `BitOps.GetFls` | libnetq/BitOps.h:87-105 | the number of bits of a number |
| `TimerQueueSafety.CreateInv` | libnetq/TimerQueue.c:89-104 | creation fails exactly for 0 and from 2^16 on; otherwise maxSize < allocCount <= 2 maxSize |
| `TimerQueueSafety.StartAddsTimer` | libnetq/TimerQueue.c:171-193 | a start is refused exactly when the delay is not positive or all slots are taken; otherwise one timer is added in its place |
| `TimerQueueSafety.ByTimeIsStable` | libnetq/TimerQueue.c:52-71 | the new timer goes behind everything not later |
| `TimerQueueSafety.SlotsAreShared` | libnetq/TimerQueue.c:73-223 | active and free slots together are all slots |
| `TimerQueueSafety.IdsDiffer` | libnetq/TimerQueue.c:195-206 | active timers have different identifiers |
| `TimerQueueSafety.StopCancels` | libnetq/TimerQueue.c:208-223 | stopping takes out exactly the timer that holds the identifier |
| `TimerQueueSafety.StopRefuses` | libnetq/TimerQueue.c:195-223 | any other identifier is refused and changes nothing |
| `TimerQueueSafety.ShiftTakesFirst` | libnetq/TimerQueue.c:124-169 | only the first timer can be taken; an interval timer goes back one timeout later, otherwise the time to wait comes back |
| `TimerQueueSafety.StartTakes` | libnetq/TimerQueue.c:171-193 | a start hands out the identifier that has waited longest |
| `TimerQueueSafety.StopGivesBack` | libnetq/TimerQueue.c:208-223 | a stopped timer gives back its identifier raised by allocCount, behind all that wait |
| `TimerQueueSafety.ShiftGivesBack` | libnetq/TimerQueue.c:124-169 | so does one that has fired, unless it is an interval timer |
| `TimerQueueIds.SlotOfId` | libnetq/TimerQueue.c:200 | (id - 1) mod allocCount is the slot, through 32-bit wrap-around |
| `TimerQueueIds.SameId` | libnetq/TimerQueue.c:218 | identifiers of a slot repeat exactly every 2^32 / allocCount releases |
| `TimerQueueIds.ZeroId` | libnetq/TimerQueue.c:192-198 | an identifier in use is 0 exactly in the last slot and once in 2^32 / allocCount releases |
| `TimerQueueRuns.RunReleases` | libnetq/TimerQueue.c:124-223 | over any calls a slot counts its releases |
| `TimerQueueRuns.StaleIdentifier` | libnetq/TimerQueue.c:195-223 | over any calls an identifier is accepted exactly while its slot is active and has been released a multiple of 2^32 / allocCount times |
| `TimerQueueRuns.StartReturnsZero` | libnetq/TimerQueue.c:171-193 | an accepted start returns 0 exactly for the last slot at the end of a generation |
| `TimerDrain.DrainInv` | libnetq/Looper.c:50-69 | draining keeps the invariant and leaves nothing due |
| `TimerDrain.DrainFires` | libnetq/Looper.c:50-69 | each timer fires exactly as often as it is due, floor((now - timePoint) / timeout) + 1 times for an interval, at times without drift, with its own handler and userdata, and without the destroy handler if it is an interval |
| `TimerDrain.DrainInTimeOrder` | libnetq/Looper.c:50-69 | timers fire in the order of their times, none later than now |
| `TimerCalls.DrainCalls` | libnetq/Looper.c:50-69 | the calls, firing by firing: the handler of the timer in the slot, and for a timeout its destroy handler directly behind |
| `TimerCalls.CallsAsDue` | libnetq/Looper.c:50-69 | every callback is called exactly as often as the timers that have it are due; the destroy handler of an interval timer never |
| `TimerCalls.TimeoutIs` | libnetq/TimerQueue.c:111-122 | -1 without timers, 0 when the earliest is due, and otherwise how far away it is as an int; shiftTimer agrees |
| `TimerCalls.AllDestroyed` | libnetq/Looper.c:132-142 | emptying the queue calls every destroy handler once, in the order of the timers, and nothing else |
| `TimerDrain.DrainedIsReached` | libnetq/Looper.c:50-69 | repeating shiftTimer, as the loop does, arrives at that state after as many rounds as timers fire |
| `TimerDrain.LoopEnds` | libnetq/Looper.c:50-69 | the loop ends if and only if the first timer left is not a multiple of 2^32 ms away |
| `TimerDrain.PerformTimerDoes` | libnetq/Looper.c:50-69 | for any number of rounds: the handlers of everything due, in order, and then the end, or those of the timer that fired last once more in each round, or a use of the variable before anything was written to it |
| `TimerDrain.ReadsUnwritten` | libnetq/Looper.c:50-69 | the variable is used before anything was written to it in some round if and only if the first timer left is a multiple of 2^32 ms away and none is due |
| `TimerDrain.FalseZeroReadsUnwritten` | libnetq/Looper.c:50-69 | one timer 2^32 ms ahead: the first round does |
| `TimerDrain.FalseZeroCallsAgain` | libnetq/Looper.c:50-69 | one timer due and one 2^32 ms ahead: the handlers of the first are called in every round |
| `TimerDrain.FalseZeroStarted` | libnetq/TimerQueue.c:171-193 | starting one timer, or two, on a new queue leads to these states |
| `TimerQueue.Create` | libnetq/TimerQueue.c:89-104 | what is created, or null |
| `TimerQueue.Queue.Insert` | libnetq/TimerQueue.c:52-71 | the walk finds the stable place, whatever the list head holds where entries have their time |
| `TimerQueue.Queue.ShiftTimer` | libnetq/TimerQueue.c:124-169 | the specified step on the slots; what the caller passed is written to only when a timer is taken out |
| `TimerQueue.Queue.StartTimer` | libnetq/TimerQueue.c:171-193 | the specified step on the slots |
| `TimerQueue.Queue.StopTimer` | libnetq/TimerQueue.c:208-223 | the specified step on the slots |
| `TimerQueue.Queue.Timeout` | libnetq/TimerQueue.c:111-122 | the specified time |
| `TimerQueue.Looper.Turn` | libnetq/Looper.c:55-68 | one turn of the loop, with the variable it keeps between turns, is the specified round |
| `TimerQueue.Looper.PerformRounds` | libnetq/Looper.c:50-69 | any number of turns from any queue are that many rounds |
| `TimerQueue.Looper.PerformTimer` | libnetq/Looper.c:50-69 | where the loop ends it makes exactly the calls of the drained timers |
| `TimerQueue.Looper.Finalize` | libnetq/Looper.c:132-142 | the loop over shiftTimer with -1 empties the queue with these calls |
| `DBCParserModel.ChunksDoNotMatter` | libnetq/dbc/DBCParser.c:2166-2175 | however the input is cut, sections, their order and the error are those of the whole |
| `DBCReadBack.ReadBack` | libnetq/dbc/DBCParser.c:2003-2183 | whatever messages and signals are written, however their words are laid out and however the text is cut: parsing it from the start ends without an error, and delivers these messages and signals with these values in this order |
| `DBCRows.RowRead` | libnetq/dbc/DBCParser.c:708-993 | in any section: words that spell the rest of a row are taken, and leave what they mean in the queue, in order |
| `DBCMeaning.MarkerMeans` | libnetq/dbc/DBCParser.c:708-939 | what each word means at each marker: byte orders, signs, numbers, multiplexer indicators, names, texts |
| `DBCWords.WordEnds` | libnetq/dbc/DBCParser.c:144-401 | the characters of a name, a number with sign, fraction and exponent, a string with escapes, a symbol or an end of line are collected as the token they are written for |
| `DBCWords.TextTaken` | libnetq/dbc/DBCParser.c:403-435 | the token is handled once, as soon as a character follows that does not belong to it |
| `DBCWords.SignBehindDigit` | libnetq/dbc/DBCParser.c:172-187 | a sign right behind a digit is a symbol, anywhere else it begins a number |
| `DBCErrors.WhyItStops` | libnetq/dbc/DBCParser.c:2003-2175 | for every error what has happened: a full buffer, an open exponent, a full queue, the callback refusing the section just handed over, a word that is no keyword, the section that a token does not fit |
| `DBCErrors.WhyItEnds` | libnetq/dbc/DBCParser.c:2177-2183 | at the end an open string and an open exponent are errors, each exactly then |
| `DBCErrors.WhatIsChosen` | libnetq/dbc/DBCParser.c:1963-2001 | which section a keyword begins, and that the selection never goes back |
| `DBCErrors.SilentIsKept` | libnetq/dbc/DBCParser.c:2068-2083 | on no input does the caller get a section that its init function keeps to itself |
| `DBCParserSafety.EveryInput` | libnetq/dbc/DBCParser.c:2003-2183 | on every input: no opcode outside the table is reached, the queue stays within 1024 slots, queued strings stay where they are, and an assertion fails if and only if an integer of more than one digit arrives where a byte order is expected |
| `DBCParserInputs.LongEndianInput` | libnetq/dbc/DBCParser.c:822-832 | "SGTYPE_ a:1@10;" makes it fail |
| `DBCParserSafety.TwoLooks` | libnetq/dbc/DBCParser.c:403-435 | a character is looked at twice at most |
| `DBCParserSafety.DeliveredIntact` | libnetq/dbc/DBCParser.c:2068-2083 | the strings of a section are NUL-terminated and intact in the lexer buffer when the caller gets it |
| `DBCParserSafety.NeverDelivered` | libnetq/dbc/DBCParser.c:2003-2183 | after any input the next character, or the end, hands over one section at most, and never an EV_ or SIG_VALTYPE_ section or a SGTYPE_ reference |
| `DBCParserSafety.TruncatedIsAccepted` | libnetq/dbc/DBCParser.c:2177-2183 | finishing inside a section succeeds if and only if no token is open or the open one completes the section and the callback accepts it |
| `DBCParserInputs.TruncatedInput` | libnetq/dbc/DBCParser.c:2177-2183 | "VERSION " is accepted |
| `DBCLexer.ApplyInv` | libnetq/dbc/DBCParser.c:144-326 | a character that is taken keeps the lexer invariant in all 16 modes |
| `DBCLexer.FinishInv` | libnetq/dbc/DBCParser.c:328-401 | a token is well-formed and NUL-terminated; only open strings and numbers are errors |
| `DBCLexer.InitTakesAll` | libnetq/dbc/DBCParser.c:144-233 | the initial mode takes every character |
| `CStrToNum.StrToUint32Exact` | libnetq/string/CStrToNum.c:93-145 | a decimal number below 2^32 is read exactly and to its end |
| `CStrToNum.StrToInt32Exact` | libnetq/string/CStrToNum.c:18-91 | a decimal number with or without sign that fits 32 bits is read exactly and to its end |
| `CStrToNum.OverflowIsNoticed` | libnetq/string/CStrToNum.c:93-145 | a decimal number is read to its end if and only if the residues of its prefixes modulo 2^32 never fall, and then gives its own residue |
| `CStrToNum.OverflowIsMissed` | libnetq/string/CStrToNum.c:93-145 | ten nines are read as 1410065407 |
| `DBCTyping.Next2Typed` | libnetq/dbc/DBCParser.c:708-939 | a matching token keeps the queue typed and in its slots |
| `DBCTyping.NextTyped` | libnetq/dbc/DBCParser.c:941-969 | for a table that checks, no token leads out of it, and the queue stays typed |
| `DBCTyping.ResultTyped` | libnetq/dbc/DBCParser.c:971-993 | the init function finds exactly the typed values it shifts and leaves the queue empty |
| `DBCTyping.ReadyRow` | libnetq/dbc/DBCParser.c:971-993 | a section comes from an opcode that can be reached and completed |
| `DBCTyping.NextQueue` | libnetq/dbc/DBCParser.c:708-969 | a token only adds values to the queue, all made from it |
| `DBCTables.RowsMakeTable` | libnetq/dbc/DBCParser.c:1677-1889 | rows that check one by one make a table that checks |
| `DBCParserSafety.SectionsKnown` | libnetq/dbc/DBCParser.c:1891-1948 | the table of every section and of its children (lines 1677-1889) checks, so the discipline holds whatever section is chosen |
| `DBCTableChecks.EnvironmentIsMistyped` | libnetq/dbc/DBCParser.c:1143-1154 | initEnvVar fails on what its pattern pushes |
| `DBCParser.Parser.LexerApply` | libnetq/dbc/DBCParser.c:144-326 | the switch over the modes on the buffer is the specified step |
| `DBCParser.Parser.LexerFinish` | libnetq/dbc/DBCParser.c:328-401 | the token and the NUL behind it |
| `DBCParser.Parser.MachineNext` | libnetq/dbc/DBCParser.c:941-969 | the loop over opcodes on the value stack is the specified step; whether it runs into the assertion about byte orders |
| `DBCParser.Parser.MachineResult` | libnetq/dbc/DBCParser.c:971-993 | the section, with an empty queue |
| `DBCParser.Parser.HandleToken` | libnetq/dbc/DBCParser.c:2036-2106 | the loop of NQDBCParser_next, failed assertions included |
| `DBCParser.Parser.TakeCharacter` | libnetq/dbc/DBCParser.c:403-435 | one turn of the lexer loop: the character is fed and taken, or the token before it is finished and the character left for the next call |
| `DBCParser.Parser.NextToken` | libnetq/dbc/DBCParser.c:403-435 | one call up to the end of a token or of the data, with no character lost or fed twice |
| `DBCParser.Parser.Append` | libnetq/dbc/DBCParser.c:2166-2175 | the parser after the characters one by one, and whether it has stopped |
| `DBCParser.Parser.EndInput` | libnetq/dbc/DBCParser.c:2177-2183 | the end of the input |
| `Hash.CStringWithSeed` | libnetq/Hash.c:13-19 | the loop up to the NUL gives the hash of the text before it |
| `Hash.StringWithSeed` | libnetq/Hash.c:21-27 | the loop with a length gives the same function, so both agree on a C string |
| `Hash.HashIs` | libnetq/Hash.c:13-27 | the hash is the number whose digits to the base 33 are the bytes, behind the seed, modulo 2^32 |
| `KeyVal.SetRepresents` | libnetq/KeyVal.c:110-154 | a new entry in front and the old one of the key unlinked represent the updated map |
| `KeyVal.OneEntryPerKey` | libnetq/KeyVal.c:110-167 | the chain holds one entry for each key of the map, with its value, and no other |
| `KeyVal.BucketIs` | libnetq/KeyVal.c:89-92 | a key is in the bucket of the last six bits of that number, with seed 0x9E3779B9 |
| `KeyValTable.Table.constructor` | libnetq/KeyVal.c:43-62 | 64 heads in one chain, and the empty map |
| `KeyValTable.Table.Get` | libnetq/KeyVal.c:89-108 | the value last set for the key, or nothing |
| `KeyValTable.Table.Set` | libnetq/KeyVal.c:110-154 | the map with the key set; count is its size; refused only for a key of 2^32 - 1 bytes or more |
| `KeyValTable.Table.SameKey` | libnetq/KeyVal.c:96-104 | the character loop finds the value exactly for the same key |
| `KeyValTable.Table.UnlinkOld` | libnetq/KeyVal.c:139-150 | the walk takes out the old entry of the key and nothing else |
| `KeyValTable.Table.IterNext` | libnetq/KeyVal.c:159-167 | iteration goes on to the next entry of the chain, over heads |
| `KeyValTable.Table.Walk` | libnetq/KeyVal.c:148-167 | iterating visits each binding exactly once |
| `KeyValTable.Table.Destroy` | libnetq/KeyVal.c:64-82 | the entries given back are those of the chain, each one once, and the accesses to nodes show none to an entry already given back |
| `Leb128.DecEnc` | libnetq/Leb128.c:365-487 | decoding the groups of a number gives the number |
| `Leb128.SDecSEnc` | libnetq/Leb128.c:138-363 | the same with sign |
| `Leb128.EncIsLeast` | libnetq/Leb128.c:365-487 | no shorter sequence denotes the number |
| `Leb128.SEncIsLeast` | libnetq/Leb128.c:138-363 | the same with sign |
| `Leb128.EncLength` | libnetq/Leb128.c:365-487 | n groups are enough exactly below 2^(7n) |
| `Leb128.SEncLength` | libnetq/Leb128.c:138-363 | the same with sign |
| `Leb128Codec.EncodeUint` | libnetq/Leb128.c:365-487 | the ladder writes the recursive encoding as far as it fits and returns its length |
| `Leb128Codec.EncodeInt` | libnetq/Leb128.c:138-363 | the same with sign |
| `Leb128Codec.DecodeUint` | libnetq/Leb128.c:686-868 | exactly the terminated sequences within size and type are accepted, with their value |
| `Leb128Codec.DecodeInt` | libnetq/Leb128.c:489-684 | the same with sign; a byte past the size is read, and a length past it reported, exactly for 8 bits, size 1 and a first byte that announces another one, the length if that one is 0 or 0x7f |
| `Leb128Codec.FitsUnsigned` | libnetq/Leb128.c:686-868 | whether a value fits its type is decided by the last byte |
| `Leb128Codec.FitsSigned` | libnetq/Leb128.c:489-684 | the same with sign |
| `Leb128Codec.RoundTripUint` | libnetq/Leb128.c:365-868 | what is encoded is decoded again, whatever follows it |
| `Leb128Codec.RoundTripInt` | libnetq/Leb128.c:138-684 | the same with sign |
| `Leb128Codec.Int8ReadsPastItsSize` | libnetq/Leb128.c:489-510 | with size 1 the length can be 2 |
| `Leb128Stream.Decoder.Update` | libnetq/Leb128.c:877-901 | one byte more; the width at the end is that of the bits |
| `Leb128Stream.Feed` | libnetq/Leb128.c:877-901 | a terminated sequence finishes with its last byte and not before; a shift that C leaves undefined comes exactly with more than ten bytes |
| `Leb128Stream.FeedUnsigned` | libnetq/Leb128.c:870-901 | the encoding of a number gives the number and max(1, its bits) |
| `Leb128Stream.FeedSigned` | libnetq/Leb128.c:870-901 | its 64-bit two's complement and max(2, its signed bits) |
| `Base64.DecodeFull` | libnetq/Base64.c:79-299 | decoding an encoding gives the bytes back, for all flags |
| `Base64.FullDecode` | libnetq/Base64.c:180-299 | encoding what was decoded gives the text back if and only if no bits were dropped |
| `Base64.LooseBitsInput` | libnetq/Base64.c:180-299 | "QR==", and "A" without padding, are accepted and not what encoding gives |
| `Base64.PaddedLength` | libnetq/Base64.c:180-299 | with padding only multiples of four are accepted |
| `Base64Meaning.EncIsLetter` | libnetq/Base64.c:19-28 | the tables of the encoder are the alphabets of RFC 4648, letter by letter |
| `Base64Meaning.DecIsIndex` | libnetq/Base64.c:30-77 | the tables of the decoder give the index of a letter, and refuse all other characters |
| `Base64Meaning.FullMeans` | libnetq/Base64.c:79-178 | each group: four letters for the 24 bits of three bytes, most significant first, and "=" or nothing for characters without a byte |
| `Base64Codec.EncodeEx` | libnetq/Base64.c:79-178 | the full length, and the prefix of the encoding that fits, with a NUL if there is room |
| `Base64Codec.DecodeEx` | libnetq/Base64.c:180-299 | the number of bytes, and those that fit, or an error; a read behind the table exactly when the first character outside the alphabet is 128 or more |
| `Base64Codec.HighByteReadsOutside` | libnetq/Base64.c:208-217 | a first byte 0x80 leads to such a read |
| `Base64Codec.FullLength` | libnetq/Base64.c:79-95 | the length computed beforehand is that of the encoding |
| `J1939.Mkpdu1Fields` | libnetq/dbc/DBCJ1939.c:110-153 | the fields of an identifier come back out of it |
| `J1939.Mkpdu1Address` | libnetq/dbc/DBCJ1939.c:110-166 | so does the destination, and the reserved bits are 0 |
| `J1939.SetSource` | libnetq/dbc/DBCJ1939.c:150-159 | setting the source address changes nothing else |
| `J1939.SetDestination` | libnetq/dbc/DBCJ1939.c:161-176 | setting the destination changes nothing else |
| `J1939.IdentifierLayout` | libnetq/dbc/DBCJ1939.c:119-166 | the 29 bits of an identifier are its fields, as a sum |
| `J1939.MadeLayout` | libnetq/dbc/DBCJ1939.c:110-117 | the identifier made, as a sum |
| `J1939.SetLayout` | libnetq/dbc/DBCJ1939.c:155-176 | the bits that setting an address changes, and that it does so for the first kind only |
| `J1939.FramesCarryMessage` | libnetq/dbc/DBCJ1939.c:256-297 | frame 0 announces size and number of packets, which are numbered from 1 and carry the message and then fill |
| `J1939.FramesLayout` | libnetq/dbc/DBCJ1939.c:256-297 | every frame: identifier with format 0xEC or 0xEB, control byte 32, sizes, group bytes low first; the frames behind are unused |
| `J1939.PutKeeps` | libnetq/dbc/DBCJ1939.c:278-287 | one more byte keeps the frames right at frame boundaries and inside |
| `J1939.TPBuilder.constructor` | libnetq/dbc/DBCJ1939.c:256-269 | the announcement of no data |
| `J1939.TPBuilder.Append` | libnetq/dbc/DBCJ1939.c:271-297 | the frames depend only on all bytes appended, however they were split; refused exactly for no data or more than 1785 bytes |
| `J1939Checksum.Calc` | libnetq/dbc/DBCJ1939.c:309-327 | the loops compute the folded sum beside the counter |
| `J1939Checksum.ChecksumIs` | libnetq/dbc/DBCJ1939.c:309-327 | every contribution written out: seven data bytes, the low half of the counter, the bytes of the identifier |
| `J1939Checksum.IsValid` | libnetq/dbc/DBCJ1939.c:329-342 | accepted exactly for a known rule, size 8 and the right last byte |
| `J1939Checksum.Update` | libnetq/dbc/DBCJ1939.c:344-358 | an updated frame is valid, keeps its seven bytes and carries the counter |
| `J1939Checksum.ChangeNoticed` | libnetq/dbc/DBCJ1939.c:309-327 | changing a byte by less than 15 is always noticed, by 15 exactly when the smaller total is a multiple of 16 |
| `Gcd.Gcd64` | libnetq/Math.c:213-264 | the result is the number whose divisors are exactly the common divisors, also when one number is 0 |
| `Calendar.GmTimeMs` | libnetq/Time.c:215-278 | from 1970 on the fields are those of a calendar with a leap year every four years; before, they count back from the start of a period of four years |
| `Calendar.RightWhen` | libnetq/Time.c:215-278 | for every time: the fields are those of the Gregorian calendar, as its day count says, if and only if it is from 1970 on and before 1 March 2100, or the first millisecond of 1950 or of 1922 |
| `Calendar.RightUntil2100` | libnetq/Time.c:215-278 | the part from 1970 on: the years up to 2100 agree and none later does |
| `Calendar.RightTwiceBefore1970` | libnetq/Time.c:215-278 | the part before: only a whole number of periods since 1901 that ends on a Sunday comes out right |
| `Calendar.FindMonth` | libnetq/Time.c:260-264 | the search finds the month and day of a day of the year |

## Left out

- Threads, mutexes, the wakeup socket, the poll call and clocks: a single worker with atomic calls; times and the results of handlers are parameters.
- `NQNetworkLooper_destroy` and `NQNetworkLooper_removeAll` (libnetq/NetworkLooper.c:281-344, 604-607).
- Failing allocation everywhere, and the overflow of int64_t times.
- The lists of `NetworkLooper.Looper` and `TimerQueue.Queue` are sequences of entry numbers; the pointer operations behind them are proved in `IntrusiveList` and tied to sequences by `Rings.LinkInserts`, `Rings.UnlinkRemoves` and `Rings.SwapExchanges`, but not inside the two classes.
- NetworkLooper.Looper.ClearTimer: requires that the source does not run into its assertion, which `LooperEffects.ClearAsserts` characterises, and that the index is below the limit.
- Errors of the poll call, `NQNetworkLooper_runOnce`, and the identifier that a timer handler is passed.
- NetworkLooper.Looper.PerformOnce2: handlers make no calls of their own here; runs with calls between events are those of `LooperRuns.EveryRun`.
- PathBuilder.JoinPath: with a buffer smaller than the dry run asks for nothing is claimed, because ".." then takes back text that was cut off.
- `NQPathResolve`, `NQPathInfoParse2` and the Windows conversions in libnetq/fs/Path.c.
- DBCReadBack.ReadBack: for messages and signals, each on one line that fits the buffer, and a callback that accepts everything; of the other sections single rows are covered by `DBCRows.RowRead`.
- Double values of the DBC parser are the text of their token; `strtod` and the split of doubles on 32-bit machines are not modelled.
- The overflow of int32_t in `NQCStrToInt32`, undefined in C, wraps around here.
- What a release build does where the assertion about a byte order fails: it takes the first digit.
- TimerQueue.Looper.PerformTimer: requires that the loop ends, which `TimerDrain.LoopEnds` characterises; the other states are those of `TimerQueue.Looper.PerformRounds`. Callbacks do not call the looper.
- BitOps.GetClz: only the loops are modelled, not the compiler intrinsics used instead of them where there are any.
- KeyValTable.Table.Set: memory is always available; the reference count of the table is not modelled.
- Leb128Codec.EncodeUint: the ladders of the eight types are one method with the width and the number of the rung as parameters.
- Leb128Codec.DecodeInt: where a second byte is read past the size it has to be there.
- Base64Codec.DecodeEx: what follows a read behind the table is not modelled.
- Leb128Stream.Decoder.Update: requires a shift below 64, since C does not define larger ones; `Leb128Stream.Feed` says when they come.
- The bit-field view of J1939 identifiers, DM1 messages and identifiers of the second kind (libnetq/dbc/DBCJ1939.c:26-108, 184-250).
- Everything else in the repository: reference counting, UTF, URL, UUID, archives, files, crypto, windows and logging; most of it would only add easy members.
