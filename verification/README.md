# Verification of libinject

libinject puts itself between a program and its socket calls and runs each call through a
program of rules written by the user. This project models its hardest parts in Dafny and
proves properties of them, for all inputs, all runs and all interleavings.

Check it with `dafny verify dfyconfig.toml`.

## What is modelled

| files | part of libinject |
|---|---|
| `Light.dfy`, `LightMap.dfy` | the open-addressing table of `src/ligHT.c`, and when it is a finite map |
| `Call.dfy`, `Queue.dfy` | one intercepted call, the tasks of `src/actions/`, and the interpreter of `src/actions.c`, as functions |
| `Process.dfy` | the same on the heap: buffers, tables and states overwritten in place, proved equal to those functions |
| `Alter.dfy` | the bit flips of `alter` |
| `Marks.dfy` | the tables of completed lines as sets of marks, and when a mark is lost |
| `Termination.dfy`, `OnceRules.dfy`, `Settlement.dfy`, `Lengths.dfy`, `SplitWrites.dfy`, `HangResume.dfy` | properties of whole runs and of sequences of calls |
| `WholeCalls.dfy` | what the program that makes a call sees of it, unless rules interfere and by the task that does |
| `RuleLock.dfy`, `RuleUpdates.dfy` | the locks, counts and condition variable of the rule table, interleaved step by step; what updates come to |
| `SocketInfo.dfy`, `Registry.dfy`, `SocketTable.dfy` | the counted descriptions of sockets and their registry, interleaved step by step, with look-ups that can overlap: over a map, and over the table of the program |
| `Text.dfy`, `Parser.dfy`, `Reader.dfy` | the scanner, the parser combinators as a specification, and the same with a cursor, a status and fields that are overwritten |
| `Grammar.dfy` | the grammar of the rules and their printer |
| `RoundTrip.dfy`, `PrintedHosts.dfy`, `PrintedRules.dfy`, `RuleText.dfy` | printing a rule and parsing it again |
| `ParsedRules.dfy`, `AcceptedRules.dfy` | what every accepted instruction gives, and `ActionQueue_put` |
| `Meanings.dfy`, `ShortForms.dfy`, `Instructions.dfy` | what instructions mean, from their words: which calls they match, parts left out, their modes, tasks and jumps |
| `Reload.dfy` | from the rules of the grammar to the program that the interpreter runs; listing the rules and loading them again |
| `WholeInstructions.dfy` | from the text of an instruction to what the program sees |
| `Iovec.dfy` | scatter, gather and re-partition of vectors in `src/binding.c` |
| `Codec.dfy`, `TraceFormat.dfy`, `Traces.dfy` | the trace format of `dump` and `readdump.py`, its bytes, and what the interpreter dumps |
| `Graph.dfy` | the tables and the 60-second ring of `graphlog.py` |

Code that changes state in place is a class or a method with loops whose contract equates the
new state with a function of the old one; the properties are lemmas about these functions.
The outside (the system call, the clock, the random source, the answers of conditions, the
resolver) is a parameter. A run asks it finitely often, so a finite script with a default after
its end stands for every behaviour.

The parts build on each other: the table of marks is a map (`LightMap`), so the marks of
once-rules stick while it has room (`Marks`), so the loop ends (`Termination`), which is what lets the loop on
the heap be a loop at all (`Process`); calls settle and lengths stay
bounded (`Settlement`, `Lengths`), so that whatever is dumped can be read back (`Traces`); scans read longest words (`Texts`), so that enumerations do not
depend on the order of their tables (`Parsers`), so that printed rules are read back (`RuleText`),
which holds of every rule in use because every accepted instruction is well formed (`AcceptedRules`),
so that the interpreter runs a table of rules and its reloaded listing alike (`Reload`); and a search finds the
first matching line (`Queue`), which is decided by the words of the instruction (`Meanings`), whose task
settles the call (`WholeCalls`), so that an instruction has the effect that its text says (`WholeInstructions`).

## Main results

- A whole intercepted call, on the heap, ends and does what its specification says: `Process.ActionQueueProcess`, with
  `Termination.LoopTerminates`, `Settlement.CallSettles` and `Lengths.LengthsStayBounded`.
- From text to effect: an instruction that is read and put into the table does to the calls that meet it first what its
  text says: `WholeInstructions.InstructionHasItsEffect`. In particular the search finds the first matching line
  (`Queue.FirstMatchIff`), a rule matches as the bits say (`Meanings.MatchesIffCodesMatch`, `Meanings.EventsOfText`), and each task
  is proved by what the program sees, with its bytes (`WholeCalls.HarmlessRulesAreInvisible`, `WholeCalls.WritesAreAltered`,
  `WholeCalls.ReadsAreAltered`, `WholeCalls.SplitWritesInTwo` and others).
- Once-rules complete once over any sequence of calls: `OnceRules.OncePerCallHolds`, `OnceRules.OncePerSocketHolds`, as long as
  marks stick, and they stick exactly as `Marks.MarksStickIff` says.
- The course of an asynchronous hang, from arming to resuming: `HangResume.HangCourse`.
- Split writes are one partial write: `SplitWrites.SplitRefinesOneWrite`.
- The locks of the rule table, in every interleaving: `RuleLock.RulesAreSafe`, `RuleLock.DestroyedOnlyUnused`; updates
  end, and have their effect on their line and no other: `RuleUpdates.UpdateHasItsEffect`, `RuleUpdates.UpdateCompletes`.
- The registry of sockets, in every interleaving: `SocketTable.CountIsUsers`; in those that do not disturb look-ups of a
  descriptor, its descriptions are safe: `SocketTable.DescriptionsAreSafe`, `SocketTable.NothingIsLostIff`; nothing else endangers
  them: `Registry.OnlyOverlapsTakeDestroyed`.
- The table is a map, and when it stops: `LightMap.HistoryRefinesMap`, `LightMap.RemoveKeepsLookupsIff`.
- Every parser tree keeps the contract of elements: `Parsers.Contract`.
- Every accepted rule survives printing and parsing, exactly if its task is printable: `AcceptedRules.AcceptedRoundTripIff`;
  and a table that is listed and loaded again runs the same: `Reload.ReloadedRulesRunTheSame`.
- Everything dumped by any sequence of calls is read back: `Traces.DumpsAreReadable`; the format byte by
  byte, and exactly which bytes reversal changes: `TraceFormat.Layout`, `TraceFormat.ReverseBytes`, `Codec.ReverseTwice`.
- Vectors are cut and joined without loss: `Iovec.GatherThenPartition`.
- The graphs add up: `Graph.BuildGraph`, `Graph.GlobalIsSumOfAddresses`, `Graph.NothingIsLost`.

## Where the code differs from what is written about it

The model follows the code.

- A removal from the table can lose other keys; the exact condition is `LightMap.RemoveKeepsLookupsIff`.
- So closing a socket can make the description of another one unreachable, for instance descriptor 0 and
  16380; the exact condition is `SocketTable.NothingIsLostIff`.
- A line that is done "once per call" or "once per socket" is remembered in a table of as many slots as there are lines, which
  `mark-done` also fills with lines that hold no rule (`src/actions/mark-done.c:43` takes any number). When it is full, a
  once-rule can be completed again and again (`Termination.ForeignMarksRunForever`), and only then
  (`OnceRules.SecondTimeMeansFull`, `Termination.LoopEndsOrFillsUp`); the exact condition under which all marks
  stick is `Marks.MarksStickIff`. A `mark-done` of line -1 takes no slot.
- Nothing protects a description between the look-up that finds it and the lock that counts it (`src/binding.c:134-135`): an
  overlapping close can destroy it there (`Registry.DestroyedIsTaken`), and two first uses at once lose one description
  (`Registry.FirstIsLost`). That look-ups of the descriptor overlap in this way is necessary: `Registry.OnlyOverlapsTakeDestroyed`.
- A `split` of an empty buffer asks for more than is there, in both directions: a read asks for one byte, and a
  write that succeeds is followed by one of 2^64 - 1 bytes; the exact condition is `SplitWrites.SplitStaysInsideIff`.
- The products of `alter` wrap for proportions above 262144; the exact condition is `Alter.NoWrapIff`. The bound on
  the number of flipped bits survives the wrap, because it only makes a product smaller: `Alter.AlterationIsBounded`.
- The printers of `truncate`, `emit` and `error` do not print what is read back; the exact condition is `RuleText.RoundTripIff`.
- A pending hang is not limited to reads: any other call breaks out of the loop after the first rule that it
  runs (`src/actions.c:714`). `HangResume.OtherRuleCompletesIff` says exactly when such a call completes its rule.
- An address matches the peers that have *another* address (`src/actions.c:386`). When a rule nevertheless matches what
  it names is said exactly by `RuleText.TargetMatchIff`, `EitherEndMatchIff` and `BothEndsMatchIff`.
- `parser.h` promises that elements leave the text after what they match. All of them do; but one,
  `Action_parse_with`, succeeds without clearing the status (`src/actions.c:179-184`), and
  `Parsers.Contract` sets it apart.
- The condition `after` is documented as `before` (`src/conditions/after.c:34-37`); conditions are answers here.

## Model

| member | source | states |
|---|---|---|
| `Light.LigHT.Find` | src/ligHT.c:162-179 | The wrap-around probe loop finds the first slot that the key's probe sequence reaches, as the specification `FindEntry` says, with and without `force` |
| `Light.LigHT.PutEntry` | src/ligHT.c:181-197 | The whole new table and the answer after a store, in every case (present with and without `replace`, absent, full) |
| `Light.LigHT.GetEntry` | src/ligHT.c:209-217 | A look-up answers what the table holds for the key and changes nothing |
| `Light.LigHT.RemoveEntry` | src/ligHT.c:219-228 | The whole new table after a removal, which leaves no tombstone |
| `LightMap.FindIsLookup` | src/ligHT.c:162-179 | On a table that refines a map, probing finds a key exactly if the map has it, at a slot that holds the map's value |
| `LightMap.FullIsCapacity` | src/ligHT.c:162-179 | A table is full exactly if the map has as many keys as there are slots, for colliding keys and wrap-around too |
| `LightMap.PutRefines` | src/ligHT.c:162-197 | A store updates the map; it fails exactly on a present key without `replace` and on an absent key with the table full |
| `LightMap.RemoveRefines` | src/ligHT.c:219-228 | A removal whose slot is on no other key's probe path removes the key from the map |
| `LightMap.RemoveKeepsLookupsIff` | src/ligHT.c:219-228 | A removal leaves every other look-up correct if and only if the freed slot is on the probe path of no other live key |
| `LightMap.RemoveLosesCollidingKey` | src/ligHT.c:219-228 | A concrete history that loses a key: two keys of one home, the first removed |
| `LightMap.ReservedKeyBreaksLength` | src/ligHT.c:52-60 | Storing under the reserved key counts an entry that is not there |
| `LightMap.HistoryRefinesMap` | src/ligHT.c:162-228 | Every history whose removals are safe answers, operation by operation, as a finite map of bounded size |
| `LightMap.InsertOnlyRefinesMap` | src/ligHT.c:162-217 | Every history without removals does so, from the empty table on, whatever keys collide |
| `LightMap.DistinctHomesRefineMap` | src/ligHT.c:162-228 | So does every history over keys with pairwise distinct homes, removals included |
| `LightMap.SmallKeysRefineMap` | src/ligHT.c:162-228 | So does every history over keys below the capacity: rule lines and small file descriptors |
| `Alter.AlterInPlace` | src/actions/alter.c:63-77 | The nested loops over the buffer compute the specification `Altered` and draw as often as it says |
| `Alter.NoWrapIff` | src/actions/alter.c:66-67 | No 32-bit product of any batch wraps if and only if the proportion is at most 262144 |
| `Alter.PlanBound` | src/actions/alter.c:64-77 | For every proportion, whether or not a product wraps, the flips of all batches together are at most 16·p·length/10^6 |
| `Alter.ToggleMovesByOne` | src/actions/alter.c:70-73 | One flip moves a byte by exactly one in Hamming distance |
| `Alter.AlterationIsBounded` | src/actions/alter.c:63-77 | For every proportion only the first `length` bytes change, in at most 16·p·length/10^6 bits, and the distance has the parity of the number of flips |
| `Alter.FlipCountIs` | src/actions/alter.c:66-67 | The number of a batch's flips is that many millionths of its bits, drawn, times eight, in 32-bit arithmetic; up to the wrap it is the exact quotient |
| `Alter.PlanIs` | src/actions/alter.c:64-76 | Flip `i` of batch `j` is at the bit of that batch that the next draw designates; each batch takes one draw and one more for each of its flips |
| `Alter.PlanCount` | src/actions/alter.c:64-76 | No other bit is flipped, and so many draws are taken |
| `Alter.AlteredBits` | src/actions/alter.c:70-73 | Every single bit of the altered buffer is the old bit, inverted once for each flip that hits it |
| `Marks.MarkSticks` | src/actions.c:718-719 | While the table has room for a set of lines, marking one of them succeeds, forgets no mark, adds exactly that one, and leaves room for the others |
| `Marks.MarkIsLostIff` | src/ligHT.c:181-197 | A mark is lost if and only if the table is full and does not hold its line |
| `Marks.MarksStickIff` | src/actions/mark-done.c:56-68 | All marks of lines of a set stick, in every order, if and only if these lines and those already marked are no more than the table has slots |
| `Termination.StepKeepsMarks` | src/actions.c:706-741 | No round of the loop takes a mark away, room or not |
| `Termination.RoundMarksOnly` | src/actions.c:718-719 | A round marks no line but that of the rule it completes and the one that its `mark-done` names, for that table |
| `Termination.StepDescends` | src/actions.c:706-741 | Every round of the loop lowers the lexicographic measure (unmarked backward rules, lines left), unless it loses the mark of a rule that jumps back |
| `Termination.LoopTerminates` | src/actions.c:706-741 | If every rule that jumps back is a once-rule and the table of its marks has room for the lines of all rules and those that `mark-done` names for it, the loop ends within (B+1)·capacity rounds, whatever the conditions answer |
| `Termination.LoopEndsOrFillsUp` | src/actions.c:706-741 | Room or not: if every rule that jumps back is a once-rule, the loop ends within so many rounds, or one of them leaves the table of the marks of such a rule full without its line |
| `Termination.NormalLoopRunsForever` | src/actions.c:706-741 | A rule of no once-mode that executes itself next is run for ever |
| `Termination.ForeignMarksRunForever` | src/actions/mark-done.c:56-68 | A once-rule whose `mark-done` names a line that holds no rule, in a table without room for both, is completed as often as one likes, in a call that never ends |
| `OnceRules.StepKeepsOnce` | src/actions.c:708-719 | With such room, a round keeps the record of completed lines and the marks consistent for all once-rules of a kind |
| `OnceRules.MarkedNeverCompletes` | src/actions.c:708-712 | Once the line of a once-rule is marked, the rule is not completed again in a run of any length, room or not |
| `OnceRules.SecondTimeMeansFull` | src/actions.c:708-719 | Room or not: a once-rule is completed a second time in a call only if the round that completed it first left the table of its marks full without its line |
| `OnceRules.OncePerCallHolds` | src/actions.c:708-719 | If the lines of all rules and those that `mark-done call` names are no more than the capacity, a once-per-call rule completes at most once in each call of any sequence of calls on a socket, whatever jumps, marks and hangs occur |
| `OnceRules.OncePerSocketHolds` | src/actions.c:708-719 | If the table of the socket has room for the lines of all rules and those that `mark-done socket` names, a once-per-socket rule completes at most once over the whole sequence, and not at all if it was marked before |
| `Settlement.CallSettles` | src/actions.c:706-750 | After a call that a rule matched, exactly one of done and aborted holds; aborted means that no system call was made in it, done that one was |
| `Settlement.FailureIsSettled` | src/actions.c:706-741 | At no point of the loop does a result of -1 stand in a call that is neither done nor aborted |
| `Settlement.SettledIsNotRepeated` | src/actions/syscall.c:43-45 | Once a call is aborted no task makes a system call, and once it is made only `syscall` makes another |
| `SplitWrites.ShareBound` | src/actions/split.c:60 | The 64-bit product of percentage and length never gives a share larger than the whole, even where it wraps |
| `SplitWrites.SplitDelivers` | src/actions/split.c:65-92 | For every percentage, length and pattern of answers, the bytes delivered by one or both writes are exactly the first `result` bytes, or none on failure, and the buffer pointer and, after two writes, the length are put back |
| `SplitWrites.SplitRefinesOneWrite` | src/actions/split.c:65-92 | A split write has the result and the bytes of one single write under some answer of the system |
| `SplitWrites.SplitStaysInsideIff` | src/actions/split.c:59-92 | A split read or write stays inside the buffer, under all answers, if and only if the buffer is not empty |
| `SplitWrites.SplitOfNothingReadsAByte` | src/actions/split.c:59-64 | A split read into an empty buffer asks for one byte |
| `SplitWrites.SplitOfNothingRunsAway` | src/actions/split.c:73-83 | On an empty buffer, a first write that succeeds is followed by one of 2^64 - 1 bytes |
| `Lengths.LengthsStayBounded` | src/actions.c:685-750 | Through any run, every length passed to the system call and the result are at most the caller's length, and unless reading the caller's buffer is untouched |
| `HangResume.HangArms` | src/actions/hang.c:49-60 | A hang rule reached by a non-blocking read puts the call off: -1, EAGAIN, no system call, the deadline and the line stored, the rule not completed |
| `HangResume.ReadIsPutOff` | src/actions.c:669-672 | Before the deadline a read returns -1 and EAGAIN, makes no system call and leaves the socket as it was |
| `HangResume.OtherCallKeepsWaiting` | src/actions.c:714-717 | A call that is no read, made meanwhile, runs one rule at most, completes none and keeps the hang pending |
| `HangResume.OtherRuleCompletesIff` | src/actions.c:714-717 | A rule that such a call runs is completed if and only if its task succeeds and no hang is pending; a pending hang ends the loop there |
| `HangResume.ReadResumes` | src/actions.c:673-683 | The first read at or after the deadline starts at the hang rule; it completes it, without arming it again, and goes on from its `next`, if and only if the rule is not a once-per-socket rule that was marked |
| `HangResume.ResumesElsewhere` | src/actions.c:673-683 | If the rule that armed the hang is gone by then, the read starts at the first matching rule from line 1 on, and if there is none the hang is over and the read is the system call |
| `HangResume.GoesOnWaiting` | src/actions.c:669-683 | Through any sequence of reads before the deadline and other calls, the hang stays pending, whatever the rules mark |
| `HangResume.ReadsFailWhileWaiting` | src/actions.c:669-672 | Every read of such a sequence fails with EAGAIN without a system call |
| `HangResume.WaitsThenResumes` | src/actions.c:426-436 | After any such sequence the first read at or after the deadline resumes at the rule that armed the hang, under the same condition on the marks at that time |
| `HangResume.HangCourse` | src/actions.c:657-751 | From the call that arms a hang, through any reads before the deadline and any other calls, to the read that completes the hang rule and goes on from its `next`; only a once-per-socket rule needs that no rule marks its line |
| `Process.Engine.DoSyscall` | src/actions/syscall.c:41-64 | The whole state of the call after the system call, and every byte of both buffers |
| `Process.Engine.DoSplit` | src/actions/split.c:54-96 | The in-place save, rewrite and restore of pointer and length computes the specified split |
| `Process.Engine.DoSplitWrite` | src/actions/split.c:65-92 | The two writes through the moved pointer leave the specified state and put pointer and length back |
| `Process.Engine.DoHang` | src/actions/hang.c:49-69 | Arming the hang, or sleeping, as specified |
| `Process.Engine.DoAlter` | src/actions/alter.c:49-79 | The alteration in place of the caller's buffer or of the edited copy |
| `Process.Engine.DoPrepareBuffer` | src/actions.c:796-807 | A write gets a fresh copy of the caller's bytes; a buffer that is there is kept |
| `Process.Engine.DoPerform` | src/actions.c:426-436 | Every task leaves the specified state |
| `Process.Engine.FindMatch` | src/actions.c:640-655 | The scan finds the first line from a position on that matches |
| `Process.Engine.FindFrom` | src/actions.c:624-638 | The scan finds the first line from a position on that holds a rule |
| `Process.Engine.Round` | src/actions.c:706-741 | One round of the loop on the heap is one step of the interpreter |
| `Process.Engine.Loop` | src/actions.c:706-741 | The loop ends, and leaves the state of the whole run of the interpreter |
| `Process.ActionQueueProcess` | src/actions.c:657-751 | A whole intercepted call on the heap gives the result, error, buffer and socket of the specified call, a result of at most the length asked, and an unmodified buffer unless reading |
| `Queue.FirstMatchIff` | src/actions.c:640-655 | The search answers a line if and only if it is the first from the given position on that holds a matching rule, and nothing if and only if there is none |
| `Queue.FirstRuleIff` | src/actions.c:624-638 | The search without matching answers a line if and only if it is the first from the given position on that holds a rule |
| `Queue.RoundGoesTo` | src/actions.c:706-741 | Where a round goes: a skipped rule and `continue` to the next matching line, `goto` to the first matching one from its line on, `next` and `exec` to the first line with a rule whether it matches or not, `stop`, a failure and a pending hang to the end; what is completed, and in which order |
| `Queue.TaskFailsIff` | src/actions.c:426-436 | Exactly when a task fails: there is nothing that it can act on, or it is `error EAGAIN` on a blocking socket; then it leaves everything as it is |
| `WholeCalls.UnmatchedCallIsPlain` | src/actions.c:664-667 | A call that no line matches is the system call: what is asked, moved and answered is what the system does with the caller's own buffer |
| `WholeCalls.HarmlessRulesAreInvisible` | src/actions.c:706-747 | So is every call in which only rules run that report or mark lines, whatever rules match, jump and repeat |
| `WholeCalls.OnlyRuleRuns` | src/actions.c:664-747 | A call starts at the first line that matches it; if that rule may run and stops, the call comes to what its task makes of it |
| `WholeCalls.DropTellsSuccess` | src/actions/drop.c:39-47 | `drop`: no system call is made, the buffer is left alone, and the program is told that all bytes were moved |
| `WholeCalls.FailuresAreTold` | src/actions/error.c:68-80 | `cancel-syscall`, `error` and `emit`: no system call, -1, and exactly which error number; `error EAGAIN` does nothing on a blocking socket |
| `WholeCalls.TruncateAsksForLess` | src/actions/truncate.c:45-60 | `truncate`: the system is asked for so many bytes at most; a negative number and calls without data are left alone |
| `WholeCalls.HangsPutReadsOff` | src/actions/hang.c:49-69 | `hang` and `remote-hang` put off the reads of non-blocking sockets and nothing else; `local-hang` never puts a call off, because it reads first |
| `WholeCalls.AlterOfWrite` | src/actions.c:796-807 | After `alter` on a write, the bytes about to be written have the length of the caller's bytes and differ from them in at most 16·p·length/10^6 bits, with the parity of the flips; the caller's buffer is left alone |
| `WholeCalls.WritesAreAltered` | src/actions/alter.c:49-79 | An altered write makes one system call for as many bytes, and what it moves are the first bytes of such an altered copy of the caller's bytes |
| `WholeCalls.ReadsAreAltered` | src/actions/alter.c:49-79 | An altered read asks the system as usual; the program gets the bytes that the system gave with a bounded number of bits inverted, and nothing behind them is touched |
| `WholeCalls.SplitReadsAPart` | src/actions/split.c:59-64 | A split read is the system call for so many percent of the length, at least one byte |
| `WholeCalls.SplitWritesInTwo` | src/actions/split.c:65-92 | A split write asks for the first part, then for exactly the rest if all of it went through; which bytes each moves, and the result from both |
| `RuleLock.MoveKeepsInv` | src/actions.c:522-550 | Every step of every thread keeps the invariant of the locking protocol |
| `RuleLock.RulesAreSafe` | src/actions.c:522-550 | In every interleaving a rule's count is the number of holds on it, and no thread can reach a destroyed rule |
| `RuleLock.DestroyedOnlyUnused` | src/actions.c:587-609 | A rule is destroyed only when no thread holds it or is about to take it, and then is out of the table |
| `RuleLock.NoEntryWhileEmptying` | src/actions.c:522-539 | Once a rule is being emptied no thread takes it, and each release lowers the count by one |
| `RuleLock.NeverParkedForNothing` | src/actions.c:533-550 | The updater never sleeps on a rule with count zero without a pending wake-up, and goes on once it gets the mutex |
| `RuleLock.NoDeadlock` | src/actions.c:540-550 | While an update is under way some thread can always take a step that brings its end nearer |
| `RuleLock.DrainDescends` | src/actions.c:540-550 | Every such step lowers a well-founded measure |
| `RuleLock.UpdaterFinishes` | src/actions.c:753-759 | From every reachable state such steps lead to the end of the update |
| `RuleUpdates.UpdateHasItsEffect` | src/actions.c:587-609 | In every interleaving: while an update goes on the table is as it was; when it has ended, its line holds the new rule (or nothing, for a removal), every other line what it held, and the replaced rule is destroyed; it is refused exactly if it puts without replacing into a taken line, and then the table is as it was |
| `RuleUpdates.UpdateCompletes` | src/actions.c:753-759 | From every reachable state every update can be brought to its end, and then has had that effect |
| `RuleUpdates.TakesUnlessEmptying` | src/actions.c:522-532 | A thread that finds a rule holds it once more afterwards, and the rule counts one more, if and only if the rule is not being emptied |
| `RuleUpdates.GivesBack` | src/actions.c:533-539 | A thread that gives a rule back holds it once less, the rule counts one less, and the last one wakes a waiting updater |
| `SocketInfos.SocketInfo.DoUnlock` | src/socketinfo.c:194-206 | Giving it back counts down and destroys it exactly if it was condemned and this was the last hold |
| `SocketInfos.SocketInfo.DoCheck` | src/socketinfo.c:148-178 | A found description is taken, or condemned and given back |
| `SocketInfos.CheckIff` | src/socketinfo.c:148-178 | A description is taken exactly if it is not condemned and still fits; otherwise it is condemned, counted as before, and destroyed exactly if nobody holds it |
| `Registry.MoveKeepsInv` | src/binding.c:129-163 | A step that does not disturb a look-up of a descriptor keeps the invariant of that descriptor, whatever happens on others |
| `Registry.OnlyOverlapsTakeDestroyed` | src/binding.c:134-135 | In every run, a look-up takes a description that is destroyed or about to be only if some step of the run condemned a description of the same descriptor or changed its entry while another thread was looking that descriptor up |
| `Registry.SocketKeepsDescription` | src/binding.c:129-163 | In a run that does not disturb the look-ups of a descriptor, a look-up that finds a description which still fits takes that one, and it stays registered for the descriptor |
| `Registry.TakesOrReplaces` | src/binding.c:129-163 | A look-up takes a description that is not condemned and fits, unless it connects; any other condemns what it found, which is destroyed at once exactly if no call holds it |
| `Registry.Registers` | src/binding.c:136-140 | And registers a new description, held once, in its place; without a socket the entry stays empty |
| `Registry.DestroyedIsTaken` | src/binding.c:134-135 | Such a run: between finding a description and taking hold of it, another thread closes the socket and destroys it |
| `Registry.FirstIsLost` | src/binding.c:136-140 | Two first uses of a descriptor at once: the description of one is replaced by that of the other and never destroyed |
| `SocketTable.MoveShows` | src/binding.c:129-163 | On descriptors with homes of their own, and on -1, every step on the table of the program is the step on a map |
| `SocketTable.CountIsUsers` | src/socketinfo.c:185-206 | In every interleaving over such descriptors the count of a description is the number of calls that hold it |
| `SocketTable.DescriptionsAreSafe` | src/socketinfo.c:148-206 | In every interleaving that does not disturb the look-ups of its descriptor, a description is destroyed at most once, condemned and unused; until then the table finds it, a call holds it, or a thread is destroying it |
| `SocketTable.DestroysOnlyUnused` | src/socketinfo.c:194-206 | A step of such an interleaving destroys only a condemned description that no call holds |
| `SocketTable.SmallDescriptorsAreSeparate` | src/binding.c:559 | Descriptors below the capacity of 16380 have homes of their own, and -1 needs none |
| `SocketTable.ClosingForgets` | src/binding.c:514-528 | The run that fails: two descriptors of one home, the first closed; the table no longer finds the description of the second, which nobody holds or will destroy |
| `SocketTable.NothingIsLostIff` | src/binding.c:514-528 | With no call in progress every description whose look-ups were not disturbed is in the table or destroyed, in all interleavings of calls on a set of descriptors, if and only if no two of them share a home |
| `Iovec.Scatter` | src/binding.c:189-195 | The copy loop leaves in the vectors the specified contents, and nothing else changes |
| `Iovec.ScatterIsOverwrite` | src/binding.c:189-195 | Seen as one text, the vectors hold the data on its length and their old bytes beyond |
| `Iovec.Gather` | src/binding.c:329-339 | The copy loop gives a fresh buffer that is the concatenation of all vectors |
| `Iovec.CountNeeded` | src/binding.c:446-449 | The first loop counts the vectors that are needed for the buffer |
| `Iovec.NeededIff` | src/binding.c:446-449 | The number of vectors is the least whose lengths add up to the buffer, or all of them |
| `Iovec.PartitionLengths` | src/binding.c:451-457 | The second loop gives the specified pieces |
| `Iovec.PieceIs` | src/binding.c:451-457 | Each piece is the part of the buffer that falls into its vector |
| `Iovec.PartitionCovers` | src/binding.c:446-457 | A buffer no longer than all vectors is covered exactly once by pieces no longer than their vectors |
| `Iovec.CutConcat` | src/binding.c:446-457 | The pieces, put together, are the buffer |
| `Iovec.GatherThenPartition` | src/binding.c:329-457 | Gathering vectors and cutting the result gives the vectors back, up to empty ones at the end |
| `Codec.DumpEvent` | src/actions/dump.c:90-114 | The writes of the action append the specified bytes to the file |
| `Codec.NextEntry` | tools/readdump.py:85-101 | The reader advances the file as specified and returns the entry, or nothing on a short file |
| `Codec.WriteOfRead` | tools/readdump.py:85-113 | Whatever bytes are read as an entry, writing the entry gives the same bytes |
| `Codec.ReadOfWrite` | tools/readdump.py:85-113 | A written entry is read back, whatever follows it |
| `Codec.WriteAllOfReadAll` | tools/readdump.py:145-157 | Writing all entries read from any file gives back the part of it that can be read |
| `Codec.ReadAllOfWriteAll` | tools/readdump.py:145-157 | A written sequence of entries has one reading: itself, with nothing left over |
| `Codec.ReverseTwice` | tools/readdump.py:153-157 | Reversing directions twice gives the file back byte for byte, exactly if all of it can be read |
| `Codec.RevertFile` | tools/readdump.py:145-157 | The main loop writes the specified reversed file |
| `TraceFormat.Layout` | src/actions/dump.c:90-114 | Where every field of an event is in its bytes, which byte of it comes first, and when an error number, a length and data follow |
| `TraceFormat.ReverseEntries` | tools/readdump.py:153-157 | A reversed file is read to its end and has the entries of the file, each the same in every field but its kind: 1 becomes 2, 2 becomes 1, others stay |
| `TraceFormat.ReverseBytes` | tools/readdump.py:145-157 | Byte by byte, the reversed file is the part that can be read, but for the kind byte of each data entry |
| `Codec.EventRoundTripIff` | src/actions/dump.c:100-114 | An event is read back as it was if and only if it is settled: a result of -1 in a data event stands only in a call that is done or aborted |
| `Codec.TraceRoundTrip` | src/actions/dump.c:90-114 | Any sequence of settled events is read back as the same sequence with nothing left over |
| `Traces.DumpsAreReadable` | src/actions/dump.c:68-118 | Everything that dump rules write during any sequence of calls on a socket is read back as it was written, and survives two reversals |
| `Traces.DumpIsOfItsRound` | src/actions/dump.c:68-118 | Each round of a loop that runs a dump rule writes one event, in order, about the call as it is in that round |
| `Traces.OnlyDumpsAreWritten` | src/actions/dump.c:68-118 | There are as many events as such rounds |
| `Traces.DumpShowsWhatIsSent` | src/actions/dump.c:110-114 | A dump before a write goes through shows exactly the length that will be asked for and the bytes that will be passed |
| `Traces.DumpShowsWhatIsRead` | src/actions/dump.c:110-114 | A dump after a read shows as many bytes as were read, and those the system gave |
| `Graph.Tables.AddLine` | tools/graphlog.py:128-151 | After every line the tables hold, per address and globally, the traffic of the log so far, and the bounds |
| `Graph.Tables.ReadFile` | tools/graphlog.py:104-153 | So they do after a whole file, added to what was read before |
| `Graph.BoundsAreExact` | tools/graphlog.py:132-135 | For logs without lines of second 0 the bounds are the first and the last second of the log |
| `Graph.NothingIsLost` | tools/graphlog.py:128-151 | The traffic of all seconds of a log adds up to the lengths and the number of its lines, per address and globally |
| `Graph.RingStep` | tools/graphlog.py:79-92 | Overwriting slot i mod 60 moves the window of the ring on by one second |
| `Graph.BuildGraph` | tools/graphlog.py:79-98 | Every row holds the traffic of its second and the sum over the last 60 seconds, clipped at the start, for both ways and both fields |
| `Graph.GlobalIsSumOfAddresses` | tools/graphlog.py:125-151 | At every second the last minute of the global graph is the sum of the last minutes of all addresses |
| `Texts.ParseUntil` | src/parser.c:234-281 | The scan for each delimiter, keeping the nearest, reads the specified word |
| `Texts.ConstantIff` | src/parser.c:246-273 | A constant is read exactly if the text starts with it and a delimiter or the end follows |
| `Texts.WordIff` | src/parser.c:252-266 | A word is read exactly as the longest non-empty prefix without a delimiter |
| `Texts.DecimalRoundTrip` | src/parser.c:218-232 | Every 32-bit integer is read back from its decimal text, up to the end of its digits |
| `Texts.DigitsAreDecimal` | src/parser.c:218-232 | The digits of a number are those of its decimal expansion |
| `Texts.StoredOutside` | src/parser.c:226 | What is stored of a number that does not fit: its 32 low bits, after it was limited to 64 bits |
| `Readers.Reader.ParseInt` | src/parser.c:218-232 | Cursor, status and destination after reading an integer, the lone minus sign included |
| `Readers.Reader.ParseEnum` | src/parser.c:319-332 | The loop over the table leaves the specified cursor, status and value, the terminator's value on failure |
| `Readers.Reader.ParseSpace` | src/parser.c:287-295 | The loop skips all white space, and demands some |
| `Readers.Reader.ParseSuite` | src/parser.c:187-202 | The loop over the parts moves the cursor only if all of them succeed |
| `Readers.Reader.ParseFirst` | src/parser.c:204-216 | The loop stops at the first part that succeeds |
| `Readers.Reader.ParseHost` | src/actions.c:115-177 | A host with its look-ups leaves the specified state |
| `Readers.Reader.ParseNamed` | src/actions.c:200-256 | A condition or task is looked up by name and its argument parsed, as specified |
| `Readers.Reader.ParseNext` | src/actions.c:258-284 | What comes next, with its line for `goto` and `exec` |
| `Readers.Reader.Parse` | src/parser.h:49-68 | Running any tree of elements in place leaves the state that its specification `Run` says |
| `Parsers.HostIsResolved` | src/actions.c:156-174 | The look-ups of a host succeed exactly if the resolver knows the host name and the service that were read, and give the host that address and that port |
| `Parsers.Contract` | src/parser.h:49-68 | For every tree, every text and every status: a failure leaves the cursor and sets the status, a success leaves the cursor on a suffix and clears the status |
| `Parsers.EnumIff` | src/parser.c:319-332 | An enumeration accepts exactly the constants of its table, each with its own value |
| `Parsers.EnumOrderIsIrrelevant` | src/parser.c:319-332 | Two tables with the same entries in any order read the same |
| `RoundTrip.TablesAreConsistent` | src/actions.c:260-298 | In six tables of the grammar no constant is empty, holds a delimiter or stands for two values |
| `PrintedHosts.QuadIsInjective` | src/actions.c:443 | Different addresses are printed as different dotted quads |
| `PrintedHosts.QuadOfBytes` | src/actionsdk.h:239-240 | The four numbers of a dotted quad are the four bytes of the address, the highest first |
| `PrintedHosts.SomeResolverKeepsQuads` | src/actions.c:158-163 | There is a resolver that gives every dotted quad its own address, as the results about printed rules suppose |
| `PrintedHosts.HostReads` | src/actions.c:438-449 | A printed host is read back, port and dotted quad included, up to the text that follows it |
| `PrintedRules.ConditionReads` | src/actions.c:200-227 | Every printed condition is read back |
| `PrintedRules.TaskReads` | src/actions.c:229-256 | Every printable task is read back |
| `RuleText.PrintThenParse` | src/actions.c:438-498 | Parsing the printed text of a rule, with or without its newline, accepts all of it and gives the rule back, without the port of a `dns` host |
| `RuleText.TruncateIsLost` | src/actions/truncate.c:62-64 | The printed text of a rule with `truncate` is rejected by the parser |
| `RuleText.RoundTripIff` | src/actions.c:286-350 | A rule survives printing and parsing if and only if its task is not `truncate`, and not an `emit` or `error` of another value than the first of its table |
| `RuleText.ReadBackMatchesTheSame` | src/actions.c:381-424 | The rule read back matches exactly the sockets, directions and condition answers that the printed one matched |
| `Meanings.MatchesIffCodesMatch` | src/actions.c:401-424 | A rule matches a socket at an event exactly as the source tests it on the bits: the direction code 1, 2, 4 or 8 of the event and the protocol code of the socket each have a bit in common with the codes that the parser wrote, the condition holds, and the hosts fit by direction |
| `Meanings.WordsGiveCodes` | src/actions.c:286-350 | In every accepted instruction the third word is the protocol and the fourth decides the direction code |
| `Meanings.EventsOfText` | src/actions.c:286-350 | Which of the four events a rule can match, by the fourth word of the accepted instruction: `with` all, `connect` and `close` their own, `from` and `talk-with` reads and writes |
| `RuleText.TargetMatchIff` | src/actions.c:381-424 | A `connect` or `close` rule matches what it names if and only if it names no address or the peer has another port: where the port fits, it never matches the address it names |
| `RuleText.EitherEndMatchIff` | src/actions.c:381-424 | A `with` or `talk-with` rule for an address on any port matches what it names if and only if exactly one end has the address; with a port, the ends with that port decide |
| `RuleText.BothEndsMatchIff` | src/actions.c:381-424 | The exact condition under which a `from` and `to` rule matches what it names |
| `ParsedRules.Frame` | src/parser.c:187-332 | An element writes to no field that it does not mention, whether it succeeds or fails |
| `AcceptedRules.AcceptedIsGood` | src/actions.c:286-350 | Every accepted instruction gives a rule whose fields are all written and within bounds |
| `AcceptedRules.AcceptedRoundTripIff` | src/actions.c:438-498 | For every text that the parser accepts, printing the rule and parsing it again gives the same rule, but for the port of `dns`, if and only if its task is printable |
| `AcceptedRules.CollisionIff` | src/actions.c:587-609 | A refused rule leaves a clear status if and only if it was well written and its line is taken without `replace`: the distinction that the runtime console makes; a refusal changes nothing, and otherwise the table holds the rule read from the text on its line and what it held on all others |
| `AcceptedRules.RuleTable.DoPut` | src/actions.c:587-609 | The table, the answer and the status after a rule is put |
| `ShortForms.OmittedIsDefault` | src/actions.c:326-347 | An instruction without its condition is read as one with `when always`, and one without its task as one with `do nop` |
| `Instructions.EveryRuleCanBeWritten` | src/actions.c:229-256 | Every rule that any instruction gives is given by the instruction that names its parts, also those that are not printed in a way that is read back |
| `Instructions.TaskTextReads` | src/actions.c:229-256 | Every task is read from its name and argument, a signal and an error from the name of its number |
| `Instructions.RuleMeans` | src/actions.c:706-741 | A rule is run with the mode, the task and the jump that it was given |
| `Reload.LoadedIsNormal` | src/actions.c:761-768 | Putting all printed lines into an empty table gives the table back, line by line, without the ports of `dns` |
| `Reload.ReloadedRulesRunTheSame` | src/actions.c:657-751 | Every intercepted call, on every socket and with every behaviour of the outside, goes the same way with the rules that were listed and loaded again |
| `Instructions.SearchFindsFirstMatch` | src/actions.c:640-655 | In a table of instructions a search finds the first line whose rule fits the socket and the event and whose condition holds then |
| `WholeInstructions.InstructionHasItsEffect` | src/actions.c:657-751 | From text to effect: an instruction that is read, put on a line, and is the first to match a call does to the call what its text says: `drop` makes it succeed without being made, `error NAME` makes it fail with that error, `truncate` asks for less, `hang` puts a read off, and so on |

## Left out

- Foreign calls: `dlsym`, the sockets themselves, the resolver, file opening, gnuplot and HTML output, the I/O of the runtime console, failing allocations.
- `replay` and `reset`: the first reads files, the second calls the intercepted `close`; their syntax is in the grammar, their effect is not in the interpreter.
- `do-once`, and `remove` by a thread that uses the rule: such a thread waits for itself. The interpreter runs over a fixed set of rules; the locking model lets the updater act only on rules it does not use.
- The accounting of users of a rule on the path of a deferred call, and the read of a rule's line after it has been given back (`src/actions.c:670-675`, `src/actions.c:710-711`): hangs are modelled without other threads.
- The search for another rule when the one that armed a hang is gone has its arguments in the wrong order (`src/actions.c:677`); the model starts it at line 1, and `HangResume.ResumesElsewhere` says what comes of it; that the source also tells the conditions there whether the line was 0 is not modelled. The other results about hangs keep the rule in place.
- `remote-hang` on resumption: only `hang` is recognised there, so it is armed again; the results are about `hang`.
- `LigHT_clear`, and growing a table that is not empty: neither is modelled. The tables of the program are created at their capacity.
- `Parse_false`, `Parse_char`, `Parse_line` and `Parse_not`: not in the tree of elements; no rule uses them.
- The table of `mark-done` and that of `emit` have no terminator (`src/actions/mark-done.c:41`, `src/actions/emit.c:97`): the model ends them as if they had one. Signals that only some platforms define are not in the table of `emit`; the numbers of signals and errors are those of Linux.
- The semantics of conditions: `between` reads a wrong slot and `prob` is off by one; conditions are answers from the outside, and a rule that is printed and parsed starts its clock again.
- The buffer of 1024 characters that a rule is printed into: text has no bound here. A text has no NUL character inside.
- A line number outside the table in `ActionQueue_put`, and removing an empty line, are not checked by the source; the model excludes the first and does not take the second.
- The direction with which vectored writes are processed (`src/binding.c:340`) and the receiving call at the end of the send callback (`src/binding.c:460`): only the bytes are modelled.
- Moving bytes past the end of the caller's buffer is undefined in the source; the functions of `Call` clip such accesses, and the methods of `Process` exclude them.
- `readdump.py` shows hexadecimal lines of 15 bytes; the display, the text commands of `forgedump` and the test library are not modelled.
- The sums of the graphs are divided by 60 when they are written; the rows hold the sums.
- The waiting of `hang`, `local-hang` and `remote-hang` in a call that they do not put off, and the signal itself that `emit` sends: time and signals are not part of the model.
- WholeCalls.OnlyRuleRuns, and the results about single tasks that follow from it: are about a first rule that stops and on a socket without a pending hang; what happens after a rule that does not stop is the interpreter's next round (`Queue.RoundGoesTo`).
- WholeCalls.SplitWritesInTwo: is about buffers of two bytes or more for which the product of percentage and length fits into 64 bits; what the wrapped product does is `SplitWrites.ShareBound` and `SplitWrites.SplitDelivers`. `WholeCalls.SplitReadsAPart` is about non-empty buffers and such products.
- WholeInstructions.InstructionHasItsEffect: says nothing of `alter` and `split`, whose effect is in `WholeCalls`, and is about calls of lengths below 2^63.
- Process.ActionQueueProcess: requires that rules that jump back are once-rules with room for their marks and that splits do not meet empty buffers, because otherwise the loop need not end and the source leaves its buffers.
- HangResume.HangCourse: needs a rule that matches each read, as the source looks for one before it looks at the hang; a once-per-socket rule also needs that the marks of the socket are a table that the program made and that no `mark-done` names its line, and `HangResume.WaitsThenResumes` says exactly what happens if one does.
- SocketTable.DescriptionsAreSafe: is about descriptors with homes of their own in the table of 16380 slots, which all descriptors below 16380 have, and about look-ups that are not disturbed; for other descriptors it fails, as `SocketTable.NothingIsLostIff` says, and for disturbed look-ups as `Registry.DestroyedIsTaken` and `Registry.FirstIsLost` say.
- Within a look-up, three parts are one step each: reading the registry; locking, checking and, if the check fails, condemning and giving back what was found, with the second look at its flag (`src/socketinfo.c:162-176`, `src/binding.c:136`); putting a new description in. The atomicity of the registry and of the counts is that of their mutexes.
- AcceptedRules.CollisionIff: excludes accepted instructions whose line is outside the table; the source does not check the line and accesses memory outside its array, which has no meaning to model.
- AcceptedRules.RuleTable.DoPut: excludes the same instructions.
- Traces.DumpsAreReadable: is about calls whose length is an `int` and on which the rules keep within bounds (`Lengths.Safe`); the file has four bytes for a length.
- Proportions of `alter` outside 1 to 2^30 - 1: zero divides by zero, and doubling a larger one overflows an `int`; negative ones are not modelled.
- Termination.LoopTerminates: its condition is enough, not necessary. It says nothing about rules that jump back without being once-rules, or whose marks have no room; such programs can run for ever, as `Termination.NormalLoopRunsForever` and `Termination.ForeignMarksRunForever` show, but some of them end because a task fails or a jump is never reached. Without room, a loop of once-rules that does not end fills the table up: `Termination.LoopEndsOrFillsUp`.
- OnceRules.OncePerCallHolds: its condition on the lines is enough, not necessary: too many lines do harm only if enough of them are marked in one call, as `OnceRules.SecondTimeMeansFull` says.
- OnceRules.OncePerSocketHolds: the same, over the life of a socket.
- Reload.ReloadedRulesRunTheSame: covers tables of rules that the interpreter model covers, so not `do-once`, `remove`, `replay`, `reset`, proportions of `alter` that are not between 1 and 2^30 - 1, and negative lines to jump to; comments and sections of the configuration file are not modelled.
