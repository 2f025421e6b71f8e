# Proofs about the live loop and the secondary merge

The live daemon keeps a generated source tree in step with the change journal of a program
database. Events come down a stream, wait until the stream is quiet, and go as one batch into
a queue that runs one task at a time; a rebuild emits the units a change can reach and commits
the tree. A reviewed proposal is carved out of that flow: its window of the journal is applied
and committed alone, under its contributor's name. This project models that protocol and the
decisions under it, and proves what they promise. A second, smaller part models how a
secondary binary's extraction is merged into the primary one and taken out again.

Everything the outside world answers - journal pages, publishes, hashes, batch decompilations,
whether the daemon is idle - is a parameter or a step of a run, and may fail where the source
handles failure. Asynchronous code is cut at its awaits: a step is one synchronous stretch,
and a run is any interleaving of steps.

| file | source | subject |
|---|---|---|
| `WorkQueue.dfy` | `packages/live/src/queue.ts` | the one-at-a-time queue |
| `ChangeStream.dfy`, `Framing.dfy` | `packages/live/src/events.ts` | the change stream and its framing |
| `Boundary.dfy`, `Journal.dfy` | `packages/live/src/proposal.ts` | holds, sections, journal reads, isolation |
| `LiveLoop.dfy` | `packages/live/src/main.ts`, `proposal.ts` | the whole loop as one transition system |
| `LoopLine.dfy`, `LoopHistory.dfy`, `LoopRecord.dfy` | the same | what every run keeps: the queue's line, the history of model and tree, one step's effect on it |
| `LoopSafety.dfy`, `LoopSegments.dfy`, `LoopAttribution.dfy`, `LoopLimits.dfy` | the same | the hold, exact commits, attribution, and runs that show what each hypothesis is for |
| `Containment.dfy`, `Spellings.dfy`, `Renaming.dfy`, `TypeListing.dfy`, `PairingExact.dfy`, `FunctionList.dfy` | `packages/live/src/model.ts` | closures, spellings, orders and indices over the model |
| `HashCache.dfy`, `TypeOrder.dfy`, `DirtyUnits.dfy`, `ChangesExact.dfy`, `ReuseSound.dfy`, `ReuseLimits.dfy` | `packages/live/src/dirty-units.ts` | what changed, which units are emitted again, and which need not be |
| `Sweep.dfy`, `SweepLength.dfy` | `packages/live/src/verifier.ts` | the rolling sweep |
| `SecondaryMerge.dfy`, `MergedRecords.dfy`, `SecondaryBodies.dfy` | `packages/reconstruct/src/index.ts`, `additional-sources.ts` | merge, strip, skipped bodies |
| `Prelude.dfy`, `Sorting.dfy` | | shared vocabulary, the stable sort and the filter of the runtime |

## What turned out not to hold

The code is modelled as it is; where a promise fails, a concrete input is proved to break it
and the exact condition is proved beside it.

- **Hypotheses of a run.** The feed is the SSE stream; `begin` reads the head in the step that
  holds the stream; one mutating `commit` call at a time; the section is submitted under a live
  hold of its own proposal; from the submission until the call returns nobody aborts and the
  hold does not expire. It is not enough that none of this happens while the section runs,
  since a batch released while the section waits can be behind it in the queue. Where the text
  says so there are two more for a host that answers `committedSeq` from the committed tree: a
  caller's `sinceSeq` is not before the hold's start, and no foreign rebuild runs while a
  proposal is uncommitted. For every one but the first `LoopLimits` has a run without it that
  goes wrong: `HoldNeedsOneBegin`, `AttributionNeedsOneCall`, `AttributionNeedsAHold`,
  `AttributionNeedsTheHold` (expiry while the section runs), `AttributionNeedsTheWait` (expiry or
  abort while it waits), `ExactnessNeedsTheStart`, `ExactnessNeedsNoForeignRebuild`. The history
  (`LoopHistory.HistoryIsComplete`) and the two exact conditions below need none of them.
- **Attribution** fails even in allowed runs when a publish throws after its commit was made
  (`main.ts:919`, then `main.ts:930` or `main.ts:948`): the window is not marked consumed and
  an ordinary batch applies it again (`LoopLimits.AttributionNeedsTheMark`). In allowed runs
  that is the only way (`LoopAttribution.AttributionSafety`, `SafeUnlessThrown`); over all runs
  of the daemon `LoopAttribution.MainLoopAttribution` gives the exact condition.
- **Commits under contributors' names** carry exactly their windows if and only if at each of
  them the tree is at the window's start and the model past nothing but the window
  (`LoopSegments.SegmentsExactly`, any run). For a host that answers `committedSeq` as the
  `BoundaryHost` interface documents, allowed runs always are so (`LoopSegments.ExactSegments`).
  `main.ts:1436` answers `model.seq`, which is ahead of the committed tree after a failed
  generation: `LoopSegments.MainLoopExactly` says that the tree's place is all that matters
  then, `LoopLimits.MainLoopSegmentCanBeWider` is a run in which it is behind.
- **Reuse**: a changed or removed global is looked for inside its present extent, or at its
  first address once it is gone; a reference into what it lost is missed
  (`ReuseLimits.RemovedTableIsMissed`). The early return looks at names alone, so a change of
  nameless globals only is missed by address, by instance and by reference
  (`ReuseLimits.NamelessChangeIsMissed`); and no changed global without a name is ever matched
  with a dependency on the empty name.
  The groups of a `__finally` funclet and its callers are those of the present functions: a
  caller that stopped calling is in none, so the unit it left is missed
  (`ReuseLimits.LostCallerIsMissed`).
  `ReuseSound.ReuseExactly` gives each condition in both directions, and nothing else is missed.
- **Pairing and reordering** settle after one call if the listing names no type twice in a
  category. With a repeated name a second call can pair more
  (`TypeListing.SecondCallNeedsDistinctKeys`) and a list can have drifted right after it was
  reordered (`TypeListing.ReorderingDrifts`); `TypeListing.SecondCallExactly`,
  `ReorderingSettlesExactly` and `DriftExactly` say when, for any listing of named entries.
- **Strip** does not undo a merge that overwrote another source's anchor
  (`SecondaryMerge.StripLosesAnAnchor`, exactly when: `StripUndoesMerge`), and of several
  secondary functions matched to one primary function only the last leaves its address
  (`SecondaryMerge.OnlyTheLastIsKept`, `EveryNamedFunction`).
- **Type names**: a path gives back a type's name exactly when the name holds no `::` and does
  not begin with `:` under a category (`HashCache.NamesAreLost`, `BareOfPath`); the reuse
  theorem and `ChangesExact.ChangesExactly` assume it, `ChangesExact.TypeNamesExactly` tells
  what is reported without it.

## Model

| member | source | states |
|---|---|---|
| `WorkQueue.QueueProtocol` | packages/live/src/queue.ts:63-201 | Over every sequence of submissions, settlements, blocks and unblocks: at most one task runs; every submitted task is in exactly one of refused, folded, rejected, waiting, running, finished; starts are strictly first come first served; a waiting task implies the loop is draining. |
| `WorkQueue.ScanTakesTheFront` | packages/live/src/queue.ts:158-175 | While the invariant holds, the drain loop's scan for a task that may run always takes the first one. |
| `WorkQueue.SubmitKeepsLine` | packages/live/src/queue.ts:79-102 | A submission is refused exactly when the queue is blocked for its kind; accepted, it goes to the end of the line; folded, the first waiting entry that absorbs it takes its job in and nothing else changes. |
| `WorkQueue.SettleKeepsLine` | packages/live/src/queue.ts:162-201 | When a task settles, resolved or thrown, the next in line starts and nothing else moves. |
| `WorkQueue.TaskQueue.Enqueue` | packages/live/src/queue.ts:79-102 | The method, with its scan for an entry that absorbs the task, does what the specification of a submission says. |
| `WorkQueue.TaskQueue.TaskSettled` | packages/live/src/queue.ts:162-201 | The drain loop from one task to the next. |
| `WorkQueue.TaskQueue.Stop` | packages/live/src/queue.ts:108-115 | A block rejects every waiting entry, in order, and leaves the running task. |
| `ChangeStream.NoSkippedEvent` | packages/live/src/events.ts:145-287 | In every run with disconnects, redeliveries, pauses and failing batches, each event received and not yet applied is waiting or in flight; the resume point passes only events of a batch that returned or covered by a mark; a waiting event has a timer coming unless something holds it. |
| `ChangeStream.FirstInFirstOut` | packages/live/src/events.ts:221-287 | In every run, across disconnects, redeliveries, pauses, marks and batches thrown back: the batches that returned, the one in flight and the queue are, end to end, the accepted arrivals in the order they came. |
| `ChangeStream.OneWholeBatch` | packages/live/src/events.ts:257-278 | A batch goes out exactly when the quiet timer fires with something waiting and nothing in the way, and it is all that waited; it stays as it is until the consumer returns or throws. |
| `ChangeStream.Subscription.HandleChange` | packages/live/src/events.ts:221-234 | Redelivered events are dropped, new ones queued and the quiet timer restarted. |
| `ChangeStream.Subscription.DrainOnTimer` | packages/live/src/events.ts:257-263 | The whole queue is released as one batch unless paused or busy. |
| `ChangeStream.Subscription.BatchReturned` | packages/live/src/events.ts:264-278 | The resume point becomes the highest event of the batch. |
| `ChangeStream.Subscription.BatchThrew` | packages/live/src/events.ts:271-278 | A failed batch goes back in front of what arrived meanwhile. |
| `Framing.FrameEndIs` | packages/live/src/events.ts:290-297 | A frame ends at the first place where `\n\n` or `\r\n\r\n` stands, and nowhere if none does. |
| `Framing.FrameEndStays` | packages/live/src/events.ts:290-297 | More text never moves the end of a frame that is already complete, for LF and CRLF blank lines and any mixture of them. |
| `Framing.FramesConcat` | packages/live/src/events.ts:164-183 | Splitting a text and then more text gives the frames of both together and the same rest. |
| `Framing.FramesCutTheText` | packages/live/src/events.ts:164-183 | Frames and their blank lines put together again are the text; no frame and no rest holds a blank line. |
| `Framing.DropsTheBlankLine` | packages/live/src/events.ts:179 | The replacement takes off exactly the blank line that was found. |
| `Framing.FrameReader.Feed` | packages/live/src/events.ts:164-183 | One chunk: the buffer and the frames handed on are those of the text so far. |
| `Framing.TwoConnections` | packages/live/src/events.ts:164-183 | Chunk independence: two ways of cutting one text give the same frames and leave the same rest. |
| `Boundary.ProposalBoundary.BeginHold` | packages/live/src/proposal.ts:457-492 | Refused as busy exactly when the hold, or with none the uncommitted proposal, is another's; already held exactly when the hold is its own; neither changes anything. Else the stream is held before the head is read, and released again when the read fails unless an uncommitted proposal or the operator keeps it. |
| `Boundary.ProposalBoundary.AbortProposal` | packages/live/src/proposal.ts:494-514 | Gives up the hold and the uncommitted proposal of this number and nothing else; the stream runs on exactly when something was given up and neither hold, uncommitted proposal nor operator keeps it. |
| `Boundary.ProposalBoundary.ExpireHold` | packages/live/src/proposal.ts:704-713 | The timer ends only its own proposal's hold and leaves the stream held for an uncommitted proposal. |
| `Boundary.ProposalBoundary.EnterCommit` | packages/live/src/proposal.ts:516-541 | Who may commit and from where; a dry run changes neither boundary nor stream. |
| `Boundary.ProposalBoundary.CommitSection` | packages/live/src/proposal.ts:585-641 | For any answers of the host, exceptions among them: the window's publish is reached exactly on a clean tree at the window's start, after an ordinary commit if needed; the proposal stays uncommitted exactly when that publish reported failure after applying; the window is consumed exactly when it reported success; and the hold is given back in every case. Each failure code has its exact case: committed past the start, not a clean tree at the start, nothing to commit, a publish that threw. |
| `Boundary.ProposalBoundary.RetrySection` | packages/live/src/proposal.ts:644-670 | A retry that fails or throws changes nothing; one that rebuilds ends the uncommitted state and gives the hold back. Each failure code has its exact case. |
| `LiveLoop.SectionIsTheLoops` | packages/live/src/proposal.ts:585-641 | The boundary's method and the loop's two steps of a section come to one end: the same boundary and stream for the same answers, the window consumed and its commit made accordingly. |
| `LiveLoop.RetryIsTheLoops` | packages/live/src/proposal.ts:644-670 | The same for the retry. |
| `LoopHistory.HistoryIsComplete` | packages/live/src/main.ts:1453-1484 | In every run, either host, no hypothesis: the model holds exactly the events 1 to its position and the tree those to its own; the rebuilds cut the journal into consecutive segments, each of which brought in exactly the events of its slice; the stream reaches back to its resume point without a hole. |
| `LoopHistory.StepKeepsHistory` | packages/live/src/main.ts:689-752 | Every step of the loop - journal, stream, queue, boundary, calls, operator - keeps that. |
| `LoopSafety.RunKeepsCore` | packages/live/src/proposal.ts:438-713 | In every allowed run, for either host: the stream is held exactly when a hold or an uncommitted proposal exists or the operator paused it; no batch is behind a section, and none is out while a proposal is uncommitted; a call in a section holds the boundary, and one past its first part runs with what the host answers as committed - the model for the daemon, the tree by contract - at its window's start. |
| `LoopSafety.StepKeepsCore` | packages/live/src/main.ts:689-752 | Every allowed step of the loop keeps the invariant. |
| `LoopSafety.HeldUntilResolved` | packages/live/src/proposal.ts:614-622 | After a publish that failed after applying, the stream stays held and nothing ordinary is applied until a retry rebuilds or the proposal is aborted. |
| `LoopSafety.DryRunForecasts` | packages/live/src/proposal.ts:552-576 | Made right away on an idle queue and a clean tree, the real commit lands if and only if the dry run said it would and its publishes come off: the ordinary one, if something must be committed first, and the window's. |
| `LoopSegments.SegmentsExactly` | packages/live/src/proposal.ts:585-670 | Over every run of either host: all commits under contributors' names carry exactly their windows if and only if at each the tree was at the window's start and the model past nothing but the window, for sections and retries alike. |
| `LoopSegments.TreeDecides` | packages/live/src/proposal.ts:585-670 | Over whole allowed runs of either host - with the contract's, of callers who start no earlier than the hold - all commits under contributors' names are exact if and only if each finds the tree at its window's start. |
| `LoopSegments.ExactSegments` | packages/live/src/proposal.ts:345-369 | For a host that keeps the documented contract, in allowed runs whose callers start no earlier than the hold and in which no foreign rebuild runs while a proposal is uncommitted: every commit under a contributor's name, through a section or a retry, carries every event of its window and no other. |
| `LoopSegments.MainLoopExactly` | packages/live/src/main.ts:1436 | For the daemon's own host, over whole allowed runs: all those commits are exact if and only if each finds the tree at its window's start. |
| `LoopAttribution.AttributionSafety` | packages/live/src/proposal.ts:585-641 | In allowed runs of either host: no event of a committed window was applied by an ordinary task and no two committed windows overlap, if and only if no ordinary task applied an event of a window that was already committed. |
| `LoopAttribution.SafeUnlessThrown` | packages/live/src/main.ts:917-948 | In allowed runs of either host in which no publish throws after its commit was made, attribution is safe. |
| `LoopAttribution.AttributionExactly` | packages/live/src/proposal.ts:585-670 | Over every run, of either host, in which sections publish with the model at the window's start: attribution fails if and only if an ordinary task applies an event of a committed window, or a retry commits a window that an ordinary task reached into while it waited, or that was committed before. |
| `LoopAttribution.MainLoopAttribution` | packages/live/src/proposal.ts:644-670 | The same for the daemon's own host with no hypothesis at all: any number of calls and begins at a time, aborts and expiries anywhere. |
| `LoopLimits.AttributionNeedsTheHold` | packages/live/src/proposal.ts:704-713 | A run in which the hold expires during the section and attribution fails. |
| `LoopLimits.AttributionNeedsTheWait` | packages/live/src/proposal.ts:494-514 | Two runs in which the hold expires, or is given up, while the section waits behind another task, and attribution fails though nothing happens while the section runs. |
| `LoopLimits.AttributionNeedsAHold` | packages/live/src/proposal.ts:534 | A run in which the section is submitted without a hold, from a `sinceSeq`, and attribution fails. |
| `LoopLimits.AttributionNeedsOneCall` | packages/live/src/proposal.ts:697-702 | A run with two calls for one proposal: the end of the first releases the stream under the second, and attribution fails. |
| `LoopLimits.AttributionNeedsTheMark` | packages/live/src/main.ts:917-936 | An allowed run in which a publish throws after its commit and attribution fails. |
| `LoopLimits.HoldNeedsOneBegin` | packages/live/src/proposal.ts:473-480 | A run with two begins: the one that cannot read the journal releases the stream under the other's hold. |
| `LoopLimits.ExactnessNeedsTheStart` | packages/live/src/proposal.ts:534 | An allowed run of a host that keeps the contract, with a `sinceSeq` before the hold: the commit carries more than its window, and attribution fails. |
| `LoopLimits.ExactnessNeedsNoForeignRebuild` | packages/live/src/main.ts:601-615 | An allowed run of either host in which a foreign rebuild, queued behind a section whose publish then fails, gives the window to the owner's name; the retry's commit is empty. |
| `LoopLimits.MainLoopSegmentCanBeWider` | packages/live/src/main.ts:1436 | An allowed run of the daemon in which a contributor's commit carries events before the window. |
| `LiveLoop.Bookkeeping.StillToApply` | packages/live/src/main.ts:742-749 | Of a batch, what no proposal commit has consumed, in order. |
| `LiveLoop.UnconsumedAt` | packages/live/src/main.ts:742-749 | Of any batch, repeats and all, what is left are the elements past the mark at their places, in order. |
| `LiveLoop.UnconsumedKeepsOrder` | packages/live/src/main.ts:742-749 | Of a batch in journal order that is a tail of the batch. |
| `LiveLoop.Bookkeeping.Consumed` | packages/live/src/main.ts:1444-1447 | The mark only moves forward, and the stream's resume point with it. |
| `LiveLoop.Bookkeeping.ResumeByOperator` | packages/live/src/main.ts:1374-1391 | Refused while a full resync is pending, with nothing changed; while a proposal holds the stream it ends the operator's own pause and nothing else. |
| `Journal.ReadRange` | packages/live/src/proposal.ts:257-279 | For any page answers it ends, and either returns exactly the events from+1..to in order, each of them served, or fails on a page with nothing usable or a hole. |
| `Journal.ReadTruthfulRange` | packages/live/src/proposal.ts:257-279 | Over a contiguous journal served in pages of any size, each in any order, it returns exactly the slice. |
| `Journal.WaitForCheckin` | packages/live/src/proposal.ts:676-694 | Over a growing contiguous journal and any paging, a page in any order, the answer is the first check-in after `since`; a timeout has read past no check-in; with enough polls all of the journal is read. |
| `Journal.CheckIsolation` | packages/live/src/proposal.ts:199-248 | Passes a window if and only if it changes something, holds no undo, every change is stamped, and apart from the check-in's own events there is one transaction, described as expected; each transaction is counted exactly. |
| `Journal.AttributableExactly` | packages/live/src/proposal.ts:199-248 | Told of the window alone: it is attributable if and only if some transaction has an event in it whose first is described as expected, and every event is the check-in itself, or no undo and stamped with that transaction or described as the check-in's. |
| `Containment.ExpandChangedTypes` | packages/live/src/dirty-units.ts:100-135 | The worklist ends with the least set that holds the seeds and every type a field of which names one in it. |
| `Containment.Closure` | packages/live/src/dirty-units.ts:100-135 | The closure holds the seeds, is closed, and lies in every closed set over the seeds. |
| `Containment.ExpandedExactly` | packages/live/src/dirty-units.ts:100-135 | A name is reached if and only if it is in every set that has the seeds and, with a name, each type with a member whose spelling comes to it. |
| `Containment.ClosureIsMonotone` | packages/live/src/dirty-units.ts:100-135 | More seeds, or a wider containment, never reach less. |
| `Containment.ByValueEmbedders` | packages/live/src/model.ts:691-707 | The passes end with exactly one slot for every name of the least by-value closure outside the seeds, in ascending order. |
| `Containment.SlotsAreTheClosure` | packages/live/src/model.ts:691-707 | With distinct names the slots are exactly the records of the closure outside the seeds. |
| `Containment.EmbeddingIsExpanded` | packages/live/src/model.ts:691-707 | With one base-name function, what embeds by value is among what the containment closure reaches. |
| `Containment.EmbeddingExactly` | packages/live/src/model.ts:691-707 | The by-value names likewise, a member whose spelling has a star not counting. |
| `Spellings.StripToBase` | packages/live/src/model.ts:215-225 | The loop ends, on a spelling no round changes. |
| `Spellings.SpellingReduces` | packages/live/src/model.ts:215-225 | For every undecorated name that is no keyword: with white space at either end, any stack of keywords with white space behind each in front, and any stack of stars, array extents and qualifiers behind, spaced or not, the spelling comes to the name. |
| `Spellings.BaseIsUndecorated` | packages/live/src/model.ts:215-225 | A base name is empty or has nothing of that left around it, and a spelling is its own base name if and only if it is so. |
| `Spellings.BaseIsFixed` | packages/live/src/model.ts:215-225 | Taking the base name twice is taking it once. |
| `Spellings.DerivedNamesReduce` | packages/live/src/model.ts:215-225 | The pointer and array records of a type have the type as base name. |
| `Renaming.ReferencedExactly` | packages/live/src/model.ts:591-604 | A record refers to exactly the base names of the spellings that are not empty among its members, its typedef target, its return type and its parameters. |
| `Renaming.RenameReferrers` | packages/live/src/model.ts:620-650 | The fixpoint over derived names is one level deep; the slots are exactly the first record of each derived name and the records that refer to a stale name; new names are given exactly where the base has one. |
| `Renaming.RenameKeepsTheSuffix` | packages/live/src/model.ts:620-650 | A record spelled with any stack of stars, extents and qualifiers behind a renamed type is renamed to the same spelling of the new name, which refers to the new name; without a new name, or with an empty one, it keeps its own. |
| `TypeListing.AdoptGhidraNames` | packages/live/src/model.ts:253-277 | In place: a record gets an entry's name exactly when each is the other's only candidate; the count is the number of such records. |
| `PairingExact.PairedExactly` | packages/live/src/model.ts:253-277 | Told of the lists: a record is paired if and only if it is not listed itself, exactly one free entry suits it, and it is the one unlisted record that entry suits; it takes that entry's name and all others stay as they are. |
| `PairingExact.EveryNameSplits` | packages/live/src/model.ts:238-242 | Every name is a base and a stack of stars and extents, spaced or not, with no more of them at the base's end. |
| `PairingExact.AlikeExactly` | packages/live/src/model.ts:238-266 | Told of the spellings, for any two names: they are of one type if and only if the stars and extents behind are the same, spaces aside, and the bases differ but one ends with the other, case aside and all signs that are no letter or digit counting as one. |
| `TypeListing.PairingIsInjective` | packages/live/src/model.ts:253-277 | No two records get the same entry. |
| `TypeListing.PairingIgnoresOrder` | packages/live/src/model.ts:253-277 | A record is paired, or not, whatever the order of the records. |
| `TypeListing.SecondCallExactly` | packages/live/src/model.ts:253-277 | On any listing of named entries: a second call pairs a record if and only if the first was looking for it and left it, all but one of its candidates have a key that was given to others, and that one fits no other record left. |
| `TypeListing.SecondCallPairsNone` | packages/live/src/model.ts:253-277 | On a listing without repeated names a second call pairs nothing. |
| `TypeListing.SecondCallNeedsDistinctKeys` | packages/live/src/model.ts:238-277 | Records `aT` and `bU_T` against a listing with a struct `T`, an enum `T` and an enum `U_T`: the second call pairs again. |
| `TypeListing.ReorderDataTypes` | packages/live/src/model.ts:314-326 | In place, from a rank map that keeps the first place of a key: the stable reordering by place in the listing. |
| `TypeListing.ReorderingIsStable` | packages/live/src/model.ts:314-326 | The same records, listed ones in listing order, and records of one place - the unlisted ones among them - in the order they had. |
| `TypeListing.ReorderingSettlesExactly` | packages/live/src/model.ts:314-326 | On any listing of named entries: reordering twice is reordering once if and only if no record is one that a second call pairs. |
| `TypeListing.ReorderingSettles` | packages/live/src/model.ts:314-326 | On a listing of named entries without repeated keys reordering twice is reordering once. |
| `TypeListing.TypeOrderDrift` | packages/live/src/model.ts:289-302 | None exactly when every record stands where the reordering would put one of its name; else the first place that differs. |
| `TypeListing.DriftExactly` | packages/live/src/model.ts:289-326 | On any listing of named entries, right after a reordering: every record is in place if no record that pairs again gets a place before one in front of it, and only if, where names and categories tell the records apart. |
| `TypeListing.DriftAfterReorder` | packages/live/src/model.ts:289-326 | The two in place, one after the other, on any listing of named entries: no drift when no record pairs again, and exactly the drift of the row above. |
| `TypeListing.ReorderingDrifts` | packages/live/src/model.ts:289-326 | Three records against a listing with a struct `T`, an enum `T` and an enum `U_T`: the list has drifted right after its reordering, and a second one moves two records. |
| `FunctionList.DataRefIndex` | packages/live/src/model.ts:1422-1431 | The entries are exactly the given references of primary functions, sorted by target. |
| `FunctionList.Readers` | packages/live/src/model.ts:1433-1446 | Lower-bound search and scan find exactly the entries in the range. |
| `FunctionList.ReadersOf` | packages/live/src/model.ts:1422-1447 | For every list, address and extent the index answers as the plain filter does. |
| `FunctionList.PrimaryFunctions.Insert` | packages/live/src/model.ts:1550-1563 | Inserted before the first primary function above it, or before the merged tail; address order and the tail are kept. |
| `HashCache.ComputeHashCache` | packages/live/src/dirty-units.ts:217-235 | The snapshot of a program, a later record overwriting an earlier one of its key. |
| `HashCache.SnapshotRecords` | packages/live/src/dirty-units.ts:217-235 | With distinct addresses, paths and global keys, the snapshot holds every record and nothing else. |
| `HashCache.BareOfPath` | packages/live/src/dirty-units.ts:359-366 | When cutting a path at its last separator gives back the type's name, exactly. |
| `HashCache.NamesAreLost` | packages/live/src/dirty-units.ts:359-366 | The names `A::B`, and `:A` in a category, do not come back. |
| `HashCache.Compare` | packages/live/src/dirty-units.ts:300-366 | The names, addresses, value types and order moves the comparison collects. |
| `ChangesExact.ChangesExactly` | packages/live/src/dirty-units.ts:300-366 | Between two programs with distinct keys whose type names come back from their paths, and with hashes that tell records apart: a name is reported as changed if and only if a record of that name is in one and not in the other (a nameless global only if it is gone), and likewise, each in both directions, type names, addresses, value types, gone names, new names and types that came after another one. |
| `ChangesExact.TypeNamesExactly` | packages/live/src/dirty-units.ts:300-366 | The type names where names need not come back: those of types in the present program only, and what the paths of types gone end with. |
| `ChangesExact.UnchangedSelectsNothing` | packages/live/src/dirty-units.ts:318-370 | Whatever the hashes: a program of distinct keys compared with its own snapshot gives seven empty sets and the selection of no unit. |
| `TypeOrder.PredecessorMap` | packages/live/src/dirty-units.ts:206-210 | Each path's predecessor in the list. |
| `TypeOrder.OrderDecides` | packages/live/src/dirty-units.ts:206-210 | Two duplicate-free lists with equal predecessor maps are the same list. |
| `TypeOrder.MovingOne` | packages/live/src/dirty-units.ts:311-317 | Moving one type marks exactly it, its old successor and its new successor. |
| `TypeOrder.MovingABlock` | packages/live/src/dirty-units.ts:311-317 | Two neighbouring blocks of any size that trade places, whatever stands before and behind them, mark exactly the first type of each and the one behind both, if there is one. |
| `DirtyUnits.SelectDirtyUnits` | packages/live/src/dirty-units.ts:255-537 | The passes select exactly the units with a module that owns, depends on, reads or shares a group with a change; everything is emitted when a module is unexplained or a changed function unclaimed. |
| `DirtyUnits.LeftOutIsClean` | packages/live/src/dirty-units.ts:382-469 | No module of a unit left out is dirty in any of the four ways. |
| `ChangesExact.SelectedExactly` | packages/live/src/dirty-units.ts:368-537 | When units are named they are exactly those with a module that defines or depends on a reported change or a type holding one, has a function that refers into a changed global or to where one is gone, or one that clears a run by a changed member or shares a funclet's frame with a changed function. |
| `ChangesExact.EverythingExactly` | packages/live/src/dirty-units.ts:255-537 | Everything is emitted if and only if there is no record to go by, or something is reported and a unit nothing else marked has a module without dependency data, or a changed function still there under its old name is in no module. |
| `DirtyUnits.PredictUnits` | packages/live/src/proposal.ts:305-328 | The units a set of names reaches by the same owns-or-depends rule. |
| `DirtyUnits.ForecastIsInside` | packages/live/src/proposal.ts:305-328 | A forecast from some of the changed names never names a unit the real selection leaves out. |
| `ChangesExact.ForecastExactly` | packages/live/src/proposal.ts:305-328 | The forecast names exactly the units that define or depend on a given name or on a type holding a given one. |
| `ReuseSound.ReuseExactly` | packages/live/src/dirty-units.ts:255-537 | A unit left out has its own functions and types, its dependencies' and the types reached by containment as they were, each owned type after the same type. Its own globals are the same if and only if no changed address is one of them; the instances it reads, if and only if none of a type it depends on changed; its dependency globals, unless a nameless one changed and it depends on the empty name; what its references land in, if and only if none lands in a changed global or in what a removed or shrunk one lost; the groups of funclets and callers it is in, if and only if none lost or changed a member. The named globals of the runs its functions clear now are as they were. |
| `ReuseSound.ReuseIsSound` | packages/live/src/dirty-units.ts:368-537 | Unless the selection returned early: every input of a unit left out is as it was, but for a nameless dependency, and its references land in the same globals if and only if none goes into what a removed or shrunk global lost. |
| `ReuseSound.ReusedTextIsFresh` | packages/live/src/dirty-units.ts:1-43 | A reused unit's inputs are all as they were exactly when none of these conditions is met; then any emission that depends on no more gives it the text a fresh one would have. |
| `ReuseLimits.RemovedTableIsMissed` | packages/live/src/dirty-units.ts:408-447 | A unit that reads the middle of a removed table is left out. |
| `ReuseLimits.NamelessChangeIsMissed` | packages/live/src/dirty-units.ts:325-370 | A changed global without a name does not stop the early return: the unit that owns it is left out. |
| `ReuseLimits.LostCallerIsMissed` | packages/live/src/dirty-units.ts:455-469 | A funclet's second caller stops calling it: the unit of the funclet and its remaining caller is left out. |
| `Sweep.ModelVerifier.DoStep` | packages/live/src/verifier.ts:541-619 | One step in place: an interrupted step is thrown away whole, a verified one moves the cursor to its last key. |
| `Sweep.StepIsAllOrNothing` | packages/live/src/verifier.ts:503-619 | While keys are left: a step verifies if and only if it was idle, the version did not move before or after and nothing disturbed it; it then counts the least keys left, as many as the phase takes at a time or all; any other step leaves phase, cursor and count as they were. |
| `Sweep.StepMovesOn` | packages/live/src/verifier.ts:551-657 | With none left: from functions to types unless the version moved or a listing that came was disturbed, from types to globals, and from globals the cycle ends; nothing is counted. |
| `Sweep.AddressOrderIsNumeric` | packages/live/src/verifier.ts:408-411 | Of hex addresses of one length, or without a leading zero on the longer, the smaller number comes first. |
| `Sweep.VerifiedInOrder` | packages/live/src/verifier.ts:503-526 | A step goes through functions and globals by the number of their address, and through types by the characters of their key. |
| `Sweep.KeyOrdersAreStrict` | packages/live/src/verifier.ts:408-411 | Both key orders are strict and total, so the cursor splits every list in two. |
| `Sweep.CycleCoverage` | packages/live/src/verifier.ts:503-526 | Over a whole cycle, with any lists at any step and any interruptions, a key present throughout is in exactly one verified step of its phase, and no key is in two; a step that counted it was undisturbed from first look to last. |
| `SweepLength.CycleLength` | packages/live/src/verifier.ts:541-657 | On a model that stands still, with no function or type key twice, a cycle ends exactly with the effective step whose number is the sum over the phases of ceil(n/b) + 1, however many steps were busy or interrupted. |
| `SweepLength.CycleEndsInTime` | packages/live/src/verifier.ts:541-657 | With any lists that stand still, keys that stand twice among them, it takes no more effective steps than that. |
| `SweepLength.StepsIsCeiling` | packages/live/src/verifier.ts:503-526 | The number of steps of a phase is that rounded-up quotient and one more. |
| `SecondaryMerge.BuildPrimaryMatcher` | packages/reconstruct/src/index.ts:1150-1189 | The three maps answer as the plain search does: the last function of the qualified name, else the only one of the bare name, else the linked address. |
| `MergedRecords.MatchIs` | packages/reconstruct/src/index.ts:1150-1189 | A function's match, told of the list: the last of its qualified name; with none the only one of its bare name; else the last at the address the last link of its own address leads to. |
| `MergedRecords.QualifiedTellsApart` | packages/reconstruct/src/index.ts:1150-1189 | Where names hold no colon, qualified names are equal if and only if name and namespace are. |
| `SecondaryMerge.Extraction.Merge` | packages/reconstruct/src/index.ts:1196-1271 | In place: each primary function carries the address of the last function matched to it; unmatched ones, new globals, namespaces and types are appended in order, tagged. |
| `MergedRecords.AppendedFunctions` | packages/reconstruct/src/index.ts:1204-1227 | Told record by record: the functions appended are, in order, the secondary's named ones without a match, each with its own name, namespace, address, body, flags and anchor and with exactly this platform and ifdef. |
| `MergedRecords.PrimaryFunctionsStay` | packages/reconstruct/src/index.ts:1204-1227 | A primary function keeps its place and everything but its anchor, which is that of the last named function matched to it, or what it was. |
| `MergedRecords.AppendedGlobals` | packages/reconstruct/src/index.ts:1228-1244 | The globals appended are, in order, the named ones of a qualified name the primary did not have, untouched but for the tags. |
| `MergedRecords.AppendedNamespaces` | packages/reconstruct/src/index.ts:1246-1252 | The namespaces appended are, in order, those the primary did not have. |
| `MergedRecords.AppendedTypes` | packages/reconstruct/src/index.ts:1254-1266 | The types appended are, in order, the first of each key the primary did not have, untouched but for the tags. |
| `MergedRecords.KeyTellsApart` | packages/reconstruct/src/index.ts:1254-1266 | Where names hold no colon, type keys are equal if and only if name and category are, no category being the one spelled `undefined`. |
| `SecondaryMerge.StripDisabledSources` | packages/reconstruct/src/additional-sources.ts:57-92 | Records of disabled sources go, anchors of disabled sources are taken off, the rest keeps its order; the counts agree. |
| `MergedRecords.StrippedFunctions` | packages/reconstruct/src/additional-sources.ts:57-92 | For any set of disabled sources: the functions kept are those of no such source, in order, with everything but an anchor to one. |
| `MergedRecords.StrippedAnchors` | packages/reconstruct/src/additional-sources.ts:57-92 | The anchors counted are exactly those of kept functions to a disabled source. |
| `MergedRecords.StrippedRecords` | packages/reconstruct/src/additional-sources.ts:57-92 | Globals and types kept are those of no such source, in order and untouched. |
| `SecondaryMerge.StripUndoesMerge` | packages/reconstruct/src/additional-sources.ts:57-92 | Strip after merge gives back the original functions, types and globals if and only if the primary held nothing of the source and no matched function was anchored. |
| `SecondaryMerge.StripLosesAnAnchor` | packages/reconstruct/src/additional-sources.ts:57-92 | A function anchored for one source, matched by another's: the strip of the other does not give the anchor back. |
| `SecondaryMerge.EveryNamedFunction` | packages/reconstruct/src/index.ts:1204-1227 | A named secondary function is appended, or its address is the anchor of its match exactly when the last function matched there has that address. |
| `SecondaryMerge.OnlyTheLastIsKept` | packages/reconstruct/src/index.ts:1204-1227 | Two secondary functions of one name matched to one primary function: the first one's address is nowhere. |
| `SecondaryBodies.MergeSeesNeededBodies` | packages/reconstruct/src/index.ts:1297-1311 | Two extractions that agree on the bodies the merge keeps merge alike. |
| `SecondaryBodies.SkippingChangesNothing` | packages/reconstruct/src/index.ts:1297-1311 | An extraction filtered by need merges as a full one. |
| `SecondaryBodies.TopUpChangesNothing` | packages/reconstruct/src/index.ts:1463-1491 | A same-version cache written for any older primary, topped up, merges as a full extraction. |
| `SecondaryBodies.OlderExtractionMerges` | packages/reconstruct/src/index.ts:1297-1311 | With the matches the source makes: an extraction that skipped what any older primary did not need, topped up for the present one, merges as a full extraction. |
| `SecondaryBodies.DecompileBodies` | packages/reconstruct/src/index.ts:1590-1618 | In batches of any size, in place: exactly the asked places get their bodies. |
| `SecondaryBodies.TopUp` | packages/reconstruct/src/index.ts:1463-1491 | In place: every body that is missing, possible and needed is fetched, and no other record changes. |
| `SecondaryBodies.ToppedUpExactly` | packages/reconstruct/src/index.ts:1463-1491 | A body is fetched if and only if there is none, the function is neither external nor a thunk, is named, and has no match; every other field of every record stays. |
| `SecondaryBodies.NoBodyInVain` | packages/reconstruct/src/index.ts:1297-1311 | Every body fetched stands in the merged list with its function. |
| `SecondaryBodies.MergeAdditionalSource` | packages/reconstruct/src/index.ts:1273-1315 | With the matcher built from the primary: from a cache, a filtered or a full extraction, the primary comes out the same. |

## Left out

- LiveLoop: full resyncs, the stop on a failed fact refresh, the snapshot cutoff of a first batch, and crash and restart; a run is within one process life. The verifier's re-read of stale records brings no event and is a rebuild here.
- LiveLoop: a publish is one step, taken when it ends, and so is the journal read of a window; dry runs, which change nothing, are not among a call's steps.
- `PollingChangeStream`: the feed here is the SSE stream; a poll in flight when the stream is paused still hands its batch over, so a hold does not hold it.
- ChangeStream: malformed events, which are logged and dropped, `stop()`, reconnect backoff and the truncation notice.
- Framing: text decoding, and what a frame's lines say.
- WorkQueue: the value a folded submission returns (the entry, not a promise); folding is "no settlement of its own".
- Boundary: the validation of numbers, durations and identities, commit messages, how long a hold lasts (its timer may fire at any step).
- Boundary: `RetrySection` calls `finish` inside the section as the source does; the order of that and of the queue's own settlement is not distinguished.
- Journal: the page size asked for and the head a page reports, which only the error text uses.
- HashCache: hashes are injective functions of a record; addresses are numbers, so their spelling, its case and unparseable ones are not modelled.
- LoopHistory.HistoryIsComplete: applying is all or nothing; a throw in the middle of it (a function's facts cannot be read) leaves records in the model with its position unmoved, and inside a section or its ordinary commit nothing stops the daemon then.
- DirtyUnits: the emitter, `globalRunReaders`, and which functions are funclet candidates and call one, are given from outside; module lists absent from a build record count as empty; reasons and the order of result lists.
- ReuseSound: the relative order of functions and globals, and of owned types beyond the predecessor of each.
- TypeListing: one record object held twice in a list.
- FunctionList: how an address is normalised and read as a number is given from outside; `reorderGlobals`, which sorts like the type list.
- Sweep: what a check compares and what its mismatches set off (any later lists are allowed); quiet periods; the persisted state is read back as written; strings compare by characters.
- SecondaryMerge: records are values, so a secondary record tagged by the merge is not also changed in the secondary list; warnings and counts in them; the mode that extracts single namespaces.
- SecondaryBodies: a failed top-up, which falls back to a full extraction; a batch answer covers what was asked.
- `shortDiff`, `reorderGlobals`, commit trailers, tags and status reports: nothing hard to say of them.
