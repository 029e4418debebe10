# Nitrox kernel protocols, verified

A Dafny model of the concurrent protocols, ring buffers and parsers of the Nitrox kernel, with proofs of
what each is for. `dafny verify dfyconfig.toml` checks the project.

Concurrent code is a state machine: a `State`, the steps as datatypes, a `Next` relation that says what
each step does, and theorems about every state of every run (`IsRun`), over any number of CPUs, contexts
or callers. A step is one atomic access another CPU can observe, or one hold of a lock. Code that updates
a buffer in place is a class over arrays whose methods are proved against a plain sequence. Pure code is
functions and lemmas.

| files | what they model |
|---|---|
| `Common` | what several models share |
| `HandleTable`, `HandleTable*` | the handle table: lock-free lookup under a seqlock, deferred closes, grace periods, exit sweeps, one reference per live entry |
| `HandleClaims` | moving a handle: claim, commit, drop; the handle's encoding |
| `HandleSegment` | a segment's shuffled linked freelist, the generator behind it, the deferred-close ring |
| `Sched`, `SchedTheorems` | the context switch: lists under the scheduler lock, contexts saved after its release, the `on_cpu` guard |
| `Ahci`, `AhciTheorems`, `AhciProgress` | one AHCI port: slot, queue, fault, watch thread, recovery, giving up, and how long an IRP is queued |
| `OneAtATime`, `Dpc`, `DpcTheorems`, `DpcProgress`, `IrpList` | deferred calls, bodies that run one at a time, and the list of completed IRPs |
| `Tlb`, `TlbTheorems` | TLB shootdown: publish, signal, acknowledge or depart |
| `ConsoleText`, `ConsoleGrid`, `ConsolePages`, `ConsoleCuts`, `ConsoleReport`, `Console` | the console: decoder, ring grid, pager and where it cuts, the page of a report, and the painter that skips cells already right |
| `Klog` | the kernel log: a prefix, a ring, a notice of what was lost between |
| `Cpio` | looking a name up in the initramfs |
| `DeviceRegistry`, `DeviceChanges`, `DeviceProgress` | the device table, and waiting for it to change |
| `Partitions`, `BlockWindow` | parsing a partition table, fragments, and the window a partition is on its disk |

Where the code and its documentation differ, the model follows the code:

- `RawHandle::NULL` is documented as never issued. Slot 0 of segment 0 gets generation 0 each time its
  generation wraps, and that handle is the null one (`HandleClaims.IssuedNull`).
- A claim's mark is cleared by generation, which wraps. A claim dropped a multiple of 2^31 issues of its slot
  late clears another claim's mark. Claims are exclusive exactly until such a drop
  (`HandleClaims.ExclusiveIffNoLateDrop`), and a commit may leave its issue live if its lookup was as old
  (`HandleClaims.CommitClosesItsIssue`).
- An exit sweep reads the epoch it tags a slot with before it takes the slot's pointer out. If the epoch moves
  between, a drain may free the slot under a reader (`HandleTableLateNull.SweepReusedUnderReader`);
  `HandleTableTheorems.ReusedUnderLateReadersOnly` says under which. The object's lifetime (`NoUseAfterFree`) does
  not depend on it.
- `show_page` writes newlines until the cursor is on the last row. If the page ends inside a string escape
  sequence above that row, every newline is swallowed and the loop does not end
  (`ConsoleReport.TitleNeverComesDown`); `ComesDownIff` is the exact condition.
- `show_page` asks for a page that leaves the last row free, and such a page may still scroll: if it is cut
  inside a character in a full row just above the last, the first newline draws a replacement that wraps
  (`ConsoleReport.CutCharacterScrolls`); `ReportScrollsIff` is the exact condition.
- The pager stands still on a run of bare UTF-8 lead bytes longer than the screen
  (`ConsolePages.BareLeadsStick`); `PageMovesOnIff` is the exact condition for one page and `PagesEndIff` for
  all, and well-formed text meets it.
- Every cut of the pager is documented to be on a character boundary. Where the newline left out cuts a character
  short, the page ends inside that character (`ConsoleCuts.LeadThenNewline`); `PagesEndInsideIff` is the exact
  condition. No page begins inside one.
- `lookup` is documented never to match a directory. It does not read the mode, and finds a directory as an empty
  file (`Cpio.DirectoryIsFound`).
- `depart` is documented to take every node whose parent chain reaches the one given. Its one pass does exactly
  if no entry is recorded before its parent (`DeviceRegistry.OnePassFindsIff`).

## Model

| member | source | states |
|---|---|---|
| `HandleTableTheorems.RunKeepsInv` | kernel/src/handle/table.rs:255-833 | Every state of every run keeps the whole invariant: lock, references, object lifetime, seqlock, generations, slots, sweep and reuse, whatever lookups, installs, closes, restricts and exit sweeps interleave. |
| `HandleTableTheorems.NoUseAfterFree` | kernel/src/handle/grace.rs:46-108 | An object whose pointer a lookup has loaded has a count of at least one until that lookup leaves its read section, with any number of readers, closers and sweepers. |
| `HandleTableTheorems.AcquireNeverFails` | kernel/src/handle/table.rs:422-455 | So the reference a lookup tries to take inside its section is always taken, and the lookup goes on with the same object. |
| `HandleTableTheorems.LookupIsLinearizable` | kernel/src/handle/table.rs:394-497 | A lookup that succeeds returns object, owner, rights, type and generation that the entry held all together at one step of the call, between writes, at the issue the handle names. |
| `HandleTableTheorems.FailedLookupKeepsNothing` | kernel/src/handle/table.rs:455-497 | A retry or a refusal gives back exactly the one reference the lookup took: that count drops by one, no other changes, the caller is left holding nothing. |
| `HandleTableSafety.SnapLocal` | kernel/src/handle/entry.rs:90-112 | A reader's own loads keep it true that, while the version is the one it first saw, everything it has loaded since is what the entry holds. |
| `HandleTableSafety.StoreKeepsSnap` | kernel/src/handle/entry.rs:114-134 | So does every store of a writer's bracket, for every reader in progress: a torn snapshot always shows in the version. |
| `HandleTableTheorems.CountsAreExact` | kernel/src/handle/table.rs:564-607 | An object's count is exactly the number of live entries and calls in progress that hold it. |
| `HandleTableTheorems.SlotsAreConserved` | kernel/src/handle/table.rs:329-388 | Every slot is in exactly one place (free, deferred, live, or in the hands of one call), and none is in the deferred ring twice. |
| `HandleTableTheorems.PushesAreFresh` | kernel/src/handle/table.rs:577-600 | No step pushes a slot that is on the freelist or in the ring already, and a push goes to the ring's end. |
| `HandleTableTheorems.SweepEmptiesTheProcess` | kernel/src/handle/table.rs:713-777 | A sweep that reaches the end of the table leaves its process no live entry if nothing was installed for that process since the sweep began, in however many batches. |
| `HandleTableTheorems.SweepTakesOnlyItsOwn` | kernel/src/handle/table.rs:722-777 | The pointer a sweep nulls is of a live entry owned by the process it sweeps. |
| `HandleTableTheorems.TakenOutOnce` | kernel/src/handle/table.rs:577-600 | A step takes at most one issue of one slot out of the table, and one that was not out before. |
| `HandleTableTheorems.OutOnlyGrows` | kernel/src/handle/table.rs:713-777 | What has been closed or swept is never un-closed, over any stretch of a run. |
| `HandleTableTheorems.IssuedIsLiveOrOut` | kernel/src/handle/table.rs:355-376 | Every handle ever issued is at every moment either its slot's live one or taken out, never both and never neither. |
| `HandleTableTheorems.ClosedStaysClosed` | kernel/src/handle/table.rs:564-582 | A closed or swept handle can validate again only when its slot has been issued a positive multiple of 2^31 times since. |
| `HandleTableTheorems.ClosesTagInTime` | kernel/src/handle/table.rs:577-600 | A close's deferral is always tagged no earlier than the epoch its pointer went out in. |
| `HandleTableTheorems.ReusedUnderLateReadersOnly` | kernel/src/handle/table.rs:783-806 | When any deferred slot, a close's or a sweep's, goes back to the freelist, an open read section that has its old pointer announced an epoch later than the deferral's tag and no later than when the pointer went out. |
| `HandleTableTheorems.ReuseWaitsForReaders` | kernel/src/handle/table.rs:783-806 | So a slot deferred in time, by a close or a sweep, goes back to the freelist only when no open read section has its old pointer. |
| `HandleTableLateNull.SweepReusedUnderReader` | kernel/src/handle/table.rs:754-763 | A run in which a sweep's deferral is not in time: the epoch moves between its tag and its store, a reader announces the new epoch and loads, and a drain frees the slot while that section is open. |
| `HandleTableSweeps.SweepTakesEachOnce` | kernel/src/handle/table.rs:713-777 | From a sweep's start to its end, every entry its process had at the start is taken out by exactly one step of the run, if nothing was installed for the process meanwhile. |
| `HandleTableSweeps.SweepTakesNoOther` | kernel/src/handle/table.rs:722-777 | And whatever the sweeper itself takes out is a live entry of the process it sweeps. |
| `HandleTableRights.RightsOnlyShrink` | kernel/src/handle/table.rs:612-652 | As long as a handle is live it names one object with one owner, type and generation, and its rights never grow, over any stretch of any run. |
| `HandleTableRights.RestrictIntersects` | kernel/src/handle/table.rs:637-648 | A restrict leaves exactly the rights the entry had and the caller asked to keep. |
| `HandleTableRights.RestrictTakesEffect` | kernel/src/handle/table.rs:637-650 | When a restrict is done the entry has no right it did not ask to keep. |
| `HandleTableRights.InstallPublishes` | kernel/src/handle/table.rs:355-376 | When an install is done the entry is live with every field as given, its issue's generation, and an even version. |
| `HandleTableRights.IssuesOnlyGrow` | kernel/src/handle/table.rs:355-376 | The count of a slot's issues never goes back, and no segment ever leaves the table. |
| `HandleClaims.ClaimsAreExclusive` | kernel/src/handle/table.rs:511-537 | Two outstanding claims are never on one issue, a committed issue has none, and none is committed twice, whatever closes, reissues and other claims interleave and however old a claim is, until a drop is late. |
| `HandleClaims.CommittedOnce` | kernel/src/handle/table.rs:810-833 | So no issue is ever committed twice. |
| `HandleClaims.ExclusiveIffNoLateDrop` | kernel/src/handle/table.rs:826-833 | Exactly when that holds in every state of a run and for whoever claims next: no claim on an earlier issue of the same generation was dropped while the live issue was marked. |
| `HandleClaims.CommitClosesItsIssue` | kernel/src/handle/table.rs:816-824 | In every run, the issue a commit claimed is live afterwards exactly if it was live and another process's, which only a lookup a multiple of 2^31 issues old leads to. |
| `HandleClaims.LateMarkOutlivesCommit` | kernel/src/handle/table.rs:511-524 | A run where that happens. |
| `HandleClaims.StaleClaimTouches` | kernel/src/handle/table.rs:816-833 | Exactly when a claim that ends acts on a later issue than its own: the slot has been issued a positive multiple of 2^31 times since and that issue is marked (drop), or live and the same process's (commit). |
| `HandleClaims.LateDropBreaksExclusion` | kernel/src/handle/table.rs:826-833 | A run in which a claim dropped exactly 2^31 issues late lets two claims on one issue stand. |
| `HandleClaims.HandleRoundTrip` | kernel/src/libkern/handle.rs:61-81 | Every handle decodes to the segment, slot and generation it was made from, and its top bit is clear. |
| `HandleClaims.IssuedNull` | kernel/src/libkern/handle.rs:40-86 | Exactly which issues of which slot are the null handle: slot 0 of segment 0, each time its generation wraps to 0. |
| `HandleSegment.XorshiftStaysNonZero` | kernel/src/handle/prng.rs:20-36 | The generator never reaches the zero state it could not leave. |
| `HandleSegment.GenBelow` | kernel/src/handle/prng.rs:38-48 | The remainder of the first draw below the rejection bound, every earlier one having been rejected; nothing only if all were. |
| `HandleSegment.EveryResultEquallyLikely` | kernel/src/handle/prng.rs:38-48 | Each result is hit by exactly U32_MAX / n accepted draws, all different, and by no others: an accepted draw is unbiased. |
| `HandleSegment.ShuffledIsPermutation` | kernel/src/handle/segment.rs:85-105 | Whatever is drawn, the shuffle is a permutation of the slots. |
| `HandleSegment.ShuffleIsInjective` | kernel/src/handle/segment.rs:85-105 | Different draws give different orders, so a uniform choice of draws is a uniform choice of order. |
| `HandleSegment.Shuffle` | kernel/src/handle/segment.rs:85-105 | The in-place exchanges compute that permutation of the identity. |
| `HandleSegment.Segment.constructor` | kernel/src/handle/segment.rs:53-127 | A new segment's links visit every slot once, in the shuffled order, and end. |
| `HandleSegment.Segment.Thread` | kernel/src/handle/segment.rs:105-127 | Each place of the permutation is linked to the next and the last to the tail mark. |
| `HandleSegment.Segment.Pop` | kernel/src/handle/table.rs:341-352 | Taking the head leaves the rest of the chain: acyclic, as long as the free count. |
| `HandleSegment.Segment.Push` | kernel/src/handle/table.rs:783-806 | Putting a slot back at the head keeps the chain acyclic and its count right. |
| `HandleSegment.DeferredQueue.Push` | kernel/src/handle/table.rs:199-209 | The ring is a queue: appended at the end, refused exactly when full. |
| `HandleSegment.DeferredQueue.Front` | kernel/src/handle/table.rs:210-216 | The oldest entry, without taking it. |
| `HandleSegment.DeferredQueue.PopFront` | kernel/src/handle/table.rs:217-226 | The oldest entry, and the rest stay in order. |
| `SchedTheorems.RunKeepsInv` | kernel/src/sched.rs:538-707 | Every state of every run over any number of CPUs keeps the invariant of lists, stacks, guards, saved contexts and registers. |
| `SchedTheorems.NoThreadOnTwoCpus` | kernel/src/sched.rs:597-707 | No thread's stack is ever in use on two CPUs, nor on one after it was freed. |
| `SchedTheorems.LoadsOnlyCommitted` | kernel/src/sched.rs:616-655 | When a CPU loads a thread's saved context its guard is down, no CPU is on its stack, and stack pointer and floating-point image are what it stopped with. |
| `SchedTheorems.ResumesWhereItStopped` | kernel/src/arch/x86_64/context.rs:93-130 | A thread resumes with exactly the registers it stopped with. |
| `SchedTheorems.ThreadsAreConserved` | kernel/src/sched.rs:538-596 | Every thread made and not freed is on exactly one list or slot of the scheduler. |
| `SchedTheorems.ParksAreFresh` | kernel/src/sched.rs:538-568 | The list a switched-out thread is parked on does not hold it already. |
| `SchedTheorems.WakesAreFresh` | kernel/src/sched.rs:538-596 | The ready queue a woken thread is put on does not hold it already. |
| `SchedTheorems.SpinWaitsForLockFree` | kernel/src/sched.rs:597-660 | A CPU spinning on a guard while it holds the scheduler lock waits for another CPU that is past its own release and can take its next step whoever holds the lock: no cycle. |
| `SchedTheorems.SpinIsBounded` | kernel/src/sched.rs:597-707 | As long as a guard a CPU spins on stays up, it has one owner, which has taken at most three steps. |
| `AhciTheorems.EveryIrpIsInOnePlace` | kernel/src/drivers/ahci.rs:496-642 | Every submitted IRP is in exactly one of: queued, in the slot, with one CPU, completed. |
| `AhciTheorems.CompletedOnce` | kernel/src/drivers/ahci.rs:581-642 | No IRP is completed twice, and none that was not submitted. |
| `AhciTheorems.RunningIsNotCompleted` | kernel/src/drivers/ahci.rs:736-791 | While the controller may still run a command, its IRP is in the slot, with no CPU about to complete it and not completed (section 6.2.2.1 of AHCI 1.3.1). |
| `AhciTheorems.QueuedIsNeverStranded` | kernel/src/drivers/ahci.rs:623-691 | With IRPs queued, the slot idle and the port clear and alive, some CPU or the DPC owes a drain. |
| `AhciTheorems.DeadPortKeepsItsCommand` | kernel/src/drivers/ahci.rs:753-791 | A port given up keeps its command for good, never completes it, and queues nothing. |
| `AhciTheorems.FaultIsNeverForgotten` | kernel/src/drivers/ahci.rs:673-750 | Until a faulted port is claimed the fault DPC is queued, a wake of the watch thread is pending, or some CPU is on its way to the one, the other or the claim; a recovery not given up has a CPU that is at it. |
| `AhciProgress.QueueWaitIsBounded` | kernel/src/drivers/ahci.rs:620-791 | As long as an IRP stays queued, no more steps are taken than there was work at the beginning and seven for each activity begun since, and all the while a CPU can go on, or a DPC, a wake, or the end of the command in the slot is coming. |
| `AhciProgress.QueueIsFifo` | kernel/src/drivers/ahci.rs:620-641 | The IRP at place k of the queue of a port not given up is the k + 1st taken, over any stretch of any run: nothing overtakes it. |
| `Ahci.PendingRing.Push` | kernel/src/drivers/ahci.rs:136-144 | The ring is a queue: appended at the end, refused exactly when full. |
| `Ahci.PendingRing.Pop` | kernel/src/drivers/ahci.rs:145-154 | The first queued IRP, and the rest stay in order. |
| `OneAtATime.OneBodyAtATime` | kernel/src/dpc.rs:204-237 | Over all interleavings of any number of callers, at most one body runs. |
| `OneAtATime.NoAskIsLost` | kernel/src/dpc.rs:216-237 | A call no body has started for yet has a caller still bound to act on it; when all have returned, every call was followed by a body. |
| `OneAtATime.StepsTowardsABody` | kernel/src/dpc.rs:222-237 | With a call waiting, every step but a new call starts a body or lowers a bound on the steps to the next. |
| `OneAtATime.BoundCallerCanStep` | kernel/src/dpc.rs:222-237 | A caller that is bound to act can always take a step. |
| `OneAtATime.WaitIsBounded` | kernel/src/dpc.rs:204-237 | A stretch in which a call waits throughout and no body starts has at most four steps a caller and three a new call. |
| `DpcTheorems.FlagMeansOnePending` | kernel/src/dpc.rs:174-200 | A DPC's flag is set exactly while one pending occurrence of it exists: about to be pushed, queued, or in a taken batch. |
| `DpcTheorems.QueueNeverOverflows` | kernel/src/dpc.rs:174-183 | With at most 64 distinct DPCs a push always finds room. |
| `DpcTheorems.EveryEnqueueIsServed` | kernel/src/dpc.rs:185-200 | An enqueue its handler has not started since is pending; once all is quiet there is none. |
| `DpcProgress.StepsAreBounded` | kernel/src/dpc.rs:174-200 | Over any stretch of a run there are no more steps than the work at its beginning, and eleven for each activity begun in it. |
| `DpcProgress.BusyCanGoOn` | kernel/src/dpc.rs:174-200 | Whoever is in the middle of an enqueue, a completion or a drain can always take its next step. |
| `DpcProgress.UnservedCanGoOn` | kernel/src/dpc.rs:185-200 | An enqueue not yet served has an agent that can go on, or waits in the queue of a machine where nobody drains. |
| `DpcProgress.WaitIsBounded` | kernel/src/dpc.rs:174-200 | So a stretch in which the handler does not start is bounded by the work at its beginning and the activities begun in it. |
| `DpcTheorems.EveryIrpIsFinishedOnce` | kernel/src/io/irp.rs:203-248 | No completed IRP is finished twice, and once all is quiet every one has been. |
| `DpcTheorems.FinishedInOrder` | kernel/src/io/irp.rs:233-248 | A walk of a taken list finishes its IRPs in completion order. |
| `DpcTheorems.NoIrpIsStranded` | kernel/src/io/irp.rs:203-220 | An IRP on the list always has an agent or a queued `FINISH` that will take it. |
| `IrpList.Done.Complete` | kernel/src/io/irp.rs:203-220 | On the linked list itself: the IRP goes to the end with its result, and the others keep theirs. |
| `IrpList.Done.Finish` | kernel/src/io/irp.rs:233-248 | Every IRP that was on the list is handed back once, first to last, whatever its submitter then does with its link. |
| `TlbTheorems.NothingStaleIsCached` | kernel/src/tlb.rs:94-169 | When a shootdown has returned, no online CPU caches a covered translation older than the page tables were at the call, with concurrent initiators, departures and late answers. |
| `TlbTheorems.TargetsAnsweredOrLeft` | kernel/src/tlb.rs:130-169 | When a wait ends every target has invalidated for this request since it was published, or has left the online set. |
| `TlbTheorems.OutstandingIsComing` | kernel/src/tlb.rs:194-212 | A CPU still waited for has its interrupt on the way or is in its handler. |
| `TlbTheorems.OneRequestAtATime` | kernel/src/tlb.rs:94-169 | Two initiators never hold the request block together. |
| `ConsoleText.Utf8RoundTrip` | kernel/src/fbcon/text.rs:129-200 | Every character encoded in UTF-8 is decoded to that character, nothing else, and leaves the decoder between characters. |
| `ConsoleText.DecodeSplit` | kernel/src/fbcon/text.rs:129-200 | However a stream is split, the parts decode to what the whole does. |
| `ConsoleText.WritesMayBeSplit` | kernel/src/fbcon/text.rs:256-266 | What a screen shows does not depend on how the writes were split. |
| `ConsoleText.NewlineOn` | kernel/src/fbcon/text.rs:315-331 | Moving down, or dropping a quarter of the rows from the top, keeps a well-formed screen. |
| `ConsoleText.Apply` | kernel/src/fbcon/text.rs:296-313 | Every action keeps a well-formed screen. |
| `ConsoleGrid.StoreCell` | kernel/src/fbcon/text.rs:285-313 | Storing one cell of the ring changes one place of one row of the list, and no other row. |
| `ConsoleGrid.ClearLine` | kernel/src/fbcon/text.rs:315-331 | Blanking a physical row blanks that one row of the list. |
| `ConsoleGrid.Turned` | kernel/src/fbcon/text.rs:315-331 | Turning the ring moves every row up by as much. |
| `ConsoleGrid.Grid.Reset` | kernel/src/fbcon/text.rs:239-249 | A fresh screen of the size asked for, as far as the storage goes. |
| `ConsoleGrid.Grid.GlyphAt` | kernel/src/fbcon/text.rs:268-274 | The list's glyph there, blank outside the screen. |
| `ConsoleGrid.Grid.TakeDamage` | kernel/src/fbcon/text.rs:281-283 | The damage so far, then none. |
| `ConsoleGrid.Grid.Newline` | kernel/src/fbcon/text.rs:315-331 | The ring after a newline is the list after one, and every row that changed is in the damage. |
| `ConsoleGrid.Grid.Draw` | kernel/src/fbcon/text.rs:296-313 | The ring after a glyph is the list after one, and the row is in the damage. |
| `ConsoleGrid.Grid.Perform` | kernel/src/fbcon/text.rs:296-313 | So for every action. |
| `ConsoleGrid.Grid.Write` | kernel/src/fbcon/text.rs:256-266 | So for any bytes: the grid shows what the plain list of rows would, its decoder is where it should be, and the damage covers every row that changed. |
| `ConsolePages.PageNeverScrolls` | kernel/src/fbcon/text.rs:373-428 | For any bytes, a page written to a fresh screen of that many columns and at least that many rows never scrolls it, and what is left out before the next page is at most one newline. |
| `ConsolePages.PageMovesOnIff` | kernel/src/fbcon/text.rs:373-428 | Exactly when a page takes the pager forward: its first character draws no more glyphs than the screen has cells. |
| `ConsolePages.BareLeadsStick` | kernel/src/fbcon/text.rs:373-428 | Bytes on which it does not: more bare lead bytes than cells, on which every page is empty. |
| `ConsolePages.TextIsWellFormed` | kernel/src/fbcon/text.rs:129-200 | Every UTF-8 text is well formed in the sense the next lemmas ask for. |
| `ConsolePages.PagesRejoin` | kernel/src/fbcon/text.rs:358-428 | For any bytes, the pages so far with the newlines dropped at the cuts put back are the log so far. |
| `ConsolePages.PagesReachTheEnd` | kernel/src/fbcon/text.rs:373-428 | A pager that is never stuck where a page starts ends within one page a byte. |
| `ConsolePages.PagesEndIff` | kernel/src/fbcon/text.rs:358-428 | Exactly when the pages come to an end: no page starts at a character that draws more glyphs than the screen has cells. |
| `ConsolePages.WellFormedPagesAreTheLog` | kernel/src/fbcon/text.rs:358-428 | On well-formed text the pager ends and its pages are the whole log. |
| `ConsoleCuts.PageCut` | kernel/src/fbcon/text.rs:373-428 | For any bytes, a page and what is left out after it decode as that stretch of the log does, and the next page begins between characters. What is left out is a newline, and the replacement for a character the newline cuts short. |
| `ConsoleCuts.PagesShowTheLog` | kernel/src/fbcon/text.rs:347-357 | For any bytes, any number of pages, each decoded afresh, show what the log so far does, but for that. |
| `ConsoleCuts.PagesBeginBetween` | kernel/src/fbcon/text.rs:356-357 | No page begins inside a character of the log. |
| `ConsoleCuts.PagesEndInsideIff` | kernel/src/fbcon/text.rs:356-357 | Exactly when some screen has a page that ends inside a character: a newline in the log cuts one short. |
| `ConsoleCuts.LeadThenNewline` | kernel/src/fbcon/text.rs:373-428 | Three bytes of which the first page is a lone lead byte that shows nothing. |
| `ConsoleCuts.WellFormedNeverCutShort` | kernel/src/fbcon/text.rs:129-200 | In well-formed text no newline does that. |
| `ConsolePages.Pages.constructor` | kernel/src/fbcon/text.rs:365-371 | A pager of no columns or no rows is at its end. |
| `ConsolePages.Pages.Next` | kernel/src/fbcon/text.rs:373-428 | The loop cuts the log where the scan the lemmas are about does. |
| `Console.Console.PaintFrom` | kernel/src/fbcon/mod.rs:313-329 | After painting only cells the record says differ, every cell of the rows asked for shows the source, and no other cell changed. |
| `Console.Console.Attach` | kernel/src/fbcon/mod.rs:171-186 | A fresh grid, a cleared screen and the kernel drawing. |
| `Console.Console.Write` | kernel/src/fbcon/mod.rs:225-231 | The grid takes the bytes; if the kernel has the screen every cell is what a full repaint would put there. |
| `Console.Console.YieldScreen` | kernel/src/fbcon/mod.rs:233-238 | Userspace has the screen; says whether the kernel had. |
| `Console.Console.HoldForReport` | kernel/src/fbcon/mod.rs:240-248 | Refused, changing nothing, unless the kernel has a screen. |
| `Console.Console.ShowPage` | kernel/src/fbcon/mod.rs:250-270 | The page, the fewest newlines that bring the cursor to the last row, and the prompt are what every cell shows; the call never returns exactly if no number of newlines does. |
| `Console.Console.EndReport` | kernel/src/fbcon/mod.rs:272-282 | The kernel draws again and every cell shows the grid, lines written meanwhile included. |
| `Console.Console.Reclaim` | kernel/src/fbcon/mod.rs:296-310 | Taken back from userspace, whatever it drew, every cell shows the grid. |
| `ConsoleReport.ComesDownIff` | kernel/src/fbcon/mod.rs:262-264 | Exactly when the newlines come to an end: the page does not end inside a string sequence above the last row. |
| `ConsoleReport.TitleNeverComesDown` | kernel/src/fbcon/mod.rs:262-264 | A two-byte page on which, for every screen of more than one row, no number of newlines reaches the last row. |
| `ConsoleReport.NewlineGoesDown` | kernel/src/fbcon/mod.rs:262-264 | A newline ends whatever the decoder was in, a string sequence apart, and from a boundary moves down. |
| `ConsoleReport.StringSwallowsNewlines` | kernel/src/fbcon/mod.rs:262-264 | Inside a string sequence a newline changes nothing. |
| `ConsoleReport.StuckInString` | kernel/src/fbcon/mod.rs:262-264 | Nor does any number of them. |
| `ConsoleReport.ReportScrollsIff` | kernel/src/fbcon/mod.rs:250-270 | A page that leaves the last row free is shown with its prompt on the last row, and without scrolling exactly if it is not cut inside a character in a full row just above the last. |
| `ConsoleReport.CutCharacterScrolls` | kernel/src/fbcon/mod.rs:250-270 | A page that leaves the last row free and yet scrolls. |
| `Klog.NothingUnaccounted` | kernel/src/klog.rs:65-102 | Kept, lost and recent bytes are all the bytes; none is lost exactly while the log fits; a log that fits is its own snapshot. |
| `Klog.DecimalRoundTrip` | kernel/src/klog.rs:166-198 | The decimal digits of a number read back as it. |
| `Klog.FormatNotice` | kernel/src/klog.rs:166-198 | The notice with exactly that count in decimal, for every machine word, within its buffer. |
| `Klog.StoredHolds` | kernel/src/klog.rs:86-95 | Storing round the end of the ring appends, and exactly the oldest bytes that no longer fit go. |
| `Klog.Log.Append` | kernel/src/klog.rs:65-102 | After any appends the arrays hold the first bytes, the most recent bytes in order, and the count of the rest. |
| `Klog.Log.Runs` | kernel/src/klog.rs:104-121 | The four runs joined are prefix, notice and ring in write order. |
| `Klog.Log.SnapshotLen` | kernel/src/klog.rs:123-126 | The exact length of the snapshot. |
| `Klog.Log.CopyInto` | kernel/src/klog.rs:128-142 | The snapshot, as much of it as the buffer has room for. |
| `Cpio.Align4` | kernel/src/initramfs.rs:49-51 | The next multiple of four, less than four on. |
| `Cpio.Hex8` | kernel/src/initramfs.rs:54-72 | The value of eight digits, or nothing if there are not eight or one is not hexadecimal. |
| `Cpio.FieldReads` | kernel/src/initramfs.rs:54-72 | A number written in eight digits reads back, wherever it stands. |
| `Cpio.ReadEntry` | kernel/src/initramfs.rs:85-121 | One header, read and checked against every bound. |
| `Cpio.Lookup` | kernel/src/initramfs.rs:82-122 | For any bytes it ends, stays inside the archive, and answers as the search function does. |
| `Cpio.PackReads` | kernel/src/initramfs.rs:130-164 | An entry as the packer writes it reads back with its name, data and end, whatever is around it. |
| `Cpio.LookupFindsFirst` | kernel/src/initramfs.rs:82-122 | For any files packed one after the other, the search finds the bytes of the first whose normalised name matches, and nothing when none does; a file named as the trailer ends it there. |
| `Cpio.DirectoryIsFound` | kernel/src/initramfs.rs:80-122 | A directory that comes first of its name, before the trailer, is found, as empty. |
| `DeviceRegistry.Registry.Depart` | kernel/src/device.rs:110-131 | Exactly the node and every node whose parents, each recorded before its child, lead to it are marked; one generation if anything changed, none if not. |
| `DeviceRegistry.OnePassFindsIff` | kernel/src/device.rs:110-131 | Exactly when that is every node whose parent chain reaches it: no entry is recorded before its parent. |
| `DeviceRegistry.EarlyChildStays` | kernel/src/device.rs:110-131 | A child recorded before its parent stays when the parent departs. |
| `DeviceRegistry.Registry.MarkUnder` | kernel/src/device.rs:110-131 | One forward pass over the table does that. |
| `DeviceRegistry.Registry.Push` | kernel/src/device.rs:170-178 | One entry at the end, one generation, and every invariant of the table kept. |
| `DeviceRegistry.Registry.AddBlockUnder` | kernel/src/device.rs:213-222 | The entry under whatever parent is given, with an index above every block node's so far. |
| `DeviceRegistry.Registry.AddInput` | kernel/src/device.rs:233-254 | The entry, with the index one past every keyboard's and mouse's so far, departed ones included. |
| `DeviceRegistry.Registry.BlockFrom` | kernel/src/device.rs:296-302 | The live block node with the lowest index from there on, or none if there is none. |
| `DeviceRegistry.Registry.WalkBlocks` | kernel/src/power.rs:87-103 | With any number of registrations and departures between any two of its calls, the walk ends, in ascending order, having met every block device live throughout, once, and none that never was. |
| `DeviceRegistry.BlocksServedApart` | kernel/src/device.rs:213-222 | A later block node's index is larger: no two share one. |
| `DeviceRegistry.HistoryExtends` | kernel/src/device.rs:170-178 | Over any history of the table nothing is removed, and nothing but flags changes. |
| `DeviceRegistry.BlockIndexIsNeverReissued` | kernel/src/device.rs:213-222 | Over any history of the table an index names one block node for good, departed or not. |
| `DeviceChanges.NoWakeupIsLost` | kernel/src/device.rs:744-753 | Once an announcement of generation g has looked at the waiting reads, no read is ever again left waiting past anything below g. |
| `DeviceChanges.FinishedOnlyGrows` | kernel/src/device.rs:744-753 | The published generation, the table's and the latest announced never go back. |
| `DeviceChanges.QuietMeansUpToDate` | kernel/src/device.rs:777-818 | With no announcement under way every read still waiting waits past the table as it is. |
| `DeviceChanges.EveryReadIsAnsweredOnce` | kernel/src/device.rs:755-818 | Every accepted read is in exactly one place, and none is answered twice. |
| `DeviceChanges.AnswersArePast` | kernel/src/device.rs:713-818 | Every answer is a generation greater than the read's offset. |
| `DeviceProgress.ReadWaitIsBounded` | kernel/src/device.rs:744-818 | As long as a read is due (accepted, the table past its offset, neither answered nor refused), no more steps are taken than there was work at the beginning and five for each change or read begun since, and all the while someone can go on. |
| `DeviceChanges.Waiters.Park` | kernel/src/device.rs:702-711 | The first free slot takes the read; refused exactly when none is free. |
| `DeviceChanges.Waiters.TakePassed` | kernel/src/device.rs:713-721 | Exactly the reads the generation is past are taken, in slot order, and the rest stay. |
| `Partitions.ReadTable` | kernel/src/drivers/partitions.rs:93-103 | Which table, or which error, any two first blocks give; every partition of it is wholly on the disk. |
| `Partitions.ReadGpt` | kernel/src/drivers/partitions.rs:106-155 | The partitions of exactly the entries the header describes and the limits let it read, or which error when. |
| `Partitions.CollectGpt` | kernel/src/drivers/partitions.rs:131-154 | The loop over the entries. |
| `Partitions.GptParts` | kernel/src/drivers/partitions.rs:132-155 | Every partition has blocks, all on the disk, and is numbered in order from 1. |
| `Partitions.EntryIsListed` | kernel/src/drivers/partitions.rs:132-155 | Every entry in use that fits the disk is listed whole: extent, GUID, name, and the number of its turn. |
| `Partitions.ListedIsEntry` | kernel/src/drivers/partitions.rs:132-155 | And nothing else is: each partition listed is, whole, that of the entry whose turn it is. |
| `Partitions.OrderIsKept` | kernel/src/drivers/partitions.rs:132-155 | The table's order is kept. |
| `Partitions.ReadMbr` | kernel/src/drivers/partitions.rs:158-183 | The MBR's table if block 0 is one, else none. |
| `Partitions.MbrParts` | kernel/src/drivers/partitions.rs:158-183 | Every partition has blocks, all on the disk, under its slot's number, in slot order. |
| `Partitions.SlotIsListed` | kernel/src/drivers/partitions.rs:158-183 | Every slot that holds a partition that fits is listed. |
| `Partitions.ListedIsSlot` | kernel/src/drivers/partitions.rs:158-183 | And nothing else is. |
| `BlockWindow.BuildFrags` | kernel/src/io/block.rs:77-96 | The fragments cover exactly the bytes of the range, in order, each within one frame, no more than were reserved for. |
| `BlockWindow.RebaseConfines` | kernel/src/io/block.rs:558-565 | What is rebased lands in the slice, at the same distance from its start, without overflow. |
| `BlockWindow.RebaseRefusesExactly` | kernel/src/io/block.rs:558-565 | A window whose end has a 64-bit byte offset refuses exactly the transfers that leave it. |
| `BlockWindow.ParsedWindowIsOnDisk` | kernel/src/io/block.rs:558-565 | A partition a table gave is such a window, and what it lets through is on the disk. |
| `BlockWindow.WindowConfines` | kernel/src/io/block.rs:499-565 | In every run a data IRP reaches the disk through the window only inside its slice, and a rescan or an eject never does. |
| `BlockWindow.RetiredWindowIsSilent` | kernel/src/io/block.rs:621-632 | Once a rescan has retired the window and seen no submit entering, nothing reaches the disk through it any more. |

## Left out

- ReuseWaitsForReaders: of deferrals tagged in time, which every close's is; `ReusedUnderLateReadersOnly` is of all, and `SweepReusedUnderReader` is a run with one that is not.
- ShowPage: a call that would never return is reported as `hangs` instead of run.
- ClaimsAreExclusive: up to the first late drop, which is exactly how far it holds (`ExclusiveIffNoLateDrop`).
- CommittedOnce: the same.
- SweepEmptiesTheProcess: speaks of sweeps during which nothing was installed for the process.
- Append: the log stays below 2^64 bytes in all, so the count of lost bytes does not wrap.
- GenBelow: takes the 32-bit draws as a sequence; that the generator's stream is long enough to accept one is not proved.
- Complete: the IRP is not on the list already, as the function's safety contract asks.
- QueueWaitIsBounded: counts steps and what begins them; that the controller, a DPC or the watch thread gets its turn is not modelled.
- ReadWaitIsBounded: the same of the agents.
- FaultIsNeverForgotten: that the watch thread was started and gets to run is not modelled.
- WalkBlocks: `mark_boot` is not among the changes.
- Attach: the geometry is given; that a framebuffer of some size has that geometry is not modelled.
- Weak memory: atomics are sequentially consistent steps and fences do nothing. A seqlock counter and the epoch are unbounded.
- Allocation failure, object destructors, slab and buddy allocators: allocation succeeds and an object is a count.
- The rights a handle type admits, `duplicate` (a lookup and an install) and `stat` (a lookup).
- The refusals a lookup or close makes before any shared access: the null handle, and a handle that names no segment or slot.
- The freelist inside the handle-table machine is a set; that the linked list behaves as one is proved separately, in `HandleSegment`.
- The scheduler's placement, quanta, timers, waits, IPC and exit: a switch may pick any thread its lists allow, and a wake may come at any time. That a CPU always finds a thread or its idle thread is not modelled.
- AHCI registers, command tables, port bring-up, COMRESET and deadlines: the slot runs or has stopped, a fault or a late command may come at any time, and a recovery succeeds or fails.
- Identity of IRPs: a machine's IRP is submitted once; a reused one is a new one.
- A CPU that comes online has an empty TLB.
- Glyph bitmaps, the font's table, colours, margins and pixels: a cell is its glyph.
- `try_lock` paths that drop a log line or a console write when the lock is held.
- `add_pci`, `add_usb`, `add_char`, `mark_boot`, the registry's records, and the checks of block alignment before a submit: easy members.
- Boot, `cmdline`, `clock`, `handoff`, `entropy`, `rsproto`, page cache and console input.
