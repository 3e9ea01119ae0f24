# Verified model of the accelerator driver's command lists, copies and context state

The repository is the host-side user-mode driver of an inference accelerator card. An application
builds lists of copy and inference commands, overwrites their parameters, schedules them, loads
device resources and networks, and waits for the card. This project models the parts of the driver
in which many operations have to agree with each other, and proves what they promise together.

| Files | Part of the driver |
|---|---|
| `Bytes.dfy`, `Options.dfy` | fixed-width integers, little-endian encoding, buffers; optional values |
| `RingBuffer.dfy`, `Channel.dfy`, `PageRing.dfy` | the byte ring shared with the card; the message channel; sending one page after another through both |
| `CardDecoder.dfy`, `CommandValues.dfy`, `CardMirror.dfy` | the records of a command list, a decoder for them, and what a card that decodes them knows |
| `SchedParams.dfy`, `Commands.dfy`, `Batching.dfy`, `Preparation.dfy`, `CommandList.dfy` | command lists: edit counters, paged sending, batching, scheduling |
| `HostResource.dfy`, `CopySchedule.dfy`, `LockLedger.dfy` | host-resource locks, copy life cycle, failure records |
| `StreamLoader.dfy` | loading a device resource through two host blocks |
| `DevNet.dfy`, `ExecErrorList.dfy` | transfers that are cut into pages or packets |
| `SyncPoints.dfy`, `IdAllocator.dfy`, `CriticalErrors.dfy` | markers, protocol ids, the context's critical error |

How it is modelled:

- Classes with fields the driver updates in place are Dafny classes, and each method is specified by
  a function on the object's value (`V`, `View`, `State`, `Contents`). The main properties are
  proved about these functions, or are invariants (`Valid`) that every method keeps.
- Every integer field has its own width (`u8` to `u64`), so that each increment and narrowing carries
  the obligation not to wrap; where the driver does wrap, the remainder is written out.
- A channel write may fail at any time, and the context may be found broken at any test. Both are counted
  (`Chan.failures`, `Chan.refusals`), so that a contract says exactly why a call fails. What the card accepts is a log of messages; a page of the ring
  is part of the message that announces it, and the ring is shown to hold the announced pages, unharmed
  and in order, until the card consumes them. The log of a command list holds the messages of this list
  only: the card keeps a table per list, and messages of other lists, copies and contexts that pass
  between them on the real channel do not touch it.
- Waiting is an arbitrary amount of progress by the other side until the condition holds, or until a
  limit of the wait is reached. Sections under a mutex are atomic. `LockLedger` and `CriticalErrors` are
  state machines in which such sections and the card's reports interleave in any order. In `LockLedger`
  every access to a copy's unprotected fields is a step of its own, so that `preSchedule` and
  `postSchedule` of several threads overlap in every way. In `StreamLoader` the card acts between the
  loader's operations on a block: while it waits, and after locking, filling, unlocking and scheduling.
- The card itself is not in the repository. For command lists it is a decoder that applies records to
  a table, for networks one that joins pages, for copies a device that transfers bytes one by one.

Assumptions the code needs, and where they appear:

- `finalize` is asked to batch only a list of which everything is edited (`AllEdited`), as before the first
  send or after an attempt that sent nothing; `CommandValues.CountIsLengthIff` says when the edit counter it
  sets is right otherwise.
- A copy object occurs once per list (`NoCopyTwice`), is not scheduled again while outstanding or, for a
  subresource copy, while it still has a resource attached, and no two threads are past the test of
  `postSchedule` on it (`LockLedger.Guarded`). `LockLedger.LockIff`, `LockLedger.TestIff` and the conditions of
  `Preparation.PrepareAll` say exactly what a violation breaks.
- One CPU lock attempt is pending per host resource, since the first check of `lock_cpu_access` is
  made outside the mutex; `LockLedger.SecondCpuLockKeepsIff` says exactly when a second one does harm.
- The rings are used in whole pages, are two pages long, and the card's head updates are whole pages
  within what is available.

Findings stated in the contracts, where the code does less than one may think:

- After a failed send the edits that the accepted pages do not carry are dropped for good: such a place
  agrees with the card if and only if the card had the same parameters before (`CardMirror.BrokenSend`,
  with a lost edit in `EditIsDropped`), so the card keeps old parameters until the command is overwritten
  again. A `finalize` repeated after such a failure succeeds without them.
- Batching leaves a copy that ends a run on its own, also when it could begin the next one: of two runs
  of two copies each, in different directions, only the first becomes a list.
- The flag of a copy is tested and cleared outside any mutex. A schedule that fails and rolls back while
  the handler thread fails all copies gives the same lock back twice (`RollbackMeetsFailAll`), and the
  handler may reach a subresource copy whose flag is set but whose resource is not yet attached
  (`FailAllBeforeAttach`). A subresource copy scheduled again before its last `postSchedule` has detached it
  has its new lock given back in place of the old one (`LockMeetsRelease`). The ledger survives a `postSchedule` past its test if and only if the resource
  is attached and no other one is past its test on the same copy.
- The rollback inside a copy list also calls `postSchedule` on the copy that was refused. If somebody
  else had scheduled that copy, its lock is released under the card's hands. The state is restored
  if and only if no copy that is rolled back was scheduled before; which ones these are follows from
  the state before the call.
- `unlockAvailSpace(0)` returns with the mutex locked, and so does `pop` of no bytes; `pop` stores more
  than was asked for when more is available contiguously.
- The stream loader ignores the errors of its final wait: a load may report success although a copy
  of one of the last two blocks failed (`FailureUnnoticed`, `LastCopyFails`). Only those two blocks can be
  affected.
- The API documentation says the stream ends when the callback returns 0 or less; the code ends at the
  first short read. A stream is loaded to its end if and only if no read before the end is short.
- The size check of a copy into a device resource adds in 64 bits: a copy at the last offset passes for
  any device. The check is right if and only if the sum does not wrap to a size within the device.
- A network with exactly 2^24 resources, or with no data at all, is accepted but announced with a
  wrapped header field.
- An error list has to be cleared before it is queried again: a whole answer is taken in if and only if
  the list is empty and an old buffer is large enough. After an interrupted query a list may complete
  with bytes of two answers.
- `free(0)` and `free(2^32 - 1)` corrupt an id allocator that covers all 2^32 ids (`FreeCorrupts`). The
  driver only uses it for 16-bit ids.
- If the query for an execution error cannot be sent, `waitCriticalError` drops the error, and the
  context no longer counts as broken (`ErrorIsDropped`). A card-fatal event that finds another error
  pending is not recorded (`FatalEventIsMissed`).

## Model

| member | source | states |
|---|---|---|
| Circular.SpliceAroundReads | src/nnpi_drv/nnpiUtils.cpp:14-18 | bytes written across the end of the ring are read back in order, and what was queued before them is untouched |
| RingBuffer.Ring.FreeBytes | src/nnpi_drv/nnpiUtils.h:32-40 | free and available bytes always add up to the size, also when the ring is full or wrapped |
| RingBuffer.Ring.AvailBytes | src/nnpi_drv/nnpiUtils.h:42-50 | the tail is the head moved on by the available bytes, round the end |
| RingBuffer.Ring.LockFreeSpace | src/nnpi_drv/nnpiUtils.h:55-87 | fails exactly on a dead ring, or when the limit of a timed wait leaves too little room; else the requested room is free and lies behind the queue, and one whole unit is always contiguous |
| RingBuffer.Ring.UnlockFreeSpace | src/nnpi_drv/nnpiUtils.h:89-97 | appends to the queue exactly the bytes lying behind the tail |
| RingBuffer.Ring.LockAvailSpace | src/nnpi_drv/nnpiUtils.h:108-141 | returns with the mutex held if and only if enough is queued, as it always is without a time limit; the contiguous length is cut at the buffer's end only |
| RingBuffer.Ring.UnlockAvailSpace | src/nnpi_drv/nnpiUtils.h:143-150 | takes the bytes off the front; the mutex stays locked exactly for length 0 |
| RingBuffer.Ring.Push | src/nnpi_drv/nnpiUtils.cpp:10-21 | the queue grows by exactly the pushed bytes, in order, across the wrap |
| RingBuffer.Ring.Pop | src/nnpi_drv/nnpiUtils.cpp:23-36 | removes the oldest bytes; says exactly how many bytes are stored, which may be more than asked for; for no bytes the ring stays locked |
| RingBuffer.Ring.UpdateHead | src/nnpi_drv/nnpiUtils.h:152-160 | the card's report of consumed bytes drops exactly these from the front |
| RingBuffer.Ring.Produce | src/nnpi_drv/nnpiUtils.h:99-106 | bytes the card has put behind the tail become the end of the queue |
| PageRing.LockPage | src/nnpi_drv/nnpiCommandList.cpp:122-130 | a page behind all queued bytes, always contiguous; the queue changes only by what the card consumes |
| PageRing.FillKeepsQueue | src/nnpi_drv/nnpiCommandList.cpp:132-145 | writing that page and nothing else leaves every queued byte as it is, across the wrap |
| PageRing.Announce | src/nnpi_drv/nnpiCommandList.cpp:150-156 | the page joins the queue if and only if its message was accepted |
| CardDecoder.Encode | src/nnpi_drv/nnpiCommandList.h:97-104 | every record has the size that the packing functions test for |
| CardDecoder.RecordLayout | src/nnpi_drv/include/nnpi_ipc/ipc_chan_protocol.h:27-31 | the type codes and the offset of every field of the three records, as little-endian numbers, without reference to the encoder's own constants |
| CardDecoder.DecodeOneEncode | src/nnpi_drv/nnpiCommandList.h:92-109 | any packed record, of each of the three kinds, is decoded again and exactly its own bytes are consumed |
| CardDecoder.DecodeAllEncode | src/nnpi_drv/nnpiCommandList.cpp:140-145 | records packed behind one another parse to exactly these records with nothing left over |
| CommandValues.CountIsLengthIff | src/nnpi_drv/nnpiCommandList.cpp:416 | setting the edit counter to the number of commands is right if and only if all are marked, as they are before the first send only |
| CommandValues.EditedCommandsUpdate | src/nnpi_drv/nnpiCommandList.cpp:66-69 | re-marking one command changes the number of edited commands by the change of that mark |
| CommandValues.EditedCopiesUpdate | src/nnpi_drv/nnpiCommandList.h:233-238 | the same one level down, for the copies of a copy list |
| CommandValues.CardAppliesView | src/nnpi_drv/nnpiCommandList.cpp:120-158 | a card accepts the records of any list with exact counters: the announced number of edits and of sub-copies is what follows, and the table is updated at edited places only |
| CommandValues.SentMirrors | src/nnpi_drv/nnpiCommandList.cpp:87-167 | after the records of a send the card's table equals the host's parameters at every place but exactly those lost earlier and not edited since |
| CardMirror.RunPages | src/nnpi_drv/nnpiCommandList.cpp:120-158 | receiving a send page by page has the effect of its records as one sequence, also when a copy list spans pages |
| CardMirror.CountLeads | src/nnpi_drv/nnpiCommandList.cpp:135-138 | the first four bytes of the first page are the edit count, lowest byte first, and whole records follow |
| CardMirror.PagedRoundTrip | src/nnpi_drv/nnpiCommandList.cpp:135-147 | the first `size` bytes of all pages, joined, are the edit count and then exactly the edited records in index order, nothing left over; each page alone parses to whole records |
| CardMirror.FinishedSend | src/nnpi_drv/nnpiCommandList.cpp:156-166 | a send whose pages were all accepted leaves the card in agreement with the host exactly where anything was edited or agreed before |
| CardMirror.PrefixOfView | src/nnpi_drv/nnpiCommandList.cpp:120-158 | any first part of a list's records, also one ending inside a copy list, is accepted, and afterwards exactly the places it tells and those that agreed before agree |
| CardMirror.SendIsLearnt | src/nnpi_drv/nnpiCommandList.cpp:120-166 | after any send, finished or broken off at any page, a place agrees with the card if and only if its record was on an accepted page or it agreed before |
| CardMirror.BrokenSend | src/nnpi_drv/nnpiCommandList.cpp:150-164 | after a send that breaks off at any page and drops its edits, an edited place disagrees if and only if no accepted page carries its record and the card had something else; every other place is as it was |
| CardMirror.EditIsDropped | src/nnpi_drv/nnpiCommandList.cpp:150-166 | such a loss: the only command of a list, edited, and no page accepted |
| HostLock.LockDeviceLedger | src/nnpi_drv/nnpiHostProc.cpp:255-272 | a device lock is granted if and only if no writer holds the resource and a writer finds no reader; then the counter shows the new holders |
| HostLock.UnlockDeviceLedger | src/nnpi_drv/nnpiHostProc.cpp:274-285 | giving back a lock that is held leaves the counter showing the remaining holders |
| HostResource.HostRes.LockCpuAccess | src/nnpi_drv/nnpiHostProc.cpp:183-228 | the result in every case, in the code's order: not supported, already locked, timed out, broken, synchronisation failed, locked; the counters change on success only |
| HostResource.HostRes.UnlockCpuAccess | src/nnpi_drv/nnpiHostProc.cpp:230-253 | undoes the CPU lock that is held, also if the synchronisation then fails, and is refused if none is held |
| HostResource.HostRes.LockDeviceAccess | src/nnpi_drv/nnpiHostProc.cpp:255-272 | granted to a lockless resource always, to a writer if nobody holds it, to a reader if no writer does; then the counter shows the new holder |
| HostResource.HostRes.UnlockDeviceAccess | src/nnpi_drv/nnpiHostProc.cpp:274-285 | gives the lock back |
| HostResource.HostRes.UpdateCopyFailCount | src/nnpi_drv/nnpiHostProc.h:73-77 | changes only the failure count, which makes a resource broken while positive |
| HostResource.FailedHosts.AddFailedHostRes | src/nnpi_drv/nnpiExecErrorList.h:60-66 | a failed copy is entered in the list and counted at its resource |
| HostResource.FailedHosts.ClearFailedHostRes | src/nnpi_drv/nnpiExecErrorList.h:69-79 | clearing a list takes each resource's count down by exactly the number of its occurrences |
| CopyCommands.CopyCommand.constructor | src/nnpi_drv/nnpiCopyCommand.h:34-41 | the largest size of a copy is the smaller of the two resources' sizes; only a lockless resource needs no preparation |
| CopyCommands.CopyCommand.PreSchedule | src/nnpi_drv/nnpiCopyCommand.h:49-59 | a copy becomes scheduled exactly with its device lock; device-to-device copies take none |
| CopyCommands.CopyCommand.PreScheduleOn | src/nnpi_drv/nnpiCopyCommand.h:61-71 | the same for a subresource copy, which is attached to the given resource only on success |
| CopyCommands.CopyCommand.PostSchedule | src/nnpi_drv/nnpiCopyCommand.h:73-93 | undoes one successful preSchedule, once; a failure is on record before the lock is released |
| CopySchedule.Schedule | src/nnpi_drv/nnpiCopyCommand.h:95-129 | the result in every case, in the code's order; a successful call has the lock taken and the card asked for exactly this copy, size 0 standing for the largest, in the short message form if and only if nothing is cut off in it; a failed one leaves channel and resource as before |
| LockLedger.StepKeepsInv | src/nnpi_drv/nnpiCopyCommand.h:49-93 | every step of every thread (mutex sections, flag and resource accesses, CPU locks, list clearing) that starts no operation at a wrong moment keeps lock ledger, failure counts and lock balance, wherever the other threads are |
| LockLedger.ReachableStates | src/nnpi_drv/nnpiHostProc.cpp:183-285 | in every state of every disciplined run: -1 exactly when one writer holds the resource alone, else the number of readers, counting locks that threads in the middle of an operation answer for; broken exactly while some list records a failed copy; each copy's granted and returned locks differ by what it and the threads owe |
| LockLedger.QuietStates | src/nnpi_drv/nnpiCopyCommand.h:49-93 | while no operation is under way the holders are the scheduled copies and the CPU, each scheduled copy owes exactly one unlock, and a subresource copy has a resource attached exactly while scheduled |
| LockLedger.TestIff | src/nnpi_drv/nnpiCopyCommand.h:73-93 | once a postSchedule has found the flag set, the ledger holds however the threads go on if and only if the resource is attached and no other postSchedule is past its test on that copy |
| LockLedger.LockIff | src/nnpi_drv/nnpiCopyCommand.h:49-71 | once a lock is granted to any copy, the ledger holds however the threads go on if and only if the copy was not scheduled, no operation on it had its flag still to write, and a subresource copy had no resource attached |
| LockLedger.LockMeetsRelease | src/nnpi_drv/nnpiCopyCommand.h:86-89 | a run in which a subresource copy is scheduled on a new resource before its last postSchedule has detached the old one: the new lock is given back, the old one never |
| LockLedger.PostFirstKeeps | src/nnpi_drv/nnpiInfContext.cpp:915-920 | failing all scheduled copies, undisturbed, keeps the ledger and leaves none scheduled |
| LockLedger.SecondCpuLockKeepsIff | src/nnpi_drv/nnpiHostProc.cpp:192-208 | a second CPU lock attempt that passed the early check keeps the ledger if and only if the first lock is not held or no lock is taken |
| LockLedger.RollbackMeetsFailAll | src/nnpi_drv/nnpiInfContext.cpp:915-920 | a run of a failing schedule's rollback and the handler's fail-all that ends with a writer shown which nobody is |
| LockLedger.FailAllBeforeAttach | src/nnpi_drv/nnpiCopyCommand.h:61-71 | a run in which the handler fails a subresource copy between its flag and its resource, and uses a resource that is not there |
| LockLedger.PostAlone | src/nnpi_drv/nnpiCopyCommand.h:73-93 | the steps of one undisturbed postSchedule are possible and have together the effect of the whole operation, which keeps the invariant |
| LockLedger.PreAlone | src/nnpi_drv/nnpiCopyCommand.h:49-71 | the steps of one undisturbed preSchedule are possible and have together the effect of the whole operation |
| LockLedger.CpuAlone | src/nnpi_drv/nnpiHostProc.cpp:183-228 | the two steps of an undisturbed CPU lock are possible and have together the effect of the whole operation |
| SchedParams.CopyParams.Overwrite | src/nnpi_drv/nnpiCommandList.h:80-84 | the size is limited by the copy's maximum; index and mark stay |
| SchedParams.CopyParams.Pack | src/nnpi_drv/nnpiCommandList.h:92-109 | writes the whole record and clears the mark, or writes nothing and keeps it |
| SchedParams.InferReqParams.Overwrite | src/nnpi_drv/nnpiCommandList.h:261-269 | new parameters with the priority of the time the command was appended |
| SchedParams.InferReqParams.Pack | src/nnpi_drv/nnpiCommandList.h:275-299 | succeeds if and only if its record, 10 or 15 bytes long, fits or nothing is to be written; then the mark is cleared, else all stays |
| SchedParams.CopyListParams.constructor | src/nnpi_drv/nnpiCommandList.h:133-145 | numbers the copies by position; all are counted as edited; preparation is needed if and only if some copy needs it |
| SchedParams.CopyListParams.Pack | src/nnpi_drv/nnpiCommandList.h:154-181 | writes a whole-record prefix of what is left of the list and keeps exactly the rest for the next page; with room for a record it makes progress |
| SchedParams.CopyListParams.ClearEdits | src/nnpi_drv/nnpiCommandList.h:210-221 | clears the counters and marks of both levels together |
| Commands.Pack | src/nnpi_drv/nnpiCommandList.cpp:140-145 | for any command: what was written and what is left make up what was to be written; on success nothing is left |
| Commands.MarkSettles | src/nnpi_drv/nnpiCommandList.h:228-239 | marking a sub-copy keeps the list's counter equal to its edited copies, positive exactly when the list is marked |
| Commands.GetCmdForOverwrite | src/nnpi_drv/nnpiCommandList.h:228-239 | finds exactly the addressed sub-copy, or nothing past the end; the 16-bit counter does not wrap |
| Batching.OptimizeBatchCopies | src/nnpi_drv/nnpiCommandList.cpp:357-417 | flattening the result gives the same commands with their parameters; the entries are cut exactly as `Groups` says: whole runs of copies in one direction, each followed by the entry that ended it; all indices are positions; lists made before stay |
| Batching.WholeRun | src/nnpi_drv/nnpiCommandList.cpp:367-399 | 2 to 65535 copies, none device-to-device and all in one direction, become one list, whatever their resources |
| Batching.ListsAreMaximal | src/nnpi_drv/nnpiCommandList.cpp:363-380 | no two neighbouring entries consist together of host copies in one direction, few enough for a list, except where the first is a single copy that has just ended a run |
| Batching.SecondRunIsSplit | src/nnpi_drv/nnpiCommandList.cpp:386-411 | the exception does occur: of two runs of two copies only the first becomes a list |
| Preparation.PrepareList | src/nnpi_drv/nnpiCommandList.h:183-200 | succeeds if and only if every copy's lock is granted in turn; a refusal gives back exactly the copies up to and including the first refused one, found from the state before |
| Preparation.PrepareAll | src/nnpi_drv/nnpiCommandList.cpp:254-260 | succeeds if and only if every lock is granted in turn, each then held once; on refusal locks and flags are as before if and only if none of the copies rolled back, which the state before determines, was scheduled |
| Preparation.PreparedIff | src/nnpi_drv/nnpiCommandList.h:111-119 | exactly the copies among the commands, and those of the copy lists that need preparation, have their locks taken |
| Preparation.OrderIsFlat | src/nnpi_drv/nnpiCommandList.cpp:254-260 | the locks are taken in the order in which the user appended the copies |
| Preparation.OutstandingIsRolledBack | src/nnpi_drv/nnpiCommandList.h:190-197 | a failing input: a list whose first copy is outstanding as a writer gives that copy's lock back |
| Preparation.UnreachedIsLeftAlone | src/nnpi_drv/nnpiCommandList.cpp:254-260 | a single copy refused first leaves all later copies alone, outstanding or not |
| Preparation.AllDone | src/nnpi_drv/nnpiCommandList.cpp:264-268 | after a failed send every resource is exactly as before the preparation |
| Preparation.BalancedIff | src/nnpi_drv/nnpiCopyCommand.h:49-93 | the lock books without entries are balanced if and only if every resource is as it was |
| CommandList.FlatLookup | src/nnpi_drv/nnpiCommandList.cpp:60-61 | subtracting the sizes of earlier entries leads to the command at that position of the flattened list |
| CommandList.MarkKeeps | src/nnpi_drv/nnpiCommandList.cpp:66-69 | marking any command or sub-copy keeps both edit counters exact and the mirror |
| CommandList.ContentKeeps | src/nnpi_drv/nnpiInference.cpp:1394-1416 | new parameters at a marked place keep counters and mirror |
| CommandList.BatchedConsistent | src/nnpi_drv/nnpiCommandList.cpp:414-416 | batching a list of which everything is edited leaves the counters of both levels exact, also if parts of it were batched before |
| CommandList.StageStep | src/nnpi_drv/nnpiCommandList.cpp:140-145 | packing part of a command, on this or a later page, takes exactly the written records off the list's remaining ones |
| CommandList.FillPage | src/nnpi_drv/nnpiCommandList.cpp:132-147 | a page holds the count (first page) and as many whole records as fit: the next one would not; always makes progress, and no byte of the ring outside the page is written |
| CommandList.SendPage | src/nnpi_drv/nnpiCommandList.cpp:121-157 | one page: what was queued stays queued in order but for what the card consumes, and the new page joins it if and only if it was announced |
| CommandList.SendPages | src/nnpi_drv/nnpiCommandList.cpp:120-158 | terminates, with success if and only if no write fails and the ring is alive; the accepted pages carry a prefix of the edited records, none with room for its next one, and all of them on success, after which nothing is marked; all messages are of the kind asked for; the ring holds the old queue and these pages, less what the card has consumed |
| CommandList.AfterSend | src/nnpi_drv/nnpiCommandList.cpp:156-166 | after any send, complete or not, counters are zero and exact, the card has learnt exactly the records on accepted pages, and exactly the lost edits disagree with it; first and last flags are set on the first and last message only |
| CommandList.CmdList.Append | src/nnpi_drv/nnpiCommandList.cpp:35-53 | appends at the next index with exact counters, also after a finalize that failed, with every refusal of the code |
| CommandList.CmdList.GetCmdForOverwrite | src/nnpi_drv/nnpiCommandList.cpp:55-70 | for every user index, before and after batching, the very object that was appended there, and nothing exactly past the flat length |
| CommandList.CmdList.OverwriteCopy | src/nnpi_drv/nnpiInference.cpp:1370-1397 | changes exactly the addressed copy and marks it; another kind of command is refused but left marked |
| CommandList.CmdList.OverwriteInferRequest | src/nnpi_drv/nnpiInference.cpp:1399-1419 | changes exactly the addressed request and marks it, its priority staying |
| CommandList.CmdList.CardHas | src/nnpi_drv/nnpiCommandList.cpp:87-167 | in every state the card's table, built from all messages ever sent for the list, has the host's parameters of a command or sub-copy that is not marked edited if and only if no failed send has lost its edit; so of all when no edits are counted |
| CommandList.CmdList.SendToCard | src/nnpi_drv/nnpiCommandList.cpp:87-167 | the result in every case: empty list, broken context, failed write or dead ring, success; in the last two no edit stays marked; the messages are of the kind asked for and their pages on that kind's ring, the other ring being untouched; the card learns exactly what the accepted pages carry, and which edits are lost follows from them and from what it had |
| CommandList.CmdList.Finalize | src/nnpi_drv/nnpiCommandList.cpp:174-208 | batching on request, cut as `Groups` says, also after an earlier attempt that sent nothing; everything edited goes out in create messages over the create ring; the result in every case, the card's reply being the last word; on success the list is finalized and nothing is newly lost, also in a repeated call |
| CommandList.CmdList.Schedule | src/nnpi_drv/nnpiCommandList.cpp:235-271 | the result in every case; a list that is not finalized, in flight or has failed commands or listed errors is refused untouched; only schedule messages are sent, over the schedule ring, and only once all locks are granted in turn; on success each lock is held once and the list is in flight; on failure locks and flags are as before if and only if no copy given back, as determined by the state before, was scheduled |
| CommandList.CmdList.Complete | src/nnpi_drv/nnpiCommandList.cpp:273-276 | ends the flight and keeps the mirror |
| StreamLoader.Stream.Read | src/nnpi_drv/nnpiInference.cpp:820-843 | delivers the next bytes of the data; the memory-buffer stream fills the block while there is data |
| StreamLoader.WholeStreamIff | src/nnpi_drv/nnpiInference.cpp:704-724 | the loop reads a stream to its end if and only if no read before the end delivers less than it could |
| StreamLoader.OneByteAtATime | src/nnpi_drv/nnpiInference.cpp:724 | a callback that delivers single bytes has only its first byte loaded |
| StreamLoader.TransferKeeps | src/nnpi_drv/nnpiInference.cpp:700-721 | a byte moved by the card at any time keeps the loading invariant, since the block still holds what was scheduled |
| StreamLoader.FailKeeps | src/nnpi_drv/nnpiInfContext.cpp:1012-1021 | a failed copy spoils only its own region |
| StreamLoader.CalcOptimalBlockSize | src/nnpi_drv/nnpiInference.cpp:624-634 | the least power-of-two multiple of the page that holds the size, capped at 64 KiB |
| StreamLoader.SizeCheckIff | src/nnpi_drv/nnpiCopyCommand.h:144-147 | the size check is right if and only if the 64-bit sum does not wrap to a size within the device |
| StreamLoader.LastOffsetPasses | src/nnpi_drv/nnpiCopyCommand.h:144-147 | a failing input: one byte at offset 2^64 - 1 passes on any device |
| StreamLoader.ScheduleBlock | src/nnpi_drv/nnpiCopyCommand.h:131-164 | the result in every case, the size check wrapping as in the code; rolls the lock back if the message cannot be sent, and otherwise has asked for exactly this region with the block outstanding; the 16-bit size field never wraps |
| StreamLoader.FillBlock | src/nnpi_drv/nnpiInference.cpp:700-707 | a block is refilled only while no copy from it is outstanding |
| StreamLoader.WaitAndLock | src/nnpi_drv/nnpiInference.cpp:700-702 | the CPU lock waits for the block's copy under any progress of the card, and is refused exactly for a broken block |
| StreamLoader.SubLoadFromStream | src/nnpi_drv/nnpiInference.cpp:636-747 | fails only for a broken context, a failed request, a failed copy, a failed read or data past the device's end; on success, under any completion timing, exactly the bytes up to the first short read have been read, and every one is in the device unless a copy of the last two blocks failed, which the failure record shows; all other bytes are untouched, on errors too |
| StreamLoader.FailureUnnoticed | src/nnpi_drv/nnpiInference.cpp:726-746 | with the last copy outstanding when the loop ends, the card may fail it: the load is a success, with bad bytes and a failure on record |
| StreamLoader.LastCopyFails | src/nnpi_drv/nnpiInference.cpp:726-746 | the smallest case: one byte, whose copy fails, is wrong on the device after a load that counts as done |
| StreamLoader.SubLoad | src/nnpi_drv/nnpiInference.cpp:845-869 | on success without a failed copy the device differs from before exactly in holding the caller's bytes at the offset; null and empty buffers; the reasons for a failure |
| DevNet.FillPage | src/nnpi_drv/nnpiDevNet.cpp:64-83 | a page gets the next ids and, once all are sent, the next configuration bytes; no byte outside the page is written |
| DevNet.DataLayout | src/nnpi_drv/nnpiDevNet.cpp:68-83 | the ids are little-endian words one behind another, and the configuration follows them |
| DevNet.Headers | src/nnpi_drv/nnpiDevNet.cpp:49-50 | each header counts the ids on the pages before it, and says whether there are several pages |
| DevNet.SendCreateOrAdd | src/nnpi_drv/nnpiDevNet.cpp:30-95 | the result in every case; terminates with exactly the pages of the data, or with fewer pages on an error; the ring holds the old queue and the announced pages, less what the card has consumed |
| DevNet.JoinedPages | src/nnpi_drv/nnpiDevNet.cpp:56-95 | the pages joined and cut to the total are the little-endian ids followed by the configuration |
| DevNet.NetworkRoundTrip | src/nnpi_drv/nnpiDevNet.cpp:30-50 | the receiver reads back ids and configuration if and only if there are fewer than 2^24 resources and some data |
| ErrorRecords.ErrorsRoundTrip | src/nnpi_drv/include/nnpi_ipc/ipc_chan_protocol.h:43-54 | walking a serialized error list finds each descriptor and message, in order, and ends at its end |
| ErrorRecords.ErrorLayout | src/nnpi_drv/include/nnpi_ipc/ipc_chan_protocol.h:48-54 | the offset and width of every field of a descriptor, and the message behind it |
| ExecErrorList.ErrorList.Clear | src/nnpi_drv/nnpiExecErrorList.cpp:18-27 | back to an empty list without a buffer |
| ExecErrorList.ErrorList.StartQuery | src/nnpi_drv/nnpiExecErrorList.cpp:29-33 | starts a query without touching what the list holds |
| ExecErrorList.ErrorList.CompleteQuery | src/nnpi_drv/nnpiExecErrorList.cpp:35-49 | the parse loop finds exactly the records of the buffer |
| ExecErrorList.ErrorList.AppendErrorListPacket | src/nnpi_drv/nnpiExecErrorList.cpp:51-76 | field by field: without a query nothing happens; an error report completes the query with its value; a packet is collected, completes the query when the list is whole, or ends it for lack of room |
| ExecErrorList.ErrorList.ClearRequestSucceeded | src/nnpi_drv/nnpiExecErrorList.cpp:78-83 | nothing is left of the list, and each failed copy on it is taken back from its resource |
| ExecErrorList.ErrorList.GetErrorMessage | src/nnpi_drv/nnpiExecErrorList.cpp:85-108 | exactly the message of that error if the buffer has room, an untouched buffer otherwise; no such error or an empty message is refused |
| ExecErrorList.QueryRoundTrip | src/nnpi_drv/nnpiExecErrorList.cpp:18-76 | for any error list of 1 to 65535 bytes and any split into nonempty packets a cleared and started query completes exactly on the last packet and shows the original errors in order |
| ExecErrorList.QueryNeedsClear | src/nnpi_drv/nnpiExecErrorList.cpp:29-76 | for a list in any state: a whole answer is taken in, completing on its last packet, if and only if the list is empty and an old buffer is large enough; then exactly the sent errors are shown |
| ExecErrorList.AnsweredIff | src/nnpi_drv/nnpiExecErrorList.cpp:51-76 | for a list in any state a query completes without an error if and only if some first packets and the old bytes together have the announced length and fit the buffer |
| ExecErrorList.MixedAnswer | src/nnpi_drv/nnpiExecErrorList.cpp:66-69 | an interrupted query and a second one complete a list that holds bytes of both answers |
| ExecErrorList.ReportEnds | src/nnpi_drv/nnpiExecErrorList.cpp:55-56 | in any sequence of packets and error reports the first report that finds the query waiting ends it for good, with its value and the bytes collected so far |
| ExecErrorList.ReportAfterPackets | src/nnpi_drv/nnpiExecErrorList.cpp:73-74 | after any packets that have not completed it, a query of any list is ended by an error report |
| SyncPoints.LessIff | src/nnpi_drv/nnpiInfContext.h:97-103 | a point is smaller exactly when the other is 1 to 65535 ahead among the 2^17 markers |
| SyncPoints.SetIff | src/nnpi_drv/nnpiInfContext.h:90-95 | a completion is taken for the right number if and only if it is 0 to 65535 ahead modulo 2^17 |
| SyncPoints.LessOfNumbers | src/nnpi_drv/nnpiInfContext.h:97-103 | the comparison in terms of unbounded sequence numbers |
| SyncPoints.WindowIff | src/nnpi_drv/nnpiInfContext.h:66-103 | a window of distances around zero is one in which the comparison is always right if and only if it lies within [-65536, 65535] |
| SyncPoints.SyncPoint.Increment | src/nnpi_drv/nnpiInfContext.h:83-88 | the next marker, flipping the wrap flag at zero |
| SyncPoints.SyncPoint.Assign | src/nnpi_drv/nnpiInfContext.h:90-95 | flips the wrap flag when the number goes down |
| SyncPoints.Markers.CreateMarker | src/nnpi_drv/nnpiInfContext.cpp:572-590 | hands out the next number modulo 2^17 and tells the card its low 16 bits; a failed write uses the number up |
| SyncPoints.Markers.SyncDone | src/nnpi_drv/nnpiInfContext.cpp:1114-1116 | the completed marker follows the unbounded count |
| SyncPoints.Markers.SyncFailed | src/nnpi_drv/nnpiInfContext.cpp:1096-1097 | records the failed marker by its low 16 bits |
| SyncPoints.Markers.WaitMarker | src/nnpi_drv/nnpiInfContext.cpp:592-625 | every outcome: success if and only if the marker has been reached, has not failed and the context is not broken; timed out exactly if it has neither been reached nor failed and the context is not broken, or is aborted |
| SyncPoints.Markers.ReachedIff | src/nnpi_drv/nnpiInfContext.cpp:598-603 | a wait is over if and only if the marker has been reached or has failed, or the context is broken and not aborted, within the window |
| IdAllocator.AllocWorks | src/nnpi_drv/nnpiUtils.cpp:42-53 | the id taken is the least free one, and the ranges then hold exactly the others |
| IdAllocator.FreeIff | src/nnpi_drv/nnpiUtils.cpp:58-79 | despite incomplete merging the ranges then hold exactly one id more, if and only if no neighbour is found across the 32-bit wrap |
| IdAllocator.FreeCorrupts | src/nnpi_drv/nnpiUtils.cpp:58-79 | both inputs that corrupt the map: the first id with the last one free, and the last with the first one free |
| IdAllocator.NeverWraps | src/nnpi_drv/nnpiUtils.h:182-186 | with fewer than 2^32 ids that cannot happen |
| IdAllocator.IdAllocator.Alloc | src/nnpi_drv/nnpiUtils.cpp:38-56 | the least id not in use; fails if and only if none is left; allocated and free ids add up to max + 1 |
| IdAllocator.IdAllocator.Free | src/nnpi_drv/nnpiUtils.cpp:58-79 | takes the id back; disjointness and the count survive if and only if nothing wraps |
| CriticalErrors.CriticalError.Report | src/nnpi_drv/nnpiInfContext.cpp:959-985 | which events are recorded over what, and when the handler exits |
| CriticalErrors.CriticalError.Kill | src/nnpi_drv/nnpiInfContext.cpp:936-954 | a killed channel is a card-fatal error whatever was pending |
| CriticalErrors.CriticalError.TakeError | src/nnpi_drv/nnpiInfContext.cpp:804-808 | takes away an execution error and nothing else |
| CriticalErrors.CriticalError.PutBack | src/nnpi_drv/nnpiInfContext.cpp:831-834 | puts the saved error back only where none is pending |
| CriticalErrors.CriticalError.BeginRecover | src/nnpi_drv/nnpiInfContext.cpp:845-858 | refuses card-fatal and aborted contexts |
| CriticalErrors.CriticalError.EndRecover | src/nnpi_drv/nnpiInfContext.cpp:865-868 | restores after a failed query only, and only where no error is pending |
| CriticalErrors.CardFatalIsAbsorbing | src/nnpi_drv/nnpiInfContext.cpp:781-871 | over any interleaving of events, waits and recoveries of any number of threads, a card-fatal context stays so and cannot be recovered |
| CriticalErrors.AbortStays | src/nnpi_drv/nnpiInfContext.cpp:845-855 | an abort request is not replaced, taken or recovered from, over any run of events and threads until the channel ends |
| CriticalErrors.AbortIsTaken | src/nnpi_drv/nnpiInfContext.cpp:969-982 | an abort request replaces whatever error is pending, for good |
| CriticalErrors.FatalEventIff | src/nnpi_drv/nnpiInfContext.cpp:959-968 | a card-fatal driver event makes the context card-fatal if and only if no other error is pending; no event is handled after it |
| CriticalErrors.FatalEventIsMissed | src/nnpi_drv/nnpiInfContext.cpp:959-968 | a run in which a card-fatal event finds an execution error pending and is not recorded |
| CriticalErrors.PendingLostIff | src/nnpi_drv/nnpiInfContext.cpp:820-834 | a pending error goes away if and only if a recovery succeeds or the query for an execution error cannot be sent |
| CriticalErrors.ErrorIsDropped | src/nnpi_drv/nnpiInfContext.cpp:804-834 | a run in which an execution error is taken, its query cannot be sent, and the context counts as sound |
| CriticalErrors.ErrorsAreKept | src/nnpi_drv/nnpiInfContext.cpp:781-871 | over any run without these two events a context with an error is broken whenever no query is in progress |
| CriticalErrors.RestoreKeepsNewer | src/nnpi_drv/nnpiInfContext.cpp:831-834 | restoring never replaces an error that has come in since |

## Left out

- RingBuffer.Ring.LockFreeSpace: the 32-bit wrap of `tail + size`, which needs a ring of 2 GiB or more, is not modelled.
- RingBuffer.Ring.Push: the code does not check that the ring died while it waited; the model pushes nothing then, where the code would write through a null pointer.
- RingBuffer.Ring.Pop: states what is stored for a destination as large as the ring; a smaller one would be overrun when `stored` exceeds it.
- HostResource.HostRes.UpdateCopyFailCount: the counter is unbounded, not an atomic int.
- CopyCommands.CopyCommand.PreScheduleOn: the class has the operation without other threads; `LockLedger` takes its steps apart.
- CopySchedule.Schedule: the outcome of waiting for room to schedule is one more nondeterministic test of the context.
- CommandList.CmdList.Finalize: asking to batch a list of which something is no longer edited is excluded; the card's reply is a parameter, and the codes it is mapped from are not modelled.
- CommandList.CmdList.Schedule: operations on one list are sequential; an overwrite by another thread between the check and the sending is not modelled. The outcome of the wait for room to schedule is a parameter.
- CommandList.CmdList.Complete: a completion is modelled as a call between other operations.
- StreamLoader.SubLoadFromStream: offset and resource size are at most 2^64 - 2^16, so that the check of `SizeCheckIff` is right; no other thread clears the error list meanwhile; reasons for a failed creation or mapping of a block are not told apart; the order of the requests on the channel is not stated.
- StreamLoader.SubLoad: the same bounds on offset and resource size.
- StreamLoader.ScheduleBlock: the outcome of waiting for room to schedule is one more nondeterministic test of the context.
- DevNet.SendCreateOrAdd: ends when the pages are sent; the card's reply is not part of this model.
- ExecErrorList.ErrorList.AppendErrorListPacket: a list that the card completes is assumed to consist of whole records, since the code would read past its end otherwise.
- SyncPoints.Markers.WaitMarker: failed markers are known by their low 16 bits only, as in the code.
- IdAllocator.IdAllocator.Alloc: the count of allocated ids is unbounded; the code's 32-bit count wraps only when all 2^32 ids are in use.
- CriticalErrors.CriticalError.Report: the other fields of an event report are not kept; an error is its event code.
- Device, ioctl, mapping, file-descriptor and thread-creation code: input and output with nothing to prove.
- Error-code translation, handle maps, the object database, peer-to-peer pairing, network properties, tracing and logging: simple members or messages to a device whose behaviour is not in the repository.
- Reference counting, memory lifetime and teardown.
